/** `str.strip()`: white space as Python has it, off both ends. */
module Text {

  predicate IsSpace(c: char) {
    var n := c as int;
    || 0x09 <= n <= 0x0D || 0x1C <= n <= 0x20 || n == 0x85 || n == 0xA0 || n == 0x1680
    || 0x2000 <= n <= 0x200A || n == 0x2028 || n == 0x2029 || n == 0x202F || n == 0x205F || n == 0x3000
  }

  function StripLeft(s: string): (t: string)
    ensures |t| <= |s| && t == s[|s| - |t|..]
    ensures t != "" ==> !IsSpace(t[0])
    ensures forall i :: 0 <= i < |s| - |t| ==> IsSpace(s[i])
  {
    if s != "" && IsSpace(s[0]) then StripLeft(s[1..]) else s
  }

  function StripRight(s: string): (t: string)
    ensures t <= s && (t != "" ==> !IsSpace(t[|t| - 1]))
    ensures forall i :: |t| <= i < |s| ==> IsSpace(s[i])
  {
    if s != "" && IsSpace(s[|s| - 1]) then StripRight(s[..|s| - 1]) else s
  }

  function Strip(s: string): (t: string)
    ensures t != "" ==> !IsSpace(t[0]) && !IsSpace(t[|t| - 1])
  {
    StripRight(StripLeft(s))
  }

  /** Only white space strips to nothing. */
  lemma BlankIff(s: string)
    ensures Strip(s) == "" <==> forall i :: 0 <= i < |s| ==> IsSpace(s[i])
  {
    var left := StripLeft(s);
    assert left != "" ==> Strip(s) != "";
    assert left != "" ==> s[|s| - |left|] == left[0];
  }

  /** What was stripped has nothing left to strip. */
  lemma StripTwice(s: string)
    ensures Strip(Strip(s)) == Strip(s)
  {}
}
