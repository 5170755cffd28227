/** ORDER BY: the rows of a set in an order, each once. */
module Ordering {
  import opened Prelude

  ghost predicate TotalPreorder<T(!new)>(le: (T, T) -> bool) {
    && (forall a, b :: le(a, b) || le(b, a))
    && (forall a, b, c :: le(a, b) && le(b, c) ==> le(a, c))
  }

  predicate SortedBy<T>(s: seq<T>, le: (T, T) -> bool) {
    forall i, j :: 0 <= i < j < |s| ==> le(s[i], s[j])
  }

  method InsertInOrder<T(!new)>(s: seq<T>, x: T, le: (T, T) -> bool) returns (t: seq<T>)
    requires TotalPreorder(le) && SortedBy(s, le)
    ensures SortedBy(t, le)
    ensures exists k :: 0 <= k <= |s| && t == s[..k] + [x] + s[k..]
  {
    var k := 0;
    while k < |s| && le(s[k], x)
      invariant 0 <= k <= |s|
      invariant forall i :: 0 <= i < k ==> le(s[i], x)
    {
      k := k + 1;
    }
    t := s[..k] + [x] + s[k..];
    forall j | k <= j < |s| ensures le(x, s[j]) {
      assert le(x, s[k]);
    }
  }

  method OrderBy<T(==,!new)>(rows: set<T>, le: (T, T) -> bool) returns (s: seq<T>)
    requires TotalPreorder(le)
    ensures SortedBy(s, le) && NoDuplicates(s) && Elements(s) == rows
  {
    s := [];
    var rest := rows;
    while rest != {}
      invariant rest <= rows && Elements(s) == rows - rest
      invariant SortedBy(s, le) && NoDuplicates(s)
    {
      var x :| x in rest;
      ghost var before := s;
      s := InsertInOrder(s, x, le);
      InsertedContents(before, x, s);
      rest := rest - {x};
    }
  }

  lemma InsertedContents<T>(s: seq<T>, x: T, t: seq<T>)
    requires exists k :: 0 <= k <= |s| && t == s[..k] + [x] + s[k..]
    requires NoDuplicates(s) && x !in Elements(s)
    ensures Elements(t) == Elements(s) + {x} && NoDuplicates(t)
  {
    var k :| 0 <= k <= |s| && t == s[..k] + [x] + s[k..];
    forall i | 0 <= i < |s| ensures s[i] != x {
      assert s[i] in Elements(s);
    }
    forall i | 0 <= i < |s| ensures s[i] in t {
      assert s[i] == if i < k then t[i] else t[i + 1];
    }
    assert t[k] == x;
  }

  // --- Text -------------------------------------------------------------------

  /** Strings compare by code point. */
  predicate TextLe(a: string, b: string) {
    a == "" || (b != "" && (a[0] < b[0] || (a[0] == b[0] && TextLe(a[1..], b[1..]))))
  }

  /** Up to where they first differ, if they do, the texts are the same; there the lower code point comes first. */
  lemma {:induction false} TextLeIff(a: string, b: string)
    ensures TextLe(a, b) <==> exists n :: 0 <= n <= |a| && n <= |b| && a[..n] == b[..n]
                                          && (n == |a| || (n < |b| && a[n] < b[n]))
  {
    if a == "" {
      assert a[..0] == b[..0];
    } else if b != "" {
      TextLeIff(a[1..], b[1..]);
      if n :| 0 <= n <= |a| && n <= |b| && a[..n] == b[..n] && (n == |a| || (n < |b| && a[n] < b[n])) && n > 0 {
        assert a[..n][0] == a[0] && b[..n][0] == b[0];
        assert a[1..][..n - 1] == a[..n][1..] && b[1..][..n - 1] == b[..n][1..];
      }
      if a[0] == b[0] && TextLe(a[1..], b[1..]) {
        var n :| 0 <= n <= |a| - 1 && n <= |b| - 1 && a[1..][..n] == b[1..][..n]
          && (n == |a| - 1 || (n < |b| - 1 && a[1..][n] < b[1..][n]));
        assert a[..n + 1] == [a[0]] + a[1..][..n] && b[..n + 1] == [b[0]] + b[1..][..n];
      } else if a[0] < b[0] {
        assert a[..0] == b[..0];
      }
    }
  }

  lemma {:induction false} TextTotal(a: string, b: string)
    ensures TextLe(a, b) || TextLe(b, a)
  {
    if a != "" && b != "" && a[0] == b[0] {
      TextTotal(a[1..], b[1..]);
    }
  }

  lemma {:induction false} TextTransitive(a: string, b: string, c: string)
    requires TextLe(a, b) && TextLe(b, c)
    ensures TextLe(a, c)
  {
    if a != "" && a[0] == b[0] == c[0] {
      TextTransitive(a[1..], b[1..], c[1..]);
    }
  }
}
