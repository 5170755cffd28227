/** The numbers of the journal: given out before the commit that shows them, and what a reader goes by. */
module WriterNumbers {
  import opened Journal
  import opened Writers
  import opened WritersProofs

  /** A number some session's entry has, and its commit has yet to show. */
  ghost predicate InFlight(s: State, n: nat) {
    exists w :: w in s.writers && s.writers[w].Working? && n in s.writers[w].numbers
  }

  /** The committed entries: the journal in the order of commit, with numbers and strays. */
  datatype Published = Published(journal: seq<Entry>, numbers: seq<nat>, strays: seq<bool>) {
    predicate Valid() {
      |journal| == |numbers| == |strays|
    }

    /** Of two entries about one row the earlier has the lower number, unless both found it gone. */
    ghost predicate InOrder()
      requires Valid()
    {
      forall i, j :: 0 <= i < j < |numbers| && journal[i].entity == journal[j].entity ==>
        numbers[i] < numbers[j] || (strays[i] && strays[j])
    }

    /** A session's numbers: given out in order, not published, after what is published about its rows. */
    ghost predicate Before(writer: Writer, next: nat)
      requires Valid() && writer.Working?
    {
      && |writer.numbers| <= |writer.writes|
      && (forall i, j :: 0 <= i < j < |writer.numbers| ==> writer.numbers[i] < writer.numbers[j])
      && (forall k :: 0 <= k < |writer.numbers| ==> writer.numbers[k] < next && writer.numbers[k] !in numbers)
      && (forall j, k | 0 <= j < |numbers| && 0 <= k < |writer.numbers| ::
            journal[j].entity == writer.writes[k].entity ==>
              numbers[j] < writer.numbers[k] || (strays[j] && writer.strayed))
    }
  }

  function PublishedIn(s: State): Published {
    Published(s.db.journal, s.numbers, s.strays)
  }

  ghost predicate Numbered(s: State) {
    && PublishedIn(s).Valid() && PublishedIn(s).InOrder()
    && (forall n :: n in s.numbers ==> n < s.next)
    && (forall i, j :: 0 <= i < j < |s.numbers| ==> s.numbers[i] != s.numbers[j])
    && (forall w :: w in s.writers && s.writers[w].Working? ==> PublishedIn(s).Before(s.writers[w], s.next))
    && (forall v, w, n | v in s.writers && w in s.writers && v != w && s.writers[v].Working? && s.writers[w].Working? ::
          n in s.writers[v].numbers ==> n !in s.writers[w].numbers)
  }

  /** What is published once a session's entries follow. */
  ghost predicate Follows(p: Published, writer: Writer, q: Published)
    requires writer.Working?
  {
    && p.Valid() && q.Valid() && |writer.numbers| == |writer.writes|
    && |q.journal| == |p.journal| + |writer.writes| && q.journal[..|p.journal|] == p.journal
    && q.numbers == p.numbers + writer.numbers && q.strays == p.strays + seq(|writer.writes|, i => writer.strayed)
    && forall k :: 0 <= k < |writer.writes| ==> q.journal[|p.journal| + k].entity == writer.writes[k].entity
  }

  lemma PublishedInOrder(p: Published, writer: Writer, next: nat, q: Published)
    requires writer.Working? && Follows(p, writer, q) && p.InOrder() && p.Before(writer, next)
    ensures q.InOrder()
  {
    forall i, j | 0 <= i < j < |q.numbers| && q.journal[i].entity == q.journal[j].entity
      ensures q.numbers[i] < q.numbers[j] || (q.strays[i] && q.strays[j])
    {
      assert i < |p.journal| ==> q.journal[i] == q.journal[..|p.journal|][i];
      assert j < |p.journal| ==> q.journal[j] == q.journal[..|p.journal|][j];
    }
  }

  lemma OthersStayBefore(p: Published, writer: Writer, next: nat, q: Published, other: Writer)
    requires writer.Working? && Follows(p, writer, q) && other.Working? && p.Before(other, next)
    requires forall n :: n in other.numbers ==> n !in writer.numbers
    requires forall j, k | 0 <= j < |writer.writes| && 0 <= k < |other.numbers| ::
               writer.writes[j].entity == other.writes[k].entity ==> writer.strayed && other.strayed
    ensures q.Before(other, next)
  {
    forall j, k | 0 <= j < |q.numbers| && 0 <= k < |other.numbers| && q.journal[j].entity == other.writes[k].entity
      ensures q.numbers[j] < other.numbers[k] || (q.strays[j] && other.strayed)
    {
      assert j < |p.journal| ==> q.journal[j] == q.journal[..|p.journal|][j];
      assert j >= |p.journal| ==> q.journal[j].entity == writer.writes[j - |p.journal|].entity;
    }
  }

  lemma NumbersOfFlushed(s: State, w: nat)
    requires Sure(s) && w in s.writers && s.writers[w].Working?
    ensures |s.writers[w].numbers| <= s.writers[w].flushed <= |s.writers[w].writes|
  {
    assert Sound(s.db.tables, s.writers[w]);
  }

  lemma CommitKeepsBefore(s: State, w: nat, v: nat, q: Published)
    requires Inv(s) && Numbered(s) && CanCommit(s, w) && v in s.writers && v != w && s.writers[v].Working?
    requires Follows(PublishedIn(s), s.writers[w], q)
    ensures q.Before(s.writers[v], s.next)
  {
    NumbersOfFlushed(s, v);
    var writer, other := s.writers[w], s.writers[v];
    hide Told, Known, Sure, Shaped, Follows;
    forall j, k | 0 <= j < |writer.writes| && 0 <= k < |other.numbers|
                  && writer.writes[j].entity == other.writes[k].entity
      ensures writer.strayed && other.strayed
    {
      if !(writer.strayed && other.strayed) {
        RowsDiffer(s, w, v, j, k);
      }
    }
    OthersStayBefore(PublishedIn(s), writer, s.next, q, other);
  }

  lemma CommitKeepsNumbered(s: State, w: nat, t: State)
    requires Inv(s) && Numbered(s) && CanCommit(s, w) && t == Committed(s, w)
    ensures Numbered(t)
  {
    hide Inv;
    var writer, p, q := s.writers[w], PublishedIn(s), PublishedIn(t);
    JournalAfterCommit(s.db, writer.writes);
    assert Follows(p, writer, q);
    PublishedInOrder(p, writer, s.next, q);
    assert p.Before(writer, s.next);
    hide AppendAll, Shaped, Follows, Published.InOrder, Published.Before;
    forall v | v in t.writers && t.writers[v].Working? ensures q.Before(t.writers[v], t.next) {
      CommitKeepsBefore(s, w, v, q);
    }
    forall i, j | 0 <= i < j < |t.numbers| ensures t.numbers[i] != t.numbers[j] {
      NumbersStayApart(p, writer, s.next, i, j);
    }
  }

  lemma NumbersStayApart(p: Published, writer: Writer, next: nat, i: nat, j: nat)
    requires p.Valid() && writer.Working? && p.Before(writer, next) && i < j < |p.numbers| + |writer.numbers|
    requires forall i, j :: 0 <= i < j < |p.numbers| ==> p.numbers[i] != p.numbers[j]
    ensures (p.numbers + writer.numbers)[i] != (p.numbers + writer.numbers)[j]
  {
    assert i < |p.numbers| ==> p.numbers[i] in p.numbers;
  }

  lemma NewestIsBefore(p: Published, writer: Writer, next: nat)
    requires p.Valid() && writer.Working? && p.Before(writer, next) && forall n :: n in p.numbers ==> n < next
    ensures p.Before(writer, next + 1) && next !in writer.numbers
    ensures |writer.numbers| < |writer.writes| ==>
              p.Before(writer.(numbers := writer.numbers + [next]), next + 1)
  {
    assert forall j :: 0 <= j < |p.numbers| ==> p.numbers[j] in p.numbers;
  }

  lemma NumberKeepsNumbered(rules: Rules, s: State, w: nat, t: State)
    requires Inv(s) && Numbered(s) && Next(rules, s, Number(w), t)
    ensures Numbered(t)
  {
    NumbersOfFlushed(s, w);
    hide Inv, Published.InOrder, Shaped;
    forall v | v in s.writers && s.writers[v].Working?
      ensures PublishedIn(s).Before(s.writers[v], t.next) && s.next !in s.writers[v].numbers
    {
      NewestIsBefore(PublishedIn(s), s.writers[v], s.next);
    }
    NewestIsBefore(PublishedIn(s), s.writers[w], s.next);
    hide Published.Before;
  }

  /** A step that numbers nothing. */
  lemma NoMoreNumbers(s: State, w: nat, writer: Writer, t: State)
    requires Numbered(s) && t == s.(writers := s.writers[w := writer])
    requires writer.Working? ==> PublishedIn(s).Before(writer, s.next)
    requires writer.Working? && writer.numbers != [] ==>
               w in s.writers && s.writers[w].Working? && writer.numbers == s.writers[w].numbers
    ensures Numbered(t)
  {
    hide Published.InOrder, Published.Before;
  }

  lemma FlushKeepsNumbered(rules: Rules, s: State, w: nat, t: State)
    requires Inv(s) && Numbered(s) && Next(rules, s, Flush(w), t)
    ensures Numbered(t)
  {
    assert !s.writers[w].strayed by {
      assert Sound(s.db.tables, s.writers[w]);
    }
    assert PublishedIn(s).Before(s.writers[w], s.next);
    hide Inv, Blocked, Storable, Gone, Mentioned, Shaped, Locks, Published.InOrder;
    StrayedComesBefore(PublishedIn(s), s.writers[w], t.writers[w], s.next);
    hide Published.Before;
    NoMoreNumbers(s, w, t.writers[w], t);
  }

  /** Straying takes nothing from what is known of a session's numbers. */
  lemma StrayedComesBefore(p: Published, writer: Writer, after: Writer, next: nat)
    requires p.Valid() && writer.Working? && after.Working? && p.Before(writer, next) && !writer.strayed
    requires after.numbers == writer.numbers && after.writes == writer.writes
    ensures p.Before(after, next)
  {}

  lemma StepKeepsNumbered(rules: Rules, s: State, step: Step, t: State)
    requires Inv(s) && Numbered(s) && Next(rules, s, step, t)
    ensures Numbered(t)
  {
    hide Inv, Numbered, Decided, Storable, Blocked, Shaped, Locks, Gone, Mentioned;
    match step
    case Commit(w) => CommitKeepsNumbered(s, w, t);
    case Number(w) => NumberKeepsNumbered(rules, s, w, t);
    case Flush(w) => FlushKeepsNumbered(rules, s, w, t);
    case Decide(w) =>
      assert PublishedIn(s).Valid() by {
        ItIsValid(s);
      }
      NoMoreNumbers(s, w, t.writers[w], t);
    case _ => NoMoreNumbers(s, step.w, t.writers[step.w], t);
  }

  lemma ItIsValid(s: State)
    requires Numbered(s)
    ensures PublishedIn(s).Valid()
  {}

  lemma {:induction false} AlwaysNumbered(rules: Rules, states: seq<State>, steps: seq<Step>, i: nat)
    requires Run(rules, states, steps) && rules.locks && i < |states|
    ensures Numbered(states[i])
  {
    hide Inv, Next;
    if i > 0 {
      AlwaysNumbered(rules, states, steps, i - 1);
      ReachableInv(rules, states, steps, i - 1);
      StepKeepsNumbered(rules, states[i - 1], steps[i - 1], states[i]);
    }
  }

  /**
   * Read by number, what happened to a Thing or an edge comes in the order in which it happened; only
   * two entries of an edge found gone may come the other way round.
   */
  lemma HistoryIsInOrder(rules: Rules, states: seq<State>, steps: seq<Step>, i: nat, j: nat, k: nat)
    requires Run(rules, states, steps) && rules.locks && i < |states| && j < k < |states[i].db.journal|
    requires states[i].db.journal[j].entity == states[i].db.journal[k].entity
    ensures var s := states[i];
            && |s.numbers| == |s.strays| == |s.db.journal|
            && (s.numbers[j] < s.numbers[k] || (s.strays[j] && s.strays[k]))
  {
    AlwaysNumbered(rules, states, steps, i);
  }

  lemma StepNumbers(rules: Rules, s: State, step: Step, t: State, n: nat)
    requires Next(rules, s, step, t)
    ensures s.next <= t.next && (n in s.numbers ==> n in t.numbers)
    ensures n in t.numbers || InFlight(t, n) ==> n in s.numbers || InFlight(s, n) || n >= s.next
  {
    hide AppendAll, Decided, Storable, Blocked, Shaped, Locks, Gone, Mentioned;
  }

  lemma {:induction false} RunNumbers(rules: Rules, states: seq<State>, steps: seq<Step>, i: nat, j: nat, n: nat)
    requires Run(rules, states, steps) && i <= j < |states|
    ensures states[i].next <= states[j].next && (n in states[i].numbers ==> n in states[j].numbers)
    ensures n in states[j].numbers || InFlight(states[j], n)
            ==> n in states[i].numbers || InFlight(states[i], n) || n >= states[i].next
    decreases j
  {
    hide Next, InFlight;
    if i < j {
      RunNumbers(rules, states, steps, i, j - 1, n);
      StepNumbers(rules, states[j - 1], steps[j - 1], states[j], n);
    }
  }

  /**
   * Whoever has read the journal up to a number and goes on from it misses exactly what was in
   * flight under a number no higher as they read, if it is ever committed.
   */
  lemma MissedIff(rules: Rules, states: seq<State>, steps: seq<Step>, i: nat, j: nat, last: nat, n: nat)
    requires Run(rules, states, steps) && rules.locks && i <= j < |states| && last in states[i].numbers
    requires n <= last && n in states[j].numbers
    ensures n !in states[i].numbers <==> InFlight(states[i], n)
  {
    AlwaysNumbered(rules, states, steps, i);
    RunNumbers(rules, states, steps, i, j, n);
  }
}
