/** The journal as it is read, by number, which is not the order in which its entries were committed. */
module ReadByNumber {
  import opened Prelude
  import opened Journal
  import opened Writers
  import opened WritersProofs
  import opened WriterNumbers
  import WriterRuns

  /** A row of the journal table, and whether its delete matched no row. */
  datatype Row = Row(entry: Entry, strayed: bool)

  function RowAt(p: Published, k: nat): Row
    requires p.Valid() && k < |p.journal|
  {
    Row(p.journal[k].(id := p.numbers[k]), p.strays[k])
  }

  function Inserted(row: Row, rows: seq<Row>): seq<Row> {
    if rows == [] || rows[|rows| - 1].entry.id < row.entry.id then rows + [row]
    else Inserted(row, rows[..|rows| - 1]) + [rows[|rows| - 1]]
  }

  /** ORDER BY id. */
  function ByNumber(p: Published, n: nat): seq<Row>
    requires p.Valid() && n <= |p.journal|
  {
    if n == 0 then [] else Inserted(RowAt(p, n - 1), ByNumber(p, n - 1))
  }

  function Entries(rows: seq<Row>): seq<Entry> {
    seq(|rows|, k requires 0 <= k < |rows| => rows[k].entry)
  }

  /** An entry over the tables just before it. */
  ghost predicate TrueTo(t: Tables, row: Row) {
    && WellFormed(row.entry)
    && if row.strayed then row.entry.operation == Unrelate && StateOf(t, row.entry.entity) == None
       else row.entry.before == StateOf(t, row.entry.entity)
  }

  function TablesOf(rows: seq<Row>): Tables {
    if rows == [] then NoTables else PutOne(TablesOf(rows[..|rows| - 1]), rows[|rows| - 1].entry)
  }

  ghost predicate Tells(rows: seq<Row>) {
    rows != [] ==> Tells(rows[..|rows| - 1]) && TrueTo(TablesOf(rows[..|rows| - 1]), rows[|rows| - 1])
  }

  /** Entries of other rows, and two of an edge found gone, may change places. */
  ghost predicate Exchange(d: Row, e: Row) {
    d.entry.entity != e.entry.entity || (d.strayed && e.strayed)
  }

  lemma TrueEarlier(t: Tables, d: Row, e: Row)
    requires TrueTo(t, d) && TrueTo(PutOne(t, d.entry), e) && Exchange(d, e)
    ensures TrueTo(t, e) && TrueTo(PutOne(t, e.entry), d)
    ensures PutOne(PutOne(t, d.entry), e.entry) == PutOne(PutOne(t, e.entry), d.entry)
  {
    if d.entry.entity != e.entry.entity {
      PutsCommute(t, d.entry, e.entry);
    }
  }

  /** Told after the others, it may as well be told before those it may change places with. */
  lemma {:induction false} InsertedTells(row: Row, rows: seq<Row>)
    requires Tells(rows) && TrueTo(TablesOf(rows), row)
    requires forall r :: r in rows && r.entry.id >= row.entry.id ==> Exchange(r, row)
    ensures Tells(Inserted(row, rows)) && TablesOf(Inserted(row, rows)) == PutOne(TablesOf(rows), row.entry)
  {
    hide TrueTo, Exchange, PutOne;
    if rows == [] || rows[|rows| - 1].entry.id < row.entry.id {
      assert (rows + [row])[..|rows|] == rows;
    } else {
      var front, last := rows[..|rows| - 1], rows[|rows| - 1];
      TrueEarlier(TablesOf(front), last, row);
      InsertedTells(row, front);
      var longer := Inserted(row, front) + [last];
      assert longer[..|longer| - 1] == Inserted(row, front);
    }
  }

  lemma {:induction false} InsertedHolds(row: Row, rows: seq<Row>)
    ensures |Inserted(row, rows)| == |rows| + 1 && forall r :: r in Inserted(row, rows) <==> r in rows || r == row
  {
    if rows != [] {
      InsertedHolds(row, rows[..|rows| - 1]);
    }
  }

  ghost predicate Ascending(rows: seq<Row>) {
    forall i, j :: 0 <= i < j < |rows| ==> rows[i].entry.id < rows[j].entry.id
  }

  lemma {:induction false} InsertedAscends(row: Row, rows: seq<Row>)
    requires Ascending(rows) && forall r :: r in rows ==> r.entry.id != row.entry.id
    ensures Ascending(Inserted(row, rows))
  {
    if rows != [] && rows[|rows| - 1].entry.id >= row.entry.id {
      var front, last := rows[..|rows| - 1], rows[|rows| - 1];
      InsertedAscends(row, front);
      InsertedHolds(row, front);
      assert forall r :: r in Inserted(row, front) ==> r.entry.id < last.entry.id;
    }
  }

  lemma {:induction false} ByNumberHolds(p: Published, n: nat)
    requires p.Valid() && n <= |p.journal|
    ensures |ByNumber(p, n)| == n && forall r :: r in ByNumber(p, n) <==> exists k :: 0 <= k < n && r == RowAt(p, k)
  {
    hide RowAt, Inserted;
    if n > 0 {
      var row, rows := RowAt(p, n - 1), ByNumber(p, n - 1);
      ByNumberHolds(p, n - 1);
      InsertedHolds(row, rows);
      hide ByNumber;
      forall r ensures r in Inserted(row, rows) <==> exists k :: 0 <= k < n && r == RowAt(p, k) {
        if r in rows {
          var k :| 0 <= k < n - 1 && r == RowAt(p, k);
          assert 0 <= k < n && r == RowAt(p, k);
        } else if k :| 0 <= k < n && r == RowAt(p, k) {
          assert k == n - 1;
        }
      }
    }
  }

  lemma {:induction false} ByNumberAscends(p: Published, n: nat)
    requires p.Valid() && n <= |p.journal| && forall i, j :: 0 <= i < j < |p.numbers| ==> p.numbers[i] != p.numbers[j]
    ensures Ascending(ByNumber(p, n))
  {
    if n > 0 {
      ByNumberAscends(p, n - 1);
      ByNumberHolds(p, n - 1);
      InsertedAscends(RowAt(p, n - 1), ByNumber(p, n - 1));
    }
  }

  lemma RowIsTrue(db: Db, p: Published, n: nat)
    requires Told(db, p.strays) && p.journal == db.journal && p.Valid() && n < |p.journal|
    ensures TrueTo(Replay(p.journal[..n]), RowAt(p, n))
  {
    assert if p.strays[n] then Missed(p.journal, n) else Honest(p.journal, n);
  }

  lemma MayChangePlaces(p: Published, n: nat, r: Row)
    requires p.Valid() && p.InOrder() && n < |p.journal| && r in ByNumber(p, n) && r.entry.id >= p.numbers[n]
    requires forall i, j :: 0 <= i < j < |p.numbers| ==> p.numbers[i] != p.numbers[j]
    ensures Exchange(r, RowAt(p, n))
  {
    ByNumberHolds(p, n);
    var k :| 0 <= k < n && r == RowAt(p, k);
  }

  lemma {:induction false} ByNumberTells(db: Db, p: Published, n: nat)
    requires Told(db, p.strays) && p.journal == db.journal && p.Valid() && p.InOrder() && n <= |p.journal|
    requires forall i, j :: 0 <= i < j < |p.numbers| ==> p.numbers[i] != p.numbers[j]
    ensures Tells(ByNumber(p, n)) && TablesOf(ByNumber(p, n)) == Replay(p.journal[..n])
  {
    hide TrueTo, Exchange, Tells, Told, Published.InOrder, Inserted;
    if n == 0 {
      NothingTells();
    } else {
      ByNumberTells(db, p, n - 1);
      RowIsTrue(db, p, n - 1);
      var row, rows := RowAt(p, n - 1), ByNumber(p, n - 1);
      forall r | r in rows && r.entry.id >= row.entry.id ensures Exchange(r, row) {
        MayChangePlaces(p, n - 1, r);
      }
      InsertedTells(row, rows);
      OneMoreReplayed(p.journal, row.entry, n);
    }
  }

  lemma NothingTells()
    ensures Tells([]) && TablesOf([]) == Replay([])
  {}

  lemma OneMoreReplayed(journal: seq<Entry>, e: Entry, n: nat)
    requires 0 < n <= |journal| && e == journal[n - 1].(id := e.id)
    ensures Replay(journal[..n]) == PutOne(Replay(journal[..n - 1]), e)
  {
    assert journal[..n][..n - 1] == journal[..n - 1];
  }

  lemma HonestIffBefore(journal: seq<Entry>, e: Entry, k: nat)
    requires k < |journal|
    ensures Honest(journal + [e], k) <==> Honest(journal, k)
  {
    assert (journal + [e])[..k] == journal[..k] && (journal + [e])[..k + 1] == journal[..k + 1];
  }

  lemma LastHonestIff(journal: seq<Entry>, row: Row)
    requires TrueTo(Replay(journal), row)
    ensures Replay(journal + [row.entry]) == PutOne(Replay(journal), row.entry)
    ensures Honest(journal + [row.entry], |journal|) <==> !row.strayed
  {
    var read := journal + [row.entry];
    assert read[..|journal|] == journal && read[..|journal| + 1] == read;
    ReplayLast(journal, row.entry);
    hide Replay;
  }

  lemma {:induction false} ReplayOfEntries(rows: seq<Row>)
    requires Tells(rows)
    ensures Replay(Entries(rows)) == TablesOf(rows)
    ensures forall k :: 0 <= k < |rows| ==> (Honest(Entries(rows), k) <==> !rows[k].strayed)
  {
    if rows != [] {
      var n := |rows| - 1;
      var front := Entries(rows[..n]);
      ReplayOfEntries(rows[..n]);
      assert Entries(rows) == front + [rows[n].entry];
      LastHonestIff(front, rows[n]);
      hide Honest, Replay, TrueTo;
      forall k | 0 <= k < n ensures Honest(Entries(rows), k) <==> !rows[k].strayed {
        HonestIffBefore(front, rows[n].entry, k);
      }
    }
  }

  /**
   * In every committed state of every interleaving the journal, read by number, holds each entry once
   * and replays to the tables; and an entry's before and after are its entity's state just before and
   * after it in that order, exactly unless it tells of a delete that matched no row.
   */
  lemma ReplaysByNumber(rules: Rules, states: seq<State>, steps: seq<Step>, i: nat)
    requires Run(rules, states, steps) && rules.locks && i < |states|
    ensures var s := states[i];
            && PublishedIn(s).Valid()
            && var p, rows := PublishedIn(s), ByNumber(PublishedIn(s), |s.db.journal|);
               && |rows| == |s.db.journal| && Ascending(rows)
               && (forall row :: row in rows <==> exists k :: 0 <= k < |rows| && row == RowAt(p, k))
               && Replay(Entries(rows)) == s.db.tables
               && forall k :: 0 <= k < |rows| ==> (Honest(Entries(rows), k) <==> !rows[k].strayed)
  {
    var s := states[i];
    ReachableInv(rules, states, steps, i);
    AlwaysNumbered(rules, states, steps, i);
    var p, n := PublishedIn(s), |s.db.journal|;
    ByNumberHolds(p, n);
    ByNumberAscends(p, n);
    ByNumberTells(s.db, p, n);
    ReplayOfEntries(ByNumber(p, n));
    assert s.db.journal[..n] == s.db.journal;
  }

  /**
   * So the journal is honest throughout if and only if no unrelate was committed whose edge was gone;
   * none is where the database layer refuses a delete that matched no row.
   */
  lemma HonestThroughoutIff(rules: Rules, states: seq<State>, steps: seq<Step>, i: nat)
    requires Run(rules, states, steps) && rules.locks && i < |states|
    ensures PublishedIn(states[i]).Valid()
    ensures var read := Entries(ByNumber(PublishedIn(states[i]), |states[i].db.journal|));
            (forall k :: 0 <= k < |read| ==> Honest(read, k))
            <==> !exists j :: 0 <= j < i && WriterRuns.Strays(rules, states, steps, j)
    ensures rules.refuses ==> !exists j :: 0 <= j < i && WriterRuns.Strays(rules, states, steps, j)
  {
    ReplaysByNumber(rules, states, steps, i);
    WriterRuns.StraysIff(rules, states, steps, i);
    if rules.refuses {
      WriterRuns.RefusingNoneStrays(rules, states, steps, i);
    }
    hide Honest, WriterRuns.Strays, ByNumber, Next;
    var s, p := states[i], PublishedIn(states[i]);
    var rows := ByNumber(p, |s.db.journal|);
    if true in s.strays {
      var k :| 0 <= k < |s.strays| && s.strays[k];
      assert RowAt(p, k) in rows;
      var m :| 0 <= m < |rows| && rows[m] == RowAt(p, k);
      assert !Honest(Entries(rows), m);
    }
    forall m | 0 <= m < |rows| && rows[m].strayed ensures true in s.strays {
      assert rows[m] in rows;
    }
  }
}
