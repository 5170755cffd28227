/**
 * The one-off pass of backend/service.py that leaves one EvidenceFor edge per pair, inside the
 * transaction of the migration that calls it.
 */
module Collapse {
  import opened Prelude
  import opened Paths
  import opened Ordering
  import opened Graph
  import opened Journal
  import opened Service

  datatype Row = Row(source: Id, target: Id, created: Time, id: Id)

  type Pairs = set<(Id, Id)>

  predicate PairThenAge(a: Row, b: Row) {
    a.source < b.source || (a.source == b.source
    && (a.target < b.target || (a.target == b.target
    && (a.created < b.created || (a.created == b.created && a.id <= b.id)))))
  }

  function EvidenceRows(edges: Relationships): set<Row> {
    set id | id in edges && edges[id].kind == EvidenceFor :: RowOf(edges, id)
  }

  function RowOf(edges: Relationships, id: Id): Row
    requires id in edges
  {
    Row(edges[id].source, edges[id].target, edges[id].created, id)
  }

  /** The evidence edges as the pass reads them. */
  ghost predicate Listed(edges: Relationships, rows: seq<Row>) {
    SortedBy(rows, PairThenAge) && NoDuplicates(rows) && Elements(rows) == EvidenceRows(edges)
  }

  function PairsOf(rows: seq<Row>): Pairs {
    set r | r in rows :: (r.source, r.target)
  }

  /** The ids of the rows whose pair an earlier row already carries. */
  function Gone(rows: seq<Row>): seq<Id> {
    if rows == [] then []
    else
      var earlier, last := rows[..|rows| - 1], rows[|rows| - 1];
      if (last.source, last.target) in PairsOf(earlier) then Gone(earlier) + [last.id] else Gone(earlier)
  }

  function AfterDeletions(db: Db, gone: seq<Id>, now: Time): Db {
    if gone == [] then db
    else AfterDeleteEdge(AfterDeletions(db, gone[..|gone| - 1], now), ClaudeScheduled, gone[|gone| - 1], now)
  }

  /** Made before the other, or at the same instant under a lower id. */
  predicate Older(edges: Relationships, older: Id, id: Id)
    requires older in edges && id in edges
  {
    edges[older].created < edges[id].created || (edges[older].created == edges[id].created && older < id)
  }

  /** The edge is a later one of its pair: the same Things carry an older EvidenceFor edge. */
  ghost predicate Superseded(edges: Relationships, id: Id) {
    && id in edges && edges[id].kind == EvidenceFor
    && exists older :: older in edges && edges[older].kind == EvidenceFor && Older(edges, older, id)
         && edges[older].source == edges[id].source && edges[older].target == edges[id].target
  }

  method CollapseDuplicateEvidence(s: Session, now: Time) returns (removed: nat, ghost rows: seq<Row>)
    modifies s
    ensures Listed(old(s.edges), rows)
    ensures s.View() == AfterDeletions(old(s.View()), Gone(rows), now)
    ensures s.committed == old(s.committed) && removed == |Gone(rows)|
  {
    ghost var was := s.View();
    var edges := OrderBy(EvidenceRows(s.edges), PairThenAge);
    rows := edges;
    assert Listed(was.tables.edges, rows);
    hide Listed, Gone, AfterDeletions, AfterDeleteEdge, PairsOf;
    var kept: Pairs := {};
    removed := 0;
    var i := 0;
    while i < |edges|
      invariant 0 <= i <= |edges|
      invariant kept == PairsOf(edges[..i])
      invariant s.View() == AfterDeletions(was, Gone(edges[..i]), now) && removed == |Gone(edges[..i])|
      invariant s.committed == old(s.committed)
    {
      CollapseStep(was, edges, i, now);
      var pair := (edges[i].source, edges[i].target);
      if pair in kept {
        NotYetGone(was, edges, i, now);
        s.DeleteRelationship(ClaudeScheduled, edges[i].id, now);
        removed := removed + 1;
      } else {
        kept := kept + {pair};
      }
      i := i + 1;
    }
    assert edges[..i] == edges;
  }

  lemma CollapseStep(db: Db, rows: seq<Row>, i: nat, now: Time)
    requires i < |rows|
    ensures var pair, gone := (rows[i].source, rows[i].target), Gone(rows[..i]);
            if pair in PairsOf(rows[..i])
            then Gone(rows[..i + 1]) == gone + [rows[i].id]
                 && AfterDeletions(db, gone + [rows[i].id], now)
                    == AfterDeleteEdge(AfterDeletions(db, gone, now), ClaudeScheduled, rows[i].id, now)
            else Gone(rows[..i + 1]) == gone
    ensures PairsOf(rows[..i + 1]) == PairsOf(rows[..i]) + {(rows[i].source, rows[i].target)}
  {
    var gone := Gone(rows[..i]);
    assert rows[..i + 1][..i] == rows[..i];
    assert (gone + [rows[i].id])[..|gone|] == gone;
    hide AfterDeleteEdge;
  }

  lemma NotYetGone(db: Db, rows: seq<Row>, i: nat, now: Time)
    requires Listed(db.tables.edges, rows) && i < |rows|
    ensures rows[i].id in AfterDeletions(db, Gone(rows[..i]), now).tables.edges
  {
    WhatDeletionsLeave(db, Gone(rows[..i]), now);
    GoneAreRows(rows[..i]);
    assert rows[i] in Elements(rows);
    forall k | 0 <= k < i ensures rows[k].id != rows[i].id {
      assert rows[k] in Elements(rows);
    }
  }

  lemma {:induction false} GoneAreRows(rows: seq<Row>)
    ensures forall id :: id in Gone(rows) ==> exists k :: 0 <= k < |rows| && rows[k].id == id
  {
    if rows != [] {
      GoneAreRows(rows[..|rows| - 1]);
    }
  }

  lemma {:induction false} WhatDeletionsLeave(db: Db, gone: seq<Id>, now: Time)
    ensures var after := AfterDeletions(db, gone, now).tables;
            after.things == db.tables.things && after.edges == db.tables.edges - Elements(gone)
  {
    if gone != [] {
      WhatDeletionsLeave(db, gone[..|gone| - 1], now);
    }
  }

  // --- What the pass leaves -----------------------------------------------------

  function EvidenceIds(edges: Relationships): set<Id> {
    set id | id in edges && edges[id].kind == EvidenceFor
  }

  function EvidencePairs(edges: Relationships): Pairs {
    set id | id in edges && edges[id].kind == EvidenceFor :: (edges[id].source, edges[id].target)
  }

  predicate SamePair(a: Row, b: Row) {
    a.source == b.source && a.target == b.target
  }

  lemma ListedRows(edges: Relationships, rows: seq<Row>)
    requires Listed(edges, rows)
    ensures forall r :: r in rows <==> r.id in edges && edges[r.id].kind == EvidenceFor && r == RowOf(edges, r.id)
    ensures DistinctIds(rows)
  {
    assert forall r :: r in rows <==> r in Elements(rows);
  }

  ghost predicate Repeats(rows: seq<Row>, k: nat)
    requires k < |rows|
  {
    exists j :: 0 <= j < k && SamePair(rows[j], rows[k])
  }

  ghost predicate DistinctIds(rows: seq<Row>) {
    forall j, k :: 0 <= j < k < |rows| ==> rows[j].id != rows[k].id
  }

  lemma {:induction false} GoneCount(rows: seq<Row>)
    ensures |Gone(rows)| + |PairsOf(rows)| == |rows|
  {
    if rows != [] {
      var front, last := rows[..|rows| - 1], rows[|rows| - 1];
      GoneCount(front);
      var pair := (last.source, last.target);
      assert PairsOf(rows) == PairsOf(front) + {pair};
      if pair in PairsOf(front) {
        assert PairsOf(rows) == PairsOf(front);
      }
    }
  }

  lemma LastRepeats(rows: seq<Row>)
    requires rows != []
    ensures var n := |rows| - 1;
            (rows[n].source, rows[n].target) in PairsOf(rows[..n]) <==> Repeats(rows, n)
  {
    var n := |rows| - 1;
    var front, last := rows[..n], rows[n];
    if (last.source, last.target) in PairsOf(front) {
      var r :| r in front && (r.source, r.target) == (last.source, last.target);
      var j: nat :| j < n && front[j] == r;
      assert SamePair(rows[j], last);
    }
    if j: nat :| j < n && SamePair(rows[j], last) {
      assert front[j] in front;
    }
  }

  /** A row goes exactly when an earlier row carries its pair. */
  lemma {:induction false} GoneAreRepeats(rows: seq<Row>)
    requires DistinctIds(rows)
    ensures NoDuplicates(Gone(rows)) && forall k :: 0 <= k < |rows| ==> (rows[k].id in Gone(rows) <==> Repeats(rows, k))
  {
    hide PairsOf, Repeats, NoDuplicates;
    if rows == [] {
      NoneIsDistinct<Id>();
    } else {
      var n := |rows| - 1;
      var front, last := rows[..n], rows[n];
      GoneAreRepeats(front);
      GoneAreRows(front);
      LastRepeats(rows);
      assert last.id !in Gone(front);
      OneMoreDistinct(Gone(front), last.id);
      forall k | 0 <= k < n ensures rows[k].id in Gone(rows) <==> Repeats(rows, k) {
        StillRepeats(rows, k);
        assert front[k] == rows[k];
      }
    }
  }

  lemma NoneIsDistinct<T(!new)>()
    ensures NoDuplicates<T>([])
  {}

  lemma StillRepeats(rows: seq<Row>, k: nat)
    requires k < |rows| - 1
    ensures Repeats(rows[..|rows| - 1], k) <==> Repeats(rows, k)
  {
    var front := rows[..|rows| - 1];
    assert forall j :: 0 <= j <= k ==> front[j] == rows[j];
  }

  lemma OneMoreDistinct<T>(s: seq<T>, x: T)
    requires NoDuplicates(s) && x !in s
    ensures NoDuplicates(s + [x])
  {}

  lemma ListedRow(edges: Relationships, rows: seq<Row>, id: Id) returns (k: nat)
    requires Listed(edges, rows) && id in EvidenceIds(edges)
    ensures k < |rows| && rows[k] == RowOf(edges, id)
  {
    assert RowOf(edges, id) in Elements(rows);
    k :| 0 <= k < |rows| && rows[k] == RowOf(edges, id);
  }

  lemma RepeatsAreSuperseded(edges: Relationships, rows: seq<Row>, k: nat)
    requires Listed(edges, rows) && k < |rows|
    ensures Repeats(rows, k) <==> Superseded(edges, rows[k].id)
  {
    ListedRows(edges, rows);
    assert rows[k] in rows;
    var id := rows[k].id;
    if j: nat :| 0 <= j < k && SamePair(rows[j], rows[k]) {
      assert rows[j] in rows;
      assert PairThenAge(rows[j], rows[k]);
      assert rows[j].id != rows[k].id && Older(edges, rows[j].id, id);
    }
    if Superseded(edges, id) {
      var older :| older in edges && edges[older].kind == EvidenceFor && Older(edges, older, id)
                   && edges[older].source == edges[id].source && edges[older].target == edges[id].target;
      var j := ListedRow(edges, rows, older);
      assert SamePair(rows[j], rows[k]);
      assert j < k;
    }
  }

  lemma GoneAreSuperseded(edges: Relationships, rows: seq<Row>, id: Id)
    requires Listed(edges, rows)
    ensures id in Gone(rows) <==> Superseded(edges, id)
  {
    ListedRows(edges, rows);
    GoneAreRepeats(rows);
    GoneAreRows(rows);
    forall k | 0 <= k < |rows| ensures rows[k].id in EvidenceIds(edges) {
      assert rows[k] in rows;
    }
    hide Gone, Listed, Repeats;
    if id in EvidenceIds(edges) {
      var k := ListedRow(edges, rows, id);
      RepeatsAreSuperseded(edges, rows, k);
    }
  }

  lemma GoneOnce(edges: Relationships, rows: seq<Row>)
    requires Listed(edges, rows)
    ensures NoDuplicates(Gone(rows)) && forall id :: id in Gone(rows) ==> id in edges
  {
    ListedRows(edges, rows);
    GoneAreRepeats(rows);
    forall id | id in Gone(rows) ensures id in edges {
      GoneAreSuperseded(edges, rows, id);
    }
  }

  lemma {:induction false} FirstOfPair(rows: seq<Row>, k: nat) returns (m: nat)
    requires k < |rows|
    ensures m <= k && SamePair(rows[m], rows[k]) && !Repeats(rows, m)
    decreases k
  {
    if Repeats(rows, k) {
      var j: nat :| j < k && SamePair(rows[j], rows[k]);
      m := FirstOfPair(rows, j);
    } else {
      m := k;
    }
  }

  lemma {:induction false} RowsCountEdges(edges: Relationships, rows: seq<Row>)
    requires Listed(edges, rows)
    ensures |rows| == |EvidenceIds(edges)| && PairsOf(rows) == EvidencePairs(edges)
  {
    ListedRows(edges, rows);
    var ids := seq(|rows|, k requires 0 <= k < |rows| => rows[k].id);
    ElementsOfDistinct(ids);
    forall id | id in EvidenceIds(edges)
      ensures id in Elements(ids) && (edges[id].source, edges[id].target) in PairsOf(rows)
    {
      var k := ListedRow(edges, rows, id);
      assert ids[k] == id && rows[k] in rows;
    }
    forall id | id in Elements(ids) ensures id in EvidenceIds(edges) {
      var k :| 0 <= k < |ids| && ids[k] == id;
      assert rows[k] in rows;
    }
    assert Elements(ids) == EvidenceIds(edges);
  }

  /**
   * Of each pair exactly the earliest edge stays; nothing else is touched, every pair keeps its
   * evidence, no pair is doubled any more, and as many went as there were edges too many.
   */
  lemma CollapseKeepsEarliest(db: Db, rows: seq<Row>, now: Time)
    requires Listed(db.tables.edges, rows)
    ensures var edges, after := db.tables.edges, AfterDeletions(db, Gone(rows), now).tables;
            && after.things == db.tables.things
            && after.edges == (map id | id in edges && !Superseded(edges, id) :: edges[id])
            && EvidenceUnique(after.edges) && EvidencePairs(after.edges) == EvidencePairs(edges)
            && |Gone(rows)| == |EvidenceIds(edges)| - |EvidencePairs(edges)|
  {
    var edges, after := db.tables.edges, AfterDeletions(db, Gone(rows), now).tables;
    WhatDeletionsLeave(db, Gone(rows), now);
    RowsCountEdges(edges, rows);
    GoneCount(rows);
    forall id ensures id in Gone(rows) <==> Superseded(edges, id) {
      GoneAreSuperseded(edges, rows, id);
    }
    hide Listed, Gone, AfterDeletions;
    forall pair | pair in EvidencePairs(edges) ensures pair in EvidencePairs(after.edges) {
      PairSurvives(edges, rows, pair);
      var id :| id in EvidenceIds(edges) && !Superseded(edges, id) && (edges[id].source, edges[id].target) == pair;
      assert id in after.edges && after.edges[id] == edges[id];
    }
  }

  lemma PairSurvives(edges: Relationships, rows: seq<Row>, pair: (Id, Id))
    requires Listed(edges, rows) && pair in EvidencePairs(edges)
    ensures exists id :: id in EvidenceIds(edges) && !Superseded(edges, id)
                         && (edges[id].source, edges[id].target) == pair
  {
    var id :| id in EvidenceIds(edges) && (edges[id].source, edges[id].target) == pair;
    var k := ListedRow(edges, rows, id);
    var m := FirstOfPair(rows, k);
    RepeatsAreSuperseded(edges, rows, m);
    ListedRows(edges, rows);
    assert rows[m] in rows;
    assert rows[m].id in EvidenceIds(edges);
  }

  /** One unrelate entry per edge removed, by the scheduled actor, with the edge as it was. */
  lemma {:induction false} WhatDeletionsJournal(db: Db, gone: seq<Id>, now: Time)
    requires NoDuplicates(gone) && forall id :: id in gone ==> id in db.tables.edges
    ensures var after := AfterDeletions(db, gone, now);
            && |after.journal| == |db.journal| + |gone| && after.journal[..|db.journal|] == db.journal
            && after.nextEntry == db.nextEntry + |gone|
            && forall k :: 0 <= k < |gone| ==>
                 after.journal[|db.journal| + k]
                 == Entry(db.nextEntry + k, now, ClaudeScheduled, Operation.Unrelate, OfEdge(gone[k]),
                          Some(EdgeState(db.tables.edges[gone[k]])), None)
  {
    if gone != [] {
      var front, last := gone[..|gone| - 1], gone[|gone| - 1];
      WhatDeletionsJournal(db, front, now);
      WhatDeletionsLeave(db, front, now);
      assert last !in Elements(front);
    }
  }
}
