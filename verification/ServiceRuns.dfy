/** What every run of the service keeps, whatever it is called with and however the calls end. */
module ServiceRuns {
  import opened Prelude
  import opened Paths
  import opened Graph
  import opened Journal
  import opened Service
  import opened Text
  import Backfill
  import Collapse
  import Hierarchy
  import Tree

  datatype Call =
    | CreateThing(actor: Actor, id: Id, thing: Thing, tomorrow: Day, now: Time)
    | UpdateThing(actor: Actor, id: Id, changes: Changes, expected: Option<Reading>, now: Time)
    | Relate(actor: Actor, id: Id, edge: Edge)
    | Unrelate(actor: Actor, id: Id, now: Time)
    | RecordPreference(actor: Actor, title: string, scope: string, evidence: seq<Id>, id: Id, anchorEdge: Id,
                       ids: seq<Id>, now: Time)
    | AddEvidence(actor: Actor, preference: Id, source: Id, id: Id, now: Time)
    | RejectPreference(actor: Actor, id: Id, now: Time)
    | BackfillDates(captures: seq<Id>, first: Day, now: Time)
    | CollapseEvidence(rows: seq<Collapse.Row>, now: Time)
  {
    /** An id is generated for each edge a preference needs. */
    predicate Valid() {
      RecordPreference? ==> |ids| == |Distinct(evidence)|
    }
  }

  /** What a call leaves. The two passes take the rows their query lists, in its order. */
  ghost function AfterCall(db: Db, c: Call): Db
    requires c.Valid()
  {
    match c
    case CreateThing(actor, id, thing, tomorrow, now) => AfterCreate(db, actor, id, thing, tomorrow, now).0
    case UpdateThing(actor, id, changes, expected, now) => AfterUpdate(db, actor, id, changes, expected, now).0
    case Relate(actor, id, edge) => AfterRelate(db, actor, id, edge).0
    case Unrelate(actor, id, now) => AfterUnrelate(db, actor, id, now).0
    case RecordPreference(actor, title, scope, evidence, id, anchorEdge, ids, now) =>
      AfterRecord(db, actor, title, scope, evidence, id, anchorEdge, ids, now).0
    case AddEvidence(actor, preference, source, id, now) => AfterAddEvidence(db, actor, preference, source, id, now).0
    case RejectPreference(actor, id, now) => AfterReject(db, actor, id, now).0
    case BackfillDates(captures, first, now) =>
      if Backfill.InCaptureOrder(db.tables.things, captures) then Backfill.AfterBackfill(db, captures, first, now)
          else db
    case CollapseEvidence(rows, now) =>
      if Collapse.Listed(db.tables.edges, rows) then Collapse.AfterDeletions(db, Collapse.Gone(rows), now) else db
  }

  ghost function AfterRun(calls: seq<Call>): Db
    requires forall c :: c in calls ==> c.Valid()
  {
    if calls == [] then Db(NoTables, [], 1)
    else AfterCall(AfterRun(calls[..|calls| - 1]), calls[|calls| - 1])
  }

  ghost predicate Sound(t: Tables) {
    && EdgesJoinThings(t.things, t.edges) && NoSelfLoops(t.edges)
    && Acyclic(ChildOfPairs(t.edges)) && EvidenceUnique(t.edges)
  }

  ghost predicate Inv(db: Db) {
    Faithful(db) && Sound(db.tables)
  }

  lemma WriteThingKeepsInv(db: Db, now: Time, actor: Actor, operation: Operation, id: Id, thing: Thing)
    requires Inv(db)
    requires if id in db.tables.things then operation == Update else operation == Create
    ensures Inv(WriteThing(db, now, actor, operation, id, thing))
  {
    hide Faithful, Acyclic, Write, EvidenceUnique;
    WriteKeepsFaithful(db, now, actor, operation, OfThing(id), Some(ThingState(thing)));
    WrittenThing(db, now, actor, operation, id, thing);
  }

  lemma InsertEdgeKeepsInv(db: Db, actor: Actor, id: Id, edge: Edge)
    requires Inv(db)
    ensures Inv(AfterInsertEdge(db, actor, id, edge).0)
    ensures !AfterInsertEdge(db, actor, id, edge).1.Done? ==> AfterInsertEdge(db, actor, id, edge).0 == db
  {
    if AfterInsertEdge(db, actor, id, edge).1.Done? {
      WriteKeepsFaithful(db, edge.created, actor, Operation.Relate, OfEdge(id), Some(EdgeState(edge)));
      InsertedIsSound(db.tables, id, edge);
      hide Faithful, Acyclic, EvidenceUnique, EdgesJoinThings, ChildOfPairs;
    }
  }

  lemma InsertedIsSound(t: Tables, id: Id, edge: Edge)
    requires Sound(t) && Insertable(t, id, edge) && edge.source != edge.target
    requires edge.kind == ChildOf ==> !Reaches(ChildOfPairs(t.edges), edge.target, edge.source)
    ensures Sound(t.(edges := t.edges[id := edge]))
  {
    var edges := t.edges;
    PairsAfterInsert(edges, id, edge);
    if edge.kind == ChildOf {
      AddingKeepsAcyclicIff(ChildOfPairs(edges), edge.source, edge.target);
    } else {
      assert ChildOfPairs(edges) + {} == ChildOfPairs(edges);
    }
    hide Acyclic, ChildOfPairs, Reaches;
    assert EvidenceUnique(edges[id := edge]);
  }

  lemma PairsAfterInsert(edges: Relationships, id: Id, edge: Edge)
    requires id !in edges
    ensures ChildOfPairs(edges[id := edge])
            == ChildOfPairs(edges) + (if edge.kind == ChildOf then {(edge.source, edge.target)} else {})
  {
    var more := edges[id := edge];
    assert forall k :: k in edges ==> k in more && more[k] == edges[k];
    assert id in more && more[id] == edge;
  }

  lemma DeletedIsSound(t: Tables, id: Id)
    requires Sound(t)
    ensures Sound(t.(edges := t.edges - {id}))
  {
    assert ChildOfPairs(t.edges - {id}) <= ChildOfPairs(t.edges);
    FewerEdgesAcyclic(ChildOfPairs(t.edges), ChildOfPairs(t.edges - {id}));
    hide Acyclic, ChildOfPairs;
  }

  lemma DeleteEdgeKeepsInv(db: Db, actor: Actor, id: Id, now: Time)
    requires Inv(db) && id in db.tables.edges
    ensures Inv(AfterDeleteEdge(db, actor, id, now))
  {
    WriteKeepsFaithful(db, now, actor, Operation.Unrelate, OfEdge(id), None);
    DeletedIsSound(db.tables, id);
    hide Faithful, Acyclic, ChildOfPairs, EvidenceUnique;
  }

  lemma UpdateKeepsInv(db: Db, actor: Actor, id: Id, c: Changes, expected: Option<Reading>, now: Time)
    requires Inv(db)
    ensures Inv(AfterUpdate(db, actor, id, c, expected, now).0)
  {
    hide Inv, WriteThing, Updated;
    if id in db.tables.things {
      WriteThingKeepsInv(db, now, actor, Update, id, Updated(db.tables.things[id], c, now));
    }
  }

  lemma InsertThingKeepsInv(db: Db, actor: Actor, id: Id, thing: Thing, now: Time)
    requires Inv(db)
    ensures Inv(AfterInsertThing(db, actor, id, thing, now).0)
  {
    hide Inv, WriteThing;
    if id !in db.tables.things {
      WriteThingKeepsInv(db, now, actor, Create, id, thing);
    }
  }

  lemma {:induction false} EvidenceKeepsInv(db: Db, actor: Actor, preference: Id, evidence: seq<Id>, ids: seq<Id>,
                                            now: Time)
    requires Inv(db) && |ids| == |evidence|
    ensures Inv(AfterEvidence(db, actor, preference, evidence, ids, now).0)
  {
    hide Inv, AfterInsertEdge;
    if evidence != [] {
      var n := |evidence| - 1;
      EvidenceKeepsInv(db, actor, preference, evidence[..n], ids[..n], now);
      var earlier := AfterEvidence(db, actor, preference, evidence[..n], ids[..n], now).0;
      InsertEdgeKeepsInv(earlier, actor, ids[n], EvidenceEdge(evidence[n], preference, now));
    }
  }

  lemma PreferenceKeepsInv(db: Db, actor: Actor, title: string, scope: string, evidence: seq<Id>, preference: Id,
                           anchorEdge: Id, ids: seq<Id>, now: Time)
    requires Inv(db) && |ids| == |evidence|
    ensures Inv(AfterPreference(db, actor, title, scope, evidence, preference, anchorEdge, ids, now).0)
  {
    hide Inv, AfterInsertEdge, AfterInsertThing, AfterEvidence;
    InsertThingKeepsInv(db, actor, preference, PreferenceThing(title, scope, now), now);
    var withThing := AfterInsertThing(db, actor, preference, PreferenceThing(title, scope, now), now).0;
    var anchor := Edge(USER_ANCHOR_ID, preference, RelatedTo, None, now);
    InsertEdgeKeepsInv(withThing, actor, anchorEdge, anchor);
    EvidenceKeepsInv(AfterInsertEdge(withThing, actor, anchorEdge, anchor).0, actor, preference, evidence, ids, now);
  }

  lemma {:induction false} BackfillKeepsInv(db: Db, captures: seq<Id>, first: Day, now: Time)
    requires Inv(db) && NoDuplicates(captures) && forall id :: id in captures ==> id in db.tables.things
    ensures Inv(Backfill.AfterBackfill(db, captures, first, now))
  {
    hide Inv, WriteThing, Backfill.Dated, Backfill.DueOn, NoDuplicates;
    if captures != [] {
      var n := |captures| - 1;
      LastIsNew(captures);
      BackfillKeepsInv(db, captures[..n], first, now);
      Backfill.WhatBackfillWrites(db, captures[..n], first, now);
      WriteThingKeepsInv(Backfill.AfterBackfill(db, captures[..n], first, now), now, ClaudeScheduled, Update,
                         captures[n],
                         Backfill.Dated(db.tables.things[captures[n]], Backfill.DueOn(first, n), now));
    }
  }

  lemma {:induction false} DeletionsKeepInv(db: Db, gone: seq<Id>, now: Time)
    requires Inv(db) && NoDuplicates(gone) && forall id :: id in gone ==> id in db.tables.edges
    ensures Inv(Collapse.AfterDeletions(db, gone, now))
  {
    hide Inv, AfterDeleteEdge, NoDuplicates;
    if gone != [] {
      var n := |gone| - 1;
      LastIsNew(gone);
      DeletionsKeepInv(db, gone[..n], now);
      Collapse.WhatDeletionsLeave(db, gone[..n], now);
      DeleteEdgeKeepsInv(Collapse.AfterDeletions(db, gone[..n], now), ClaudeScheduled, gone[n], now);
    }
  }

  lemma RecordKeepsInv(db: Db, actor: Actor, title: string, scope: string, evidence: seq<Id>, preference: Id,
                       anchorEdge: Id, ids: seq<Id>, now: Time)
    requires Inv(db) && |ids| == |Distinct(evidence)|
    ensures Inv(AfterRecord(db, actor, title, scope, evidence, preference, anchorEdge, ids, now).0)
  {
    hide Inv, AfterPreference, WriteThing, Strip;
    if USER_ANCHOR_ID !in db.tables.things {
      WriteThingKeepsInv(db, now, actor, Create, USER_ANCHOR_ID, AnchorThing(now));
    }
    PreferenceKeepsInv(AfterAnchor(db, actor, now), actor, title, Strip(scope), Distinct(evidence), preference,
                       anchorEdge, ids, now);
  }

  lemma CallKeepsInv(db: Db, c: Call)
    requires Inv(db) && c.Valid()
    ensures Inv(AfterCall(db, c))
  {
    hide Inv, AfterInsertEdge, AfterInsertThing, AfterRecord, AfterUpdate, AfterDeleteEdge, WriteThing;
    hide Backfill.InCaptureOrder, Backfill.AfterBackfill, Collapse.Listed, Collapse.Gone, Collapse.AfterDeletions;
    match c
    case CreateThing(actor, id, thing, tomorrow, now) =>
      InsertThingKeepsInv(db, actor, id, WithCaptureDefaults(thing, tomorrow).(created := now, updated := now), now);
    case UpdateThing(actor, id, changes, expected, now) => UpdateKeepsInv(db, actor, id, changes, expected, now);
    case Relate(actor, id, edge) => InsertEdgeKeepsInv(db, actor, id, edge);
    case Unrelate(actor, id, now) =>
      if id in db.tables.edges {
        DeleteEdgeKeepsInv(db, actor, id, now);
      }
    case RecordPreference(actor, title, scope, evidence, id, anchorEdge, ids, now) =>
      RecordKeepsInv(db, actor, title, scope, evidence, id, anchorEdge, ids, now);
    case AddEvidence(actor, preference, source, id, now) =>
      InsertEdgeKeepsInv(db, actor, id, EvidenceEdge(source, preference, now));
    case RejectPreference(actor, id, now) =>
      if id in db.tables.things {
        UpdateKeepsInv(db, actor, id, NoChanges.(tags := Some(db.tables.things[id].tags + [REJECTED_TAG])), None, now);
      }
    case BackfillDates(captures, first, now) =>
      if Backfill.InCaptureOrder(db.tables.things, captures) {
        Backfill.CaptureOrderNames(db.tables.things, captures);
        BackfillKeepsInv(db, captures, first, now);
      }
    case CollapseEvidence(rows, now) =>
      if Collapse.Listed(db.tables.edges, rows) {
        Collapse.GoneOnce(db.tables.edges, rows);
        DeletionsKeepInv(db, Collapse.Gone(rows), now);
      }
  }

  lemma {:induction false} RunKeepsInv(calls: seq<Call>)
    requires forall c :: c in calls ==> c.Valid()
    ensures Inv(AfterRun(calls))
  {
    if calls == [] {
    } else {
      hide Inv;
      RunKeepsInv(calls[..|calls| - 1]);
      CallKeepsInv(AfterRun(calls[..|calls| - 1]), calls[|calls| - 1]);
    }
  }

  /**
   * After any run of calls, refused and rolled-back ones included, replaying the journal from the
   * empty graph gives exactly the tables, and every entry recorded its entity just before and
   * after it.
   */
  lemma JournalReplaysToTables(calls: seq<Call>)
    requires forall c :: c in calls ==> c.Valid()
    ensures var db := AfterRun(calls);
            && Replay(db.journal) == db.tables
            && (forall i :: 0 <= i < |db.journal| ==> Honest(db.journal, i))
            && Increasing(db.journal, db.nextEntry)
  {
    RunKeepsInv(calls);
  }

  /** After any run every edge joins two different Things, the hierarchy is acyclic, and no evidence counts twice. */
  lemma TablesStaySound(calls: seq<Call>)
    requires forall c :: c in calls ==> c.Valid()
    ensures Sound(AfterRun(calls).tables)
  {
    RunKeepsInv(calls);
  }

  /** After any run the tree shows exactly the active Things. */
  lemma TreeLosesNothing(calls: seq<Call>, id: Id)
    requires forall c :: c in calls ==> c.Valid()
    ensures var t := AfterRun(calls).tables;
            (exists descent :: Tree.ShownBy(t.things, t.edges, descent, id)) <==> id in t.things && t.things[id].active
  {
    RunKeepsInv(calls);
    Tree.TreeShowsExactlyTheActive(AfterRun(calls).tables.things, AfterRun(calls).tables.edges, id);
  }

  /**
   * A node can promise more than expanding it returns: a run that files a preference under a Thing,
   * whose level then leaves preferences out.
   */
  lemma CountCanExceedExpansion() returns (calls: seq<Call>, parent: Id, excludeTags: set<string>)
    ensures forall c :: c in calls ==> c.Valid()
    ensures var t := AfterRun(calls).tables;
            && parent in t.things && t.things[parent].active
            && |Tree.ActiveChildren(t.things, t.edges, parent)| == 1
            && |Tree.LevelIds(t.things, t.edges, Some(parent), excludeTags)| == 0
  {
    var plain := Thing("a project", None, map[], [], map[], None, 0.0, true, 0, 0);
    var tagged := plain.(tags := [PREFERENCE_TAG]);
    parent, excludeTags := 2, {PREFERENCE_TAG};
    var first, second := CreateThing(User, 2, plain, 1, 0), CreateThing(User, 3, tagged, 1, 0);
    var third := Call.Relate(User, 4, Edge(2, 3, ChildOf, None, 0));
    calls := [first, second, third];
    ThreeCalls(first, second, third);
    hide AfterRun;
    var db0 := Db(NoTables, [], 1);
    var db1 := AfterCall(db0, first);
    Created(db0, 2, plain, 1);
    var db2 := AfterCall(db1, second);
    Created(db1, 3, tagged, 1);
    Filed(db2, 2, 3, 4);
    assert !Internal(plain) && WithCaptureDefaults(plain, 1).active;
    TaggedStays(tagged);
    OneHiddenChild(AfterCall(db2, third).tables, 2, 3, 4);
  }

  lemma ThreeCalls(a: Call, b: Call, c: Call)
    requires a.Valid() && b.Valid() && c.Valid()
    ensures AfterRun([a, b, c]) == AfterCall(AfterCall(AfterCall(Db(NoTables, [], 1), a), b), c)
  {
    hide AfterCall;
    assert [a, b, c][..2] == [a, b] && [a, b][..1] == [a] && [a][..0] == [];
    var db0 := Db(NoTables, [], 1);
    assert AfterRun([a]) == AfterCall(db0, a);
    assert AfterRun([a, b]) == AfterCall(AfterCall(db0, a), b);
  }

  lemma TaggedStays(thing: Thing)
    requires thing.tags == [PREFERENCE_TAG]
    ensures WithCaptureDefaults(thing, 1) == thing
  {
    assert thing.tags[0] in INTERNAL_TAGS;
  }

  lemma OneHiddenChild(t: Tables, parent: Id, child: Id, id: Id)
    requires t.edges == map[id := Edge(parent, child, ChildOf, None, 0)] && child in t.things && t.things[child].active
    requires t.things[child].tags == [PREFERENCE_TAG]
    ensures |Tree.ActiveChildren(t.things, t.edges, parent)| == 1
    ensures |Tree.LevelIds(t.things, t.edges, Some(parent), {PREFERENCE_TAG})| == 0
  {
    assert t.edges[id] == Edge(parent, child, ChildOf, None, 0);
    assert Tree.ActiveChildren(t.things, t.edges, parent) == {child};
    assert t.things[child].tags[0] == PREFERENCE_TAG;
    assert Tree.LevelIds(t.things, t.edges, Some(parent), {PREFERENCE_TAG}) == {};
  }

  lemma Created(db: Db, id: Id, thing: Thing, tomorrow: Day)
    requires id !in db.tables.things && thing.title == "a project" && thing.description == None && |thing.tags| <= 1
    requires thing.created == thing.updated == 0 && forall tag :: tag in thing.tags ==> tag == PREFERENCE_TAG
    ensures AfterCreate(db, User, id, thing, tomorrow, 0).0.tables
            == db.tables.(things := db.tables.things[id := WithCaptureDefaults(thing, tomorrow)])
  {
    var whole := WithCaptureDefaults(thing, tomorrow).(created := 0, updated := 0);
    WrittenThing(db, 0, User, Create, id, whole);
    hide WriteThing;
    assert |PREFERENCE_TAG| == 11 && |NEW_TAG| == 4 && |thing.title| == 9;
  }

  lemma Filed(db: Db, parent: Id, child: Id, id: Id)
    requires db.tables.edges == map[] && parent in db.tables.things && child in db.tables.things && parent != child
    ensures AfterRelate(db, User, id, Edge(parent, child, ChildOf, None, 0)).0.tables
            == db.tables.(edges := map[id := Edge(parent, child, ChildOf, None, 0)])
  {
    assert ChildOfPairs(db.tables.edges) == {};
    Hierarchy.NothingReaches(child, parent);
    hide Reaches;
  }

  // --- What no call undoes ----------------------------------------------------------

  /** A scheduled task's heartbeat: what a missed run is reported by. */
  predicate Heartbeat(thing: Thing) {
    SCHEDULED_TASK_TAG in thing.tags && thing.active
  }

  /**
   * The Thing is still there, made when it was made, described and dated if it was, and still a
   * heartbeat if it was one.
   */
  predicate Kept(before: Things, after: Things, id: Id) {
    id in before ==>
      && id in after && after[id].created == before[id].created
      && (before[id].description.Some? ==> after[id].description.Some?)
      && (before[id].checkin.Some? ==> after[id].checkin.Some?)
      && (Heartbeat(before[id]) ==> Heartbeat(after[id]))
  }

  lemma InsertEdgeLeavesThings(db: Db, actor: Actor, id: Id, edge: Edge)
    ensures AfterInsertEdge(db, actor, id, edge).0.tables.things == db.tables.things
  {}

  lemma {:induction false} EvidenceLeavesThings(db: Db, actor: Actor, preference: Id, evidence: seq<Id>, ids: seq<Id>,
                                                now: Time)
    requires |ids| == |evidence|
    ensures AfterEvidence(db, actor, preference, evidence, ids, now).0.tables.things == db.tables.things
  {
    hide AfterInsertEdge;
    if evidence != [] {
      var n := |evidence| - 1;
      EvidenceLeavesThings(db, actor, preference, evidence[..n], ids[..n], now);
      var earlier := AfterEvidence(db, actor, preference, evidence[..n], ids[..n], now).0;
      InsertEdgeLeavesThings(earlier, actor, ids[n], EvidenceEdge(evidence[n], preference, now));
    }
  }

  lemma PreferenceLeavesOthers(db: Db, actor: Actor, title: string, scope: string, evidence: seq<Id>, preference: Id,
                               anchorEdge: Id, ids: seq<Id>, now: Time, id: Id)
    requires |ids| == |evidence|
    ensures Kept(db.tables.things, AfterPreference(db, actor, title, scope, evidence, preference, anchorEdge, ids,
                                                   now).0.tables.things, id)
  {
    var thing := PreferenceThing(title, scope, now);
    WrittenThing(db, now, actor, Create, preference, thing);
    var withThing := AfterInsertThing(db, actor, preference, thing, now).0;
    var anchor := Edge(USER_ANCHOR_ID, preference, RelatedTo, None, now);
    InsertEdgeLeavesThings(withThing, actor, anchorEdge, anchor);
    EvidenceLeavesThings(AfterInsertEdge(withThing, actor, anchorEdge, anchor).0, actor, preference, evidence, ids,
                         now);
    hide AfterInsertEdge, AfterEvidence, WriteThing, PreferenceThing, Heartbeat;
  }

  lemma UpdateKeepsHeartbeat(db: Db, actor: Actor, id: Id, c: Changes, expected: Option<Reading>, now: Time, other: Id)
    ensures Kept(db.tables.things, AfterUpdate(db, actor, id, c, expected, now).0.tables.things, other)
  {
    if id in db.tables.things {
      WrittenThing(db, now, actor, Update, id, Updated(db.tables.things[id], c, now));
      UpdateReplacesGiven(db.tables.things[id], c, now);
      hide WriteThing, Updated, Oversized;
    }
  }

  lemma BackfillKeepsHeartbeat(db: Db, captures: seq<Id>, first: Day, now: Time, id: Id)
    requires Backfill.InCaptureOrder(db.tables.things, captures)
    ensures Kept(db.tables.things, Backfill.AfterBackfill(db, captures, first, now).tables.things, id)
  {
    Backfill.CaptureOrderNames(db.tables.things, captures);
    Backfill.WhatBackfillWrites(db, captures, first, now);
    hide Backfill.AfterBackfill, Backfill.InCaptureOrder;
    if id in captures {
      var k :| 0 <= k < |captures| && captures[k] == id;
      assert Backfill.AfterBackfill(db, captures, first, now).tables.things[captures[k]]
             == Backfill.Dated(db.tables.things[captures[k]], Backfill.DueOn(first, k), now);
    }
  }

  lemma CreateKeepsThings(db: Db, actor: Actor, made: Id, thing: Thing, tomorrow: Day, now: Time, id: Id)
    ensures Kept(db.tables.things, AfterCreate(db, actor, made, thing, tomorrow, now).0.tables.things, id)
  {
    var whole := WithCaptureDefaults(thing, tomorrow).(created := now, updated := now);
    WrittenThing(db, now, actor, Create, made, whole);
    hide WriteThing, Heartbeat, WithCaptureDefaults, Oversized;
  }

  lemma RecordKeepsThings(db: Db, actor: Actor, title: string, scope: string, evidence: seq<Id>, preference: Id,
                          anchorEdge: Id, ids: seq<Id>, now: Time, id: Id)
    requires |ids| == |Distinct(evidence)|
    ensures Kept(db.tables.things, AfterRecord(db, actor, title, scope, evidence, preference, anchorEdge, ids,
                                               now).0.tables.things, id)
  {
    hide AfterPreference, WriteThing, Heartbeat, Strip, AnchorThing;
    WrittenThing(db, now, actor, Create, USER_ANCHOR_ID, AnchorThing(now));
    PreferenceLeavesOthers(AfterAnchor(db, actor, now), actor, title, Strip(scope), Distinct(evidence), preference,
                           anchorEdge, ids, now, id);
  }

  /** No call removes a Thing, changes when it was made, clears its description or date, or hides a heartbeat. */
  lemma CallKeepsThings(db: Db, c: Call, id: Id)
    requires c.Valid()
    ensures Kept(db.tables.things, AfterCall(db, c).tables.things, id)
  {
    hide AfterInsertEdge, AfterCreate, AfterRecord, AfterUpdate, WriteThing, Heartbeat;
    hide Backfill.InCaptureOrder, Backfill.AfterBackfill, Collapse.Listed, Collapse.Gone, Collapse.AfterDeletions;
    match c
    case CreateThing(actor, made, thing, tomorrow, now) => CreateKeepsThings(db, actor, made, thing, tomorrow, now, id);
    case UpdateThing(actor, updated, changes, expected, now) =>
        UpdateKeepsHeartbeat(db, actor, updated, changes, expected, now, id);
    case Relate(actor, edgeId, edge) => InsertEdgeLeavesThings(db, actor, edgeId, edge);
    case Unrelate(actor, edgeId, now) =>
    case RecordPreference(actor, title, scope, evidence, preference, anchorEdge, ids, now) =>
      RecordKeepsThings(db, actor, title, scope, evidence, preference, anchorEdge, ids, now, id);
    case AddEvidence(actor, preference, source, edgeId, now) =>
      InsertEdgeLeavesThings(db, actor, edgeId, EvidenceEdge(source, preference, now));
    case RejectPreference(actor, preference, now) =>
      if preference in db.tables.things {
        UpdateKeepsHeartbeat(db, actor, preference,
                             NoChanges.(tags := Some(db.tables.things[preference].tags + [REJECTED_TAG])), None,
                             now, id);
      }
    case BackfillDates(captures, first, now) =>
      if Backfill.InCaptureOrder(db.tables.things, captures) {
        BackfillKeepsHeartbeat(db, captures, first, now, id);
      }
    case CollapseEvidence(rows, now) => Collapse.WhatDeletionsLeave(db, Collapse.Gone(rows), now);
  }

  /** Whatever the service is called with later, what is there stays there, and a heartbeat stays one. */
  lemma {:induction false} RunKeepsThings(calls: seq<Call>, n: nat, id: Id)
    requires (forall c :: c in calls ==> c.Valid()) && n <= |calls|
    ensures Kept(AfterRun(calls[..n]).tables.things, AfterRun(calls).tables.things, id)
    decreases |calls|
  {
    hide Heartbeat, AfterCall;
    if n == |calls| {
      assert calls[..n] == calls;
    } else {
      var m := |calls| - 1;
      assert calls[..m][..n] == calls[..n];
      RunKeepsThings(calls[..m], n, id);
      CallKeepsThings(AfterRun(calls[..m]), calls[m], id);
    }
  }
}
