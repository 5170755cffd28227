/** What recording, reinforcing, rejecting and collapsing do to the evidence of preferences (backend/service.py). */
module Evidence {
  import opened Prelude
  import opened Paths
  import opened Graph
  import opened Journal
  import opened Service
  import opened Text
  import opened UserModel
  import opened ServiceRuns
  import Collapse

  lemma {:induction false} DistinctKeepsElements(ids: seq<Id>)
    ensures NoDuplicates(Distinct(ids)) && Elements(Distinct(ids)) == Elements(ids)
  {
    if ids != [] {
      var front, last := ids[..|ids| - 1], ids[|ids| - 1];
      DistinctKeepsElements(front);
      assert Elements(ids) == Elements(front) + {last};
      assert last in Distinct(front) <==> last in Elements(Distinct(front));
    }
  }

  /** In the order they first come: more ids only ever add at the end. */
  lemma {:induction false} DistinctKeepsOrder(ids: seq<Id>, n: nat)
    requires n <= |ids|
    ensures Distinct(ids[..n]) <= Distinct(ids)
    decreases |ids|
  {
    if n == |ids| {
      assert ids[..n] == ids;
    } else {
      var front := ids[..|ids| - 1];
      DistinctKeepsOrder(front, n);
      assert front[..n] == ids[..n];
    }
  }

  lemma InsertedEvidence(db: Db, actor: Actor, id: Id, edge: Edge, p: Id)
    requires AfterInsertEdge(db, actor, id, edge).1.Done?
    ensures var after := AfterInsertEdge(db, actor, id, edge).0.tables;
            && after.things == db.tables.things && after.edges == db.tables.edges[id := edge] && id !in db.tables.edges
            && EvidenceIds(after.edges, p)
               == EvidenceIds(db.tables.edges, p)
                  + (if edge.kind == EvidenceFor && edge.target == p then {edge.source} else {})
  {
    assert Insertable(db.tables, id, edge);
    var edges, more := db.tables.edges, db.tables.edges[id := edge];
    assert AfterInsertEdge(db, actor, id, edge).0.tables.edges == more;
    assert forall k :: k in edges ==> k in more && more[k] == edges[k];
    assert id in more && more[id] == edge;
  }

  lemma {:induction false} EvidenceInserted(db: Db, actor: Actor, preference: Id, evidence: seq<Id>, ids: seq<Id>,
                                            now: Time, p: Id)
    requires |ids| == |evidence| && AfterEvidence(db, actor, preference, evidence, ids, now).1.Done?
    ensures var after := AfterEvidence(db, actor, preference, evidence, ids, now).0.tables;
            && after.things == db.tables.things
            && (forall e :: e in db.tables.edges ==> e in after.edges && after.edges[e] == db.tables.edges[e])
            && EvidenceIds(after.edges, p)
               == EvidenceIds(db.tables.edges, p) + (if p == preference then Elements(evidence) else {})
  {
    hide AfterInsertEdge, EvidenceIds;
    if evidence != [] {
      var n := |evidence| - 1;
      EvidenceInserted(db, actor, preference, evidence[..n], ids[..n], now, p);
      var earlier := AfterEvidence(db, actor, preference, evidence[..n], ids[..n], now).0;
      InsertedEvidence(earlier, actor, ids[n], EvidenceEdge(evidence[n], preference, now), p);
      assert Elements(evidence) == Elements(evidence[..n]) + {evidence[n]};
    }
  }

  /** What a recorded preference is: its own Thing, anchored, with everything else as it was. */
  lemma PreferenceWritten(db: Db, actor: Actor, title: string, scope: string, evidence: seq<Id>, preference: Id,
                          anchorEdge: Id, ids: seq<Id>, now: Time, p: Id)
    requires |ids| == |evidence| && EdgesJoinThings(db.tables.things, db.tables.edges)
    requires AfterPreference(db, actor, title, scope, evidence, preference, anchorEdge, ids, now).1.Done?
    ensures var after := AfterPreference(db, actor, title, scope, evidence, preference, anchorEdge, ids, now).0.tables;
            && preference !in db.tables.things
            && after.things == db.tables.things[preference := PreferenceThing(title, scope, now)]
            && Linked(after.edges, USER_ANCHOR_ID, preference, RelatedTo)
            && EvidenceIds(after.edges, p) == if p == preference then Elements(evidence)
                 else EvidenceIds(db.tables.edges, p)
  {
    var thing := PreferenceThing(title, scope, now);
    var withThing := AfterInsertThing(db, actor, preference, thing, now).0;
    WrittenThing(db, now, actor, Create, preference, thing);
    assert withThing.tables.edges == db.tables.edges;
    var anchor := Edge(USER_ANCHOR_ID, preference, RelatedTo, None, now);
    hide AfterInsertEdge, WriteThing, PreferenceThing, EvidenceIds, AfterEvidence;
    InsertedEvidence(withThing, actor, anchorEdge, anchor, p);
    var anchored := AfterInsertEdge(withThing, actor, anchorEdge, anchor).0;
    EvidenceInserted(anchored, actor, preference, evidence, ids, now, p);
    var after := AfterEvidence(anchored, actor, preference, evidence, ids, now).0.tables;
    assert anchorEdge in anchored.tables.edges && after.edges[anchorEdge] == anchor;
  }

  lemma AnchorLeavesEdges(db: Db, actor: Actor, now: Time)
    ensures AfterAnchor(db, actor, now).tables.edges == db.tables.edges
    ensures db.tables.things.Keys <= AfterAnchor(db, actor, now).tables.things.Keys
  {}

  /**
   * A recorded preference is supported by exactly the ids it was given, each counted once, and no
   * other preference changes; a refused one leaves nothing but the anchor.
   */
  lemma RecordedStrength(db: Db, actor: Actor, title: string, scope: string, evidence: seq<Id>, preference: Id,
                         anchorEdge: Id, ids: seq<Id>, now: Time)
    requires |ids| == |Distinct(evidence)| && EdgesJoinThings(db.tables.things, db.tables.edges)
    ensures var (after, outcome) := AfterRecord(db, actor, title, scope, evidence, preference, anchorEdge, ids, now);
            if outcome.Done?
            then && EvidenceIds(after.tables.edges, preference) == Elements(evidence) != {}
                 && |EvidenceIds(after.tables.edges, preference)| == |Distinct(evidence)|
                 && (forall p :: p != preference ==>
                       EvidenceIds(after.tables.edges, p) == EvidenceIds(db.tables.edges, p))
                 && preference in after.tables.things
                 && after.tables.things[preference] == PreferenceThing(title, Strip(scope), now)
                 && Linked(after.tables.edges, USER_ANCHOR_ID, preference, RelatedTo) && Strip(scope) != ""
            else after == db || after == AfterAnchor(db, actor, now)
  {
    hide AfterPreference, EvidenceIds, AfterAnchor, EvidenceRefusal, PreferenceThing, Strip;
    var wanted := Distinct(evidence);
    if AfterRecord(db, actor, title, scope, evidence, preference, anchorEdge, ids, now).1.Done? {
      DistinctKeepsElements(evidence);
      ElementsOfDistinct(wanted);
      AnchorLeavesEdges(db, actor, now);
      forall p {
        PreferenceWritten(AfterAnchor(db, actor, now), actor, title, Strip(scope), wanted, preference, anchorEdge, ids,
                          now, p);
      }
      assert wanted[0] in Elements(wanted);
    } else {
      RefusedPreference(AfterAnchor(db, actor, now), actor, title, Strip(scope), wanted, preference, anchorEdge, ids,
                        now);
    }
  }

  lemma RefusedPreference(db: Db, actor: Actor, title: string, scope: string, evidence: seq<Id>, preference: Id,
                          anchorEdge: Id, ids: seq<Id>, now: Time)
    requires |ids| == |evidence|
    ensures var (after, outcome) := AfterPreference(db, actor, title, scope, evidence, preference, anchorEdge, ids,
                                                    now);
            !outcome.Done? ==> after == db
  {
    hide AfterInsertThing, AfterInsertEdge, AfterEvidence;
  }

  /** A preference is refused for want of a scope exactly when it was given only white space. */
  lemma NoScopeIff(db: Db, actor: Actor, title: string, scope: string, evidence: seq<Id>, preference: Id,
                   anchorEdge: Id, ids: seq<Id>, now: Time)
    requires |ids| == |Distinct(evidence)|
    ensures AfterRecord(db, actor, title, scope, evidence, preference, anchorEdge, ids, now).1 == NoScope
            <==> forall i :: 0 <= i < |scope| ==> IsSpace(scope[i])
  {
    BlankIff(scope);
    hide Strip, IsSpace;
    LaterRefusals(AfterAnchor(db, actor, now), actor, title, Strip(scope), Distinct(evidence), preference, anchorEdge,
                  ids, now);
    hide AfterPreference, AfterAnchor;
  }

  lemma LaterRefusals(db: Db, actor: Actor, title: string, scope: string, evidence: seq<Id>, preference: Id,
                      anchorEdge: Id, ids: seq<Id>, now: Time)
    requires |ids| == |evidence|
    ensures AfterPreference(db, actor, title, scope, evidence, preference, anchorEdge, ids, now).1 != NoScope
  {
    hide WriteThing, EvidenceEdge, PreferenceThing;
    EvidenceNeedsNoScope(AfterInsertEdge(
      AfterInsertThing(db, actor, preference, PreferenceThing(title, scope, now), now).0, actor, anchorEdge,
      Edge(USER_ANCHOR_ID, preference, RelatedTo, None, now)).0, actor, preference, evidence, ids, now);
  }

  lemma {:induction false} EvidenceNeedsNoScope(db: Db, actor: Actor, preference: Id, evidence: seq<Id>, ids: seq<Id>,
                                                now: Time)
    requires |ids| == |evidence|
    ensures AfterEvidence(db, actor, preference, evidence, ids, now).1 != NoScope
  {
    if evidence != [] {
      var n := |evidence| - 1;
      EvidenceNeedsNoScope(db, actor, preference, evidence[..n], ids[..n], now);
    }
  }

  /** Reinforcing adds exactly the one Thing with one journal entry, or changes and journals nothing. */
  lemma ReinforcedByOne(db: Db, actor: Actor, preference: Id, evidence: Id, id: Id, now: Time, p: Id)
    ensures var (after, outcome) := AfterAddEvidence(db, actor, preference, evidence, id, now);
            if outcome.Done? && evidence !in EvidenceIds(db.tables.edges, preference)
            then && EvidenceIds(after.tables.edges, p)
                == EvidenceIds(db.tables.edges, p) + (if p == preference then {evidence} else {})
                 && after.tables == db.tables.(edges := db.tables.edges[id := EvidenceEdge(evidence, preference, now)])
                 && |after.journal| == |db.journal| + 1 && after.journal[..|db.journal|] == db.journal
            else after == db
  {
    assert Linked(db.tables.edges, evidence, preference, EvidenceFor)
        <==> evidence in EvidenceIds(db.tables.edges, preference);
    var edge := EvidenceEdge(evidence, preference, now);
    if AfterInsertEdge(db, actor, id, edge).1.Done? {
      InsertedEvidence(db, actor, id, edge, p);
    }
  }

  /** Rejecting writes one Thing, and of it only the tags and the instant. */
  lemma RejectedWrites(db: Db, actor: Actor, preference: Id, now: Time)
    ensures var (after, outcome) := AfterReject(db, actor, preference, now);
            && after.tables.edges == db.tables.edges && (!outcome.Done? ==> after == db)
            && (outcome.Done? ==>
                  && preference in db.tables.things
                  && var thing := db.tables.things[preference];
                  PREFERENCE_TAG in thing.tags
                  && after.tables.things == db.tables.things[preference :=
                       if REJECTED_TAG in thing.tags then thing
                       else thing.(tags := thing.tags + [REJECTED_TAG], updated := now)])
  {
    if preference in db.tables.things {
      var changes := NoChanges.(tags := Some(db.tables.things[preference].tags + [REJECTED_TAG]));
      WrittenThing(db, now, actor, Update, preference, Updated(db.tables.things[preference], changes, now));
      hide WriteThing, Oversized;
    }
  }

  /** Rejecting a preference leaves all evidence, and takes it out of the user model. */
  lemma RejectedKeepsEvidence(db: Db, actor: Actor, preference: Id, now: Time, scope: Option<string>,
                              lower: string -> string)
    ensures var (after, outcome) := AfterReject(db, actor, preference, now);
            && after.tables.edges == db.tables.edges
            && (outcome.Done? ==>
                  && !InModel(after.tables.things, after.tables.edges, preference, scope, false, lower)
                  && (InModel(after.tables.things, after.tables.edges, preference, scope, true, lower)
                      <==> InModel(db.tables.things, db.tables.edges, preference, scope, true, lower)))
            && (!outcome.Done? ==> after == db)
            && (forall id :: id in db.tables.things && id != preference ==>
                  id in after.tables.things && after.tables.things[id] == db.tables.things[id])
  {
    RejectedWrites(db, actor, preference, now);
    hide AfterReject, Linked;
    var (after, outcome) := AfterReject(db, actor, preference, now);
    if outcome.Done? {
      var tags := db.tables.things[preference].tags;
      assert REJECTED_TAG in tags + [REJECTED_TAG] && PREFERENCE_TAG in tags + [REJECTED_TAG];
      assert forall e :: Supports(after.tables.things, db.tables.edges, e, preference)
                         <==> Supports(db.tables.things, db.tables.edges, e, preference);
      hide Supports;
    }
  }

  /** The user model lists a preference recorded with a scope as soon as it is recorded, in that scope. */
  lemma RecordedIsListed(db: Db, actor: Actor, title: string, scope: string, evidence: seq<Id>, preference: Id,
                         anchorEdge: Id, ids: seq<Id>, now: Time, wanted: Option<string>, lower: string -> string)
    requires |ids| == |Distinct(evidence)| && Inv(db)
    requires AfterRecord(db, actor, title, scope, evidence, preference, anchorEdge, ids, now).1.Done?
    ensures var after := AfterRecord(db, actor, title, scope, evidence, preference, anchorEdge, ids, now).0.tables;
            InModel(after.things, after.edges, preference, wanted, false, lower)
            <==> wanted.Some? ==> lower(Strip(wanted.value)) == lower(Strip(scope))
  {
    hide AfterRecord, InModel, EvidenceIds, Strip, PreferenceThing, Linked;
    var after := AfterRecord(db, actor, title, scope, evidence, preference, anchorEdge, ids, now).0.tables;
    RecordedStrength(db, actor, title, scope, evidence, preference, anchorEdge, ids, now);
    hide Inv, Sound, Faithful;
    RecordKeepsForeignKeys(db, actor, title, scope, evidence, preference, anchorEdge, ids, now);
    hide EdgesJoinThings;
    StripTwice(scope);
    EvidenceSupports(after.things, after.edges, preference);
    WhatAPreferenceIs(title, Strip(scope), now);
    ListedIff(after.things, after.edges, preference, Strip(scope), wanted, lower);
  }

  lemma ListedIff(things: Things, edges: Relationships, preference: Id, scope: string, wanted: Option<string>,
                  lower: string -> string)
    requires Linked(edges, USER_ANCHOR_ID, preference, RelatedTo)
             && (exists e :: Supports(things, edges, e, preference))
    requires preference in things && PREFERENCE_TAG in things[preference].tags
             && REJECTED_TAG !in things[preference].tags
    requires "scope" in things[preference].notes && things[preference].notes["scope"] == scope
             && Strip(scope) == scope != ""
    ensures InModel(things, edges, preference, wanted, false, lower)
            <==> wanted.Some? ==> lower(Strip(wanted.value)) == lower(scope)
  {
    hide Linked, Supports, Strip;
  }

  lemma WhatAPreferenceIs(title: string, scope: string, now: Time)
    ensures var thing := PreferenceThing(title, scope, now);
            && PREFERENCE_TAG in thing.tags && REJECTED_TAG !in thing.tags && "scope" in thing.notes
            && thing.notes["scope"] == scope
  {}

  lemma RecordKeepsForeignKeys(db: Db, actor: Actor, title: string, scope: string, evidence: seq<Id>, preference: Id,
                               anchorEdge: Id, ids: seq<Id>, now: Time)
    requires |ids| == |Distinct(evidence)| && Inv(db)
    ensures var after := AfterRecord(db, actor, title, scope, evidence, preference, anchorEdge, ids, now).0.tables;
            EdgesJoinThings(after.things, after.edges)
  {
    hide AfterRecord;
    CallKeepsInv(db, RecordPreference(actor, title, scope, evidence, preference, anchorEdge, ids, now));
  }

  lemma EvidenceSupports(things: Things, edges: Relationships, preference: Id)
    requires EdgesJoinThings(things, edges)
    ensures EvidenceIds(edges, preference) != {} ==> exists e :: Supports(things, edges, e, preference)
  {
    if source :| source in EvidenceIds(edges, preference) {
      var e :| e in edges && edges[e].kind == EvidenceFor && edges[e].target == preference && edges[e].source == source;
      assert Supports(things, edges, e, preference);
    }
  }

  /** After any run the strength of every preference is its number of distinct evidence Things. */
  lemma StrengthIsExact(calls: seq<Call>, preference: Id, list: seq<Id>)
    requires forall c :: c in calls ==> c.Valid()
    requires IsEvidenceOf(AfterRun(calls).tables.things, AfterRun(calls).tables.edges, preference, list)
    ensures var edges := AfterRun(calls).tables.edges;
            Elements(list) == EvidenceIds(edges, preference) && |list| == |EvidenceIds(edges, preference)|
  {
    TablesStaySound(calls);
    StrengthIsExactIff(AfterRun(calls).tables.things, AfterRun(calls).tables.edges, preference, list);
  }

  // --- What a collapse leaves to be shown -------------------------------------------

  /** The edges of the list that the collapse leaves. */
  ghost function Left(edges: Relationships, via: seq<Id>): seq<Id> {
    if via == [] then []
    else
      var front, last := Left(edges, via[..|via| - 1]), via[|via| - 1];
      if Collapse.Superseded(edges, last) then front else front + [last]
  }

  lemma {:induction false} LeftKeepsOrder(edges: Relationships, via: seq<Id>)
    requires NoDuplicates(via) && InAttachedOrder(edges, via)
    ensures var left := Left(edges, via);
            && NoDuplicates(left) && InAttachedOrder(edges, left)
            && forall id :: id in left <==> id in via && !Collapse.Superseded(edges, id)
  {
    hide Collapse.Superseded;
    if via != [] {
      var front, last := via[..|via| - 1], via[|via| - 1];
      LastIsNew(via);
      assert via == front + [last] && last in via;
      LeftKeepsOrder(edges, front);
      forall id | id in front ensures id in edges && AttachedBy(edges, id, last) {
        var k :| 0 <= k < |front| && via[k] == id;
      }
      OneMoreAttached(edges, Left(edges, front), last);
    }
  }

  predicate AttachedBy(edges: Relationships, id: Id, last: Id)
    requires id in edges && last in edges
  {
    edges[id].created < edges[last].created || (edges[id].created == edges[last].created && id <= last)
  }

  lemma OneMoreAttached(edges: Relationships, front: seq<Id>, last: Id)
    requires NoDuplicates(front) && InAttachedOrder(edges, front) && last in edges && last !in front
    requires forall id :: id in front ==> id in edges && AttachedBy(edges, id, last)
    ensures NoDuplicates(front + [last]) && InAttachedOrder(edges, front + [last])
  {
    assert forall k :: 0 <= k < |front| ==> front[k] in front;
  }

  lemma LastAgree(edges: Relationships, a: seq<Id>, b: seq<Id>)
    requires InAttachedOrder(edges, a) && InAttachedOrder(edges, b) && a != [] && b != []
    requires a[|a| - 1] in b && b[|b| - 1] in a
    ensures a[|a| - 1] == b[|b| - 1]
  {
    var i :| 0 <= i < |b| && b[i] == a[|a| - 1];
    var j :| 0 <= j < |a| && a[j] == b[|b| - 1];
  }

  lemma FrontIn(edges: Relationships, s: seq<Id>)
    requires NoDuplicates(s) && InAttachedOrder(edges, s) && s != []
    ensures var n := |s| - 1;
            && NoDuplicates(s[..n]) && InAttachedOrder(edges, s[..n]) && s == s[..n] + [s[n]]
            && forall id :: id in s[..n] <==> id in s && id != s[n]
  {
    LastIsNew(s);
    assert s == s[..|s| - 1] + [s[|s| - 1]];
  }

  lemma NoneInNone(a: seq<Id>, b: seq<Id>)
    requires forall id :: id in a <==> id in b
    ensures a == [] <==> b == []
  {
    if a != [] {
      assert a[0] in a;
    }
    if b != [] {
      assert b[0] in b;
    }
  }

  /** Edges in the order attached are in one order only. */
  lemma {:induction false} OneOrder(edges: Relationships, a: seq<Id>, b: seq<Id>)
    requires NoDuplicates(a) && InAttachedOrder(edges, a) && NoDuplicates(b) && InAttachedOrder(edges, b)
    requires forall id :: id in a <==> id in b
    ensures a == b
  {
    hide NoDuplicates, InAttachedOrder;
    NoneInNone(a, b);
    if a != [] {
      assert a[|a| - 1] in a && b[|b| - 1] in b;
      LastAgree(edges, a, b);
      FrontIn(edges, a);
      FrontIn(edges, b);
      OneOrder(edges, a[..|a| - 1], b[..|b| - 1]);
    }
  }

  /** Of the edges that support a preference one is superseded exactly if its source came before. */
  lemma SupersededIff(things: Things, edges: Relationships, preference: Id, via: seq<Id>, k: nat)
    requires k < |via| && NoDuplicates(via) && InAttachedOrder(edges, via)
    requires forall id :: id in via <==> Supports(things, edges, id, preference)
    ensures via[k] in edges && (forall j :: 0 <= j < k ==> via[j] in edges)
    ensures Collapse.Superseded(edges, via[k])
            <==> exists j :: 0 <= j < k && edges[via[j]].source == edges[via[k]].source
  {
    assert forall j :: 0 <= j < |via| ==> via[j] in via;
    if j :| 0 <= j < k && edges[via[j]].source == edges[via[k]].source {
      assert Collapse.Older(edges, via[j], via[k]);
    }
    if Collapse.Superseded(edges, via[k]) {
      var older :| older in edges && edges[older].kind == EvidenceFor && Collapse.Older(edges, older, via[k])
                   && edges[older].source == edges[via[k]].source && edges[older].target == edges[via[k]].target;
      assert Supports(things, edges, older, preference);
      var j :| 0 <= j < |via| && via[j] == older;
      assert j < k;
    }
  }

  lemma SourceCame(edges: Relationships, via: seq<Id>, k: nat)
    requires k < |via| && forall id :: id in via ==> id in edges
    ensures forall id :: id in via[..k] ==> id in edges
    ensures via[k] in via && forall j :: 0 <= j < k ==> via[j] in via
    ensures (exists j :: 0 <= j < k && edges[via[j]].source == edges[via[k]].source)
            <==> edges[via[k]].source in SourcesOf(edges, via[..k])
  {
    var sources := SourcesOf(edges, via[..k]);
    assert forall j :: 0 <= j < k ==> sources[j] == edges[via[j]].source;
  }

  lemma {:induction false} LeftIsDistinct(things: Things, edges: Relationships, preference: Id, via: seq<Id>, n: nat)
    requires n <= |via| && NoDuplicates(via) && InAttachedOrder(edges, via)
    requires forall id :: id in via <==> Supports(things, edges, id, preference)
    ensures forall id :: id in via[..n] || id in Left(edges, via[..n]) ==> id in edges
    ensures SourcesOf(edges, Left(edges, via[..n])) == Distinct(SourcesOf(edges, via[..n]))
  {
    hide Collapse.Superseded, NoDuplicates, InAttachedOrder;
    assert forall id :: id in via ==> id in edges;
    if n > 0 {
      var front, last := via[..n - 1], via[n - 1];
      assert via[..n][..n - 1] == front && via[..n][n - 1] == last && last in via;
      LeftIsDistinct(things, edges, preference, via, n - 1);
      SupersededIff(things, edges, preference, via, n - 1);
      SourceCame(edges, via, n - 1);
      var sources := SourcesOf(edges, via[..n]);
      assert sources[..n - 1] == SourcesOf(edges, front) && sources[n - 1] == edges[last].source;
      DistinctKeepsElements(SourcesOf(edges, front));
      assert edges[last].source in Distinct(sources[..n - 1]) <==> edges[last].source in Elements(sources[..n - 1]);
      hide Distinct;
      var left := Left(edges, front);
      assert SourcesOf(edges, left + [last]) == SourcesOf(edges, left) + [edges[last].source];
    }
  }

  /** The evidence shown of a preference before the collapse is shown after it, each Thing where it first was. */
  lemma CollapseKeepsShown(db: Db, rows: seq<Collapse.Row>, now: Time, preference: Id, shown: seq<Id>, later: seq<Id>)
    requires Collapse.Listed(db.tables.edges, rows)
    requires IsEvidenceOf(db.tables.things, db.tables.edges, preference, shown)
    requires var after := Collapse.AfterDeletions(db, Collapse.Gone(rows), now).tables;
             IsEvidenceOf(after.things, after.edges, preference, later)
    ensures later == Distinct(shown)
  {
    var t, after := db.tables, Collapse.AfterDeletions(db, Collapse.Gone(rows), now).tables;
    Collapse.CollapseKeepsEarliest(db, rows, now);
    var via :| ListsEvidence(t.things, t.edges, preference, shown, via);
    var via' :| ListsEvidence(after.things, after.edges, preference, later, via');
    hide Collapse.Superseded, Collapse.Listed, Collapse.AfterDeletions, Collapse.Gone;
    LeftKeepsOrder(t.edges, via);
    forall id ensures id in via' <==> id in Left(t.edges, via) {
      assert id in via' <==> Supports(after.things, after.edges, id, preference);
    }
    assert InAttachedOrder(t.edges, via') by {
      assert forall id :: id in via' ==> id in t.edges && after.edges[id] == t.edges[id];
    }
    OneOrder(t.edges, via', Left(t.edges, via));
    LeftIsDistinct(t.things, t.edges, preference, via, |via|);
    assert via[..|via|] == via;
    assert SourcesOf(t.edges, via') == SourcesOf(after.edges, via');
  }
}
