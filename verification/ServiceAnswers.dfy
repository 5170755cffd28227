/**
 * Exactly when each call of the service is answered how, and what it leaves (backend/service.py),
 * read off the tables it finds.
 */
module ServiceAnswers {
  import opened Prelude
  import opened Paths
  import opened Graph
  import opened Journal
  import opened Service
  import opened Text
  import Evidence

  // --- Sizes and tags -----------------------------------------------------------------

  /** Text and tags within their bounds; a field not given is. */
  predicate Bounded(title: Option<string>, description: Option<string>, tags: Option<seq<string>>) {
    && (title.Some? ==> |title.value| <= 500)
    && (description.Some? ==> |description.value| <= 100_000)
    && (tags.Some? ==> |tags.value| <= 100 && forall i :: 0 <= i < |tags.value| ==> |tags.value[i]| <= 100)
  }

  /** One of Reli's own records: tagged as such, whatever else it is tagged. */
  predicate ReliOwn(tags: seq<string>) {
    exists i :: 0 <= i < |tags| && tags[i] in {"#User", "#Preference", "#Observation", "#ScheduledTask", "#Briefing"}
  }

  /** Evidence is anything but the user, a preference, a scheduled task or a briefing. */
  predicate FitAsEvidence(tags: seq<string>) {
    "#User" !in tags && "#Preference" !in tags && "#ScheduledTask" !in tags && "#Briefing" !in tags
  }

  lemma BoundedIff(title: Option<string>, description: Option<string>, tags: Option<seq<string>>)
    ensures Oversized(title, description, tags) <==> !Bounded(title, description, tags)
  {}

  lemma ReliOwnIff(thing: Thing)
    ensures Internal(thing) <==> ReliOwn(thing.tags)
  {}

  lemma FitIff(thing: Thing)
    ensures UnfitAsEvidence(thing) <==> !FitAsEvidence(thing.tags)
  {
    assert OBSERVATION_TAG == "#Observation" && forall tag :: tag in INTERNAL_TAGS && tag != OBSERVATION_TAG <==>
        tag in {"#User", "#Preference", "#ScheduledTask", "#Briefing"};
  }

  // --- What every accepted call leaves ------------------------------------------------

  /** The journal has one more entry, under the next number, by the actor and at the instant. */
  predicate OneEntry(db: Db, after: Db, at: Time, actor: Actor, operation: Operation, entity: Entity,
                     before: Option<Snapshot>, state: Option<Snapshot>)
  {
    && after.journal == db.journal + [Entry(db.nextEntry, at, actor, operation, entity, before, state)]
    && after.nextEntry == db.nextEntry + 1
  }

  // --- create_thing -------------------------------------------------------------------

  /** A capture stored: as given, but for the tag and the date it gets unless it is one of Reli's own records. */
  predicate StoredAsGiven(given: Thing, tomorrow: Day, now: Time, stored: Thing) {
    && stored.title == given.title && stored.description == given.description && stored.notes == given.notes
    && stored.urls == given.urls && stored.priority == given.priority && stored.active == given.active
    && stored.created == stored.updated == now
    && (if ReliOwn(given.tags) then stored.tags == given.tags && stored.checkin == given.checkin
        else && stored.tags == given.tags + (if "#New" in given.tags then [] else ["#New"])
             && stored.checkin == Some(if given.checkin.Some? then given.checkin.value else tomorrow))
  }

  /**
   * A Thing is created exactly if it is within bounds with the tag it gets, under an id not taken.
   * It is stored as given, a date given explicitly kept; a capture without one comes up tomorrow.
   */
  lemma CreateAnswers(db: Db, actor: Actor, id: Id, given: Thing, tomorrow: Day, now: Time)
    ensures var (after, outcome) := AfterCreate(db, actor, id, given, tomorrow, now);
            var fits := && Bounded(Some(given.title), given.description, Some(given.tags))
                && (ReliOwn(given.tags) || "#New" in given.tags || |given.tags| < 100);
            && (outcome == Done(id) <==> fits && id !in db.tables.things)
            && (outcome == TooLarge <==> !fits)
            && (outcome == IntegrityError <==> fits && id in db.tables.things)
            && (outcome != Done(id) ==> after == db)
            && (outcome == Done(id) ==>
                  && id in after.tables.things && StoredAsGiven(given, tomorrow, now, after.tables.things[id])
                  && after.tables == db.tables.(things := db.tables.things[id := after.tables.things[id]])
                  && OneEntry(db, after, now, actor, Create, OfThing(id), None,
                              Some(ThingState(after.tables.things[id]))))
  {
    var whole := WithCaptureDefaults(given, tomorrow).(created := now, updated := now);
    BoundedIff(Some(given.title), given.description, Some(given.tags));
    BoundedIff(Some(whole.title), whole.description, Some(whole.tags));
    ReliOwnIff(given);
    TagBounds(given.tags);
    WrittenThing(db, now, actor, Create, id, whole);
    hide WriteThing, Oversized, Internal;
  }

  lemma TagBounds(tags: seq<string>)
    ensures var more := tags + ["#New"];
            Bounded(None, None, Some(more)) <==> Bounded(None, None, Some(tags)) && |tags| < 100
  {
    var more := tags + ["#New"];
    assert |"#New"| == 4;
    assert more[|tags|] == "#New";
    assert forall i :: 0 <= i < |tags| ==> more[i] == tags[i];
  }

  // --- update_thing -------------------------------------------------------------------

  /** The update would archive a scheduled task's record, or take its tag away. */
  predicate Hides(thing: Thing, c: Changes) {
    && "#ScheduledTask" in thing.tags
    && ((c.active.Some? && !c.active.value) || (c.tags.Some? && "#ScheduledTask" !in c.tags.value))
  }

  /** A field given replaces the stored one, a field left out stays as it is. */
  predicate Replaces<T(==)>(given: Option<T>, before: T, after: T) {
    after == if given.Some? then given.value else before
  }

  /** What was updated: every field given, and only those, and the instant. */
  predicate UpdatedAsGiven(before: Thing, c: Changes, now: Time, after: Thing) {
    && Replaces(c.title, before.title, after.title) && Replaces(c.notes, before.notes, after.notes)
    && Replaces(c.tags, before.tags, after.tags) && Replaces(c.urls, before.urls, after.urls)
    && Replaces(c.priority, before.priority, after.priority) && Replaces(c.active, before.active, after.active)
    && (c.description.Some? ==> after.description == c.description)
    && (c.description.None? ==> after.description == before.description)
    && (c.checkin.Some? ==> after.checkin == c.checkin) && (c.checkin.None? ==> after.checkin == before.checkin)
    && after.created == before.created && after.updated == now
  }

  /**
   * An update is accepted exactly if it is within bounds, of a Thing that is there, expects with an
   * offset the instant it was last updated at or nothing, and neither archives nor untags a
   * scheduled task. The first of these that fails is the answer.
   */
  lemma UpdateAnswers(db: Db, actor: Actor, id: Id, c: Changes, expected: Option<Reading>, now: Time)
    ensures var (after, outcome) := AfterUpdate(db, actor, id, c, expected, now);
            var fits, found := Bounded(c.title, c.description, c.tags), id in db.tables.things;
            var zoned := expected.Some? ==> expected.value.zoned;
            && (outcome == TooLarge <==> !fits)
            && (outcome == NotFound <==> fits && !found)
            && (outcome == Unzoned <==> fits && found && !zoned)
            && (outcome == Stale <==>
                  fits && found && zoned && expected.Some? && expected.value.at != db.tables.things[id].updated)
            && (outcome == HeartbeatKept <==>
                  && fits && found && zoned && (expected.Some? ==> expected.value.at == db.tables.things[id].updated)
                  && Hides(db.tables.things[id], c))
            && (outcome == Done(id) <==>
                  && fits && found && zoned && (expected.Some? ==> expected.value.at == db.tables.things[id].updated)
                  && !Hides(db.tables.things[id], c))
            && (outcome != Done(id) ==> after == db)
            && (outcome == Done(id) ==>
                  && id in after.tables.things
                  && UpdatedAsGiven(db.tables.things[id], c, now, after.tables.things[id])
                  && after.tables == db.tables.(things := db.tables.things[id := after.tables.things[id]])
                  && OneEntry(db, after, now, actor, Update, OfThing(id), Some(ThingState(db.tables.things[id])),
                              Some(ThingState(after.tables.things[id]))))
  {
    BoundedIff(c.title, c.description, c.tags);
    if id in db.tables.things {
      WrittenThing(db, now, actor, Update, id, Updated(db.tables.things[id], c, now));
    }
    hide WriteThing, Oversized, Bounded;
  }

  // --- relate and unrelate ------------------------------------------------------------

  /** The pair already carries an evidence edge. */
  ghost predicate CarriesEvidence(edges: Relationships, source: Id, target: Id) {
    exists k :: k in edges && edges[k].kind == EvidenceFor && edges[k].source == source && edges[k].target == target
  }

  lemma LinkedIff(edges: Relationships, source: Id, target: Id)
    ensures Linked(edges, source, target, EvidenceFor) <==> CarriesEvidence(edges, source, target)
  {
    if k :| k in edges && edges[k].kind == EvidenceFor && edges[k].source == source && edges[k].target == target {
      assert Carries(edges, k, source, target, EvidenceFor);
    }
  }

  /** Its context is within bounds, its ends differ, it closes no cycle, and evidence is fit. */
  ghost predicate Passes(t: Tables, edge: Edge) {
    && (edge.context.Some? ==> |edge.context.value| <= 2_000)
    && edge.source != edge.target
    && (edge.kind == ChildOf ==> !Reaches(ChildOfPairs(t.edges), edge.target, edge.source))
    && (edge.kind == EvidenceFor && edge.source in t.things ==> FitAsEvidence(t.things[edge.source].tags))
  }

  /** What the database asks of it: a new id, ends that are there, and no second evidence edge of a pair. */
  ghost predicate Fits(t: Tables, id: Id, edge: Edge) {
    && id !in t.edges && edge.source in t.things && edge.target in t.things
    && (edge.kind == EvidenceFor ==> !CarriesEvidence(t.edges, edge.source, edge.target))
  }

  lemma InsertAnswers(db: Db, actor: Actor, id: Id, edge: Edge)
    ensures var (after, outcome) := AfterInsertEdge(db, actor, id, edge);
            && (outcome == Done(id) <==> Passes(db.tables, edge) && Fits(db.tables, id, edge))
            && (outcome == IntegrityError <==> Passes(db.tables, edge) && !Fits(db.tables, id, edge))
            && (outcome.Done? ==> outcome == Done(id)) && (outcome != Done(id) ==> after == db)
            && (outcome == Done(id) ==>
                  && after.tables == db.tables.(edges := db.tables.edges[id := edge])
                  && OneEntry(db, after, edge.created, actor, Operation.Relate, OfEdge(id), None,
                              Some(EdgeState(edge))))
  {
    LinkedIff(db.tables.edges, edge.source, edge.target);
    if edge.source in db.tables.things {
      FitIff(db.tables.things[edge.source]);
    }
    hide Reaches, UnfitAsEvidence, FitAsEvidence, Linked, CarriesEvidence, ChildOfPairs;
  }

  /**
   * A relationship is made exactly if its context is within bounds, its ends are two different
   * Things that are there, its id is new, a `ChildOf` edge closes no cycle, and an evidence edge
   * comes from fit evidence that does not support its target already. What is refused before
   * anything is written is answered in that order; a refusal of the database's is a duplicate
   * exactly if an edge of that kind joins the pair already.
   */
  lemma RelateAnswers(db: Db, actor: Actor, id: Id, edge: Edge)
    ensures var (after, outcome) := AfterRelate(db, actor, id, edge);
            var t := db.tables;
            var small := edge.context.Some? ==> |edge.context.value| <= 2_000;
            var cycle := edge.kind == ChildOf && Reaches(ChildOfPairs(t.edges), edge.target, edge.source);
            var joined := exists k :: k in t.edges && t.edges[k].kind == edge.kind && t.edges[k].source == edge.source
                                      && t.edges[k].target == edge.target;
            && (outcome == TooLarge <==> !small)
            && (outcome == SelfLoop <==> small && edge.source == edge.target)
            && (outcome == ClosesCycle <==> small && edge.source != edge.target && cycle)
            && (outcome == NotEvidence <==>
                  && small && edge.source != edge.target && edge.kind == EvidenceFor && edge.source in t.things
                  && !FitAsEvidence(t.things[edge.source].tags))
            && (outcome == Duplicate <==> Passes(t, edge) && !Fits(t, id, edge) && joined)
            && (outcome == IntegrityError <==> Passes(t, edge) && !Fits(t, id, edge) && !joined)
            && (outcome == Done(id) <==>
                  && small && edge.source != edge.target && !cycle
                  && edge.source in t.things && edge.target in t.things && id !in t.edges
                  && (edge.kind == EvidenceFor ==>
                        && FitAsEvidence(t.things[edge.source].tags)
                        && !CarriesEvidence(t.edges, edge.source, edge.target)))
            && (outcome != Done(id) ==> after == db)
            && (outcome == Done(id) ==>
                  && after.tables == t.(edges := t.edges[id := edge])
                  && OneEntry(db, after, edge.created, actor, Operation.Relate, OfEdge(id), None,
                              Some(EdgeState(edge))))
  {
    InsertAnswers(db, actor, id, edge);
    var edges := db.tables.edges;
    if k :| k in edges && edges[k].kind == edge.kind && edges[k].source == edge.source
            && edges[k].target == edge.target {
      assert Carries(edges, k, edge.source, edge.target, edge.kind);
    }
    if edge.source in db.tables.things {
      FitIff(db.tables.things[edge.source]);
    }
    hide Reaches, UnfitAsEvidence, FitAsEvidence, CarriesEvidence, ChildOfPairs, Insertable;
  }

  /** An edge is removed exactly if it is there, and with its entry; nothing else changes. */
  lemma UnrelateAnswers(db: Db, actor: Actor, id: Id, now: Time)
    ensures var (after, outcome) := AfterUnrelate(db, actor, id, now);
            && outcome == (if id in db.tables.edges then Done(id) else NotFound)
            && (id !in db.tables.edges ==> after == db)
            && (id in db.tables.edges ==>
                  && after.tables.things == db.tables.things
                  && (forall k :: k in after.tables.edges <==> k in db.tables.edges && k != id)
                  && (forall k :: k in after.tables.edges ==> after.tables.edges[k] == db.tables.edges[k])
                  && OneEntry(db, after, now, actor, Operation.Unrelate, OfEdge(id),
                              Some(EdgeState(db.tables.edges[id])), None))
  {}

  // --- Preferences ----------------------------------------------------------------------

  /**
   * Evidence is added to what is tagged a preference, if it is there, fit and something else; the
   * edge is the one new row. Evidence that is there already is answered as added, and changes nothing.
   */
  lemma AddEvidenceAnswers(db: Db, actor: Actor, preference: Id, evidence: Id, id: Id, now: Time)
    ensures var (after, outcome) := AfterAddEvidence(db, actor, preference, evidence, id, now);
            var t := db.tables;
            var tagged := preference in t.things && "#Preference" in t.things[preference].tags;
            var linked := CarriesEvidence(t.edges, evidence, preference);
            var edge := Edge(evidence, preference, EvidenceFor, None, now);
            && (outcome == NotFound <==> preference !in t.things || (tagged && evidence !in t.things))
            && (outcome == NotPreference <==> preference in t.things && !tagged)
            && (outcome == SelfLoop <==> tagged && !linked && evidence == preference)
            && (outcome == NotEvidence <==>
                  && tagged && evidence in t.things && !linked && evidence != preference
                  && !FitAsEvidence(t.things[evidence].tags))
            && (outcome == IntegrityError <==>
                  && tagged && evidence in t.things && !linked && evidence != preference
                  && FitAsEvidence(t.things[evidence].tags) && id in t.edges)
            && (outcome == Done(preference) <==>
                  && tagged && evidence in t.things
                  && (linked || (evidence != preference && FitAsEvidence(t.things[evidence].tags) && id !in t.edges)))
            && (outcome != Done(preference) || linked ==> after == db)
            && (outcome == Done(preference) && !linked ==>
                  && after.tables == t.(edges := t.edges[id := edge])
                  && OneEntry(db, after, now, actor, Operation.Relate, OfEdge(id), None, Some(EdgeState(edge))))
  {
    RelateAnswers(db, actor, id, Edge(evidence, preference, EvidenceFor, None, now));
    LinkedIff(db.tables.edges, evidence, preference);
    hide AfterRelate, UnfitAsEvidence, FitAsEvidence, Linked, Reaches, ChildOfPairs;
  }

  /** A rejection adds the one tag, if there is room for it, and the instant; a second one changes nothing. */
  lemma RejectAnswers(db: Db, actor: Actor, preference: Id, now: Time)
    ensures var (after, outcome) := AfterReject(db, actor, preference, now);
            var there := preference in db.tables.things;
            var tags := if there then db.tables.things[preference].tags else [];
            var fits := |tags| < 100 && forall i :: 0 <= i < |tags| ==> |tags[i]| <= 100;
            && (outcome == NotFound <==> !there)
            && (outcome == NotPreference <==> there && "#Preference" !in tags)
            && (outcome == TooLarge <==> "#Preference" in tags && "#Rejected" !in tags && !fits)
            && (outcome == Done(preference) <==> "#Preference" in tags && ("#Rejected" in tags || fits))
            && (outcome != Done(preference) || "#Rejected" in tags ==> after == db)
            && (outcome == Done(preference) && "#Rejected" !in tags ==>
                  && var before := db.tables.things[preference];
                  var rejected := before.(tags := tags + ["#Rejected"], updated := now);
                  && after.tables == db.tables.(things := db.tables.things[preference := rejected])
                  && OneEntry(db, after, now, actor, Update, OfThing(preference), Some(ThingState(before)),
                              Some(ThingState(rejected))))
  {
    if preference in db.tables.things {
      var tags := db.tables.things[preference].tags;
      var more := tags + ["#Rejected"];
      UpdateAnswers(db, actor, preference, NoChanges.(tags := Some(more)), None, now);
      assert |"#Rejected"| == 9 && more[|tags|] == "#Rejected";
      assert forall i :: 0 <= i < |tags| ==> more[i] == tags[i];
      assert forall tag :: tag in tags ==> tag in more;
      hide AfterUpdate;
    }
  }

  /** Evidence that is there and fit. */
  predicate Stands(things: Things, id: Id) {
    id in things && FitAsEvidence(things[id].tags)
  }

  /** The first of the ids that is missing or unfit decides. */
  lemma {:induction false} FirstUnfit(things: Things, ids: seq<Id>) returns (i: nat)
    ensures i <= |ids| && forall j :: 0 <= j < i ==> Stands(things, ids[j])
    ensures i < |ids| ==> !Stands(things, ids[i])
    ensures EvidenceRefusal(things, ids)
            == if i == |ids| then None else if ids[i] !in things then Some(NotFound) else Some(NotEvidence)
  {
    i := 0;
    if ids != [] {
      if ids[0] in things {
        FitIff(things[ids[0]]);
      }
      hide FitAsEvidence, UnfitAsEvidence;
      if Stands(things, ids[0]) {
        i := FirstUnfit(things, ids[1..]);
        i := i + 1;
      }
    }
  }

  lemma {:induction false} RefusalOfOneMore(things: Things, ids: seq<Id>, last: Id)
    ensures EvidenceRefusal(things, ids + [last])
            == if EvidenceRefusal(things, ids).Some? then EvidenceRefusal(things, ids)
               else EvidenceRefusal(things, [last])
  {
    hide UnfitAsEvidence;
    if ids == [] {
      assert ids + [last] == [last];
    } else {
      RefusalOfOneMore(things, ids[1..], last);
      assert (ids + [last])[1..] == ids[1..] + [last];
    }
  }

  /** Naming the same evidence twice changes no refusal. */
  lemma {:induction false} RefusalOfDistinct(things: Things, ids: seq<Id>)
    ensures EvidenceRefusal(things, Distinct(ids)) == EvidenceRefusal(things, ids)
  {
    if ids != [] {
      var front, last := ids[..|ids| - 1], ids[|ids| - 1];
      RefusalOfDistinct(things, front);
      RefusalOfOneMore(things, front, last);
      assert front + [last] == ids;
      if last in Distinct(front) {
        var i := FirstUnfit(things, Distinct(front));
        if i == |Distinct(front)| {
          assert Stands(things, last);
          var j := FirstUnfit(things, [last]);
        }
      } else {
        RefusalOfOneMore(things, Distinct(front), last);
      }
    }
  }

  function EvidenceEntries(ids: seq<Id>, evidence: seq<Id>, preference: Id, actor: Actor, next: nat, now: Time)
    : seq<Entry>
    requires |ids| == |evidence|
  {
    seq(|ids|, i requires 0 <= i < |ids| =>
      Entry(next + i, now, actor, Operation.Relate, OfEdge(ids[i]), None,
            Some(EdgeState(Edge(evidence[i], preference, EvidenceFor, None, now)))))
  }

  /** One edge for each piece of evidence, in order, each with its own entry; nothing else. */
  ghost predicate EvidenceLinked(db: Db, after: Db, actor: Actor, preference: Id, evidence: seq<Id>, ids: seq<Id>,
                                 now: Time)
    requires |ids| == |evidence|
  {
    && after.tables.things == db.tables.things
    && (forall k :: k in after.tables.edges <==> k in db.tables.edges || k in ids)
    && (forall k :: k in db.tables.edges ==> k in after.tables.edges && after.tables.edges[k] == db.tables.edges[k])
    && (forall i :: 0 <= i < |ids| ==>
          ids[i] in after.tables.edges
          && after.tables.edges[ids[i]] == Edge(evidence[i], preference, EvidenceFor, None, now))
    && after.journal == db.journal + EvidenceEntries(ids, evidence, preference, actor, db.nextEntry, now)
    && after.nextEntry == db.nextEntry + |ids|
  }

  /** Whether the last edge fits depends on its id alone. */
  lemma LastFits(db: Db, earlier: Db, actor: Actor, preference: Id, evidence: seq<Id>, ids: seq<Id>, now: Time, id: Id,
                 last: Id)
    requires |ids| == |evidence| && EvidenceLinked(db, earlier, actor, preference, evidence, ids, now)
    requires preference in db.tables.things && last !in evidence && last != preference
             && Stands(db.tables.things, last) && !CarriesEvidence(db.tables.edges, last, preference)
    ensures var edge := Edge(last, preference, EvidenceFor, None, now);
            && Passes(earlier.tables, edge)
            && (Fits(earlier.tables, id, edge) <==> id !in ids && id !in db.tables.edges)
  {
    hide FitAsEvidence;
  }

  lemma OneMoreLinked(db: Db, earlier: Db, after: Db, actor: Actor, preference: Id, evidence: seq<Id>, ids: seq<Id>,
                      now: Time)
    requires |ids| == |evidence| > 0
    requires var n := |ids| - 1;
             var edge := Edge(evidence[n], preference, EvidenceFor, None, now);
             && EvidenceLinked(db, earlier, actor, preference, evidence[..n], ids[..n], now)
             && ids[n] !in earlier.tables.edges
             && after.tables == earlier.tables.(edges := earlier.tables.edges[ids[n] := edge])
             && OneEntry(earlier, after, now, actor, Operation.Relate, OfEdge(ids[n]), None, Some(EdgeState(edge)))
    ensures EvidenceLinked(db, after, actor, preference, evidence, ids, now)
  {
    var n := |ids| - 1;
    assert ids == ids[..n] + [ids[n]];
    var entries := EvidenceEntries(ids, evidence, preference, actor, db.nextEntry, now);
    assert entries[..n] == EvidenceEntries(ids[..n], evidence[..n], preference, actor, db.nextEntry, now);
    assert entries == entries[..n] + [entries[n]];
    forall i | 0 <= i < |ids|
      ensures ids[i] in after.tables.edges
              && after.tables.edges[ids[i]] == Edge(evidence[i], preference, EvidenceFor, None, now)
    {
      if i < n {
        assert ids[..n][i] in earlier.tables.edges;
      }
    }
  }

  /** Sound evidence is all linked exactly if the ids of its edges are new, and each another. */
  lemma {:induction false} EvidenceAnswers(db: Db, actor: Actor, preference: Id, evidence: seq<Id>, ids: seq<Id>,
                                           now: Time)
    requires |ids| == |evidence| && NoDuplicates(evidence) && preference in db.tables.things
    requires forall id :: id in evidence ==>
               && Stands(db.tables.things, id) && id != preference
               && !CarriesEvidence(db.tables.edges, id, preference)
    ensures var (after, outcome) := AfterEvidence(db, actor, preference, evidence, ids, now);
            var unused := NoDuplicates(ids) && forall id :: id in ids ==> id !in db.tables.edges;
            && outcome == (if unused then Done(preference) else IntegrityError)
            && (unused ==> EvidenceLinked(db, after, actor, preference, evidence, ids, now))
  {
    hide AfterInsertEdge, Stands, CarriesEvidence, EvidenceLinked, Passes, Fits, OneEntry;
    if evidence == [] {
      NothingLinked(db, actor, preference, now);
    } else {
      var n := |evidence| - 1;
      LastIsNew(evidence);
      assert evidence[n] in evidence && forall id :: id in evidence[..n] ==> id in evidence;
      EvidenceAnswers(db, actor, preference, evidence[..n], ids[..n], now);
      UnusedFront(ids, db.tables.edges);
      var (earlier, outcome) := AfterEvidence(db, actor, preference, evidence[..n], ids[..n], now);
      if outcome.Done? {
        LastFits(db, earlier, actor, preference, evidence[..n], ids[..n], now, ids[n], evidence[n]);
        InsertAnswers(earlier, actor, ids[n], Edge(evidence[n], preference, EvidenceFor, None, now));
        LastIsInserted(db, earlier, actor, preference, evidence, ids, now);
      }
    }
  }

  lemma NothingLinked(db: Db, actor: Actor, preference: Id, now: Time)
    ensures EvidenceLinked(db, db, actor, preference, [], [], now)
  {
    assert db.journal + EvidenceEntries([], [], preference, actor, db.nextEntry, now) == db.journal;
  }

  lemma UnusedFront(ids: seq<Id>, edges: Relationships)
    requires ids != []
    ensures var n := |ids| - 1;
            (NoDuplicates(ids) && forall id :: id in ids ==> id !in edges)
            <==> && NoDuplicates(ids[..n]) && (forall id :: id in ids[..n] ==> id !in edges)
                 && ids[n] !in ids[..n] && ids[n] !in edges
  {
    var n := |ids| - 1;
    assert ids == ids[..n] + [ids[n]];
  }

  lemma LastIsInserted(db: Db, earlier: Db, actor: Actor, preference: Id, evidence: seq<Id>, ids: seq<Id>, now: Time)
    requires |ids| == |evidence| > 0
    requires EvidenceLinked(db, earlier, actor, preference, evidence[..|ids| - 1], ids[..|ids| - 1], now)
    ensures var n := |ids| - 1;
            var (after, outcome) := AfterInsertEdge(earlier, actor, ids[n],
                                                    Edge(evidence[n], preference, EvidenceFor, None, now));
            outcome.Done? ==> EvidenceLinked(db, after, actor, preference, evidence, ids, now)
  {
    hide AfterInsertEdge, EvidenceLinked, Passes, OneEntry;
    var n := |ids| - 1;
    var edge := Edge(evidence[n], preference, EvidenceFor, None, now);
    InsertAnswers(earlier, actor, ids[n], edge);
    var (after, outcome) := AfterInsertEdge(earlier, actor, ids[n], edge);
    if outcome == Done(ids[n]) {
      OneMoreLinked(db, earlier, after, actor, preference, evidence, ids, now);
    }
  }

  function PreferenceRow(title: string, scope: string, now: Time): Thing {
    Thing(title, None, map["scope" := scope], ["#Preference"], map[], None, 0.0, true, now, now)
  }

  function AnchorEdge(preference: Id, now: Time): Edge {
    Edge(1, preference, RelatedTo, None, now)
  }

  /** The Thing and its anchor edge, each with its entry; nothing else. */
  ghost predicate Anchored(db: Db, after: Db, actor: Actor, preference: Id, thing: Thing, anchorEdge: Id, now: Time) {
    && after.tables.things == db.tables.things[preference := thing]
    && after.tables.edges == db.tables.edges[anchorEdge := AnchorEdge(preference, now)]
    && after.journal == db.journal
                        + [Entry(db.nextEntry, now, actor, Create, OfThing(preference), None, Some(ThingState(thing))),
                           Entry(db.nextEntry + 1, now, actor, Operation.Relate, OfEdge(anchorEdge), None,
                                 Some(EdgeState(AnchorEdge(preference, now))))]
    && after.nextEntry == db.nextEntry + 2
  }

  /** The ids generated for a preference are all unused, and each another. */
  ghost predicate Unused(t: Tables, preference: Id, anchorEdge: Id, ids: seq<Id>) {
    && preference !in t.things && anchorEdge !in t.edges && anchorEdge !in ids
    && NoDuplicates(ids) && forall id :: id in ids ==> id !in t.edges
  }

  /** The preference inserted and anchored, once its title is within bounds. */
  lemma AnchorAnswers(db: Db, actor: Actor, preference: Id, title: string, scope: string, anchorEdge: Id, now: Time)
    requires |title| <= 500 && 1 in db.tables.things
    ensures var thing := PreferenceRow(title, scope, now);
            var (withThing, inserted) := AfterInsertThing(db, actor, preference, PreferenceThing(title, scope, now),
                                                          now);
            && (preference in db.tables.things ==> inserted == IntegrityError)
            && (preference !in db.tables.things ==>
                  && inserted.Done?
                  && var (after, linked) := AfterInsertEdge(withThing, actor, anchorEdge,
                                                            Edge(USER_ANCHOR_ID, preference, RelatedTo, None, now));
                  && (linked.Done? <==> anchorEdge !in db.tables.edges) && (linked.Done? || linked == IntegrityError)
                  && (linked.Done? ==> Anchored(db, after, actor, preference, thing, anchorEdge, now)))
  {
    var thing := PreferenceThing(title, scope, now);
    assert thing.tags == ["#Preference"] && |"#Preference"| == 11;
    BoundedIff(Some(thing.title), thing.description, Some(thing.tags));
    WrittenThing(db, now, actor, Create, preference, thing);
    var withThing := WriteThing(db, now, actor, Create, preference, thing);
    InsertAnswers(withThing, actor, anchorEdge, Edge(USER_ANCHOR_ID, preference, RelatedTo, None, now));
    hide WriteThing, AfterInsertEdge, Oversized, Reaches;
  }

  /** What the second transaction writes: the preference, its anchor edge, and an edge for each piece of evidence. */
  ghost predicate PreferenceMade(db: Db, after: Db, actor: Actor, preference: Id, thing: Thing, anchorEdge: Id,
                                 evidence: seq<Id>, ids: seq<Id>, now: Time)
    requires |ids| == |evidence|
  {
    exists between :: Anchored(db, between, actor, preference, thing, anchorEdge, now)
                      && EvidenceLinked(between, after, actor, preference, evidence, ids, now)
  }

  lemma PreferenceAnswers(db: Db, actor: Actor, title: string, scope: string, evidence: seq<Id>, preference: Id,
                          anchorEdge: Id, ids: seq<Id>, now: Time)
    requires |ids| == |evidence| && |title| <= 500 && 1 in db.tables.things
    requires NoDuplicates(evidence) && EdgesJoinThings(db.tables.things, db.tables.edges)
    requires forall id :: id in evidence ==> Stands(db.tables.things, id)
    ensures var (after, outcome) := AfterPreference(db, actor, title, scope, evidence, preference, anchorEdge, ids,
                                                    now);
            var unused := Unused(db.tables, preference, anchorEdge, ids);
            && outcome == (if unused then Done(preference) else IntegrityError)
            && (!unused ==> after == db)
            && (unused ==> PreferenceMade(db, after, actor, preference, PreferenceRow(title, scope, now), anchorEdge,
                                          evidence, ids, now))
  {
    hide AfterInsertThing, AfterInsertEdge, AfterEvidence, EvidenceLinked, CarriesEvidence, FitAsEvidence;
    AnchorAnswers(db, actor, preference, title, scope, anchorEdge, now);
    if preference !in db.tables.things && anchorEdge !in db.tables.edges {
      var thing := PreferenceThing(title, scope, now);
      var withThing := AfterInsertThing(db, actor, preference, thing, now).0;
      var between := AfterInsertEdge(withThing, actor, anchorEdge,
                                     Edge(USER_ANCHOR_ID, preference, RelatedTo, None, now)).0;
      AnchoredEvidence(db, between, actor, preference, thing, anchorEdge, evidence, now);
      EvidenceAnswers(between, actor, preference, evidence, ids, now);
    }
  }

  /** Beside a new preference and its anchor edge the evidence still stands, and supports it by no edge yet. */
  lemma AnchoredEvidence(db: Db, between: Db, actor: Actor, preference: Id, thing: Thing, anchorEdge: Id,
                         evidence: seq<Id>, now: Time)
    requires Anchored(db, between, actor, preference, thing, anchorEdge, now)
    requires EdgesJoinThings(db.tables.things, db.tables.edges) && preference !in db.tables.things
    requires forall id :: id in evidence ==> Stands(db.tables.things, id)
    ensures forall id :: id in evidence ==>
              && Stands(between.tables.things, id) && id != preference
              && !CarriesEvidence(between.tables.edges, id, preference)
  {
    hide FitAsEvidence;
  }

  /** The anchor is there: as it was, or made with its own entry. */
  ghost predicate AnchorStands(db: Db, after: Db, actor: Actor, now: Time) {
    if 1 in db.tables.things then after == db
    else
      var thing := Thing("User", Some("The anchor every preference hangs off."), map[], ["#User"], map[], None, 0.0,
                         true, now, now);
      && after.tables == db.tables.(things := db.tables.things[1 := thing])
      && OneEntry(db, after, now, actor, Create, OfThing(1), None, Some(ThingState(thing)))
  }

  lemma AnchorIsMade(db: Db, actor: Actor, now: Time)
    ensures AnchorStands(db, AfterAnchor(db, actor, now), actor, now)
  {}

  /**
   * A preference is recorded exactly if its scope is more than white space, scope and title are
   * within bounds, some evidence is given, all of it is there and fit, and the ids generated are
   * unused; the first of these that fails is the answer, and the first piece of evidence at fault
   * among several. What is refused before the anchor is made leaves nothing.
   */
  lemma RecordAnswers(db: Db, actor: Actor, title: string, scope: string, evidence: seq<Id>, preference: Id,
                      anchorEdge: Id, ids: seq<Id>, now: Time) returns (first: nat, anchored: Db)
    requires |ids| == |Distinct(evidence)| && EdgesJoinThings(db.tables.things, db.tables.edges)
    ensures first <= |evidence| && forall j :: 0 <= j < first ==> Stands(db.tables.things, evidence[j])
    ensures first < |evidence| ==> !Stands(db.tables.things, evidence[first])
    ensures AnchorStands(db, anchored, actor, now)
    ensures var (after, outcome) := AfterRecord(db, actor, title, scope, evidence, preference, anchorEdge, ids, now);
            var blank := forall i :: 0 <= i < |scope| ==> IsSpace(scope[i]);
            var small := |Strip(scope)| <= 100 && |title| <= 500;
            var sound := !blank && small && evidence != [] && first == |evidence|;
            && (outcome == NoScope <==> blank)
            && (outcome == TooLarge <==> !blank && !small)
            && (outcome == NoEvidence <==> !blank && small && evidence == [])
            && (outcome == NotFound <==>
                  !blank && small && first < |evidence| && evidence[first] !in db.tables.things)
            && (outcome == NotEvidence <==>
                  !blank && small && first < |evidence| && evidence[first] in db.tables.things)
            && (outcome == IntegrityError <==> sound && !Unused(anchored.tables, preference, anchorEdge, ids))
            && (outcome == Done(preference) <==> sound && Unused(anchored.tables, preference, anchorEdge, ids))
            && (!sound ==> after == db) && (outcome == IntegrityError ==> after == anchored)
            && (outcome == Done(preference) ==>
                  PreferenceMade(anchored, after, actor, preference, PreferenceRow(title, Strip(scope), now),
                                 anchorEdge, Distinct(evidence), ids, now))
  {
    BlankIff(scope);
    first := FirstUnfit(db.tables.things, evidence);
    RefusalOfDistinct(db.tables.things, evidence);
    SomeDistinct(evidence);
    anchored := AfterAnchor(db, actor, now);
    AnchorIsMade(db, actor, now);
    hide Strip, IsSpace, AfterPreference, EvidenceRefusal, Distinct, PreferenceMade, Unused, FitAsEvidence, AfterAnchor;
    if first == |evidence| && |title| <= 500 {
      StillStands(db, anchored, actor, evidence, now);
      PreferenceAnswers(anchored, actor, title, Strip(scope), Distinct(evidence), preference, anchorEdge, ids, now);
    }
  }

  lemma SomeDistinct(ids: seq<Id>)
    ensures (Distinct(ids) == [] <==> ids == []) && NoDuplicates(Distinct(ids))
    ensures forall id :: id in Distinct(ids) <==> id in ids
  {
    Evidence.DistinctKeepsElements(ids);
    hide Distinct;
    assert forall id :: id in Distinct(ids) <==> id in Elements(Distinct(ids));
    assert forall id :: id in ids <==> id in Elements(ids);
    if ids != [] {
      assert ids[0] in Distinct(ids);
    }
    if Distinct(ids) != [] {
      assert Distinct(ids)[0] in ids;
    }
  }

  lemma StillStands(db: Db, anchored: Db, actor: Actor, evidence: seq<Id>, now: Time)
    requires AnchorStands(db, anchored, actor, now) && EdgesJoinThings(db.tables.things, db.tables.edges)
    requires forall j :: 0 <= j < |evidence| ==> Stands(db.tables.things, evidence[j])
    ensures 1 in anchored.tables.things && EdgesJoinThings(anchored.tables.things, anchored.tables.edges)
    ensures forall id :: id in Distinct(evidence) ==> Stands(anchored.tables.things, id)
  {
    SomeDistinct(evidence);
    hide Distinct, FitAsEvidence;
  }
}
