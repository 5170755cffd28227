/**
 * The only write path into the graph (backend/service.py). Every public call writes its rows and
 * their journal entries in one transaction: it commits them together, or leaves nothing.
 */
module Service {
  import opened Prelude
  import opened Paths
  import opened Graph
  import opened Journal
  import opened Text
  import Hierarchy

  const MAX_TITLE_CHARS := 500
  const MAX_DESCRIPTION_CHARS := 100_000
  const MAX_TAGS := 100
  const MAX_TAG_CHARS := 100
  const MAX_CONTEXT_CHARS := 2_000
  const MAX_SCOPE_CHARS := 100

  datatype Outcome =
    | Done(id: Id)
    | TooLarge | NotFound | Unzoned | Stale | HeartbeatKept | SelfLoop | ClosesCycle | NotEvidence | Duplicate
    | IntegrityError
    | NotPreference | NoScope | NoEvidence

  /** The fields an update was given; the others are left as they are. */
  datatype Changes = Changes(
    title: Option<string>, description: Option<string>, notes: Option<map<string, string>>, tags: Option<seq<string>>,
    urls: Option<map<string, string>>, checkin: Option<Day>, priority: Option<real>, active: Option<bool>)

  const NoChanges := Changes(None, None, None, None, None, None, None, None)

  /** The `updated_at` a caller read, and whether it carries an offset from UTC. */
  datatype Reading = Reading(at: Time, zoned: bool)

  /** Text and tags over their bounds; a field not given has none. */
  predicate Oversized(title: Option<string>, description: Option<string>, tags: Option<seq<string>>) {
    || (title.Some? && |title.value| > MAX_TITLE_CHARS)
    || (description.Some? && |description.value| > MAX_DESCRIPTION_CHARS)
    || (tags.Some? && (|tags.value| > MAX_TAGS || exists tag :: tag in tags.value && |tag| > MAX_TAG_CHARS))
  }

  function Or<T>(given: Option<T>, stored: T): T {
    if given.Some? then given.value else stored
  }

  function Updated(thing: Thing, c: Changes, now: Time): Thing {
    Thing(Or(c.title, thing.title), if c.description.Some? then c.description else thing.description,
          Or(c.notes, thing.notes), Or(c.tags, thing.tags), Or(c.urls, thing.urls),
          if c.checkin.Some? then c.checkin else thing.checkin,
          Or(c.priority, thing.priority), Or(c.active, thing.active), thing.created, now)
  }

  /** A capture outside the internal tags is marked new and comes up tomorrow unless dated. */
  function WithCaptureDefaults(thing: Thing, tomorrow: Day): Thing {
    if Internal(thing) then thing
    else thing.(tags := if NEW_TAG in thing.tags then thing.tags else thing.tags + [NEW_TAG],
                checkin := if thing.checkin.None? then Some(tomorrow) else thing.checkin)
  }

  predicate HidesHeartbeat(thing: Thing, c: Changes) {
    && SCHEDULED_TASK_TAG in thing.tags
    && (c.active == Some(false) || (c.tags.Some? && SCHEDULED_TASK_TAG !in c.tags.value))
  }

  /** One of Reli's own records other than an observation adds no strength as evidence. */
  predicate UnfitAsEvidence(thing: Thing) {
    exists tag :: tag in thing.tags && tag in INTERNAL_TAGS && tag != OBSERVATION_TAG
  }

  predicate Carries(edges: Relationships, id: Id, source: Id, target: Id, kind: Kind) {
    id in edges && edges[id].source == source && edges[id].target == target && edges[id].kind == kind
  }

  predicate Linked(edges: Relationships, source: Id, target: Id, kind: Kind) {
    exists id :: id in edges && Carries(edges, id, source, target, kind)
  }

  // --- What each call leaves, and answers ---------------------------------------

  function WriteThing(db: Db, now: Time, actor: Actor, operation: Operation, id: Id, thing: Thing): Db {
    Write(db, now, actor, operation, OfThing(id), Some(ThingState(thing)))
  }

  function AfterInsertThing(db: Db, actor: Actor, id: Id, thing: Thing, now: Time): (Db, Outcome) {
    if Oversized(Some(thing.title), thing.description, Some(thing.tags)) then (db, TooLarge)
    else if id in db.tables.things then (db, IntegrityError)
    else (WriteThing(db, now, actor, Create, id, thing), Done(id))
  }

  function AfterCreate(db: Db, actor: Actor, id: Id, thing: Thing, tomorrow: Day, now: Time): (Db, Outcome) {
    if Oversized(Some(thing.title), thing.description, Some(thing.tags)) then (db, TooLarge)
    else AfterInsertThing(db, actor, id, WithCaptureDefaults(thing, tomorrow).(created := now, updated := now), now)
  }

  function AfterUpdate(db: Db, actor: Actor, id: Id, c: Changes, expected: Option<Reading>, now: Time): (Db, Outcome) {
    if Oversized(c.title, c.description, c.tags) then (db, TooLarge)
    else if id !in db.tables.things then (db, NotFound)
    else
      var thing := db.tables.things[id];
      if expected.Some? && !expected.value.zoned then (db, Unzoned)
      else if expected.Some? && expected.value.at != thing.updated then (db, Stale)
      else if HidesHeartbeat(thing, c) then (db, HeartbeatKept)
      else (WriteThing(db, now, actor, Update, id, Updated(thing, c, now)), Done(id))
  }

  /** `_check_edge`: what is refused before anything is written. */
  ghost function EdgeRefusal(db: Db, edge: Edge): Option<Outcome> {
    if edge.context.Some? && |edge.context.value| > MAX_CONTEXT_CHARS then Some(TooLarge)
    else if edge.source == edge.target then Some(SelfLoop)
    else if edge.kind == ChildOf && Reaches(ChildOfPairs(db.tables.edges), edge.target, edge.source)
        then Some(ClosesCycle)
    else if edge.kind == EvidenceFor && edge.source in db.tables.things
        && UnfitAsEvidence(db.tables.things[edge.source])
    then Some(NotEvidence)
    else None
  }

  /** The database's own constraints: primary key, foreign keys, and the EvidenceFor index. */
  predicate Insertable(t: Tables, id: Id, edge: Edge) {
    && id !in t.edges && edge.source in t.things && edge.target in t.things
    && (edge.kind == EvidenceFor ==> !Linked(t.edges, edge.source, edge.target, EvidenceFor))
  }

  ghost function AfterInsertEdge(db: Db, actor: Actor, id: Id, edge: Edge): (Db, Outcome) {
    match EdgeRefusal(db, edge)
    case Some(refusal) => (db, refusal)
    case None =>
      if Insertable(db.tables, id, edge)
      then (Write(db, edge.created, actor, Relate, OfEdge(id), Some(EdgeState(edge))), Done(id))
      else (db, IntegrityError)
  }

  ghost function AfterRelate(db: Db, actor: Actor, id: Id, edge: Edge): (Db, Outcome) {
    var (after, outcome) := AfterInsertEdge(db, actor, id, edge);
    if outcome == IntegrityError && Linked(db.tables.edges, edge.source, edge.target, edge.kind) then (db, Duplicate)
    else (after, outcome)
  }

  function AfterDeleteEdge(db: Db, actor: Actor, id: Id, now: Time): Db {
    Write(db, now, actor, Unrelate, OfEdge(id), None)
  }

  function AfterUnrelate(db: Db, actor: Actor, id: Id, now: Time): (Db, Outcome) {
    if id !in db.tables.edges then (db, NotFound) else (AfterDeleteEdge(db, actor, id, now), Done(id))
  }

  function AnchorThing(now: Time): Thing {
    Thing("User", Some("The anchor every preference hangs off."), map[], [USER_TAG], map[], None, 0.0, true, now, now)
  }

  function AfterAnchor(db: Db, actor: Actor, now: Time): Db {
    if USER_ANCHOR_ID in db.tables.things then db
    else WriteThing(db, now, actor, Create, USER_ANCHOR_ID, AnchorThing(now))
  }

  /** `dict.fromkeys`: each id once, where it first came. */
  function Distinct(ids: seq<Id>): seq<Id> {
    if ids == [] then []
    else
      var front, last := Distinct(ids[..|ids| - 1]), ids[|ids| - 1];
      if last in front then front else front + [last]
  }

  /** The first piece of evidence that is missing or unfit decides the refusal. */
  function EvidenceRefusal(things: Things, ids: seq<Id>): (refusal: Option<Outcome>)
    ensures refusal.Some? ==> refusal.value in {NotFound, NotEvidence}
  {
    if ids == [] then None
    else if ids[0] !in things then Some(NotFound)
    else if UnfitAsEvidence(things[ids[0]]) then Some(NotEvidence)
    else EvidenceRefusal(things, ids[1..])
  }

  function PreferenceThing(title: string, scope: string, now: Time): Thing {
    Thing(title, None, map["scope" := scope], [PREFERENCE_TAG], map[], None, 0.0, true, now, now)
  }

  function EvidenceEdge(evidence: Id, preference: Id, now: Time): Edge {
    Edge(evidence, preference, EvidenceFor, None, now)
  }

  /** The evidence edges, one after the other, up to the first that is refused. */
  ghost function AfterEvidence(db: Db, actor: Actor, preference: Id, evidence: seq<Id>, ids: seq<Id>, now: Time)
    : (Db, Outcome)
    requires |ids| == |evidence|
  {
    if evidence == [] then (db, Done(preference))
    else
      var n := |evidence| - 1;
      var (earlier, outcome) := AfterEvidence(db, actor, preference, evidence[..n], ids[..n], now);
      if !outcome.Done? then (earlier, outcome)
      else
        var (after, last) := AfterInsertEdge(earlier, actor, ids[n], EvidenceEdge(evidence[n], preference, now));
        (after, if last.Done? then Done(preference) else last)
  }

  /** The preference, its anchor edge and its evidence edges, in the transaction that follows the anchor. */
  ghost function AfterPreference(db: Db, actor: Actor, title: string, scope: string, evidence: seq<Id>, preference: Id,
                                 anchorEdge: Id, ids: seq<Id>, now: Time): (Db, Outcome)
    requires |ids| == |evidence|
  {
    var (withThing, inserted) := AfterInsertThing(db, actor, preference, PreferenceThing(title, scope, now), now);
    if !inserted.Done? then (db, inserted)
    else
      var (anchored, linked) := AfterInsertEdge(withThing, actor, anchorEdge,
                                                Edge(USER_ANCHOR_ID, preference, RelatedTo, None, now));
      if !linked.Done? then (db, linked)
      else
        var (whole, outcome) := AfterEvidence(anchored, actor, preference, evidence, ids, now);
        if outcome.Done? then (whole, outcome) else (db, outcome)
  }

  ghost function AfterRecord(db: Db, actor: Actor, title: string, scope: string, evidence: seq<Id>, preference: Id,
                             anchorEdge: Id, ids: seq<Id>, now: Time): (Db, Outcome)
    requires |ids| == |Distinct(evidence)|
  {
    var wanted := Distinct(evidence);
    if Strip(scope) == "" then (db, NoScope)
    else if |Strip(scope)| > MAX_SCOPE_CHARS || |title| > MAX_TITLE_CHARS then (db, TooLarge)
    else if wanted == [] then (db, NoEvidence)
    else match EvidenceRefusal(db.tables.things, wanted)
      case Some(refusal) => (db, refusal)
      case None => AfterPreference(AfterAnchor(db, actor, now), actor, title, Strip(scope), wanted, preference,
                                   anchorEdge, ids, now)
  }

  ghost function AfterAddEvidence(db: Db, actor: Actor, preference: Id, evidence: Id, id: Id, now: Time)
    : (Db, Outcome)
  {
    if preference !in db.tables.things then (db, NotFound)
    else if PREFERENCE_TAG !in db.tables.things[preference].tags then (db, NotPreference)
    else if evidence !in db.tables.things then (db, NotFound)
    else if Linked(db.tables.edges, evidence, preference, EvidenceFor) then (db, Done(preference))
    else
      var (after, outcome) := AfterRelate(db, actor, id, EvidenceEdge(evidence, preference, now));
      (after, if outcome.Done? || outcome == Duplicate then Done(preference) else outcome)
  }

  function AfterReject(db: Db, actor: Actor, preference: Id, now: Time): (Db, Outcome) {
    if preference !in db.tables.things then (db, NotFound)
    else
      var tags := db.tables.things[preference].tags;
      if PREFERENCE_TAG !in tags then (db, NotPreference)
      else if REJECTED_TAG in tags then (db, Done(preference))
      else AfterUpdate(db, actor, preference, NoChanges.(tags := Some(tags + [REJECTED_TAG])), None, now)
  }

  // --- The session ----------------------------------------------------------------

  /** What one database session sees of the tables, and what it has committed. */
  class Session {
    var things: Things
    var edges: Relationships
    var journal: seq<Entry>
    var nextEntry: nat
    var committed: Db

    constructor ()
      ensures View() == committed == Db(NoTables, [], 1)
    {
      things, edges, journal, nextEntry := map[], map[], [], 1;
      committed := Db(NoTables, [], 1);
    }

    function View(): Db
      reads this
    {
      Db(Tables(things, edges), journal, nextEntry)
    }

    method Commit()
      modifies this
      ensures View() == committed == old(View())
    {
      committed := View();
    }

    method Rollback()
      modifies this
      ensures View() == committed == old(committed)
    {
      things, edges := committed.tables.things, committed.tables.edges;
      journal, nextEntry := committed.journal, committed.nextEntry;
    }

    method Journalled(now: Time, actor: Actor, operation: Operation, entity: Entity, before: Option<Snapshot>,
                      after: Option<Snapshot>)
      modifies this`journal, this`nextEntry
      ensures journal == old(journal) + [Entry(old(nextEntry), now, actor, operation, entity, before, after)]
      ensures nextEntry == old(nextEntry) + 1
    {
      journal := journal + [Entry(nextEntry, now, actor, operation, entity, before, after)];
      nextEntry := nextEntry + 1;
    }

    method InsertThing(actor: Actor, id: Id, thing: Thing, now: Time) returns (outcome: Outcome)
      modifies this
      ensures (View(), outcome) == AfterInsertThing(old(View()), actor, id, thing, now) && committed == old(committed)
    {
      if Oversized(Some(thing.title), thing.description, Some(thing.tags)) {
        return TooLarge;
      }
      if id in things {
        return IntegrityError;
      }
      things := things[id := thing];
      Journalled(now, actor, Create, OfThing(id), None, Some(ThingState(thing)));
      return Done(id);
    }

    method CreateThing(actor: Actor, id: Id, given: Thing, tomorrow: Day, now: Time) returns (outcome: Outcome)
      requires View() == committed
      modifies this
      ensures (View(), outcome) == AfterCreate(old(View()), actor, id, given, tomorrow, now) && View() == committed
    {
      if Oversized(Some(given.title), given.description, Some(given.tags)) {
        return TooLarge;
      }
      var thing := given.(created := now, updated := now);
      if !Internal(given) {
        if NEW_TAG !in thing.tags {
          thing := thing.(tags := thing.tags + [NEW_TAG]);
        }
        if thing.checkin.None? {
          thing := thing.(checkin := Some(tomorrow));
        }
      }
      outcome := InsertThing(actor, id, thing, now);
      if outcome.Done? {
        Commit();
      } else {
        Rollback();
      }
    }

    method SetFields(stored: Thing, c: Changes, now: Time) returns (thing: Thing)
      ensures thing == Updated(stored, c, now)
    {
      thing := stored;
      thing := thing.(title := Or(c.title, thing.title));
      thing := thing.(description := if c.description.Some? then c.description else thing.description);
      thing := thing.(notes := Or(c.notes, thing.notes));
      thing := thing.(tags := Or(c.tags, thing.tags));
      thing := thing.(urls := Or(c.urls, thing.urls));
      thing := thing.(checkin := if c.checkin.Some? then c.checkin else thing.checkin);
      thing := thing.(priority := Or(c.priority, thing.priority));
      thing := thing.(active := Or(c.active, thing.active));
      thing := thing.(updated := now);
    }

    method UpdateThing(actor: Actor, id: Id, c: Changes, expected: Option<Reading>, now: Time)
      returns (outcome: Outcome)
      requires View() == committed
      modifies this
      ensures (View(), outcome) == AfterUpdate(old(View()), actor, id, c, expected, now) && View() == committed
    {
      if Oversized(c.title, c.description, c.tags) {
        return TooLarge;
      }
      if id !in things {
        return NotFound;
      }
      var thing := things[id];
      if expected.Some? {
        if !expected.value.zoned {
          return Unzoned;
        }
        if expected.value.at != thing.updated {
          return Stale;
        }
      }
      if HidesHeartbeat(thing, c) {
        return HeartbeatKept;
      }
      var before := thing;
      thing := SetFields(thing, c, now);
      things := things[id := thing];
      Journalled(now, actor, Update, OfThing(id), Some(ThingState(before)), Some(ThingState(thing)));
      Commit();
      return Done(id);
    }

    method CheckEdge(edge: Edge) returns (refusal: Option<Outcome>)
      ensures refusal == EdgeRefusal(View(), edge)
    {
      if edge.context.Some? && |edge.context.value| > MAX_CONTEXT_CHARS {
        return Some(TooLarge);
      }
      if edge.source == edge.target {
        return Some(SelfLoop);
      }
      if edge.kind == ChildOf {
        var closesCycle := Hierarchy.ReachesByWalk(ChildOfPairs(edges), edge.target, edge.source);
        if closesCycle {
          return Some(ClosesCycle);
        }
      }
      if edge.kind == EvidenceFor && edge.source in things && UnfitAsEvidence(things[edge.source]) {
        return Some(NotEvidence);
      }
      return None;
    }

    method InsertRelationship(actor: Actor, id: Id, edge: Edge) returns (outcome: Outcome)
      modifies this
      ensures (View(), outcome) == AfterInsertEdge(old(View()), actor, id, edge) && committed == old(committed)
    {
      var refusal := CheckEdge(edge);
      if refusal.Some? {
        return refusal.value;
      }
      if !Insertable(Tables(things, edges), id, edge) {
        return IntegrityError;
      }
      edges := edges[id := edge];
      Journalled(edge.created, actor, Operation.Relate, OfEdge(id), None, Some(EdgeState(edge)));
      return Done(id);
    }

    /** A duplicate is answered with the edge that stands. */
    method Relate(actor: Actor, id: Id, edge: Edge) returns (outcome: Outcome, existing: Option<Id>)
      requires View() == committed
      modifies this
      ensures (View(), outcome) == AfterRelate(old(View()), actor, id, edge) && View() == committed
      ensures existing.Some? <==> outcome == Duplicate
      ensures existing.Some? ==> Carries(edges, existing.value, edge.source, edge.target, edge.kind)
    {
      existing := None;
      outcome := InsertRelationship(actor, id, edge);
      if outcome.Done? {
        Commit();
      } else if outcome == IntegrityError {
        Rollback();
        if Linked(edges, edge.source, edge.target, edge.kind) {
          var stands :| stands in edges && Carries(edges, stands, edge.source, edge.target, edge.kind);
          return Duplicate, Some(stands);
        }
      }
    }

    method DeleteRelationship(actor: Actor, id: Id, now: Time)
      requires id in edges
      modifies this
      ensures View() == AfterDeleteEdge(old(View()), actor, id, now) && committed == old(committed)
    {
      var before := edges[id];
      edges := edges - {id};
      Journalled(now, actor, Operation.Unrelate, OfEdge(id), Some(EdgeState(before)), None);
    }

    method Unrelate(actor: Actor, id: Id, now: Time) returns (outcome: Outcome)
      requires View() == committed
      modifies this
      ensures (View(), outcome) == AfterUnrelate(old(View()), actor, id, now) && View() == committed
    {
      if id !in edges {
        return NotFound;
      }
      DeleteRelationship(actor, id, now);
      Commit();
      return Done(id);
    }

    method GetOrCreateUserAnchor(actor: Actor, now: Time)
      requires View() == committed
      modifies this
      ensures View() == committed == AfterAnchor(old(View()), actor, now)
    {
      if USER_ANCHOR_ID in things {
        return;
      }
      var _ := InsertThing(actor, USER_ANCHOR_ID, AnchorThing(now), now);
      Commit();
    }

    method CheckEvidence(ids: seq<Id>) returns (refusal: Option<Outcome>)
      ensures refusal == EvidenceRefusal(things, ids)
    {
      var i := 0;
      while i < |ids|
        invariant 0 <= i <= |ids|
        invariant EvidenceRefusal(things, ids) == EvidenceRefusal(things, ids[i..])
      {
        if ids[i] !in things {
          return Some(NotFound);
        }
        if UnfitAsEvidence(things[ids[i]]) {
          return Some(NotEvidence);
        }
        i := i + 1;
      }
      return None;
    }

    /** One transaction for the preference and all its edges: part-way is nowhere. */
    method InsertPreference(actor: Actor, title: string, scope: string, evidence: seq<Id>, preference: Id,
                            anchorEdge: Id, ids: seq<Id>, now: Time) returns (outcome: Outcome)
      requires View() == committed && |ids| == |evidence|
      modifies this
      ensures View() == committed
      ensures (View(), outcome)
              == AfterPreference(old(View()), actor, title, scope, evidence, preference, anchorEdge, ids, now)
    {
      outcome := InsertThing(actor, preference, PreferenceThing(title, scope, now), now);
      if !outcome.Done? {
        Rollback();
        return;
      }
      outcome := InsertRelationship(actor, anchorEdge, Edge(USER_ANCHOR_ID, preference, RelatedTo, None, now));
      if !outcome.Done? {
        Rollback();
        return;
      }
      outcome := InsertEvidence(actor, preference, evidence, ids, now);
      if outcome.Done? {
        Commit();
      } else {
        Rollback();
      }
    }

    method InsertEvidence(actor: Actor, preference: Id, evidence: seq<Id>, ids: seq<Id>, now: Time)
      returns (outcome: Outcome)
      requires |ids| == |evidence|
      modifies this
      ensures (View(), outcome) == AfterEvidence(old(View()), actor, preference, evidence, ids, now)
      ensures committed == old(committed)
    {
      outcome := Done(preference);
      var i := 0;
      while i < |evidence|
        invariant 0 <= i <= |evidence|
        invariant (View(), Done(preference)) == AfterEvidence(old(View()), actor, preference, evidence[..i], ids[..i],
                                                              now)
        invariant committed == old(committed)
      {
        assert evidence[..i + 1][..i] == evidence[..i] && ids[..i + 1][..i] == ids[..i];
        var inserted := InsertRelationship(actor, ids[i], EvidenceEdge(evidence[i], preference, now));
        i := i + 1;
        if !inserted.Done? {
          RefusedEvidence(old(View()), actor, preference, evidence, ids, now, i);
          return inserted;
        }
      }
      assert evidence[..i] == evidence && ids[..i] == ids;
    }

    method RecordPreference(actor: Actor, title: string, scope: string, evidence: seq<Id>, preference: Id,
                            anchorEdge: Id, ids: seq<Id>, now: Time) returns (outcome: Outcome)
      requires View() == committed && |ids| == |Distinct(evidence)|
      modifies this
      ensures View() == committed
      ensures (View(), outcome) == AfterRecord(old(View()), actor, title, scope, evidence, preference, anchorEdge, ids,
                                               now)
    {
      var stripped := Strip(scope);
      if stripped == "" {
        return NoScope;
      }
      if |stripped| > MAX_SCOPE_CHARS || |title| > MAX_TITLE_CHARS {
        return TooLarge;
      }
      var wanted := Distinct(evidence);
      if wanted == [] {
        return NoEvidence;
      }
      var refusal := CheckEvidence(wanted);
      if refusal.Some? {
        return refusal.value;
      }
      GetOrCreateUserAnchor(actor, now);
      outcome := InsertPreference(actor, title, stripped, wanted, preference, anchorEdge, ids, now);
    }

    method AddPreferenceEvidence(actor: Actor, preference: Id, evidence: Id, id: Id, now: Time)
      returns (outcome: Outcome)
      requires View() == committed
      modifies this
      ensures View() == committed
      ensures (View(), outcome) == AfterAddEvidence(old(View()), actor, preference, evidence, id, now)
    {
      if preference !in things {
        return NotFound;
      }
      if PREFERENCE_TAG !in things[preference].tags {
        return NotPreference;
      }
      if evidence !in things {
        return NotFound;
      }
      if Linked(edges, evidence, preference, EvidenceFor) {
        return Done(preference);
      }
      var linked, existing := Relate(actor, id, EvidenceEdge(evidence, preference, now));
      outcome := linked;
      if outcome.Done? || outcome == Duplicate {
        return Done(preference);
      }
    }

    method RejectPreference(actor: Actor, preference: Id, now: Time) returns (outcome: Outcome)
      requires View() == committed
      modifies this
      ensures View() == committed
      ensures (View(), outcome) == AfterReject(old(View()), actor, preference, now)
    {
      if preference !in things {
        return NotFound;
      }
      var tags := things[preference].tags;
      if PREFERENCE_TAG !in tags {
        return NotPreference;
      }
      if REJECTED_TAG in tags {
        return Done(preference);
      }
      outcome := UpdateThing(actor, preference, NoChanges.(tags := Some(tags + [REJECTED_TAG])), None, now);
    }
  }

  // --- What an update can and cannot do -------------------------------------------

  /** Each field given replaces the stored one, each field left out stays, and nothing stored is cleared. */
  lemma UpdateReplacesGiven(thing: Thing, c: Changes, now: Time)
    ensures var r := Updated(thing, c, now);
            && (c.title.Some? ==> r.title == c.title.value) && (c.title.None? ==> r.title == thing.title)
            && (c.notes.Some? ==> r.notes == c.notes.value) && (c.notes.None? ==> r.notes == thing.notes)
            && (c.tags.Some? ==> r.tags == c.tags.value) && (c.tags.None? ==> r.tags == thing.tags)
            && (c.urls.Some? ==> r.urls == c.urls.value) && (c.urls.None? ==> r.urls == thing.urls)
            && (c.priority.Some? ==> r.priority == c.priority.value)
            && (c.priority.None? ==> r.priority == thing.priority)
            && (c.active.Some? ==> r.active == c.active.value) && (c.active.None? ==> r.active == thing.active)
            && (c.description == None ==> r.description == thing.description)
            && (c.description != None ==> r.description == c.description)
            && (c.checkin == None ==> r.checkin == thing.checkin) && (c.checkin != None ==> r.checkin == c.checkin)
            && (r.description == None <==> thing.description == None && c.description == None)
            && (r.checkin == None <==> thing.checkin == None && c.checkin == None)
            && r.created == thing.created && r.updated == now
  {}

  /** Two sets of changes as one: what the later gives wins. */
  function Overlaid(c: Changes, d: Changes): Changes {
    Changes(if d.title.Some? then d.title else c.title, if d.description.Some? then d.description else c.description,
            if d.notes.Some? then d.notes else c.notes, if d.tags.Some? then d.tags else c.tags,
            if d.urls.Some? then d.urls else c.urls, if d.checkin.Some? then d.checkin else c.checkin,
            if d.priority.Some? then d.priority else c.priority, if d.active.Some? then d.active else c.active)
  }

  /** Updates compose: two in turn leave what one with both changes would have, the later winning. */
  lemma UpdatesCompose(db: Db, actor: Actor, id: Id, c: Changes, d: Changes, now: Time, later: Time)
    requires AfterUpdate(db, actor, id, c, None, now).1.Done?
    requires AfterUpdate(AfterUpdate(db, actor, id, c, None, now).0, actor, id, d, None, later).1.Done?
    ensures var once := AfterUpdate(db, actor, id, Overlaid(c, d), None, later);
            && once.1.Done?
            && AfterUpdate(AfterUpdate(db, actor, id, c, None, now).0, actor, id, d, None, later).0.tables
                 == once.0.tables
  {
    var thing := db.tables.things[id];
    WrittenThing(db, now, actor, Update, id, Updated(thing, c, now));
    var between := AfterUpdate(db, actor, id, c, None, now).0;
    WrittenThing(between, later, actor, Update, id, Updated(Updated(thing, c, now), d, later));
    WrittenThing(db, later, actor, Update, id, Updated(thing, Overlaid(c, d), later));
    hide WriteThing;
    assert between.tables.things[id] == Updated(thing, c, now);
    assert Updated(Updated(thing, c, now), d, later) == Updated(thing, Overlaid(c, d), later);
    assert !HidesHeartbeat(thing, Overlaid(c, d));
  }

  /**
   * An update that expects what was read before another one is refused as stale, exactly unless the
   * other left the same instant behind: the comparison is of instants, not of versions.
   */
  lemma StaleIff(db: Db, actor: Actor, id: Id, c: Changes, now: Time, reader: Actor, d: Changes, later: Time)
    requires AfterUpdate(db, actor, id, c, None, now).1.Done? && !Oversized(d.title, d.description, d.tags)
    ensures var read, after := Reading(db.tables.things[id].updated, true), AfterUpdate(db, actor, id, c, None, now).0;
            && (AfterUpdate(after, reader, id, d, Some(read), later).1 == Stale <==> now != read.at)
            && (now != read.at ==> AfterUpdate(after, reader, id, d, Some(read), later).0 == after)
  {
    WrittenThing(db, now, actor, Update, id, Updated(db.tables.things[id], c, now));
    hide WriteThing;
  }

  lemma WrittenThing(db: Db, now: Time, actor: Actor, operation: Operation, id: Id, thing: Thing)
    ensures WriteThing(db, now, actor, operation, id, thing).tables
            == db.tables.(things := db.tables.things[id := thing])
    ensures WriteThing(db, now, actor, operation, id, thing).nextEntry == db.nextEntry + 1
    ensures WriteThing(db, now, actor, operation, id, thing).journal
            == db.journal + [Entry(db.nextEntry, now, actor, operation, OfThing(id), StateOf(db.tables, OfThing(id)),
                                   Some(ThingState(thing)))]
  {}

  /** Once a piece of evidence is refused, so is the whole. */
  lemma {:induction false} RefusedEvidence(db: Db, actor: Actor, preference: Id, evidence: seq<Id>, ids: seq<Id>,
                                           now: Time, n: nat)
    requires n <= |evidence| == |ids|
    requires !AfterEvidence(db, actor, preference, evidence[..n], ids[..n], now).1.Done?
    ensures AfterEvidence(db, actor, preference, evidence, ids, now)
            == AfterEvidence(db, actor, preference, evidence[..n], ids[..n], now)
    decreases |evidence|
  {
    if n == |evidence| {
      assert evidence[..n] == evidence && ids[..n] == ids;
    } else {
      var m := |evidence| - 1;
      assert evidence[..m][..n] == evidence[..n] && ids[..m][..n] == ids[..n];
      RefusedEvidence(db, actor, preference, evidence[..m], ids[..m], now, n);
    }
  }
}
