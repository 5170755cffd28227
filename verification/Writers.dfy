/**
 * The service under concurrent sessions (backend/service.py): any number of calls, one write at a
 * time, all a call reads before its first lock or write being read at one instant. A session sees
 * what the others committed and what it has itself flushed. `update_thing` and `reject_preference`
 * hold their row from the read, a `ChildOf` edge its lock from the walk, `unrelate` nothing; what
 * is flushed keeps its row, and its pair in the unique index, until the end.
 *
 * `record_preference` is two transactions: `Anchoring`, and `Recording` once the anchor is there.
 */
module Writers {
  import opened Prelude
  import opened Paths
  import opened Graph
  import opened Journal
  import opened Service
  import opened Text
  import Runs

  datatype Task =
    | Creating(actor: Actor, id: Id, thing: Thing, tomorrow: Day, now: Time)
    | Updating(actor: Actor, id: Id, changes: Changes, expected: Option<Reading>, now: Time)
    | Rejecting(actor: Actor, preference: Id, now: Time)
    | Relating(actor: Actor, id: Id, edge: Edge)
    | Unrelating(actor: Actor, id: Id, now: Time)
    | Adding(actor: Actor, preference: Id, source: Id, id: Id, now: Time)
    | Anchoring(actor: Actor, now: Time)
    | Recording(actor: Actor, title: string, scope: string, evidence: seq<Id>, id: Id, anchorEdge: Id, ids: seq<Id>,
                now: Time)
  {
    /** An id is generated for each edge a preference needs, and for itself. */
    predicate Valid() {
      Recording? ==> |ids| == |Distinct(evidence)| && id != USER_ANCHOR_ID
    }
  }

  /** What a session makes of what it read: an answer, or the entries of what it will write. */
  datatype Decision = Answer(outcome: Outcome) | Writes(entries: seq<Entry>)

  function Insertion(actor: Actor, id: Id, edge: Edge): Entry {
    Entry(0, edge.created, actor, Relate, OfEdge(id), None, Some(EdgeState(edge)))
  }

  function Creation(actor: Actor, id: Id, thing: Thing, now: Time): Entry {
    Entry(0, now, actor, Create, OfThing(id), None, Some(ThingState(thing)))
  }

  function DecideUpdate(t: Tables, actor: Actor, id: Id, c: Changes, expected: Option<Reading>, now: Time): Decision {
    var outcome := AfterUpdate(Db(t, [], 1), actor, id, c, expected, now).1;
    if !outcome.Done? then Answer(outcome)
    else Writes([Entry(0, now, actor, Update, OfThing(id), Some(ThingState(t.things[id])),
                       Some(ThingState(Updated(t.things[id], c, now))))])
  }

  ghost function DecideRelate(t: Tables, actor: Actor, id: Id, edge: Edge): Decision {
    match EdgeRefusal(Db(t, [], 1), edge)
    case Some(refusal) => Answer(refusal)
    case None => Writes([Insertion(actor, id, edge)])
  }

  function EvidenceInsertions(actor: Actor, preference: Id, evidence: seq<Id>, ids: seq<Id>, now: Time): seq<Entry>
    requires |ids| == |evidence|
  {
    seq(|ids|, i requires 0 <= i < |ids| => Insertion(actor, ids[i], EvidenceEdge(evidence[i], preference, now)))
  }

  function PreferenceWrites(actor: Actor, title: string, scope: string, evidence: seq<Id>, preference: Id,
                            anchorEdge: Id, ids: seq<Id>, now: Time): seq<Entry>
    requires |ids| == |evidence|
  {
    [Creation(actor, preference, PreferenceThing(title, scope, now), now),
     Insertion(actor, anchorEdge, Edge(USER_ANCHOR_ID, preference, RelatedTo, None, now))]
    + EvidenceInsertions(actor, preference, evidence, ids, now)
  }

  ghost function Decided(t: Tables, task: Task): Decision
    requires task.Valid()
  {
    match task
    case Creating(actor, id, given, tomorrow, now) =>
      var whole := WithCaptureDefaults(given, tomorrow).(created := now, updated := now);
      if Oversized(Some(given.title), given.description, Some(given.tags))
         || Oversized(Some(whole.title), whole.description, Some(whole.tags)) then Answer(TooLarge)
      else Writes([Creation(actor, id, whole, now)])
    case Updating(actor, id, c, expected, now) => DecideUpdate(t, actor, id, c, expected, now)
    case Rejecting(actor, preference, now) =>
      if preference !in t.things then Answer(NotFound)
      else
        var tags := t.things[preference].tags;
        if PREFERENCE_TAG !in tags then Answer(NotPreference)
        else if REJECTED_TAG in tags then Answer(Done(preference))
        else DecideUpdate(t, actor, preference, NoChanges.(tags := Some(tags + [REJECTED_TAG])), None, now)
    case Relating(actor, id, edge) => DecideRelate(t, actor, id, edge)
    case Unrelating(actor, id, now) =>
      if id !in t.edges then Answer(NotFound)
      else Writes([Entry(0, now, actor, Unrelate, OfEdge(id), Some(EdgeState(t.edges[id])), None)])
    case Adding(actor, preference, evidence, id, now) =>
      if preference !in t.things then Answer(NotFound)
      else if PREFERENCE_TAG !in t.things[preference].tags then Answer(NotPreference)
      else if evidence !in t.things then Answer(NotFound)
      else if Linked(t.edges, evidence, preference, EvidenceFor) then Answer(Done(preference))
      else DecideRelate(t, actor, id, EvidenceEdge(evidence, preference, now))
    case Anchoring(actor, now) =>
      if USER_ANCHOR_ID in t.things then Answer(Done(USER_ANCHOR_ID))
      else Writes([Creation(actor, USER_ANCHOR_ID, AnchorThing(now), now)])
    case Recording(actor, title, scope, evidence, id, anchorEdge, ids, now) =>
      var wanted := Distinct(evidence);
      if Strip(scope) == "" then Answer(NoScope)
      else if |Strip(scope)| > MAX_SCOPE_CHARS || |title| > MAX_TITLE_CHARS then Answer(TooLarge)
      else if wanted == [] then Answer(NoEvidence)
      else match EvidenceRefusal(t.things, wanted)
        case Some(refusal) => Answer(refusal)
        case None =>
          Writes(PreferenceWrites(actor, title, Strip(scope), wanted, id, anchorEdge, ids, now))
  }

  /** What a call answers once the database has refused what it flushed and it has read again. */
  function Verdict(t: Tables, task: Task): Outcome {
    match task
    case Relating(_, _, edge) => if Linked(t.edges, edge.source, edge.target, edge.kind) then Duplicate
        else IntegrityError
    case Adding(_, preference, evidence, _, _) =>
      if !Linked(t.edges, evidence, preference, EvidenceFor) then IntegrityError
      else if preference !in t.things then NotFound
      else if PREFERENCE_TAG !in t.things[preference].tags then NotPreference
      else Done(preference)
    case Anchoring(_, _) => if USER_ANCHOR_ID in t.things then Done(USER_ANCHOR_ID) else IntegrityError
    case _ => IntegrityError
  }

  /** What a call answers once it has committed. */
  function Answered(task: Task): Id {
    match task
    case Rejecting(_, preference, _) => preference
    case Adding(_, preference, _, _, _) => preference
    case Anchoring(_, _) => USER_ANCHOR_ID
    case _ => task.id
  }

  // --- What one write needs, and what it keeps from the others ---------------------

  predicate InsertsChildOf(e: Entry) {
    e.after.Some? && e.after.value.EdgeState? && e.after.value.edge.kind == ChildOf
  }

  /** Held from the moment it was read, not only once flushed. */
  predicate Locks(e: Entry) {
    e.operation == Update || InsertsChildOf(e)
  }

  /** The pair an entry takes up in the unique index, or frees. */
  function EvidencePair(e: Entry): Option<(Id, Id)> {
    match (if e.after.Some? then e.after else e.before)
    case Some(EdgeState(edge)) => if edge.kind == EvidenceFor then Some((edge.source, edge.target)) else None
    case _ => None
  }

  predicate Conflicts(d: Entry, e: Entry) {
    || d.entity == e.entity
    || (EvidencePair(d).Some? && EvidencePair(d) == EvidencePair(e))
    || (InsertsChildOf(d) && InsertsChildOf(e))
  }

  /** What the database checks as it is flushed. */
  predicate Storable(t: Tables, e: Entry) {
    && WellFormed(e)
    && match e.operation
       case Create => e.entity.id !in t.things
       case Update => e.entity.id in t.things
       case Relate => Insertable(t, e.entity.id, e.after.value.edge)
       case Unrelate => e.entity.id in t.edges
  }

  /** A delete that matches no row: another session's came first. */
  predicate Gone(t: Tables, e: Entry) {
    e.operation == Unrelate && e.entity.OfEdge? && e.entity.id !in t.edges
  }

  ghost predicate Mentioned(journal: seq<Entry>, entity: Entity) {
    exists k :: 0 <= k < |journal| && journal[k].entity == entity
  }

  /** What the session read and goes by. */
  ghost predicate Stands(t: Tables, e: Entry) {
    && (e.before.Some? ==> e.before == StateOf(t, e.entity))
    && (InsertsChildOf(e) ==> !Reaches(ChildOfPairs(t.edges), e.after.value.edge.target, e.after.value.edge.source))
  }

  ghost predicate Allowed(t: Tables, e: Entry) {
    Storable(t, e) && Stands(t, e)
  }

  function PutOne(t: Tables, e: Entry): Tables {
    if Fits(e.entity, e.after) then Put(t, e.entity, e.after) else t
  }

  function PutAll(t: Tables, entries: seq<Entry>): Tables {
    if entries == [] then t else PutOne(PutAll(t, entries[..|entries| - 1]), entries[|entries| - 1])
  }

  ghost predicate Ready(t: Tables, entries: seq<Entry>) {
    forall i :: 0 <= i < |entries| ==> Allowed(PutAll(t, entries[..i]), entries[i])
  }

  /** A commit: the rows, and the entries as they were written, in the order they were. */
  function Append(db: Db, e: Entry): Db {
    Db(PutOne(db.tables, e), db.journal + [e.(id := db.nextEntry)], db.nextEntry + 1)
  }

  function AppendAll(db: Db, entries: seq<Entry>): Db {
    if entries == [] then db else Append(AppendAll(db, entries[..|entries| - 1]), entries[|entries| - 1])
  }

  // --- The sessions ------------------------------------------------------------------

  /**
   * Where one call stands. `numbers` are those the journal's sequence has given its entries; a
   * session has strayed once its delete matched no row, and then it holds none.
   */
  datatype Writer =
    | Asking(task: Task)
    | Working(task: Task, writes: seq<Entry>, flushed: nat, numbers: seq<nat>, strayed: bool)
    | Refused(task: Task)
    | Ended(task: Task, outcome: Option<Outcome>)

  /**
   * What is committed, its entries in the order of commit, for each its number and whether its
   * delete matched no row; and the sessions.
   */
  datatype State = State(db: Db, numbers: seq<nat>, strays: seq<bool>, next: nat, writers: map<nat, Writer>) {
    predicate HasDue(w: nat) {
      && w in writers && writers[w].Working? && Shaped(writers[w].writes)
      && writers[w].flushed < |writers[w].writes|
    }

    /** The row a session flushes next. */
    function Due(w: nat): Entry
      requires HasDue(w)
    {
      writers[w].writes[writers[w].flushed]
    }

    /** The tables as a session sees them: what is committed, and what it has flushed. */
    function Seen(w: nat): Tables
      requires HasDue(w)
    {
      PutAll(db.tables, writers[w].writes[..writers[w].flushed])
    }
  }

  const Empty := State(Db(NoTables, [], 1), [], [], 1, map[])

  datatype Step =
    | Begin(w: nat, task: Task)
    | Decide(w: nat)
    | Flush(w: nat)
    | Refuse(w: nat)
    | Reread(w: nat)
    | Number(w: nat)
    | Commit(w: nat)
    | Abort(w: nat)

  /** The writes nobody else may get in the way of. */
  function Held(locking: bool, writer: Writer): seq<Entry> {
    if !writer.Working? || writer.strayed || writer.flushed > |writer.writes| then []
    else if locking && writer.writes != [] && Locks(writer.writes[0]) then writer.writes
    else writer.writes[..writer.flushed]
  }

  ghost predicate Blocked(locking: bool, s: State, w: nat, e: Entry) {
    exists v :: v in s.writers && v != w && exists d :: d in Held(locking, s.writers[v]) && Conflicts(d, e)
  }

  predicate Shaped(writes: seq<Entry>) {
    && writes != [] && (forall e :: e in writes ==> WellFormed(e))
    && (|writes| == 1 || forall e :: e in writes ==> !Locks(e) && e.operation != Unrelate)
  }

  /** Everything is flushed, and everything has its number. */
  predicate CanCommit(s: State, w: nat) {
    && w in s.writers && s.writers[w].Working? && Shaped(s.writers[w].writes)
    && s.writers[w].flushed == |s.writers[w].numbers| == |s.writers[w].writes|
  }

  function Committed(s: State, w: nat): State
    requires CanCommit(s, w)
  {
    State(AppendAll(s.db, s.writers[w].writes), s.numbers + s.writers[w].numbers,
          s.strays + seq(|s.writers[w].writes|, i => s.writers[w].strayed), s.next,
          s.writers[w := Ended(s.writers[w].task, Some(Done(Answered(s.writers[w].task))))])
  }

  /**
   * Whether the service takes its locks, and whether the database layer refuses a delete that
   * matched no row or, as by default, goes on with it.
   */
  datatype Rules = Rules(locks: bool, refuses: bool)

  /** One statement of one session. The id of an edge is generated, so no entry was ever about it. */
  ghost predicate Next(rules: Rules, s: State, step: Step, t: State) {
    match step
    case Begin(w, task) =>
      w !in s.writers && task.Valid() && t == s.(writers := s.writers[w := Asking(task)])
    case Decide(w) =>
      && w in s.writers && s.writers[w].Asking? && s.writers[w].task.Valid()
      && (match Decided(s.db.tables, s.writers[w].task)
          case Answer(outcome) => t == s.(writers := s.writers[w := Ended(s.writers[w].task, Some(outcome))])
          case Writes(entries) =>
            && (rules.locks && Locks(entries[0]) ==> !Blocked(rules.locks, s, w, entries[0]))
            && t == s.(writers := s.writers[w := Working(s.writers[w].task, entries, 0, [], false)]))
    case Flush(w) =>
      && s.HasDue(w) && !Blocked(rules.locks, s, w, s.Due(w))
      && (Storable(s.Seen(w), s.Due(w)) || (Gone(s.Seen(w), s.Due(w)) && !rules.refuses))
      && (s.Due(w).operation == Relate ==> !Mentioned(s.db.journal, s.Due(w).entity))
      && t == s.(writers := s.writers[w := s.writers[w].(flushed := s.writers[w].flushed + 1,
                                                         strayed := Gone(s.Seen(w), s.Due(w)))])
    case Refuse(w) =>
      && s.HasDue(w) && !Blocked(rules.locks, s, w, s.Due(w))
      && !Storable(s.Seen(w), s.Due(w)) && (Gone(s.Seen(w), s.Due(w)) ==> rules.refuses)
      && t == s.(writers := s.writers[w := Refused(s.writers[w].task)])
    case Reread(w) =>
      && w in s.writers && s.writers[w].Refused?
      && t == s.(writers := s.writers[w := Ended(s.writers[w].task, Some(Verdict(s.db.tables, s.writers[w].task)))])
    case Number(w) =>
      && w in s.writers && s.writers[w].Working? && |s.writers[w].numbers| < s.writers[w].flushed
      && t == s.(next := s.next + 1,
                 writers := s.writers[w := s.writers[w].(numbers := s.writers[w].numbers + [s.next])])
    case Commit(w) => CanCommit(s, w) && t == Committed(s, w)
    case Abort(w) =>
      && w in s.writers && !s.writers[w].Ended?
      && t == s.(writers := s.writers[w := Ended(s.writers[w].task, None)])
  }

  ghost function Rule(rules: Rules): (State, Step, State) -> bool {
    (s, step, t) => Next(rules, s, step, t)
  }

  ghost predicate Run(rules: Rules, states: seq<State>, steps: seq<Step>) {
    Runs.Leads(Rule(rules), states, steps) && states[0] == Empty
  }
}
