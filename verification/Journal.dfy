/**
 * The append-only journal (backend/service.py, backend/queries.py): one entry per mutation, enough
 * to rebuild the graph by replaying it, and read back page by page.
 */
module Journal {
  import opened Prelude
  import opened Paths
  import opened Graph

  datatype Operation = Create | Update | Relate | Unrelate

  datatype Entity = OfThing(id: Id) | OfEdge(id: Id)

  datatype Snapshot = ThingState(thing: Thing) | EdgeState(edge: Edge)

  datatype Entry = Entry(
    id: nat, at: Time, actor: Actor, operation: Operation, entity: Entity, before: Option<Snapshot>,
    after: Option<Snapshot>)

  datatype Tables = Tables(things: Things, edges: Relationships)

  const NoTables := Tables(map[], map[])

  /** The two graph tables, the journal, and the number the sequence will give the next entry. */
  datatype Db = Db(tables: Tables, journal: seq<Entry>, nextEntry: nat)

  function StateOf(t: Tables, e: Entity): Option<Snapshot> {
    match e
    case OfThing(id) => if id in t.things then Some(ThingState(t.things[id])) else None
    case OfEdge(id) => if id in t.edges then Some(EdgeState(t.edges[id])) else None
  }

  predicate Fits(e: Entity, state: Option<Snapshot>) {
    state.Some? ==> state.value.ThingState? == e.OfThing?
  }

  function Put(t: Tables, e: Entity, state: Option<Snapshot>): Tables
    requires Fits(e, state)
  {
    match (e, state)
    case (OfThing(id), Some(s)) => t.(things := t.things[id := s.thing])
    case (OfThing(id), None) => t.(things := t.things - {id})
    case (OfEdge(id), Some(s)) => t.(edges := t.edges[id := s.edge])
    case (OfEdge(id), None) => t.(edges := t.edges - {id})
  }

  /** What each operation may record: a create has no `before`, an unrelate no `after`. */
  predicate WellFormed(e: Entry) {
    && Fits(e.entity, e.before) && Fits(e.entity, e.after)
    && match e.operation
       case Create => e.entity.OfThing? && e.before.None? && e.after.Some?
       case Update => e.entity.OfThing? && e.before.Some? && e.after.Some?
       case Relate => e.entity.OfEdge? && e.before.None? && e.after.Some?
       case Unrelate => e.entity.OfEdge? && e.before.Some? && e.after.None?
  }

  /** One mutation with its entry: the only way a table changes. */
  function Write(db: Db, at: Time, actor: Actor, operation: Operation, entity: Entity, after: Option<Snapshot>): Db
    requires Fits(entity, after)
  {
    Db(Put(db.tables, entity, after),
       db.journal + [Entry(db.nextEntry, at, actor, operation, entity, StateOf(db.tables, entity), after)],
       db.nextEntry + 1)
  }

  // --- Replay -----------------------------------------------------------------

  function Replay(journal: seq<Entry>): Tables {
    if journal == [] then NoTables
    else
      var earlier, e := Replay(journal[..|journal| - 1]), journal[|journal| - 1];
      if Fits(e.entity, e.after) then Put(earlier, e.entity, e.after) else earlier
  }

  /** The entry's `before` is what its entity was just before it, and its `after` just after. */
  ghost predicate Honest(journal: seq<Entry>, i: nat)
    requires i < |journal|
  {
    && WellFormed(journal[i])
    && journal[i].before == StateOf(Replay(journal[..i]), journal[i].entity)
    && journal[i].after == StateOf(Replay(journal[..i + 1]), journal[i].entity)
  }

  ghost predicate Increasing(journal: seq<Entry>, next: nat) {
    && (forall i, j :: 0 <= i < j < |journal| ==> journal[i].id < journal[j].id)
    && (forall i :: 0 <= i < |journal| ==> 0 < journal[i].id < next)
  }

  /** The journal tells exactly how the tables came to be. */
  ghost predicate Faithful(db: Db) {
    && Replay(db.journal) == db.tables
    && (forall i :: 0 <= i < |db.journal| ==> Honest(db.journal, i))
    && Increasing(db.journal, db.nextEntry) && db.nextEntry > 0
  }

  lemma HonestStays(journal: seq<Entry>, e: Entry, i: nat)
    requires i < |journal| && Honest(journal, i)
    ensures Honest(journal + [e], i)
  {
    assert (journal + [e])[..i] == journal[..i];
    assert (journal + [e])[..i + 1] == journal[..i + 1];
  }

  lemma WriteKeepsFaithful(db: Db, at: Time, actor: Actor, operation: Operation, entity: Entity,
                           after: Option<Snapshot>)
    requires Faithful(db)
    requires WellFormed(Entry(db.nextEntry, at, actor, operation, entity, StateOf(db.tables, entity), after))
    ensures Faithful(Write(db, at, actor, operation, entity, after))
  {
    var e := Entry(db.nextEntry, at, actor, operation, entity, StateOf(db.tables, entity), after);
    ReplayLast(db.journal, e);
    LastIsHonest(db, e);
    IncreasesByOne(db.journal, e);
    hide Replay, Honest, Increasing;
    forall i | 0 <= i < |db.journal| + 1 ensures Honest(db.journal + [e], i) {
      if i < |db.journal| {
        HonestStays(db.journal, e, i);
      }
    }
  }

  lemma LastIsHonest(db: Db, e: Entry)
    requires Replay(db.journal) == db.tables && WellFormed(e) && e.before == StateOf(db.tables, e.entity)
    ensures Honest(db.journal + [e], |db.journal|)
  {
    var longer := db.journal + [e];
    assert longer[..|db.journal|] == db.journal && longer[..|db.journal| + 1] == longer;
    ReplayLast(db.journal, e);
    hide Replay;
  }

  lemma IncreasesByOne(journal: seq<Entry>, e: Entry)
    requires Increasing(journal, e.id) && e.id > 0
    ensures Increasing(journal + [e], e.id + 1)
  {}

  lemma ReplayLast(journal: seq<Entry>, e: Entry)
    requires Fits(e.entity, e.after)
    ensures Replay(journal + [e]) == Put(Replay(journal), e.entity, e.after)
  {
    assert (journal + [e])[..|journal|] == journal;
  }

  // --- Paging -----------------------------------------------------------------

  datatype History = History(entries: seq<Entry>, total: nat) {
    predicate Truncated() {
      total > |entries|
    }
  }

  predicate Matches(e: Entry, afterId: int, actors: Option<set<Actor>>) {
    e.id > afterId && (actors.Some? ==> e.actor in actors.value)
  }

  function Matching(journal: seq<Entry>, afterId: int, actors: Option<set<Actor>>): seq<Entry> {
    if journal == [] then []
    else
      var rest := Matching(journal[1..], afterId, actors);
      if Matches(journal[0], afterId, actors) then [journal[0]] + rest else rest
  }

  /** `journal_since`: the oldest entries above an id, and how many matched in all. */
  function JournalSince(journal: seq<Entry>, afterId: int, actors: Option<set<Actor>>, limit: nat): (h: History) {
    var all := Matching(journal, afterId, actors);
    History(if |all| <= limit then all else all[..limit], |all|)
  }

  /** Above the id, and by one of the actors if any are named. */
  predicate Wanted(e: Entry, afterId: int, actors: Option<set<Actor>>) {
    e.id > afterId && (actors.None? || e.actor in actors.value)
  }

  /** The positions, from k on, of the entries wanted. */
  lemma {:induction false} MatchingPositions(journal: seq<Entry>, k: nat, afterId: int, actors: Option<set<Actor>>)
    returns (at: seq<nat>)
    requires k <= |journal|
    ensures |at| == |Matching(journal[k..], afterId, actors)|
    ensures forall j :: 0 <= j < |at| ==>
              k <= at[j] < |journal| && journal[at[j]] == Matching(journal[k..], afterId, actors)[j]
    ensures forall i, j :: 0 <= i < j < |at| ==> at[i] < at[j]
    ensures forall i: nat :: i in at <==> k <= i < |journal| && Wanted(journal[i], afterId, actors)
    decreases |journal| - k
  {
    if k == |journal| {
      at := [];
    } else {
      at := MatchingPositions(journal, k + 1, afterId, actors);
      assert journal[k..][0] == journal[k] && journal[k..][1..] == journal[k + 1..];
      assert Matches(journal[k], afterId, actors) <==> Wanted(journal[k], afterId, actors);
      hide Matches, Wanted;
      if Matches(journal[k], afterId, actors) {
        at := [k] + at;
      }
    }
  }

  /**
   * A page is the oldest of the entries wanted: as many as the limit allows, in journal order, none
   * passed over. `total` counts all that are wanted, and the page is truncated if they are more than
   * the limit.
   */
  lemma PageIsOldest(journal: seq<Entry>, afterId: int, actors: Option<set<Actor>>, limit: nat) returns (at: seq<nat>)
    ensures forall j, k :: 0 <= j < k < |at| ==> at[j] < at[k]
    ensures forall i: nat :: i in at <==> i < |journal| && Wanted(journal[i], afterId, actors)
    ensures forall k :: 0 <= k < |at| ==> at[k] < |journal|
    ensures var page := JournalSince(journal, afterId, actors, limit);
            && page.total == |at| == |set i: nat | i < |journal| && Wanted(journal[i], afterId, actors)|
            && |page.entries| == (if |at| < limit then |at| else limit)
            && (forall k :: 0 <= k < |page.entries| ==> page.entries[k] == journal[at[k]])
            && (page.Truncated() <==> |at| > limit)
  {
    at := MatchingPositions(journal, 0, afterId, actors);
    assert journal[0..] == journal;
    hide Wanted, Matching;
    ElementsOfDistinct(at);
    assert forall i :: i in at <==> i in Elements(at);
    assert Elements(at) == set i: nat | i < |journal| && Wanted(journal[i], afterId, actors);
  }

  lemma {:induction false} MatchingIncreases(journal: seq<Entry>, afterId: int, actors: Option<set<Actor>>, next: nat)
    requires Increasing(journal, next)
    ensures var all := Matching(journal, afterId, actors);
            && Increasing(all, next)
            && (forall e :: e in all <==> e in journal && Matches(e, afterId, actors))
  {
    if journal != [] {
      var tail := journal[1..];
      HeadIsLeast(journal, next);
      MatchingIncreases(tail, afterId, actors, next);
      assert forall e :: e in journal <==> e == journal[0] || e in tail;
      hide Matches;
    }
  }

  lemma HeadIsLeast(journal: seq<Entry>, next: nat)
    requires Increasing(journal, next) && journal != []
    ensures Increasing(journal[1..], next) && forall e :: e in journal[1..] ==> journal[0].id < e.id
  {
    forall e | e in journal[1..] ensures journal[0].id < e.id {
      var i :| 0 <= i < |journal| - 1 && journal[1..][i] == e;
      assert journal[i + 1] == e;
    }
  }

  /** Starting above the k-th match leaves out exactly the matches up to it. */
  lemma {:induction false} MatchingAfter(journal: seq<Entry>, afterId: int, actors: Option<set<Actor>>, next: nat,
                                         k: nat)
    requires Increasing(journal, next) && 0 < k <= |Matching(journal, afterId, actors)|
    ensures var all := Matching(journal, afterId, actors);
            all[k - 1].id > afterId && Matching(journal, all[k - 1].id, actors) == all[k..]
  {
    var all, head, tail := Matching(journal, afterId, actors), journal[0], journal[1..];
    var rest := Matching(tail, afterId, actors);
    HeadIsLeast(journal, next);
    MatchingIncreases(tail, afterId, actors, next);
    hide Increasing;
    if !Matches(head, afterId, actors) {
      MatchingAfter(tail, afterId, actors, next, k);
      assert rest[k - 1] in tail;
    } else if k == 1 {
      FromTheStart(tail, afterId, head.id, actors, next);
      assert all[1..] == rest;
    } else {
      MatchingAfter(tail, afterId, actors, next, k - 1);
      assert all[k - 1] == rest[k - 2] && rest[k - 2] in tail;
      assert all[k..] == rest[k - 1..];
    }
  }

  /** A lower bound no entry falls under leaves nothing out. */
  lemma {:induction false} FromTheStart(journal: seq<Entry>, low: int, bound: int, actors: Option<set<Actor>>,
                                        next: nat)
    requires Increasing(journal, next) && low <= bound && forall e :: e in journal ==> e.id > bound
    ensures Matching(journal, bound, actors) == Matching(journal, low, actors)
  {
    if journal != [] {
      FromTheStart(journal[1..], low, bound, actors, next);
    }
  }

  /**
   * One page: the next id continues where it ended, `total` shrinks by its length, and it is
   * truncated exactly when the next page holds something.
   */
  lemma PageContinues(journal: seq<Entry>, afterId: int, actors: Option<set<Actor>>, limit: nat, next: nat)
    requires Increasing(journal, next) && limit >= 1
    ensures var page := JournalSince(journal, afterId, actors, limit);
            page.entries != [] ==>
              var after := page.entries[|page.entries| - 1].id;
              && Matching(journal, afterId, actors) == page.entries + Matching(journal, after, actors)
              && JournalSince(journal, after, actors, limit).total == page.total - |page.entries|
              && (page.Truncated() <==> JournalSince(journal, after, actors, limit).entries != [])
    ensures var page := JournalSince(journal, afterId, actors, limit);
            page.entries == [] ==> !page.Truncated()
  {
    var page := JournalSince(journal, afterId, actors, limit);
    if page.entries != [] {
      MatchingAfter(journal, afterId, actors, next, |page.entries|);
    }
  }

  /** The learning pass: page by the last id seen until a page is not truncated. */
  method ReadAll(journal: seq<Entry>, afterId: int, actors: Option<set<Actor>>, limit: nat, ghost next: nat)
    returns (read: seq<Entry>)
    requires Increasing(journal, next) && limit >= 1
    ensures read == Matching(journal, afterId, actors)
  {
    hide Matching, Increasing, Matches;
    var from := afterId;
    var page := JournalSince(journal, from, actors, limit);
    read := page.entries;
    ghost var before := [];
    while page.Truncated()
      invariant page == JournalSince(journal, from, actors, limit) && read == before + page.entries
      invariant Matching(journal, afterId, actors) == before + Matching(journal, from, actors)
      decreases page.total
    {
      PageContinues(journal, from, actors, limit, next);
      from := page.entries[|page.entries| - 1].id;
      before := read;
      page := JournalSince(journal, from, actors, limit);
      read := read + page.entries;
    }
  }

  /** What was read: every matching entry, exactly once, in id order. */
  lemma ReadInOrderOnce(journal: seq<Entry>, afterId: int, actors: Option<set<Actor>>, next: nat)
    requires Increasing(journal, next)
    ensures var read := Matching(journal, afterId, actors);
            && (forall i, j :: 0 <= i < j < |read| ==> read[i].id < read[j].id)
            && (forall e :: e in read <==> e in journal && Matches(e, afterId, actors))
  {
    hide Matches, Matching;
    MatchingIncreases(journal, afterId, actors, next);
  }
}
