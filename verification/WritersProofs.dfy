/** What concurrent sessions of the service keep, and where they differ from calls made in turn. */
module WritersProofs {
  import opened Prelude
  import opened Paths
  import opened Graph
  import opened Journal
  import opened Service
  import opened Writers
  import ServiceRuns
  import Text

  // --- A write that conflicts with none leaves the others possible --------------------

  lemma StandsStays(t: Tables, d: Entry, e: Entry)
    requires Storable(t, d) && Stands(t, e) && !Conflicts(d, e)
    ensures Stands(PutOne(t, d), e)
  {
    if InsertsChildOf(e) {
      var edge := e.after.value.edge;
      if Reaches(ChildOfPairs(PutOne(t, d).edges), edge.target, edge.source) {
        MoreEdgesReach(ChildOfPairs(PutOne(t, d).edges), ChildOfPairs(t.edges), edge.target, edge.source);
      }
    }
    hide Reaches, ChildOfPairs;
  }

  lemma AllowedStays(t: Tables, d: Entry, e: Entry)
    requires Allowed(t, d) && Allowed(t, e) && !Conflicts(d, e)
    ensures Allowed(PutOne(t, d), e)
  {
    StandsStays(t, d, e);
    hide Stands, Storable, PutOne, Conflicts;
  }

  lemma ThingPutsCommute(t: Tables, d: Entry, e: Entry)
    requires d.entity != e.entity && d.entity.OfThing? && e.entity.OfThing?
    ensures PutOne(PutOne(t, d), e) == PutOne(PutOne(t, e), d)
  {}

  lemma EdgePutsCommute(t: Tables, d: Entry, e: Entry)
    requires d.entity != e.entity && d.entity.OfEdge? && e.entity.OfEdge?
    ensures PutOne(PutOne(t, d), e) == PutOne(PutOne(t, e), d)
  {}

  lemma MixedPutsCommute(t: Tables, d: Entry, e: Entry)
    requires d.entity.OfThing? != e.entity.OfThing?
    ensures PutOne(PutOne(t, d), e) == PutOne(PutOne(t, e), d)
  {}

  lemma PutsCommute(t: Tables, d: Entry, e: Entry)
    requires d.entity != e.entity
    ensures PutOne(PutOne(t, d), e) == PutOne(PutOne(t, e), d)
  {
    hide PutOne;
    match (d.entity, e.entity)
    case (OfThing(_), OfThing(_)) => ThingPutsCommute(t, d, e);
    case (OfEdge(_), OfEdge(_)) => EdgePutsCommute(t, d, e);
    case _ => MixedPutsCommute(t, d, e);
  }

  ghost predicate Apart(d: Entry, entries: seq<Entry>) {
    forall e :: e in entries ==> !Conflicts(d, e) && !Conflicts(e, d)
  }

  /** Another's write, done first, leaves all of these possible, and is itself possible after them. */
  lemma {:induction false} ReadyStays(t: Tables, d: Entry, entries: seq<Entry>)
    requires Allowed(t, d) && Ready(t, entries) && Apart(d, entries)
    ensures Ready(PutOne(t, d), entries) && Allowed(PutAll(t, entries), d)
    ensures PutAll(PutOne(t, d), entries) == PutOne(PutAll(t, entries), d)
  {
    hide Allowed, PutOne;
    if entries != [] {
      var n := |entries| - 1;
      var front, last := entries[..n], entries[n];
      ReadyFront(t, entries);
      ReadyStays(t, d, front);
      var u := PutAll(t, front);
      AllowedStays(u, d, last);
      AllowedStays(u, last, d);
      PutsCommute(u, d, last);
      hide Conflicts;
      ReadyLast(PutOne(t, d), entries);
    }
  }

  lemma ReadyFront(t: Tables, entries: seq<Entry>)
    requires Ready(t, entries) && entries != []
    ensures Ready(t, entries[..|entries| - 1]) && Allowed(PutAll(t, entries[..|entries| - 1]), entries[|entries| - 1])
  {
    hide Allowed, PutAll;
    var front := entries[..|entries| - 1];
    forall i | 0 <= i < |front| ensures Allowed(PutAll(t, front[..i]), front[i]) {
      assert front[..i] == entries[..i];
    }
  }

  lemma ReadyLast(t: Tables, entries: seq<Entry>)
    requires entries != [] && Ready(t, entries[..|entries| - 1])
    requires Allowed(PutAll(t, entries[..|entries| - 1]), entries[|entries| - 1])
    ensures Ready(t, entries)
  {
    hide Allowed, PutAll;
    var front := entries[..|entries| - 1];
    forall i | 0 <= i < |entries| ensures Allowed(PutAll(t, entries[..i]), entries[i]) {
      if i < |front| {
        assert front[..i] == entries[..i] && front[i] == entries[i];
        assert Allowed(PutAll(t, front[..i]), front[i]);
      }
    }
  }

  /** So does another's whole transaction. */
  lemma {:induction false} AllReadyStay(t: Tables, others: seq<Entry>, entries: seq<Entry>)
    requires Ready(t, others) && Ready(t, entries)
    requires forall d :: d in others ==> Apart(d, entries)
    ensures Ready(PutAll(t, others), entries)
  {
    hide Allowed, PutOne, Apart, Ready;
    if others != [] {
      ReadyFront(t, others);
      AllReadyStay(t, others[..|others| - 1], entries);
      ReadyStays(PutAll(t, others[..|others| - 1]), others[|others| - 1], entries);
    }
  }

  lemma {:induction false} AllStand(t: Tables, others: seq<Entry>, e: Entry)
    requires Ready(t, others) && Stands(t, e)
    requires forall d :: d in others ==> !Conflicts(d, e)
    ensures Stands(PutAll(t, others), e)
  {
    hide PutOne, Stands, Ready, Storable, Conflicts;
    if others != [] {
      ReadyFront(t, others);
      AllStand(t, others[..|others| - 1], e);
      StandsStays(PutAll(t, others[..|others| - 1]), others[|others| - 1], e);
    }
  }

  // --- A commit keeps the tables sound and the journal true -----------------------------

  /** The delete the entry tells of matched no row: its edge was gone already. */
  ghost predicate Missed(journal: seq<Entry>, k: nat)
    requires k < |journal|
  {
    && WellFormed(journal[k]) && journal[k].operation == Unrelate
    && StateOf(Replay(journal[..k]), journal[k].entity) == None
  }

  /** The journal replays to the tables, and every entry but the strays is honest. */
  ghost predicate Told(db: Db, strays: seq<bool>) {
    && |strays| == |db.journal| && Replay(db.journal) == db.tables
    && forall k :: 0 <= k < |db.journal| ==> if strays[k] then Missed(db.journal, k) else Honest(db.journal, k)
  }

  lemma MissedStays(journal: seq<Entry>, e: Entry, k: nat)
    requires k < |journal| && Missed(journal, k)
    ensures Missed(journal + [e], k)
  {
    assert (journal + [e])[..k] == journal[..k];
  }

  lemma LastIsTold(db: Db, e: Entry, strayed: bool)
    requires Replay(db.journal) == db.tables && WellFormed(e)
    requires if strayed then Gone(db.tables, e) else Allowed(db.tables, e)
    ensures var journal := db.journal + [e];
            && Replay(journal) == PutOne(db.tables, e)
            && if strayed then Missed(journal, |db.journal|) else Honest(journal, |db.journal|)
  {
    var journal := db.journal + [e];
    assert journal[..|db.journal|] == db.journal && journal[..|db.journal| + 1] == journal;
    ReplayLast(db.journal, e);
  }

  lemma AppendKeepsTold(db: Db, strays: seq<bool>, e: Entry, strayed: bool)
    requires Told(db, strays) && WellFormed(e)
    requires if strayed then Gone(db.tables, e) else Allowed(db.tables, e)
    ensures Told(Append(db, e), strays + [strayed])
  {
    var last := e.(id := db.nextEntry);
    var n, after := |db.journal|, Append(db, e);
    LastIsTold(db, last, strayed);
    hide Missed, Honest, Replay, Gone, Allowed, WellFormed, PutOne;
    forall k | 0 <= k < n
      ensures if (strays + [strayed])[k] then Missed(after.journal, k) else Honest(after.journal, k)
    {
      if strays[k] {
        MissedStays(db.journal, last, k);
      } else {
        HonestStays(db.journal, last, k);
      }
    }
  }

  lemma {:induction false} AppendAllKeepsTold(db: Db, strays: seq<bool>, entries: seq<Entry>)
    requires Told(db, strays) && Ready(db.tables, entries)
    ensures Told(AppendAll(db, entries), strays + seq(|entries|, i => false))
    ensures AppendAll(db, entries).tables == PutAll(db.tables, entries)
  {
    hide Told, Allowed, Ready, PutOne;
    if entries == [] {
      assert strays + seq(0, i => false) == strays;
    } else {
      var n := |entries| - 1;
      ReadyFront(db.tables, entries);
      AppendAllKeepsTold(db, strays, entries[..n]);
      assert strays + seq(n, i => false) + [false] == strays + seq(n + 1, i => false);
      AllowedIsWellFormed(PutAll(db.tables, entries[..n]), entries[n]);
      AppendKeepsTold(AppendAll(db, entries[..n]), strays + seq(n, i => false), entries[n], false);
    }
  }

  lemma AllowedIsWellFormed(t: Tables, e: Entry)
    requires Allowed(t, e)
    ensures WellFormed(e)
  {}

  /** It inserts an edge from a Thing to itself. */
  predicate Loops(e: Entry) {
    && e.operation == Relate && e.after.Some? && e.after.value.EdgeState?
    && e.after.value.edge.source == e.after.value.edge.target
  }

  /** A loop would be around the Thing the session creates first, which is there already: it cannot commit. */
  predicate Loopless(things: Things, entries: seq<Entry>) {
    forall e :: e in entries && Loops(e) ==>
      entries[0].operation == Create && entries[0].entity == OfThing(e.after.value.edge.source)
      && e.after.value.edge.source in things
  }

  lemma ReadyHasNoLoops(t: Tables, entries: seq<Entry>)
    requires Ready(t, entries) && Loopless(t.things, entries)
    ensures forall e :: e in entries ==> !Loops(e)
  {
    if entries != [] {
      assert Allowed(PutAll(t, entries[..0]), entries[0]);
    }
  }

  lemma PutKeepsSound(t: Tables, e: Entry)
    requires ServiceRuns.Sound(t) && Allowed(t, e) && !Loops(e)
    ensures ServiceRuns.Sound(PutOne(t, e))
  {
    hide Acyclic, EvidenceUnique;
    match e.operation
    case Relate => ServiceRuns.InsertedIsSound(t, e.entity.id, e.after.value.edge);
    case Unrelate => ServiceRuns.DeletedIsSound(t, e.entity.id);
    case _ =>
  }

  lemma {:induction false} PutAllKeepsSound(t: Tables, entries: seq<Entry>)
    requires ServiceRuns.Sound(t) && Ready(t, entries) && forall e :: e in entries ==> !Loops(e)
    ensures ServiceRuns.Sound(PutAll(t, entries))
  {
    hide ServiceRuns.Sound, Allowed, Ready, PutOne, Loops;
    if entries != [] {
      ReadyFront(t, entries);
      PutAllKeepsSound(t, entries[..|entries| - 1]);
      PutKeepsSound(PutAll(t, entries[..|entries| - 1]), entries[|entries| - 1]);
    }
  }

  /** No write deletes a Thing. */
  lemma {:induction false} ThingsStay(t: Tables, entries: seq<Entry>)
    requires Ready(t, entries)
    ensures t.things.Keys <= PutAll(t, entries).things.Keys
  {
    hide Ready;
    if entries != [] {
      ReadyFront(t, entries);
      ThingsStay(t, entries[..|entries| - 1]);
      hide PutAll;
    }
  }

  // --- What every step keeps -------------------------------------------------------------

  /** Whatever a session holds is still possible over what is committed, and in nobody's way. */
  ghost predicate Sure(s: State) {
    && (forall w :: w in s.writers && s.writers[w].Working? ==> Sound(s.db.tables, s.writers[w]))
    && forall v, w :: v in s.writers && w in s.writers && v != w ==>
         forall d, e :: d in Held(true, s.writers[v]) && e in Held(true, s.writers[w]) ==> !Conflicts(d, e)
  }

  ghost predicate Sound(t: Tables, writer: Writer)
    requires writer.Working?
  {
    && Shaped(writer.writes) && |writer.numbers| <= writer.flushed <= |writer.writes|
    && if writer.strayed then writer.flushed == |writer.writes| == 1 && Gone(t, writer.writes[0])
       else && Ready(t, writer.writes[..writer.flushed])
            && (writer.flushed == 0 && Locks(writer.writes[0]) ==> Stands(t, writer.writes[0]))
  }

  /**
   * An edge is inserted under its id once: an edge read to be removed is still what was read, or
   * gone, and one flushed was never told of before.
   */
  ghost predicate Known(s: State) {
    && (forall id :: id in s.db.tables.edges ==> Mentioned(s.db.journal, OfEdge(id)))
    && (forall w :: w in s.writers && s.writers[w].Working? ==>
          forall k :: 0 <= k < |s.writers[w].writes| ==>
            KnownEntry(s.db, s.writers[w].writes[k], k < s.writers[w].flushed))
  }

  ghost predicate KnownEntry(db: Db, e: Entry, flushed: bool) {
    && (e.operation == Unrelate && e.entity.OfEdge? ==>
          && Mentioned(db.journal, e.entity)
          && (e.entity.id in db.tables.edges ==> e.before == Some(EdgeState(db.tables.edges[e.entity.id]))))
    && (e.operation == Relate && flushed ==> !Mentioned(db.journal, e.entity))
  }

  ghost predicate Straight(s: State) {
    forall w :: w in s.writers && s.writers[w].Working? ==> Loopless(s.db.tables.things, s.writers[w].writes)
  }

  ghost predicate Inv(s: State) {
    Told(s.db, s.strays) && ServiceRuns.Sound(s.db.tables) && Sure(s) && Known(s) && Straight(s)
  }

  /** A self-loop is refused as the edge is checked, and evidence is a Thing found before the preference is made. */
  lemma DecidedIsLoopless(t: Tables, task: Task)
    requires task.Valid() && Decided(t, task).Writes?
    ensures Loopless(t.things, Decided(t, task).entries)
  {
    hide Reaches, Oversized, Distinct, Text.Strip, EvidenceRefusal;
    if task.Recording? {
      FoundEvidence(t.things, Distinct(task.evidence));
    }
  }

  lemma {:induction false} FoundEvidence(things: Things, ids: seq<Id>)
    requires EvidenceRefusal(things, ids).None?
    ensures forall id :: id in ids ==> id in things
  {
    if ids != [] {
      FoundEvidence(things, ids[1..]);
    }
  }

  lemma DecidedIsShaped(t: Tables, task: Task)
    requires task.Valid() && Decided(t, task).Writes?
    ensures Shaped(Decided(t, task).entries)
    ensures Locks(Decided(t, task).entries[0]) ==> Stands(t, Decided(t, task).entries[0])
  {
    hide Reaches, Oversized, Distinct, Text.Strip, EvidenceRefusal;
  }

  /** An edge to be removed was read. */
  lemma DecidedReadsEdge(t: Tables, task: Task)
    requires task.Valid() && Decided(t, task).Writes?
    ensures forall e :: e in Decided(t, task).entries && e.operation == Unrelate ==>
              e.entity.OfEdge? && e.entity.id in t.edges && e.before == Some(EdgeState(t.edges[e.entity.id]))
  {
    hide Reaches, Oversized, Distinct, Text.Strip, EvidenceRefusal;
  }

  /** A session that holds nothing new. */
  lemma NoMoreHeld(s: State, w: nat, writer: Writer, t: State)
    requires Sure(s) && t.db == s.db && t.writers == s.writers[w := writer]
    requires writer.Working? ==> Sound(s.db.tables, writer)
    requires Held(true, writer) == [] || (w in s.writers && Held(true, writer) == Held(true, s.writers[w]))
    ensures Sure(t)
  {
    hide Conflicts, Sound, Held;
  }

  lemma DecidedKeepsSure(s: State, w: nat, task: Task, entries: seq<Entry>, t: State)
    requires Sure(s) && w in s.writers && t == s.(writers := s.writers[w := Working(task, entries, 0, [], false)])
    requires Shaped(entries) && (Locks(entries[0]) ==>
                                   Stands(s.db.tables, entries[0]) && !Blocked(true, s, w, entries[0]))
    ensures Sure(t)
  {
    assert Sound(t.db.tables, t.writers[w]) by {
      hide Stands, Shaped;
    }
    hide Conflicts, Sound, Locks;
    if Locks(entries[0]) {
      assert Held(true, t.writers[w]) == [entries[0]];
    }
    forall v, e, d | v in t.writers && v != w && d in Held(true, t.writers[v]) && e in Held(true, t.writers[w])
      ensures !Conflicts(d, e) && !Conflicts(e, d)
    {
      ConflictsBothWays(d, e);
    }
  }

  lemma DecideKeepsSure(rules: Rules, s: State, w: nat, t: State)
    requires Inv(s) && Next(rules, s, Decide(w), t) && rules.locks
    ensures Sure(t)
  {
    var task := s.writers[w].task;
    if Decided(s.db.tables, task).Answer? {
      hide Sound, Decided;
      NoMoreHeld(s, w, t.writers[w], t);
    } else {
      DecidedIsShaped(s.db.tables, task);
      hide Decided, Shaped, Stands, Blocked, Locks, Sure;
      DecidedKeepsSure(s, w, task, Decided(s.db.tables, task).entries, t);
    }
  }

  /** Of two sessions neither is in the other's way, seen from either side. */
  lemma ConflictsBothWays(d: Entry, e: Entry)
    ensures Conflicts(d, e) <==> Conflicts(e, d)
  {}

  lemma FlushIsAllowed(s: State, w: nat)
    requires Sure(s) && Known(s) && s.HasDue(w) && Storable(s.Seen(w), s.Due(w))
    ensures Allowed(s.Seen(w), s.Due(w))
  {
    hide Conflicts, Reaches, Ready, Mentioned;
    var writer := s.writers[w];
    assert Sound(s.db.tables, writer);
    assert KnownEntry(s.db, writer.writes[writer.flushed], false);
    if Locks(s.Due(w)) || s.Due(w).operation == Unrelate {
      assert writer.flushed == 0;
      assert s.Seen(w) == s.db.tables;
    }
  }

  lemma FlushedIsSound(rules: Rules, s: State, w: nat, t: State)
    requires Sure(s) && Known(s) && Next(rules, s, Flush(w), t)
    ensures Sound(t.db.tables, t.writers[w])
  {
    var writer := s.writers[w];
    assert Sound(s.db.tables, writer);
    if Gone(s.Seen(w), s.Due(w)) {
      assert writer.flushed == 0;
      assert s.Seen(w) == s.db.tables;
    } else {
      FlushIsAllowed(s, w);
      hide Conflicts, Storable, Stands, Blocked, Locks;
      var longer := writer.writes[..writer.flushed + 1];
      assert longer[..|longer| - 1] == writer.writes[..writer.flushed];
      hide Ready, Allowed;
      ReadyLast(s.db.tables, longer);
    }
  }

  lemma HeldOnceFlushed(writer: Writer, strayed: bool)
    requires writer.Working? && Shaped(writer.writes) && writer.flushed < |writer.writes| && !writer.strayed
    ensures forall e :: e in Held(true, writer.(flushed := writer.flushed + 1, strayed := strayed)) ==>
              e in Held(true, writer) || e == writer.writes[writer.flushed]
  {
    hide Locks;
    var n := writer.flushed;
    assert writer.writes[..n + 1] == writer.writes[..n] + [writer.writes[n]];
  }

  lemma FlushKeepsSure(rules: Rules, s: State, w: nat, t: State)
    requires Inv(s) && Next(rules, s, Flush(w), t) && rules.locks
    ensures Sure(t)
  {
    FlushedIsSound(rules, s, w, t);
    assert !s.writers[w].strayed by {
      assert Sound(s.db.tables, s.writers[w]);
    }
    HeldOnceFlushed(s.writers[w], t.writers[w].strayed);
    hide Told, Known, ServiceRuns.Sound, Storable, Conflicts, Sound, Shaped, Held, Gone, Mentioned;
    forall v, e, d | v in t.writers && v != w && d in Held(true, t.writers[v]) && e in Held(true, t.writers[w])
      ensures !Conflicts(d, e) && !Conflicts(e, d)
    {
      ConflictsBothWays(d, e);
      if e !in Held(true, s.writers[w]) {
        assert e == s.Due(w);
      }
    }
  }

  /** What a stray commits changes no row. */
  lemma StrayPutsNothing(s: State, w: nat)
    requires Sure(s) && w in s.writers && s.writers[w].Working? && s.writers[w].strayed
    ensures |s.writers[w].writes| == 1 && Gone(s.db.tables, s.writers[w].writes[0])
    ensures WellFormed(s.writers[w].writes[0]) && PutAll(s.db.tables, s.writers[w].writes) == s.db.tables
  {
    var writes := s.writers[w].writes;
    assert Sound(s.db.tables, s.writers[w]);
    assert PutAll(s.db.tables, writes) == PutOne(s.db.tables, writes[0]);
  }

  lemma CommitKeepsSure(s: State, w: nat, t: State)
    requires Inv(s) && CanCommit(s, w) && t == Committed(s, w)
    requires t.db.tables == PutAll(s.db.tables, s.writers[w].writes)
    ensures Sure(t)
  {
    hide Told, Known, Storable, Conflicts, Shaped, Stands, Ready, AppendAll, PutAll, Sound;
    forall v | v in t.writers && t.writers[v].Working? ensures Sound(t.db.tables, t.writers[v]) {
      OthersStaySound(s, w, v);
    }
  }

  lemma OthersStaySound(s: State, w: nat, v: nat)
    requires Inv(s) && v in s.writers && w in s.writers && v != w && s.writers[v].Working? && s.writers[w].Working?
    requires s.writers[w].flushed == |s.writers[w].writes|
    ensures Sound(PutAll(s.db.tables, s.writers[w].writes), s.writers[v])
  {
    assert Sound(s.db.tables, s.writers[w]) && Sound(s.db.tables, s.writers[v]);
    if s.writers[w].strayed {
      StrayPutsNothing(s, w);
    } else if s.writers[v].strayed {
      hide Told, Ready, Stands, Locks, Conflicts;
      ReadEdgesStay(s, w, v, 0);
    } else {
      OtherHeldStays(s, w, v);
    }
  }

  lemma OtherHeldStays(s: State, w: nat, v: nat)
    requires Sure(s) && v in s.writers && w in s.writers && v != w && s.writers[v].Working? && s.writers[w].Working?
    requires s.writers[w].flushed == |s.writers[w].writes| && !s.writers[v].strayed && !s.writers[w].strayed
    ensures Sound(PutAll(s.db.tables, s.writers[w].writes), s.writers[v])
  {
    var writes, writer := s.writers[w].writes, s.writers[v];
    assert Sound(s.db.tables, s.writers[w]) && Sound(s.db.tables, writer);
    assert writes[..|writes|] == writes;
    assert Held(true, s.writers[w]) == writes;
    hide Storable, Conflicts, Shaped, Stands, Ready, PutAll;
    var held := writer.writes[..writer.flushed];
    assert forall e :: e in held ==> e in Held(true, writer);
    forall d | d in writes ensures Apart(d, held) {
      forall e | e in held ensures !Conflicts(d, e) && !Conflicts(e, d) {
        ConflictsBothWays(d, e);
      }
    }
    AllReadyStay(s.db.tables, writes, held);
    if writer.flushed == 0 && Locks(writer.writes[0]) {
      AllStand(s.db.tables, writes, writer.writes[0]);
    }
  }

  /** Whatever others commit, an edge read to be removed is what was read or gone. */
  lemma ReadEdgesStay(s: State, w: nat, v: nat, k: nat)
    requires Known(s) && v in s.writers && w in s.writers && s.writers[v].Working? && s.writers[w].Working?
    requires s.writers[w].flushed == |s.writers[w].writes| && k < |s.writers[v].writes|
    requires forall e :: e in s.writers[w].writes ==> WellFormed(e)
    requires s.writers[v].writes[k].operation == Unrelate && s.writers[v].writes[k].entity.OfEdge?
    ensures var t, id := PutAll(s.db.tables, s.writers[w].writes), s.writers[v].writes[k].entity.id;
            id in t.edges ==> id in s.db.tables.edges && t.edges[id] == s.db.tables.edges[id]
  {
    var writes := s.writers[w].writes;
    assert KnownEntry(s.db, s.writers[v].writes[k], k < s.writers[v].flushed);
    forall j | 0 <= j < |writes|
      ensures !(writes[j].operation == Relate && writes[j].entity == s.writers[v].writes[k].entity)
    {
      assert KnownEntry(s.db, writes[j], true);
    }
    EdgesAfter(s.db.tables, writes, s.writers[v].writes[k].entity.id);
  }

  lemma {:induction false} EdgesAfter(t: Tables, entries: seq<Entry>, id: Id)
    requires forall j :: 0 <= j < |entries| ==>
               WellFormed(entries[j]) && !(entries[j].operation == Relate && entries[j].entity == OfEdge(id))
    ensures id in PutAll(t, entries).edges ==> id in t.edges && PutAll(t, entries).edges[id] == t.edges[id]
  {
    if entries != [] {
      EdgesAfter(t, entries[..|entries| - 1], id);
      hide PutAll;
    }
  }

  lemma {:induction false} JournalAfterCommit(db: Db, entries: seq<Entry>)
    ensures var after := AppendAll(db, entries);
            && |after.journal| == |db.journal| + |entries| && after.journal[..|db.journal|] == db.journal
            && forall k :: 0 <= k < |entries| ==> after.journal[|db.journal| + k].entity == entries[k].entity
  {
    if entries != [] {
      JournalAfterCommit(db, entries[..|entries| - 1]);
    }
  }

  lemma MentionedAfter(db: Db, entries: seq<Entry>, entity: Entity)
    ensures Mentioned(AppendAll(db, entries).journal, entity)
            <==> Mentioned(db.journal, entity) || exists k :: 0 <= k < |entries| && entries[k].entity == entity
  {
    JournalAfterCommit(db, entries);
    var n, after := |db.journal|, AppendAll(db, entries).journal;
    hide AppendAll;
    forall k | 0 <= k < n ensures after[k] == db.journal[k] {
      assert after[..n][k] == after[k];
    }
    if Mentioned(after, entity) {
      var k :| 0 <= k < |after| && after[k].entity == entity;
      if k >= n {
        assert after[n + (k - n)].entity == entries[k - n].entity;
      }
    }
    if k :| 0 <= k < |entries| && entries[k].entity == entity {
      assert after[n + k].entity == entity;
    }
  }

  lemma {:induction false} TablesOfAppendAll(db: Db, entries: seq<Entry>)
    ensures AppendAll(db, entries).tables == PutAll(db.tables, entries)
  {
    if entries != [] {
      TablesOfAppendAll(db, entries[..|entries| - 1]);
    }
  }

  /** Two sessions never flushed the same row, unless both found it gone. */
  lemma RowsDiffer(s: State, w: nat, v: nat, j: nat, k: nat)
    requires Inv(s) && v in s.writers && w in s.writers && v != w && s.writers[v].Working? && s.writers[w].Working?
    requires j < s.writers[w].flushed && k < s.writers[v].flushed && !(s.writers[v].strayed && s.writers[w].strayed)
    ensures j < |s.writers[w].writes| && k < |s.writers[v].writes|
    ensures s.writers[w].writes[j].entity != s.writers[v].writes[k].entity
  {
    hide Shaped, Ready, Stands, Locks, Told, Known, ServiceRuns.Sound, Gone;
    assert Sound(s.db.tables, s.writers[v]) && Sound(s.db.tables, s.writers[w]);
    if s.writers[w].strayed {
      hide Sure, Sound, Held;
      StrayRowDiffers(s, w, v, k);
    } else if s.writers[v].strayed {
      hide Sure, Sound, Held;
      StrayRowDiffers(s, v, w, j);
    } else {
      assert s.writers[w].writes[j] in Held(true, s.writers[w]) && s.writers[v].writes[k] in Held(true, s.writers[v]);
    }
  }

  /** What a stray found gone nobody else has removed, or inserted, since. */
  lemma StrayRowDiffers(s: State, w: nat, v: nat, k: nat)
    requires Sure(s) && Known(s) && v in s.writers && w in s.writers && v != w
    requires s.writers[v].Working? && s.writers[w].Working? && k < s.writers[v].flushed
    requires s.writers[w].strayed && !s.writers[v].strayed
    ensures |s.writers[w].writes| == 1 && k < |s.writers[v].writes|
    ensures s.writers[w].writes[0].entity != s.writers[v].writes[k].entity
  {
    assert Sound(s.db.tables, s.writers[v]) && Sound(s.db.tables, s.writers[w]);
    var d, e := s.writers[w].writes[0], s.writers[v].writes[k];
    assert KnownEntry(s.db, d, true) && KnownEntry(s.db, e, true);
    if e.operation == Unrelate {
      var flushed := s.writers[v].writes[..s.writers[v].flushed];
      assert k == 0 && flushed[..0] == [];
      assert Allowed(PutAll(s.db.tables, flushed[..0]), flushed[0]);
    }
    hide Mentioned, Ready, Stands, Conflicts;
  }

  lemma OthersStayKnown(s: State, w: nat, v: nat, k: nat, t: State)
    requires Inv(s) && CanCommit(s, w) && t == Committed(s, w) && v in s.writers && v != w && s.writers[v].Working?
    requires t.db.tables == PutAll(s.db.tables, s.writers[w].writes) && k < |s.writers[v].writes|
    ensures KnownEntry(t.db, s.writers[v].writes[k], k < s.writers[v].flushed)
  {
    var writes, e := s.writers[w].writes, s.writers[v].writes[k];
    assert KnownEntry(s.db, e, k < s.writers[v].flushed);
    MentionedAfter(s.db, writes, e.entity);
    hide Mentioned, AppendAll, PutAll, Told, ServiceRuns.Sound;
    if e.operation == Unrelate && e.entity.OfEdge? {
      hide Sure;
      ReadEdgesStay(s, w, v, k);
    } else if e.operation == Relate && k < s.writers[v].flushed {
      assert !s.writers[v].strayed by {
        assert Sound(s.db.tables, s.writers[v]);
      }
      forall j | 0 <= j < |writes| ensures writes[j].entity != e.entity {
        RowsDiffer(s, w, v, j, k);
      }
    }
  }

  lemma EdgesStayMentioned(s: State, w: nat, t: State, id: Id)
    requires Known(s) && CanCommit(s, w) && t == Committed(s, w)
    requires t.db.tables == PutAll(s.db.tables, s.writers[w].writes) && id in t.db.tables.edges
    ensures Mentioned(t.db.journal, OfEdge(id))
  {
    var writes := s.writers[w].writes;
    MentionedAfter(s.db, writes, OfEdge(id));
    hide AppendAll, PutAll, Mentioned;
    if !Mentioned(t.db.journal, OfEdge(id)) {
      EdgesAfter(s.db.tables, writes, id);
    }
  }

  lemma CommitKeepsKnown(s: State, w: nat, t: State)
    requires Inv(s) && CanCommit(s, w) && t == Committed(s, w)
    requires t.db.tables == PutAll(s.db.tables, s.writers[w].writes)
    ensures Known(t)
  {
    hide AppendAll, PutAll, Mentioned, KnownEntry, Shaped, Told, Sure;
    forall id | id in t.db.tables.edges ensures Mentioned(t.db.journal, OfEdge(id)) {
      EdgesStayMentioned(s, w, t, id);
    }
    forall v, k | v in t.writers && t.writers[v].Working? && 0 <= k < |t.writers[v].writes|
      ensures KnownEntry(t.db, t.writers[v].writes[k], k < t.writers[v].flushed)
    {
      OthersStayKnown(s, w, v, k, t);
    }
  }

  /** A step that commits nothing, of a session whose own entries are known. */
  lemma StillKnown(s: State, w: nat, writer: Writer, t: State)
    requires Known(s) && t.db == s.db && t.writers == s.writers[w := writer]
    requires writer.Working? ==>
               forall k :: 0 <= k < |writer.writes| ==> KnownEntry(s.db, writer.writes[k], k < writer.flushed)
    ensures Known(t)
  {
    hide KnownEntry, Mentioned;
  }

  lemma DecideKeepsKnown(rules: Rules, s: State, w: nat, t: State)
    requires Known(s) && Next(rules, s, Decide(w), t)
    ensures Known(t)
  {
    var task := s.writers[w].task;
    if Decided(s.db.tables, task).Writes? {
      DecidedReadsEdge(s.db.tables, task);
    }
    hide Decided, Shaped, Stands, Blocked, Locks, Mentioned;
    StillKnown(s, w, t.writers[w], t);
  }

  lemma FlushKeepsKnown(rules: Rules, s: State, w: nat, t: State)
    requires Known(s) && Next(rules, s, Flush(w), t)
    ensures Known(t)
  {
    hide Blocked, Storable, Gone, Mentioned, Locks;
    var before, after := s.writers[w], t.writers[w];
    forall k | 0 <= k < |after.writes| ensures KnownEntry(s.db, after.writes[k], k < after.flushed) {
      assert KnownEntry(s.db, before.writes[k], k < before.flushed);
    }
    StillKnown(s, w, after, t);
  }

  lemma CommitKeepsInv(s: State, w: nat, t: State)
    requires Inv(s) && CanCommit(s, w) && t == Committed(s, w)
    ensures Inv(t)
  {
    var writer := s.writers[w];
    TablesOfAppendAll(s.db, writer.writes);
    assert writer.writes[..|writer.writes|] == writer.writes;
    assert Sound(s.db.tables, writer);
    if writer.strayed {
      StrayPutsNothing(s, w);
      StrayIsAppended(s.db, s.strays, writer.writes);
    } else {
      AppendAllKeepsTold(s.db, s.strays, writer.writes);
      assert Loopless(s.db.tables.things, writer.writes);
      ReadyHasNoLoops(s.db.tables, writer.writes);
      PutAllKeepsSound(s.db.tables, writer.writes);
      assert seq(|writer.writes|, i => writer.strayed) == seq(|writer.writes|, i => false);
    }
    hide Told, Sound, ServiceRuns.Sound, AppendAll, PutAll, Shaped, Known, Sure;
    CommitKeepsSure(s, w, t);
    CommitKeepsKnown(s, w, t);
    CommitKeepsStraight(s, w, t);
  }

  lemma CommitKeepsStraight(s: State, w: nat, t: State)
    requires Inv(s) && CanCommit(s, w) && t == Committed(s, w)
    requires t.db.tables == PutAll(s.db.tables, s.writers[w].writes)
    ensures Straight(t)
  {
    var writer := s.writers[w];
    assert Sound(s.db.tables, writer);
    assert writer.writes[..|writer.writes|] == writer.writes;
    if writer.strayed {
      StrayPutsNothing(s, w);
    } else {
      ThingsStay(s.db.tables, writer.writes);
    }
    hide Told, Sound, ServiceRuns.Sound, AppendAll, PutAll, Shaped, Known, Sure, Ready, Loops;
    forall v | v in t.writers && t.writers[v].Working? ensures Loopless(t.db.tables.things, t.writers[v].writes) {
      assert Loopless(s.db.tables.things, s.writers[v].writes);
    }
  }

  /** A step that commits nothing, of a session whose own writes are straight. */
  lemma StillStraight(s: State, w: nat, writer: Writer, t: State)
    requires Straight(s) && t.db == s.db && t.writers == s.writers[w := writer]
    requires writer.Working? ==> Loopless(s.db.tables.things, writer.writes)
    ensures Straight(t)
  {
    hide Loopless;
  }

  lemma DecideKeepsStraight(rules: Rules, s: State, w: nat, t: State)
    requires Straight(s) && Next(rules, s, Decide(w), t)
    ensures Straight(t)
  {
    var task := s.writers[w].task;
    if Decided(s.db.tables, task).Writes? {
      DecidedIsLoopless(s.db.tables, task);
    }
    hide Decided, Shaped, Stands, Blocked, Locks, Loopless;
    StillStraight(s, w, t.writers[w], t);
  }

  lemma StrayIsAppended(db: Db, strays: seq<bool>, writes: seq<Entry>)
    requires Told(db, strays) && |writes| == 1 && WellFormed(writes[0]) && Gone(db.tables, writes[0])
    ensures Told(AppendAll(db, writes), strays + seq(|writes|, i => true))
  {
    AppendKeepsTold(db, strays, writes[0], true);
    hide Told, Append;
    assert AppendAll(db, writes) == Append(db, writes[0]);
    assert strays + seq(1, i => true) == strays + [true];
  }

  lemma StepKeepsInv(rules: Rules, s: State, step: Step, t: State)
    requires Inv(s) && Next(rules, s, step, t) && rules.locks
    ensures Inv(t)
  {
    hide Told, ServiceRuns.Sound, Sure, Known, Decided, Storable, Blocked, Shaped, Locks, Gone, Mentioned;
    hide CanCommit, Committed;
    match step
    case Commit(w) => CommitKeepsInv(s, w, t);
    case Decide(w) =>
      DecideKeepsSure(rules, s, w, t);
      DecideKeepsKnown(rules, s, w, t);
      DecideKeepsStraight(rules, s, w, t);
    case Flush(w) =>
      FlushKeepsSure(rules, s, w, t);
      FlushKeepsKnown(rules, s, w, t);
      StillStraight(s, w, t.writers[w], t);
    case _ => OthersKeepInv(rules, s, step, t);
  }

  lemma OthersKeepInv(rules: Rules, s: State, step: Step, t: State)
    requires Inv(s) && Next(rules, s, step, t) && !step.Commit? && !step.Decide? && !step.Flush?
    ensures Inv(t)
  {
    hide Told, ServiceRuns.Sound, Decided, Storable, Blocked, Shaped, Locks, Gone, Mentioned, KnownEntry, Conflicts;
    hide Ready, Stands;
    var w := step.w;
    if step.Number? {
      assert Sound(s.db.tables, s.writers[w]);
    }
    NoMoreHeld(s, w, t.writers[w], t);
    StillKnown(s, w, t.writers[w], t);
    StillStraight(s, w, t.writers[w], t);
  }

  lemma {:induction false} ReachableInv(rules: Rules, states: seq<State>, steps: seq<Step>, i: nat)
    requires Run(rules, states, steps) && rules.locks && i < |states|
    ensures Inv(states[i])
  {
    hide Inv, Next;
    if i == 0 {
      EmptyHolds();
    } else {
      ReachableInv(rules, states, steps, i - 1);
      StepKeepsInv(rules, states[i - 1], steps[i - 1], states[i]);
    }
  }

  lemma EmptyHolds()
    ensures Inv(Empty)
  {
  }

  /**
   * However the calls interleave and whichever die, in every committed state every edge joins two
   * different Things, the hierarchy is acyclic, no pair carries two evidence edges, and the journal in the
   * order of commit replays to the tables; an entry is honest exactly if it did not stray.
   */
  lemma EveryInterleavingIsSound(rules: Rules, states: seq<State>, steps: seq<Step>, i: nat)
    requires Run(rules, states, steps) && rules.locks && i < |states|
    ensures var s := states[i];
            && ServiceRuns.Sound(s.db.tables) && Replay(s.db.journal) == s.db.tables
            && |s.strays| == |s.db.journal|
            && forall k :: 0 <= k < |s.db.journal| ==> (Honest(s.db.journal, k) <==> !s.strays[k])
  {
    ReachableInv(rules, states, steps, i);
  }
}
