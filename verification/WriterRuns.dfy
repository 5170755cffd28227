/** Whole runs of concurrent sessions, against the same calls made one after another. */
module WriterRuns {
  import opened Prelude
  import opened Paths
  import opened Graph
  import opened Journal
  import opened Service
  import opened Writers
  import opened WritersProofs
  import Text

  /** What the call leaves when it is made alone. */
  ghost function AfterTask(db: Db, task: Task): Db
    requires task.Valid()
  {
    match task
    case Creating(actor, id, thing, tomorrow, now) => AfterCreate(db, actor, id, thing, tomorrow, now).0
    case Updating(actor, id, c, expected, now) => AfterUpdate(db, actor, id, c, expected, now).0
    case Rejecting(actor, preference, now) => AfterReject(db, actor, preference, now).0
    case Relating(actor, id, edge) => AfterRelate(db, actor, id, edge).0
    case Unrelating(actor, id, now) => AfterUnrelate(db, actor, id, now).0
    case Adding(actor, preference, source, id, now) => AfterAddEvidence(db, actor, preference, source, id, now).0
    case Anchoring(actor, now) => AfterAnchor(db, actor, now)
    case Recording(actor, title, scope, evidence, id, anchorEdge, ids, now) =>
      AfterRecord(db, actor, title, scope, evidence, id, anchorEdge, ids, now).0
  }

  ghost predicate Unfit(t: Tables, source: Id) {
    source in t.things && UnfitAsEvidence(t.things[source])
  }

  /**
   * What a call read no longer holds: the tags of its evidence, or of the preference, were changed,
   * or the edge it removes is gone. No lock is held on those rows.
   */
  ghost predicate Overtaken(t: Tables, task: Task) {
    match task
    case Relating(_, _, edge) => edge.kind == EvidenceFor && Unfit(t, edge.source)
    case Adding(_, preference, source, _, _) =>
      Unfit(t, source) || (preference in t.things && PREFERENCE_TAG !in t.things[preference].tags)
    case Unrelating(_, id, _) => id !in t.edges
    case Recording(_, _, _, evidence, _, _, _, _) => exists source :: source in Distinct(evidence) && Unfit(t, source)
    case _ => false
  }

  ghost predicate CameFrom(task: Task, writes: seq<Entry>, t: Tables) {
    task.Valid() && Decided(t, task) == Writes(writes)
  }

  lemma OneWrite(db: Db, e: Entry)
    requires Ready(db.tables, [e])
    ensures Allowed(db.tables, e)
    ensures AppendAll(db, [e]) == Write(db, e.at, e.actor, e.operation, e.entity, e.after)
  {
    assert [e][..0] == [];
    assert PutAll(db.tables, [e][..0]) == db.tables;
    assert Allowed(PutAll(db.tables, [e][..0]), [e][0]);
    assert AppendAll(db, [e]) == Append(db, e);
  }

  lemma CreateCommits(db: Db, task: Task, t: Tables, writes: seq<Entry>)
    requires (task.Creating? || task.Anchoring?) && CameFrom(task, writes, t) && Ready(db.tables, writes)
    ensures AppendAll(db, writes) == AfterTask(db, task)
  {
    hide Ready, AppendAll, Oversized, WithCaptureDefaults;
    OneWrite(db, writes[0]);
  }

  lemma UpdateCommits(db: Db, task: Task, t: Tables, writes: seq<Entry>)
    requires (task.Updating? || task.Rejecting?) && CameFrom(task, writes, t) && Ready(db.tables, writes)
    ensures AppendAll(db, writes) == AfterTask(db, task)
  {
    hide Ready, AppendAll, Oversized, HidesHeartbeat, Updated;
    OneWrite(db, writes[0]);
  }

  lemma UnrelateCommits(db: Db, task: Task, t: Tables, writes: seq<Entry>)
    requires task.Unrelating? && CameFrom(task, writes, t) && Ready(db.tables, writes)
    ensures AppendAll(db, writes) == AfterTask(db, task) && !Overtaken(db.tables, task)
  {
    hide Ready, AppendAll;
    OneWrite(db, writes[0]);
  }

  lemma RelateCommitsIff(db: Db, task: Task, t: Tables, writes: seq<Entry>)
    requires (task.Relating? || task.Adding?) && CameFrom(task, writes, t) && Ready(db.tables, writes)
    ensures AppendAll(db, writes) == AfterTask(db, task) <==> !Overtaken(db.tables, task)
  {
    hide Ready, AppendAll, Reaches, UnfitAsEvidence;
    OneWrite(db, writes[0]);
    assert |AppendAll(db, writes).journal| == |db.journal| + 1;
  }

  lemma {:induction false} RefusalIff(things: Things, ids: seq<Id>)
    ensures EvidenceRefusal(things, ids) == None
            <==> forall id :: id in ids ==> id in things && !UnfitAsEvidence(things[id])
  {
    hide UnfitAsEvidence;
    if ids != [] {
      RefusalIff(things, ids[1..]);
    }
  }

  lemma EdgeCommits(db: Db, actor: Actor, id: Id, edge: Edge)
    requires Allowed(db.tables, Insertion(actor, id, edge)) && edge.source != edge.target && edge.kind != ChildOf
    requires edge.context == None && (edge.kind == EvidenceFor ==> !Unfit(db.tables, edge.source))
    ensures AfterInsertEdge(db, actor, id, edge) == (Append(db, Insertion(actor, id, edge)), Done(id))
    ensures Append(db, Insertion(actor, id, edge)).tables.things == db.tables.things
  {
    hide UnfitAsEvidence, Reaches;
  }

  lemma SameThingsFit(t: Tables, u: Tables, source: Id)
    requires t.things == u.things
    ensures Unfit(t, source) <==> Unfit(u, source)
  {}

  /** The evidence edges of a preference, flushed one after the other, are those of the call alone. */
  lemma {:induction false} EvidenceCommits(db: Db, actor: Actor, preference: Id, evidence: seq<Id>, ids: seq<Id>,
                                           now: Time)
    requires |ids| == |evidence| && Ready(db.tables, EvidenceInsertions(actor, preference, evidence, ids, now))
    requires forall source :: source in evidence ==> source != preference && !Unfit(db.tables, source)
    ensures AfterEvidence(db, actor, preference, evidence, ids, now)
            == (AppendAll(db, EvidenceInsertions(actor, preference, evidence, ids, now)), Done(preference))
    ensures AppendAll(db, EvidenceInsertions(actor, preference, evidence, ids, now)).tables.things == db.tables.things
  {
    hide Unfit, Allowed, Append, AfterInsertEdge, Ready;
    if evidence != [] {
      var n := |evidence| - 1;
      var entries := EvidenceInsertions(actor, preference, evidence, ids, now);
      assert entries[..n] == EvidenceInsertions(actor, preference, evidence[..n], ids[..n], now);
      assert forall source :: source in evidence[..n] ==> source in evidence;
      ReadyFront(db.tables, entries);
      EvidenceCommits(db, actor, preference, evidence[..n], ids[..n], now);
      TablesOfAppendAll(db, entries[..n]);
      assert evidence[n] in evidence;
      var earlier := AppendAll(db, entries[..n]);
      SameThingsFit(db.tables, earlier.tables, evidence[n]);
      EdgeCommits(earlier, actor, ids[n], EvidenceEdge(evidence[n], preference, now));
    }
  }

  lemma {:induction false} InTwoParts(db: Db, head: seq<Entry>, tail: seq<Entry>)
    ensures AppendAll(db, head + tail) == AppendAll(AppendAll(db, head), tail)
    ensures PutAll(db.tables, head + tail) == PutAll(PutAll(db.tables, head), tail)
    ensures Ready(db.tables, head + tail) ==> Ready(db.tables, head) && Ready(PutAll(db.tables, head), tail)
  {
    hide Append, PutOne, Ready;
    if tail == [] {
      assert head + tail == head;
      NothingIsReady(PutAll(db.tables, head));
    } else {
      var n := |tail| - 1;
      assert (head + tail)[..|head| + n] == head + tail[..n];
      InTwoParts(db, head, tail[..n]);
      if Ready(db.tables, head + tail) {
        ReadyFront(db.tables, head + tail);
        ReadyLast(PutAll(db.tables, head), tail);
      }
    }
  }

  lemma NothingIsReady(t: Tables)
    ensures Ready(t, [])
  {}

  lemma ThingCommits(db: Db, actor: Actor, id: Id, thing: Thing, now: Time)
    requires Ready(db.tables, [Creation(actor, id, thing, now)])
    requires !Oversized(Some(thing.title), thing.description, Some(thing.tags))
    ensures id !in db.tables.things
    ensures AppendAll(db, [Creation(actor, id, thing, now)]) == AfterInsertThing(db, actor, id, thing, now).0
    ensures AfterInsertThing(db, actor, id, thing, now).1.Done?
    ensures AppendAll(db, [Creation(actor, id, thing, now)]).tables.things == db.tables.things[id := thing]
  {
    hide Oversized, AppendAll, Ready;
    OneWrite(db, Creation(actor, id, thing, now));
  }

  lemma LinkCommits(db: Db, actor: Actor, id: Id, edge: Edge)
    requires Ready(db.tables, [Insertion(actor, id, edge)]) && edge.source != edge.target && edge.kind == RelatedTo
    requires edge.context == None
    ensures edge.source in db.tables.things
    ensures AfterInsertEdge(db, actor, id, edge) == (AppendAll(db, [Insertion(actor, id, edge)]), Done(id))
    ensures AppendAll(db, [Insertion(actor, id, edge)]).tables.things == db.tables.things
  {
    OneWrite(db, Insertion(actor, id, edge));
    hide AppendAll, Ready;
    EdgeCommits(db, actor, id, edge);
  }

  lemma PreferenceCommits(db: Db, actor: Actor, title: string, scope: string, evidence: seq<Id>, preference: Id,
                          anchorEdge: Id, ids: seq<Id>, now: Time)
    requires |ids| == |evidence| && preference != USER_ANCHOR_ID && |title| <= MAX_TITLE_CHARS
    requires Ready(db.tables, PreferenceWrites(actor, title, scope, evidence, preference, anchorEdge, ids, now))
    requires forall source :: source in evidence ==> source in db.tables.things && !Unfit(db.tables, source)
    ensures AfterPreference(db, actor, title, scope, evidence, preference, anchorEdge, ids, now)
            == (AppendAll(db, PreferenceWrites(actor, title, scope, evidence, preference, anchorEdge, ids, now)),
                Done(preference))
    ensures USER_ANCHOR_ID in db.tables.things
  {
    var thing, link := PreferenceThing(title, scope, now), Edge(USER_ANCHOR_ID, preference, RelatedTo, None, now);
    var c, a := Creation(actor, preference, thing, now), Insertion(actor, anchorEdge, link);
    var tail := EvidenceInsertions(actor, preference, evidence, ids, now);
    assert PreferenceWrites(actor, title, scope, evidence, preference, anchorEdge, ids, now) == [c] + ([a] + tail);
    TagsFit(thing);
    hide Ready, AppendAll, PutAll, AfterInsertThing, AfterInsertEdge, AfterEvidence, Unfit, Oversized,
        EvidenceInsertions, PreferenceWrites;
    InTwoParts(db, [c], [a] + tail);
    ThingCommits(db, actor, preference, thing, now);
    var withThing := AppendAll(db, [c]);
    TablesOfAppendAll(db, [c]);
    InTwoParts(withThing, [a], tail);
    LinkCommits(withThing, actor, anchorEdge, link);
    var anchored := AppendAll(withThing, [a]);
    TablesOfAppendAll(withThing, [a]);
    forall source | source in evidence ensures source != preference && !Unfit(anchored.tables, source) {
      OtherThingsFit(db.tables, anchored.tables, preference, thing, source);
    }
    EvidenceCommits(anchored, actor, preference, evidence, ids, now);
  }

  lemma OtherThingsFit(t: Tables, u: Tables, id: Id, thing: Thing, source: Id)
    requires source != id && source in t.things && u.things == t.things[id := thing]
    ensures Unfit(t, source) <==> Unfit(u, source)
  {}

  lemma TagsFit(thing: Thing)
    requires |thing.title| <= MAX_TITLE_CHARS && thing.description == None && thing.tags == [PREFERENCE_TAG]
    ensures !Oversized(Some(thing.title), thing.description, Some(thing.tags))
  {
    assert |PREFERENCE_TAG| == 11;
  }

  lemma RecordDecided(t: Tables, task: Task, writes: seq<Entry>)
    requires task.Recording? && CameFrom(task, writes, t)
    ensures Text.Strip(task.scope) != "" && |Text.Strip(task.scope)| <= MAX_SCOPE_CHARS
            && |task.title| <= MAX_TITLE_CHARS
    ensures Distinct(task.evidence) != []
    ensures forall source :: source in Distinct(task.evidence) ==> source in t.things
    ensures writes == PreferenceWrites(task.actor, task.title, Text.Strip(task.scope), Distinct(task.evidence), task.id,
                                       task.anchorEdge, task.ids, task.now)
  {
    hide Distinct, Text.Strip, EvidenceRefusal, PreferenceWrites;
    RefusalIff(t.things, Distinct(task.evidence));
  }

  lemma RecordedAlone(db: Db, actor: Actor, title: string, scope: string, evidence: seq<Id>, preference: Id,
                      anchorEdge: Id, ids: seq<Id>, now: Time)
    requires |ids| == |Distinct(evidence)| && preference != USER_ANCHOR_ID && Distinct(evidence) != []
    requires Text.Strip(scope) != "" && |Text.Strip(scope)| <= MAX_SCOPE_CHARS && |title| <= MAX_TITLE_CHARS
    requires Ready(db.tables, PreferenceWrites(actor, title, Text.Strip(scope), Distinct(evidence), preference,
                                               anchorEdge, ids, now))
    requires forall source :: source in Distinct(evidence) ==> source in db.tables.things && !Unfit(db.tables, source)
    ensures AfterRecord(db, actor, title, scope, evidence, preference, anchorEdge, ids, now).0
            == AppendAll(db, PreferenceWrites(actor, title, Text.Strip(scope), Distinct(evidence), preference,
                                              anchorEdge, ids, now))
  {
    hide AfterPreference, Ready, AppendAll, Distinct, Text.Strip, UnfitAsEvidence, PreferenceWrites, EvidenceRefusal;
    PreferenceCommits(db, actor, title, Text.Strip(scope), Distinct(evidence), preference, anchorEdge, ids, now);
    RefusalIff(db.tables.things, Distinct(evidence));
    assert EvidenceRefusal(db.tables.things, Distinct(evidence)) == None;
  }

  // --- A commit against the call made alone at that instant ------------------------------

  /** What a session writes is what its call decided over tables whose Things are all still there. */
  ghost predicate Based(t: Tables, writer: Writer)
    requires writer.Working?
  {
    exists u :: CameFrom(writer.task, writer.writes, u) && u.things.Keys <= t.things.Keys
  }

  ghost predicate AllBased(s: State) {
    forall w :: w in s.writers && s.writers[w].Working? ==> Based(s.db.tables, s.writers[w])
  }

  lemma CommitGrows(s: State, w: nat, t: State)
    requires Inv(s) && CanCommit(s, w) && t == Committed(s, w)
    ensures !s.writers[w].strayed ==> Ready(s.db.tables, s.writers[w].writes)
    ensures s.writers[w].strayed ==> t.db.tables == s.db.tables
    ensures s.db.tables.things.Keys <= t.db.tables.things.Keys
            && t.db.tables == PutAll(s.db.tables, s.writers[w].writes)
  {
    var writes := s.writers[w].writes;
    TablesOfAppendAll(s.db, writes);
    if s.writers[w].strayed {
      StrayPutsNothing(s, w);
    } else {
      assert Sound(s.db.tables, s.writers[w]);
      assert writes[..|writes|] == writes;
      hide Ready, AppendAll, PutAll, Stands, Shaped;
      ThingsStay(s.db.tables, writes);
    }
  }

  /** Only an unrelate strays, and its edge is still gone when it commits. */
  lemma OnlyUnrelatesStray(s: State, w: nat)
    requires Inv(s) && AllBased(s) && w in s.writers && s.writers[w].Working? && s.writers[w].strayed
    ensures s.writers[w].task.Unrelating? && s.writers[w].task.id !in s.db.tables.edges
  {
    StrayPutsNothing(s, w);
    hide Inv, Decided, PutAll;
    var task, writes := s.writers[w].task, s.writers[w].writes;
    var u :| CameFrom(task, writes, u) && u.things.Keys <= s.db.tables.things.Keys;
    if !task.Unrelating? {
      NoUnrelate(task, writes, u);
    } else {
      UnrelateWrites(task, writes, u);
    }
  }

  lemma UnrelateWrites(task: Task, writes: seq<Entry>, u: Tables)
    requires CameFrom(task, writes, u) && task.Unrelating?
    ensures |writes| == 1 && writes[0].operation == Unrelate && writes[0].entity == OfEdge(task.id)
  {}

  lemma StepKeepsBased(rules: Rules, s: State, step: Step, t: State)
    requires Inv(s) && AllBased(s) && Next(rules, s, step, t)
    ensures AllBased(t)
  {
    if step.Commit? {
      CommitGrows(s, step.w, t);
    }
    hide Inv, AppendAll, Storable, Blocked, Shaped, Locks, Decided;
    forall v | v in t.writers && t.writers[v].Working? ensures Based(t.db.tables, t.writers[v]) {
      if v in s.writers && s.writers[v].Working? {
        var u :| CameFrom(s.writers[v].task, s.writers[v].writes, u) && u.things.Keys <= s.db.tables.things.Keys;
        assert CameFrom(t.writers[v].task, t.writers[v].writes, u);
      } else {
        assert CameFrom(t.writers[v].task, t.writers[v].writes, s.db.tables);
      }
    }
  }

  lemma {:induction false} AlwaysBased(rules: Rules, states: seq<State>, steps: seq<Step>, i: nat)
    requires Run(rules, states, steps) && rules.locks && i < |states|
    ensures AllBased(states[i])
  {
    hide Inv, Next;
    if i > 0 {
      AlwaysBased(rules, states, steps, i - 1);
      ReachableInv(rules, states, steps, i - 1);
      StepKeepsBased(rules, states[i - 1], steps[i - 1], states[i]);
    }
  }

  lemma RecordCommitsIff(db: Db, task: Task, t: Tables, writes: seq<Entry>)
    requires task.Recording? && CameFrom(task, writes, t) && Ready(db.tables, writes)
    requires t.things.Keys <= db.tables.things.Keys && |AppendAll(db, writes).journal| > |db.journal|
    ensures AppendAll(db, writes) == AfterTask(db, task) <==> !Overtaken(db.tables, task)
  {
    hide Ready, AppendAll, Distinct, Text.Strip, UnfitAsEvidence, PreferenceWrites, AfterPreference, EvidenceRefusal;
    RefusalIff(db.tables.things, Distinct(task.evidence));
    RecordDecided(t, task, writes);
    hide CameFrom;
    if !Overtaken(db.tables, task) {
      hide AfterTask;
      RecordedAlone(db, task.actor, task.title, task.scope, task.evidence, task.id, task.anchorEdge, task.ids,
                    task.now);
    }
  }

  ghost function Committing(rules: Rules, states: seq<State>, steps: seq<Step>, i: nat): Task
    requires Run(rules, states, steps) && rules.locks && i < |steps| && steps[i].Commit?
  {
    assert Next(rules, states[i], steps[i], states[i + 1]);
    states[i].writers[steps[i].w].task
  }

  /**
   * In any interleaving a commit leaves exactly what the call would have left made alone at that
   * instant, unless the tags it went by were changed after it read them, or the edge it removes was
   * removed: those rows are not locked.
   */
  lemma CommitIsTheCallIff(rules: Rules, states: seq<State>, steps: seq<Step>, i: nat)
    requires Run(rules, states, steps) && rules.locks && i < |steps| && steps[i].Commit?
    ensures var task := Committing(rules, states, steps, i);
            && task.Valid()
            && (states[i + 1].db == AfterTask(states[i].db, task) <==> !Overtaken(states[i].db.tables, task))
  {
    var s, w := states[i], steps[i].w;
    assert Next(rules, s, Commit(w), states[i + 1]);
    ReachableInv(rules, states, steps, i);
    AlwaysBased(rules, states, steps, i);
    CommitGrows(s, w, states[i + 1]);
    var task, writes := s.writers[w].task, s.writers[w].writes;
    var u :| CameFrom(task, writes, u) && u.things.Keys <= s.db.tables.things.Keys;
    JournalAfterCommit(s.db, writes);
    if s.writers[w].strayed {
      OnlyUnrelatesStray(s, w);
    } else {
      hide Inv, AppendAll, CameFrom;
      OneCommits(s.db, task, u, writes);
    }
  }

  lemma OneCommits(db: Db, task: Task, u: Tables, writes: seq<Entry>)
    requires CameFrom(task, writes, u) && Ready(db.tables, writes) && u.things.Keys <= db.tables.things.Keys
    requires |AppendAll(db, writes).journal| > |db.journal|
    ensures AppendAll(db, writes) == AfterTask(db, task) <==> !Overtaken(db.tables, task)
  {
    hide AppendAll, AfterTask, CameFrom, Ready;
    match task
    case Creating(_, _, _, _, _) => CreateCommits(db, task, u, writes);
    case Anchoring(_, _) => CreateCommits(db, task, u, writes);
    case Updating(_, _, _, _, _) => UpdateCommits(db, task, u, writes);
    case Rejecting(_, _, _) => UpdateCommits(db, task, u, writes);
    case Unrelating(_, _, _) => UnrelateCommits(db, task, u, writes);
    case Relating(_, _, _) => RelateCommitsIff(db, task, u, writes);
    case Adding(_, _, _, _, _) => RelateCommitsIff(db, task, u, writes);
    case Recording(_, _, _, _, _, _, _, _) => RecordCommitsIff(db, task, u, writes);
  }

  /** The calls of a run that committed, in the order in which they did. */
  ghost function CommitOrder(rules: Rules, states: seq<State>, steps: seq<Step>, i: nat): seq<Task>
    requires Run(rules, states, steps) && rules.locks && i < |states|
  {
    if i == 0 then []
    else
      CommitOrder(rules, states, steps, i - 1)
      + if steps[i - 1].Commit? then [Committing(rules, states, steps, i - 1)] else []
  }

  ghost function AfterTasks(tasks: seq<Task>): Db
    requires forall task :: task in tasks ==> task.Valid()
  {
    if tasks == [] then Db(NoTables, [], 1) else AfterTask(AfterTasks(tasks[..|tasks| - 1]), tasks[|tasks| - 1])
  }

  /** So a run in which none was overtaken leaves what its calls leave one after another. */
  lemma {:induction false} SerialInCommitOrder(rules: Rules, states: seq<State>, steps: seq<Step>, i: nat)
    requires Run(rules, states, steps) && rules.locks && i < |states|
    requires forall k :: 0 <= k < i && steps[k].Commit? ==>
               !Overtaken(states[k].db.tables, Committing(rules, states, steps, k))
    ensures var tasks := CommitOrder(rules, states, steps, i);
            (forall task :: task in tasks ==> task.Valid()) && states[i].db == AfterTasks(tasks)
  {
    hide Next, AfterTask, Overtaken, Committing;
    if i > 0 {
      SerialInCommitOrder(rules, states, steps, i - 1);
      var tasks := CommitOrder(rules, states, steps, i - 1);
      if steps[i - 1].Commit? {
        CommitIsTheCallIff(rules, states, steps, i - 1);
        var last := Committing(rules, states, steps, i - 1);
        assert CommitOrder(rules, states, steps, i) == tasks + [last];
        assert (tasks + [last])[..|tasks|] == tasks;
      } else {
        OnlyCommitsWrite(rules, states[i - 1], steps[i - 1], states[i]);
        assert CommitOrder(rules, states, steps, i) == tasks;
      }
    }
  }

  lemma OnlyCommitsWrite(rules: Rules, s: State, step: Step, t: State)
    requires Next(rules, s, step, t) && !step.Commit?
    ensures t.db == s.db
  {}

  // --- Deletes that matched no row --------------------------------------------------------

  lemma StrayedIff(s: State, w: nat)
    requires Inv(s) && AllBased(s) && CanCommit(s, w)
    ensures s.writers[w].strayed <==> s.writers[w].task.Unrelating? && s.writers[w].task.id !in s.db.tables.edges
  {
    if s.writers[w].strayed {
      OnlyUnrelatesStray(s, w);
    } else if s.writers[w].task.Unrelating? {
      CommitGrows(s, w, Committed(s, w));
      var task, writes := s.writers[w].task, s.writers[w].writes;
      var u :| CameFrom(task, writes, u) && u.things.Keys <= s.db.tables.things.Keys;
      hide Inv, AppendAll, CameFrom, Ready, Committed;
      UnrelateCommits(s.db, task, u, writes);
    }
  }

  /** The commit of an unrelate whose edge is gone. */
  ghost predicate Strays(rules: Rules, states: seq<State>, steps: seq<Step>, i: nat)
    requires Run(rules, states, steps) && rules.locks && i < |steps|
  {
    steps[i].Commit? && Committing(rules, states, steps, i).Unrelating?
    && Committing(rules, states, steps, i).id !in states[i].db.tables.edges
  }

  lemma StraysStep(rules: Rules, states: seq<State>, steps: seq<Step>, i: nat)
    requires Run(rules, states, steps) && rules.locks && i < |steps|
    ensures true in states[i + 1].strays <==> true in states[i].strays || Strays(rules, states, steps, i)
  {
    var s, t, w := states[i], states[i + 1], steps[i].w;
    assert Next(rules, s, steps[i], t);
    if steps[i].Commit? {
      ReachableInv(rules, states, steps, i);
      AlwaysBased(rules, states, steps, i);
      StrayedIff(s, w);
      hide Inv, AllBased, AppendAll;
      if s.writers[w].strayed {
        assert t.strays[|s.strays|];
      }
    }
  }

  /** A committed entry strayed exactly if an unrelate committed whose edge was gone. */
  lemma {:induction false} StraysIff(rules: Rules, states: seq<State>, steps: seq<Step>, i: nat)
    requires Run(rules, states, steps) && rules.locks && i < |states|
    ensures true in states[i].strays <==> exists j :: 0 <= j < i && Strays(rules, states, steps, j)
  {
    hide Next, Strays;
    if i > 0 {
      StraysIff(rules, states, steps, i - 1);
      StraysStep(rules, states, steps, i - 1);
      if Strays(rules, states, steps, i - 1) {
        assert 0 <= i - 1 < i;
      }
    }
  }

  /** A database layer that refuses a delete which matched no row lets no session stray. */
  lemma {:induction false} RefusingNoneStrays(rules: Rules, states: seq<State>, steps: seq<Step>, i: nat)
    requires Run(rules, states, steps) && rules.refuses && i < |states|
    ensures forall w :: w in states[i].writers && states[i].writers[w].Working? ==> !states[i].writers[w].strayed
    ensures true !in states[i].strays
  {
    hide AppendAll, Decided, Blocked, Shaped, Locks, Mentioned;
    if i > 0 {
      RefusingNoneStrays(rules, states, steps, i - 1);
      assert Next(rules, states[i - 1], steps[i - 1], states[i]);
    }
  }

  // --- Races ---------------------------------------------------------------------------------

  /** The pair whose strength an evidence call adds to. */
  function Supports(task: Task): Option<(Id, Id)> {
    match task
    case Adding(_, preference, source, _, _) => Some((source, preference))
    case Relating(_, _, edge) => if edge.kind == EvidenceFor then Some((edge.source, edge.target)) else None
    case _ => None
  }

  lemma {:induction false} EdgesStay(t: Tables, entries: seq<Entry>, id: Id)
    requires Ready(t, entries) && id in t.edges && forall e :: e in entries ==> e.operation != Unrelate
    ensures id in PutAll(t, entries).edges && PutAll(t, entries).edges[id] == t.edges[id]
  {
    hide Ready, Stands;
    if entries != [] {
      ReadyFront(t, entries);
      EdgesStay(t, entries[..|entries| - 1], id);
      hide PutAll;
    }
  }

  /** A pair stops being linked only by the commit of an unrelate of an edge that linked it. */
  lemma UnlinkedByUnrelate(rules: Rules, s: State, step: Step, t: State, source: Id, target: Id)
    requires Inv(s) && AllBased(s) && Next(rules, s, step, t)
    requires Linked(s.db.tables.edges, source, target, EvidenceFor)
             && !Linked(t.db.tables.edges, source, target, EvidenceFor)
    ensures step.Commit? && s.writers[step.w].task.Unrelating?
    ensures Carries(s.db.tables.edges, s.writers[step.w].task.id, source, target, EvidenceFor)
  {
    if !step.Commit? {
      OnlyCommitsWrite(rules, s, step, t);
    }
    CommitGrows(s, step.w, t);
    hide Inv, Ready, AppendAll, Shaped;
    var task, writes := s.writers[step.w].task, s.writers[step.w].writes;
    var u :| CameFrom(task, writes, u) && u.things.Keys <= s.db.tables.things.Keys;
    var id :| id in s.db.tables.edges && Carries(s.db.tables.edges, id, source, target, EvidenceFor);
    if !task.Unrelating? {
      NoUnrelate(task, writes, u);
      EdgesStay(s.db.tables, writes, id);
      assert false;
    } else if id != task.id {
      OnlyThatEdge(s.db.tables, task, writes, u, id);
      assert false;
    }
  }

  lemma NoUnrelate(task: Task, writes: seq<Entry>, u: Tables)
    requires CameFrom(task, writes, u) && !task.Unrelating?
    ensures forall e :: e in writes ==> e.operation != Unrelate
  {
    hide Oversized, Distinct, Text.Strip, EvidenceRefusal, Reaches;
  }

  lemma OnlyThatEdge(t: Tables, task: Task, writes: seq<Entry>, u: Tables, id: Id)
    requires CameFrom(task, writes, u) && task.Unrelating? && id in t.edges && id != task.id
    ensures id in PutAll(t, writes).edges && PutAll(t, writes).edges[id] == t.edges[id]
  {
    assert PutAll(t, writes) == PutOne(t, writes[0]);
  }

  lemma OneEdge(t: Tables, task: Task, writes: seq<Entry>, u: Tables)
    requires CameFrom(task, writes, u) && Supports(task).Some? && Ready(t, writes)
    ensures !Linked(t.edges, Supports(task).value.0, Supports(task).value.1, EvidenceFor)
    ensures Linked(PutAll(t, writes).edges, Supports(task).value.0, Supports(task).value.1, EvidenceFor)
    ensures task.id !in t.edges && PutAll(t, writes).edges.Keys == t.edges.Keys + {task.id}
    ensures PutAll(t, writes).things == t.things && |writes| == 1
  {
    hide Reaches, Oversized, Ready;
    OneWrite(Db(t, [], 1), writes[0]);
    assert PutAll(t, writes) == PutOne(t, writes[0]);
    assert Carries(PutOne(t, writes[0]).edges, task.id, Supports(task).value.0, Supports(task).value.1, EvidenceFor);
  }

  lemma SupportCommits(s: State, w: nat, t: State)
    requires Inv(s) && AllBased(s) && CanCommit(s, w) && t == Committed(s, w) && Supports(s.writers[w].task).Some?
    ensures var pair := Supports(s.writers[w].task).value;
            && !Linked(s.db.tables.edges, pair.0, pair.1, EvidenceFor)
            && Linked(t.db.tables.edges, pair.0, pair.1, EvidenceFor)
    ensures s.writers[w].task.id !in s.db.tables.edges && t.db.tables.things == s.db.tables.things
    ensures t.db.tables.edges.Keys == s.db.tables.edges.Keys + {s.writers[w].task.id}
    ensures |t.db.journal| == |s.db.journal| + 1
  {
    CommitGrows(s, w, t);
    if s.writers[w].strayed {
      OnlyUnrelatesStray(s, w);
    }
    hide Inv, Ready, AppendAll, Shaped, Linked, PutAll;
    var task, writes := s.writers[w].task, s.writers[w].writes;
    var u :| CameFrom(task, writes, u) && u.things.Keys <= s.db.tables.things.Keys;
    OneEdge(s.db.tables, task, writes, u);
    JournalAfterCommit(s.db, writes);
  }

  /**
   * Evidence answered as added is linked, whichever way it got there: by one new edge with one
   * entry where there was none, or else by nothing at all.
   */
  lemma AddedOnce(rules: Rules, states: seq<State>, steps: seq<Step>, i: nat, w: nat)
    requires Run(rules, states, steps) && rules.locks && i < |steps|
    requires w in states[i].writers && w in states[i + 1].writers
    requires states[i].writers[w].task.Adding? && !states[i].writers[w].Ended? && states[i + 1].writers[w].Ended?
    requires states[i + 1].writers[w].outcome == Some(Done(states[i].writers[w].task.preference))
    ensures var s, t, task := states[i], states[i + 1], states[i].writers[w].task;
            && Linked(t.db.tables.edges, task.source, task.preference, EvidenceFor)
            && if Linked(s.db.tables.edges, task.source, task.preference, EvidenceFor) then t.db == s.db
               else |t.db.journal| == |s.db.journal| + 1 && t.db.tables.things == s.db.tables.things
                    && t.db.tables.edges.Keys == s.db.tables.edges.Keys + {task.id} && task.id !in s.db.tables.edges
  {
    var s, t, step := states[i], states[i + 1], steps[i];
    assert Next(rules, s, step, t);
    ReachableInv(rules, states, steps, i);
    AlwaysBased(rules, states, steps, i);
    hide Inv, Blocked, Storable, Shaped, AppendAll, Linked;
    assert step.w == w;
    if step.Commit? {
      SupportCommits(s, w, t);
    }
  }

  /** Of any number of calls adding the same pair one writes, unless what it wrote is unrelated in between. */
  lemma OneWinner(rules: Rules, states: seq<State>, steps: seq<Step>, i: nat, j: nat)
    requires Run(rules, states, steps) && rules.locks && i < j < |steps| && steps[i].Commit? && steps[j].Commit?
    requires Supports(Committing(rules, states, steps, i)).Some?
    requires Supports(Committing(rules, states, steps, j)) == Supports(Committing(rules, states, steps, i))
    ensures var pair := Supports(Committing(rules, states, steps, i)).value;
            exists k :: i < k < j && steps[k].Commit? && Committing(rules, states, steps, k).Unrelating?
                        && Carries(states[k].db.tables.edges, Committing(rules, states, steps, k).id, pair.0, pair.1,
                                   EvidenceFor)
  {
    var pair := Supports(Committing(rules, states, steps, i)).value;
    ReachableInv(rules, states, steps, i);
    AlwaysBased(rules, states, steps, i);
    assert Next(rules, states[i], steps[i], states[i + 1]);
    SupportCommits(states[i], steps[i].w, states[i + 1]);
    ReachableInv(rules, states, steps, j);
    AlwaysBased(rules, states, steps, j);
    assert Next(rules, states[j], steps[j], states[j + 1]);
    SupportCommits(states[j], steps[j].w, states[j + 1]);
    hide Inv, AllBased, Next, Linked;
    var k := LastLinked(rules, states, steps, i + 1, j, pair);
    assert Committing(rules, states, steps, k).Unrelating?;
  }

  lemma {:induction false} LastLinked(rules: Rules, states: seq<State>, steps: seq<Step>, i: nat, j: nat,
                                      pair: (Id, Id))
    returns (k: nat)
    requires Run(rules, states, steps) && rules.locks && i <= j < |states|
    requires Linked(states[i].db.tables.edges, pair.0, pair.1, EvidenceFor)
    requires !Linked(states[j].db.tables.edges, pair.0, pair.1, EvidenceFor)
    ensures i <= k < j && steps[k].Commit? && Committing(rules, states, steps, k).Unrelating?
    ensures Carries(states[k].db.tables.edges, Committing(rules, states, steps, k).id, pair.0, pair.1, EvidenceFor)
    decreases j - i
  {
    hide Inv, AllBased, Linked, Next;
    if Linked(states[i + 1].db.tables.edges, pair.0, pair.1, EvidenceFor) {
      k := LastLinked(rules, states, steps, i + 1, j, pair);
    } else {
      ReachableInv(rules, states, steps, i);
      AlwaysBased(rules, states, steps, i);
      UnlinkedByUnrelate(rules, states[i], steps[i], states[i + 1], pair.0, pair.1);
      k := i;
    }
  }

  lemma StepGrows(rules: Rules, s: State, step: Step, t: State)
    requires Inv(s) && Next(rules, s, step, t)
    ensures s.db.tables.things.Keys <= t.db.tables.things.Keys
  {
    hide Inv, CanCommit, Committed, Decided, Storable, Blocked, Shaped, Locks;
    if step.Commit? {
      CommitGrows(s, step.w, t);
    }
  }

  lemma {:induction false} ThingsNeverGo(rules: Rules, states: seq<State>, steps: seq<Step>, i: nat, j: nat)
    requires Run(rules, states, steps) && rules.locks && i <= j < |states|
    ensures states[i].db.tables.things.Keys <= states[j].db.tables.things.Keys
    decreases j
  {
    hide Inv, Next;
    if i < j {
      ThingsNeverGo(rules, states, steps, i, j - 1);
      ReachableInv(rules, states, steps, j - 1);
      StepGrows(rules, states[j - 1], steps[j - 1], states[j]);
    }
  }

  lemma OneCreation(t: Tables, task: Task, writes: seq<Entry>, u: Tables)
    requires task.Anchoring? && CameFrom(task, writes, u) && Ready(t, writes)
    ensures USER_ANCHOR_ID !in t.things && USER_ANCHOR_ID in PutAll(t, writes).things
  {
    hide Ready;
    OneWrite(Db(t, [], 1), writes[0]);
    assert PutAll(t, writes) == PutOne(t, writes[0]);
  }

  lemma AnchorCommits(s: State, w: nat, t: State)
    requires Inv(s) && AllBased(s) && CanCommit(s, w) && t == Committed(s, w) && s.writers[w].task.Anchoring?
    ensures USER_ANCHOR_ID !in s.db.tables.things && USER_ANCHOR_ID in t.db.tables.things
  {
    CommitGrows(s, w, t);
    if s.writers[w].strayed {
      OnlyUnrelatesStray(s, w);
    }
    hide Inv, Ready, AppendAll, Shaped, PutAll;
    var task, writes := s.writers[w].task, s.writers[w].writes;
    var u :| CameFrom(task, writes, u) && u.things.Keys <= s.db.tables.things.Keys;
    OneCreation(s.db.tables, task, writes, u);
  }

  /** Of any number of first writers one makes the anchor. */
  lemma AnchorIsMadeOnce(rules: Rules, states: seq<State>, steps: seq<Step>, i: nat, j: nat)
    requires Run(rules, states, steps) && rules.locks && i < j < |steps| && steps[i].Commit? && steps[j].Commit?
    requires Committing(rules, states, steps, i).Anchoring?
    ensures !Committing(rules, states, steps, j).Anchoring?
  {
    assert Next(rules, states[i], steps[i], states[i + 1]) && Next(rules, states[j], steps[j], states[j + 1]);
    ReachableInv(rules, states, steps, i);
    AlwaysBased(rules, states, steps, i);
    ReachableInv(rules, states, steps, j);
    AlwaysBased(rules, states, steps, j);
    hide Inv, AllBased, Next;
    AnchorCommits(states[i], steps[i].w, states[i + 1]);
    ThingsNeverGo(rules, states, steps, i + 1, j);
    if Committing(rules, states, steps, j).Anchoring? {
      AnchorCommits(states[j], steps[j].w, states[j + 1]);
    }
  }

  lemma AnchorDecision(t: Tables, task: Task)
    requires task.Anchoring? && task.Valid()
    ensures Decided(t, task).Answer? ==> USER_ANCHOR_ID in t.things
    ensures Verdict(t, task).Done? ==> USER_ANCHOR_ID in t.things
  {}

  lemma AnchorAnswered(rules: Rules, s: State, step: Step, t: State, w: nat)
    requires Inv(s) && AllBased(s) && Next(rules, s, step, t) && w in s.writers && w in t.writers
    requires s.writers[w].task.Anchoring? && !s.writers[w].Ended?
    requires t.writers[w].Ended? && t.writers[w].outcome.Some? && t.writers[w].outcome.value.Done?
    ensures USER_ANCHOR_ID in t.db.tables.things
  {
    hide Inv, AllBased, Blocked, Storable, Shaped, Decided, Verdict, Locks, Committed;
    if step.Commit? {
      if step.w != w {
        OthersWait(s, step.w, w);
      }
      AnchorCommits(s, w, t);
    } else if s.writers[w].task.Valid() {
      AnchorDecision(s.db.tables, s.writers[w].task);
    }
  }

  lemma OthersWait(s: State, v: nat, w: nat)
    requires CanCommit(s, v) && w in s.writers && v != w
    ensures w in Committed(s, v).writers && Committed(s, v).writers[w] == s.writers[w]
  {}

  /** And every one of them finds it, from its answer on. */
  lemma AnchoredIsThere(rules: Rules, states: seq<State>, steps: seq<Step>, i: nat, w: nat, j: nat)
    requires Run(rules, states, steps) && rules.locks && i < j < |states|
    requires w in states[i].writers && w in states[i + 1].writers
    requires states[i].writers[w].task.Anchoring? && !states[i].writers[w].Ended? && states[i + 1].writers[w].Ended?
    requires states[i + 1].writers[w].outcome == Some(Done(USER_ANCHOR_ID))
    ensures USER_ANCHOR_ID in states[j].db.tables.things
  {
    hide Inv, AllBased, Next;
    ReachableInv(rules, states, steps, i);
    AlwaysBased(rules, states, steps, i);
    AnchorAnswered(rules, states[i], steps[i], states[i + 1], w);
    ThingsNeverGo(rules, states, steps, i + 1, j);
  }

  /** A rejection extends the tags as they stand when it commits; nobody's tag write is lost to it. */
  lemma RejectionExtends(rules: Rules, states: seq<State>, steps: seq<Step>, i: nat)
    requires Run(rules, states, steps) && rules.locks && i < |steps| && steps[i].Commit?
    requires Committing(rules, states, steps, i).Rejecting?
    ensures var before, after, id := states[i].db.tables, states[i + 1].db.tables,
            Committing(rules, states, steps, i).preference;
            && id in before.things && id in after.things && after.edges == before.edges
            && after.things[id].tags == before.things[id].tags + [REJECTED_TAG]
            && forall other :: other in before.things && other != id ==>
                 other in after.things && after.things[other] == before.things[other]
  {
    var s, t, task := states[i], states[i + 1], Committing(rules, states, steps, i);
    assert Next(rules, s, steps[i], t);
    CommitIsTheCallIff(rules, states, steps, i);
    JournalAfterCommit(s.db, s.writers[steps[i].w].writes);
    hide AppendAll, Oversized;
    assert t.db == AfterReject(s.db, task.actor, task.preference, task.now).0;
  }
}
