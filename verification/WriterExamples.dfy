/** Runs of concurrent sessions that show what the locks are for, and what no lock prevents. */
module WriterExamples {
  import opened Prelude
  import opened Paths
  import opened Graph
  import opened Journal
  import opened Service
  import opened Writers
  import opened WriterRuns
  import Runs

  lemma Extended(rules: Rules, states: seq<State>, steps: seq<Step>, step: Step, t: State)
    returns (longer: seq<State>, more: seq<Step>)
    requires Run(rules, states, steps) && Next(rules, states[|states| - 1], step, t)
    ensures Run(rules, longer, more) && longer == states + [t] && more == steps + [step]
  {
    longer, more := Runs.OneMore(Rule(rules), states, steps, step, t);
  }

  ghost predicate Alone(rules: Rules, s: State, w: nat, e: Entry) {
    forall v :: v in s.writers && v != w ==> forall d :: d in Held(rules.locks, s.writers[v]) ==> !Conflicts(d, e)
  }

  /** A call begins and reads. */
  lemma Announced(rules: Rules, states: seq<State>, steps: seq<Step>, w: nat, task: Task, e: Entry)
    returns (longer: seq<State>, more: seq<Step>)
    requires Run(rules, states, steps) && task.Valid() && w !in states[|states| - 1].writers
    requires Decided(states[|states| - 1].db.tables, task) == Writes([e]) && Alone(rules, states[|states| - 1], w, e)
    ensures Run(rules, longer, more)
    ensures var s := states[|states| - 1];
            longer[|longer| - 1] == s.(writers := s.writers[w := Working(task, [e], 0, [], false)])
  {
    hide Decided, Conflicts, Held;
    var s := states[|states| - 1];
    var asked := s.(writers := s.writers[w := Asking(task)]);
    longer, more := Extended(rules, states, steps, Begin(w, task), asked);
    var t := s.(writers := s.writers[w := Working(task, [e], 0, [], false)]);
    assert t == asked.(writers := asked.writers[w := Working(task, [e], 0, [], false)]);
    longer, more := Extended(rules, longer, more, Decide(w), t);
  }

  function Flushed(s: State, w: nat, task: Task, e: Entry): State {
    s.(next := s.next + 1, writers := s.writers[w := Working(task, [e], 1, [s.next], false)])
  }

  /** It flushes its one write, which gets its number. */
  lemma FlushedNext(rules: Rules, states: seq<State>, steps: seq<Step>, w: nat, task: Task, e: Entry)
    returns (longer: seq<State>, more: seq<Step>)
    requires Run(rules, states, steps) && w in states[|states| - 1].writers
    requires states[|states| - 1].writers[w] == Working(task, [e], 0, [], false)
    requires Storable(states[|states| - 1].db.tables, e) && Alone(rules, states[|states| - 1], w, e)
    requires e.operation == Relate ==> !Mentioned(states[|states| - 1].db.journal, e.entity)
    ensures Run(rules, longer, more)
    ensures longer[|longer| - 1] == Flushed(states[|states| - 1], w, task, e)
  {
    var s := states[|states| - 1];
    ItsShape(s.db.tables, e);
    hide Conflicts, Held, Storable, Gone, Mentioned, Shaped;
    assert s.Seen(w) == s.db.tables;
    var flushed := s.(writers := s.writers[w := Working(task, [e], 1, [], false)]);
    longer, more := Extended(rules, states, steps, Flush(w), flushed);
    var t := Flushed(s, w, task, e);
    assert t == flushed.(next := s.next + 1, writers := flushed.writers[w := Working(task, [e], 1, [s.next], false)]);
    assert flushed.writers[w].numbers + [s.next] == [s.next];
    longer, more := Extended(rules, longer, more, Number(w), t);
  }

  lemma ItsShape(t: Tables, e: Entry)
    requires Storable(t, e)
    ensures Shaped([e]) && !Gone(t, e)
  {}

  function Finished(s: State, w: nat, task: Task, e: Entry, number: nat): State {
    s.(db := Append(s.db, e), numbers := s.numbers + [number], strays := s.strays + [false],
       writers := s.writers[w := Ended(task, Some(Done(Answered(task))))])
  }

  /** And commits. */
  lemma FinishedNext(rules: Rules, states: seq<State>, steps: seq<Step>, w: nat, task: Task, e: Entry, number: nat)
    returns (longer: seq<State>, more: seq<Step>)
    requires Run(rules, states, steps) && w in states[|states| - 1].writers && Shaped([e])
    requires states[|states| - 1].writers[w] == Working(task, [e], 1, [number], false)
    ensures Run(rules, longer, more) && longer == states + [Finished(states[|states| - 1], w, task, e, number)]
    ensures more == steps + [Commit(w)]
  {
    hide Append, Shaped;
    var s := states[|states| - 1];
    assert AppendAll(s.db, [e]) == Append(s.db, e);
    longer, more := Extended(rules, states, steps, Commit(w), Finished(s, w, task, e, number));
  }

  /** The whole of a call, with nobody in its way. */
  lemma Undisturbed(rules: Rules, states: seq<State>, steps: seq<Step>, w: nat, task: Task, e: Entry)
    returns (longer: seq<State>, more: seq<Step>)
    requires Run(rules, states, steps) && task.Valid() && w !in states[|states| - 1].writers
    requires Decided(states[|states| - 1].db.tables, task) == Writes([e]) && Alone(rules, states[|states| - 1], w, e)
    requires Storable(states[|states| - 1].db.tables, e)
    requires e.operation == Relate ==> !Mentioned(states[|states| - 1].db.journal, e.entity)
    ensures Run(rules, longer, more)
    ensures var s := states[|states| - 1];
            longer[|longer| - 1] == Finished(s, w, task, e, s.next).(next := s.next + 1)
  {
    hide Decided, Conflicts, Held, Storable, Append;
    var s := states[|states| - 1];
    ItsShape(s.db.tables, e);
    longer, more := Announced(rules, states, steps, w, task, e);
    longer, more := FlushedNext(rules, longer, more, w, task, e);
    longer, more := FinishedNext(rules, longer, more, w, task, e, s.next);
  }

  function Tagged(tags: seq<string>): Thing {
    Thing("", None, map[], tags, map[], None, 0.0, true, 0, 0)
  }

  lemma DecideCreate(t: Tables, id: Id, tag: string)
    requires id !in t.things && tag in {PREFERENCE_TAG, OBSERVATION_TAG}
    ensures var task, e := Creating(User, id, Tagged([tag]), 0, 0), Creation(User, id, Tagged([tag]), 0);
            Decided(t, task) == Writes([e]) && Storable(t, e)
  {
    assert |PREFERENCE_TAG| == 11 && |OBSERVATION_TAG| == 12;
    assert Tagged([tag]).tags[0] in INTERNAL_TAGS;
  }

  /** An entry can be committed after one with a higher number was read, and be missed for good. */
  lemma AnEntryIsMissed(refuses: bool)
    returns (states: seq<State>, steps: seq<Step>, i: nat, j: nat, last: nat, missed: nat)
    ensures Run(Rules(true, refuses), states, steps) && i <= j < |states| && last in states[i].numbers
    ensures missed <= last && missed in states[j].numbers && missed !in states[i].numbers
  {
    var thing := Tagged([PREFERENCE_TAG]);
    var a, b := Creating(User, 2, thing, 0, 0), Creating(User, 3, thing, 0, 0);
    var d, e := Creation(User, 2, thing, 0), Creation(User, 3, thing, 0);
    DecideCreate(NoTables, 2, PREFERENCE_TAG);
    DecideCreate(NoTables, 3, PREFERENCE_TAG);
    ItsShape(NoTables, d);
    hide Decided, Storable, Next, Shaped;
    states, steps := [Empty], [];
    states, steps := Announced(Rules(true, refuses), states, steps, 0, a, d);
    states, steps := FlushedNext(Rules(true, refuses), states, steps, 0, a, d);
    states, steps := Undisturbed(Rules(true, refuses), states, steps, 1, b, e);
    i, j, last, missed := |states| - 1, |states|, 2, 1;
    states, steps := FinishedNext(Rules(true, refuses), states, steps, 0, a, d, 1);
  }

  function Retag(id: Id, before: seq<string>, after: seq<string>): Entry {
    Entry(0, 0, User, Update, OfThing(id), Some(ThingState(Tagged(before))), Some(ThingState(Tagged(after))))
  }

  lemma DecideRetag(t: Tables, id: Id, before: seq<string>, after: seq<string>)
    requires id in t.things && t.things[id] == Tagged(before) && SCHEDULED_TASK_TAG !in before
    requires |after| <= 2 && forall tag :: tag in after ==> |tag| <= MAX_TAG_CHARS
    ensures Decided(t, Updating(User, id, NoChanges.(tags := Some(after)), None, 0))
            == Writes([Retag(id, before, after)])
    ensures before == [PREFERENCE_TAG] && after == before + [REJECTED_TAG]
            ==> Decided(t, Rejecting(User, id, 0)) == Writes([Retag(id, before, after)])
    ensures Storable(t, Retag(id, before, after))
  {}

  /** Without the row lock both calls read the row before either writes it. */
  lemma BothRead(refuses: bool, r: Task, u: Task, d: Entry, e: Entry) returns (states: seq<State>, steps: seq<Step>)
    requires r == Rejecting(User, 2, 0)
    requires u == Updating(User, 2, NoChanges.(tags := Some([PREFERENCE_TAG, NEW_TAG])), None, 0)
    requires d == Retag(2, [PREFERENCE_TAG], [PREFERENCE_TAG, REJECTED_TAG])
    requires e == Retag(2, [PREFERENCE_TAG], [PREFERENCE_TAG, NEW_TAG])
    ensures Run(Rules(false, refuses), states, steps)
    ensures var s := states[|states| - 1];
            && s.next == 2 && s.writers.Keys == {0, 1, 2} && s.writers[0].Ended?
            && s.writers[1] == Working(r, [d], 0, [], false) && s.writers[2] == Working(u, [e], 0, [], false)
            && 2 in s.db.tables.things && Storable(s.db.tables, d) && Storable(s.db.tables, e)
  {
    var given := [PREFERENCE_TAG];
    DecideCreate(NoTables, 2, PREFERENCE_TAG);
    hide Next, Shaped;
    states, steps := [Empty], [];
    states, steps := Undisturbed(Rules(false, refuses), states, steps, 0, Creating(User, 2, Tagged(given), 0, 0),
                                 Creation(User, 2, Tagged(given), 0));
    var t := states[|states| - 1].db.tables;
    DecideRetag(t, 2, given, [PREFERENCE_TAG, REJECTED_TAG]);
    DecideRetag(t, 2, given, [PREFERENCE_TAG, NEW_TAG]);
    hide Decided, Storable, Append, PutOne, Conflicts;
    states, steps := Announced(Rules(false, refuses), states, steps, 1, r, d);
    states, steps := Announced(Rules(false, refuses), states, steps, 2, u, e);
  }

  /** Without the row lock a rejection can be answered as done and be gone, a tag write having overtaken it. */
  lemma WithoutTheLockARejectionIsLost(refuses: bool)
    returns (states: seq<State>, steps: seq<Step>, w: nat, preference: Id)
    ensures Run(Rules(false, refuses), states, steps)
    ensures var s := states[|states| - 1];
            && w in s.writers && s.writers[w] == Ended(Rejecting(User, preference, 0), Some(Done(preference)))
            && preference in s.db.tables.things && REJECTED_TAG !in s.db.tables.things[preference].tags
  {
    w, preference := 1, 2;
    var r, u := Rejecting(User, 2, 0), Updating(User, 2, NoChanges.(tags := Some([PREFERENCE_TAG, NEW_TAG])), None, 0);
    var d := Retag(2, [PREFERENCE_TAG], [PREFERENCE_TAG, REJECTED_TAG]);
    var e := Retag(2, [PREFERENCE_TAG], [PREFERENCE_TAG, NEW_TAG]);
    states, steps := BothRead(refuses, r, u, d, e);
    var t := states[|states| - 1].db.tables;
    ItsShape(t, d);
    ItsShape(t, e);
    hide Next, Shaped, Storable, Conflicts;
    states, steps := FlushedNext(Rules(false, refuses), states, steps, 1, r, d);
    states, steps := FinishedNext(Rules(false, refuses), states, steps, 1, r, d, 2);
    states, steps := FlushedNext(Rules(false, refuses), states, steps, 2, u, e);
    states, steps := FinishedNext(Rules(false, refuses), states, steps, 2, u, e, 3);
  }

  lemma TwoThings(refuses: bool, a: string, b: string) returns (states: seq<State>, steps: seq<Step>)
    requires a in {PREFERENCE_TAG, OBSERVATION_TAG} && b in {PREFERENCE_TAG, OBSERVATION_TAG}
    ensures Run(Rules(true, refuses), states, steps)
    ensures var s := states[|states| - 1];
            && s.db.tables == Tables(map[2 := Tagged([a]), 3 := Tagged([b])], map[]) && s.next == 3
            && (forall e :: e in s.db.journal ==> e.entity.OfThing?)
            && s.writers.Keys == {0, 1} && s.writers[0].Ended? && s.writers[1].Ended?
  {
    DecideCreate(NoTables, 2, a);
    hide Next, Shaped, Decided, Storable;
    states, steps := [Empty], [];
    states, steps := Undisturbed(Rules(true, refuses), states, steps, 0, Creating(User, 2, Tagged([a]), 0, 0),
                                 Creation(User, 2, Tagged([a]), 0));
    var t := states[|states| - 1].db.tables;
    assert t == Tables(map[2 := Tagged([a])], map[]);
    DecideCreate(t, 3, b);
    states, steps := Undisturbed(Rules(true, refuses), states, steps, 1, Creating(User, 3, Tagged([b]), 0, 0),
                                 Creation(User, 3, Tagged([b]), 0));
  }

  lemma DecideSupport(t: Tables, id: Id, edge: Edge)
    requires t == Tables(map[2 := Tagged([OBSERVATION_TAG]), 3 := Tagged([PREFERENCE_TAG])], map[])
    requires edge == Edge(2, 3, EvidenceFor, None, 0)
    ensures Decided(t, Relating(User, id, edge)) == Writes([Insertion(User, id, edge)])
    ensures Storable(PutOne(t, Retag(2, [OBSERVATION_TAG], [BRIEFING_TAG])), Insertion(User, id, edge))
    ensures Unfit(PutOne(t, Retag(2, [OBSERVATION_TAG], [BRIEFING_TAG])), 2)
    ensures Storable(t, Retag(2, [OBSERVATION_TAG], [BRIEFING_TAG]))
    ensures Decided(t, Updating(User, 2, NoChanges.(tags := Some([BRIEFING_TAG])), None, 0))
            == Writes([Retag(2, [OBSERVATION_TAG], [BRIEFING_TAG])])
  {
    assert SCHEDULED_TASK_TAG[1] != OBSERVATION_TAG[1] && |BRIEFING_TAG| == 9;
    DecideRetag(t, 2, [OBSERVATION_TAG], [BRIEFING_TAG]);
    assert !UnfitAsEvidence(Tagged([OBSERVATION_TAG]));
    assert Tagged([BRIEFING_TAG]).tags[0] in INTERNAL_TAGS && BRIEFING_TAG[1] != OBSERVATION_TAG[1];
  }

  lemma RetaggedMeanwhile(refuses: bool, relate: Task, d: Entry) returns (states: seq<State>, steps: seq<Step>)
    requires relate == Relating(User, 4, Edge(2, 3, EvidenceFor, None, 0)) && d == Insertion(User, 4, relate.edge)
    ensures Run(Rules(true, refuses), states, steps)
    ensures var s := states[|states| - 1];
            && Storable(s.db.tables, d) && Unfit(s.db.tables, 2)
            && (forall e :: e in s.db.journal ==> e.entity.OfThing?)
            && s.writers.Keys == {0, 1, 2, 3} && s.writers[2] == Working(relate, [d], 0, [], false)
            && s.writers[0].Ended? && s.writers[1].Ended? && s.writers[3].Ended?
  {
    hide Next, Shaped, Decided, Storable, PutOne, Unfit, Conflicts;
    var observed, briefed := [OBSERVATION_TAG], [BRIEFING_TAG];
    states, steps := TwoThings(refuses, OBSERVATION_TAG, PREFERENCE_TAG);
    var t := states[|states| - 1].db.tables;
    DecideSupport(t, 4, relate.edge);
    states, steps := Announced(Rules(true, refuses), states, steps, 2, relate, d);
    states, steps := Undisturbed(Rules(true, refuses), states, steps, 3,
                                 Updating(User, 2, NoChanges.(tags := Some(briefed)), None, 0),
                                 Retag(2, observed, briefed));
  }

  /** Evidence can be tagged as one of Reli's own records between the check of its tags and the commit of its edge. */
  lemma AnEvidenceCheckIsOvertaken(refuses: bool) returns (states: seq<State>, steps: seq<Step>, i: nat)
    ensures Run(Rules(true, refuses), states, steps) && i < |steps| && steps[i].Commit?
    ensures Overtaken(states[i].db.tables, Committing(Rules(true, refuses), states, steps, i))
  {
    var relate := Relating(User, 4, Edge(2, 3, EvidenceFor, None, 0));
    var d := Insertion(User, 4, relate.edge);
    states, steps := RetaggedMeanwhile(refuses, relate, d);
    var s := states[|states| - 1];
    ItsShape(s.db.tables, d);
    hide Next, Shaped, Decided, Storable, Unfit, Conflicts;
    states, steps := FlushedNext(Rules(true, refuses), states, steps, 2, relate, d);
    i := |steps|;
    states, steps := FinishedNext(Rules(true, refuses), states, steps, 2, relate, d, s.next);
  }

  /** The delete of an edge another session removed matches no row, and goes on all the same. */
  lemma StrayedNext(states: seq<State>, steps: seq<Step>, w: nat, task: Task, e: Entry)
    returns (longer: seq<State>, more: seq<Step>)
    requires Run(Rules(true, false), states, steps) && w in states[|states| - 1].writers && Shaped([e])
    requires states[|states| - 1].writers[w] == Working(task, [e], 0, [], false)
    requires Gone(states[|states| - 1].db.tables, e) && Alone(Rules(true, false), states[|states| - 1], w, e)
    ensures Run(Rules(true, false), longer, more)
    ensures var s := states[|states| - 1];
            longer[|longer| - 1] == Finished(s, w, task, e, s.next).(next := s.next + 1, strays := s.strays + [true])
    ensures more[|more| - 1] == Commit(w) && |longer| > |states|
    ensures var before := longer[|longer| - 2];
            before.db == states[|states| - 1].db && w in before.writers && before.writers[w].task == task
  {
    var rules, s := Rules(true, false), states[|states| - 1];
    hide Conflicts, Held, Storable, Gone, Mentioned, Shaped, Append;
    assert s.Seen(w) == s.db.tables;
    var flushed := s.(writers := s.writers[w := Working(task, [e], 1, [], true)]);
    assert e.operation == Unrelate by {
      ItsUnrelate(s.db.tables, e);
    }
    longer, more := Extended(rules, states, steps, Flush(w), flushed);
    var numbered := s.(next := s.next + 1, writers := s.writers[w := Working(task, [e], 1, [s.next], true)]);
    assert numbered
        == flushed.(next := s.next + 1, writers := flushed.writers[w := Working(task, [e], 1, [s.next], true)]);
    assert flushed.writers[w].numbers + [s.next] == [s.next];
    longer, more := Extended(rules, longer, more, Number(w), numbered);
    var t := Finished(s, w, task, e, s.next).(next := s.next + 1, strays := s.strays + [true]);
    assert AppendAll(s.db, [e]) == Append(s.db, e);
    assert t == Committed(numbered, w);
    longer, more := Extended(rules, longer, more, Commit(w), t);
  }

  lemma ItsUnrelate(t: Tables, e: Entry)
    requires Gone(t, e)
    ensures e.operation == Unrelate
  {}

  const Cited := Edge(2, 3, References, None, 0)

  function Removal(id: Id): Entry {
    Entry(0, 1, User, Operation.Unrelate, OfEdge(id), Some(EdgeState(Cited)), None)
  }

  lemma DecideRelations(t: Tables, id: Id)
    requires t.things == map[2 := Tagged([OBSERVATION_TAG]), 3 := Tagged([PREFERENCE_TAG])]
    ensures t.edges == map[] ==>
              Decided(t, Relating(User, id, Cited)) == Writes([Insertion(User, id, Cited)])
              && Storable(t, Insertion(User, id, Cited))
    ensures t.edges == map[id := Cited] ==>
              Decided(t, Unrelating(User, id, 1)) == Writes([Removal(id)]) && Storable(t, Removal(id))
              && Gone(PutOne(t, Removal(id)), Removal(id))
  {}

  lemma OneEdge() returns (states: seq<State>, steps: seq<Step>)
    ensures Run(Rules(true, false), states, steps)
    ensures var s := states[|states| - 1];
            && s.db.tables.things == map[2 := Tagged([OBSERVATION_TAG]), 3 := Tagged([PREFERENCE_TAG])]
            && s.db.tables.edges == map[4 := Cited] && s.writers.Keys == {0, 1, 2}
            && s.writers[0].Ended? && s.writers[1].Ended? && s.writers[2].Ended?
  {
    hide Next, Shaped, Decided, Storable, Conflicts;
    states, steps := TwoThings(false, OBSERVATION_TAG, PREFERENCE_TAG);
    DecideRelations(states[|states| - 1].db.tables, 4);
    states, steps := Undisturbed(Rules(true, false), states, steps, 2, Relating(User, 4, Cited),
                                 Insertion(User, 4, Cited));
  }

  lemma RemovedMeanwhile(task: Task, e: Entry) returns (states: seq<State>, steps: seq<Step>)
    requires task == Unrelating(User, 4, 1) && e == Removal(4)
    ensures Run(Rules(true, false), states, steps)
    ensures var s := states[|states| - 1];
            && Gone(s.db.tables, e) && Shaped([e]) && s.writers.Keys == {0, 1, 2, 3, 4}
            && s.writers[0].Ended? && s.writers[1].Ended? && s.writers[2].Ended?
            && s.writers[3] == Ended(task, Some(Done(4))) && s.writers[4] == Working(task, [e], 0, [], false)
  {
    hide Next, Shaped, Decided, Storable, Conflicts, Gone, PutOne;
    states, steps := OneEdge();
    var t := states[|states| - 1].db.tables;
    DecideRelations(t, 4);
    ItsShape(t, e);
    states, steps := Announced(Rules(true, false), states, steps, 3, task, e);
    states, steps := Announced(Rules(true, false), states, steps, 4, task, e);
    var number := states[|states| - 1].next;
    states, steps := FlushedNext(Rules(true, false), states, steps, 3, task, e);
    states, steps := FinishedNext(Rules(true, false), states, steps, 3, task, e, number);
  }

  /**
   * Two sessions can read an edge before either removes it. Where the database layer goes on with a
   * delete that matched no row both are answered as done, and the second journals an edge long gone.
   */
  lemma AnEdgeIsRemovedTwice() returns (states: seq<State>, steps: seq<Step>, i: nat, v: nat, w: nat, id: Id)
    ensures Run(Rules(true, false), states, steps) && i < |steps| && Strays(Rules(true, false), states, steps, i)
    ensures var s := states[|states| - 1];
            && v in s.writers && w in s.writers && v != w
            && s.writers[v] == s.writers[w] == Ended(Unrelating(User, id, 1), Some(Done(id)))
  {
    v, w, id := 3, 4, 4;
    var task, e := Unrelating(User, 4, 1), Removal(4);
    states, steps := RemovedMeanwhile(task, e);
    hide Next, Shaped, Conflicts, Append;
    states, steps := StrayedNext(states, steps, 4, task, e);
    i := |steps| - 1;
  }
}
