/**
 * The ChildOf hierarchy (backend/service.py): the reachability walk that refuses an edge closing a
 * cycle, and the lock under which concurrent writers run it.
 */
module Hierarchy {
  import opened Prelude
  import opened Paths

  /**
   * `_CHILD_OF_REACHES`: the recursive query evaluated level by level, a Thing already reached
   * dropped by its UNION. It ends on every finite graph, cyclic ones included: each level but the
   * last leaves fewer Things unreached.
   */
  method ReachesByWalk(edges: Edges, start: Id, goal: Id) returns (found: bool)
    ensures found <==> Reaches(edges, start, goal)
  {
    var below, level := {start}, {start};
    ghost var things := {start} + set e | e in edges :: e.1;
    ReachesSelf(edges, start);
    while level != {}
      invariant start in below && level <= below <= things
      invariant forall x :: x in below ==> Reaches(edges, start, x)
      invariant forall e :: e in edges && e.0 in below && e.0 !in level ==> e.1 in below
      decreases things - below, level
    {
      var next := (set e | e in edges && e.0 in level :: e.1) - below;
      forall x | x in next ensures Reaches(edges, start, x) {
        var e :| e in edges && e.0 in level && e.1 == x;
        ReachesNext(edges, start, e.0, x);
      }
      below, level := below + next, next;
    }
    if Reaches(edges, start, goal) {
      var path :| Joins(edges, path, start, goal);
      ClosedHoldsReachable(edges, below, path, start, goal);
    }
    found := goal in below;
  }

  // --- Concurrent writers -----------------------------------------------------

  /** Where one writer's transaction is. */
  datatype Writer =
    | Asking(parent: Id, child: Id)
    | Locked(parent: Id, child: Id)
    | Cleared(parent: Id, child: Id)                 // the walk found no way back
    | Inserted(parent: Id, child: Id, edge: nat)     // flushed, seen by nobody else
    | Deleting(edge: nat)                            // flushed, seen by nobody else
    | Ended

  /** The committed ChildOf edges, the writers in flight, and who holds the advisory lock. */
  datatype State = State(edges: map<nat, (Id, Id)>, writers: map<nat, Writer>, holder: Option<nat>) {
    ghost function Pairs(): Edges {
      edges.Values
    }
  }

  datatype Step =
    | Ask(w: nat, parent: Id, child: Id)
    | Lock(w: nat)
    | Check(w: nat)
    | Insert(w: nat, edge: nat)
    | Commit(w: nat)
    | Delete(w: nat, edge: nat)
    | Abort(w: nat)

  function Released(s: State, w: nat): State {
    s.(writers := s.writers[w := Ended], holder := if s.holder == Some(w) then None else s.holder)
  }

  /** One statement of one transaction. `locking` is false for the protocol without the lock. */
  ghost predicate Next(locking: bool, s: State, step: Step, t: State) {
    match step
    case Ask(w, parent, child) =>
      && w !in s.writers
      && t == s.(writers := s.writers[w := if parent == child then Ended else Asking(parent, child)])
    case Lock(w) =>
      && w in s.writers && s.writers[w].Asking? && (locking ==> s.holder == None)
      && t == s.(writers := s.writers[w := Locked(s.writers[w].parent, s.writers[w].child)], holder := Some(w))
    case Check(w) =>
      && w in s.writers && s.writers[w].Locked?
      && var e := s.writers[w];
      t == if Reaches(s.Pairs(), e.child, e.parent) then Released(s, w)
           else s.(writers := s.writers[w := Cleared(e.parent, e.child)])
    case Insert(w, edge) =>
      && w in s.writers && s.writers[w].Cleared? && edge !in s.edges
      && t == s.(writers := s.writers[w := Inserted(s.writers[w].parent, s.writers[w].child, edge)])
    case Delete(w, edge) =>
      && w !in s.writers && edge in s.edges
      && t == s.(writers := s.writers[w := Deleting(edge)])
    case Commit(w) =>
      && w in s.writers
      && (|| (s.writers[w].Inserted? && s.writers[w].edge !in s.edges
              && t == Released(s.(edges := s.edges[s.writers[w].edge := (s.writers[w].parent, s.writers[w].child)]), w))
          || (s.writers[w].Deleting?
              && t == Released(s.(edges := s.edges - {s.writers[w].edge}), w)))
    case Abort(w) =>
      w in s.writers && t == Released(s, w)
  }

  const Empty := State(map[], map[], None)

  ghost predicate Run(locking: bool, states: seq<State>, steps: seq<Step>) {
    && |states| == |steps| + 1 && states[0] == Empty
    && forall i :: 0 <= i < |steps| ==> Next(locking, states[i], steps[i], states[i + 1])
  }

  /** Whoever has passed the check holds the lock, and what the check found still stands. */
  ghost predicate Inv(s: State) {
    && Acyclic(s.Pairs())
    && forall w :: w in s.writers ==>
         && (s.writers[w].Locked? || s.writers[w].Cleared? || s.writers[w].Inserted? ==> s.holder == Some(w))
         && (s.writers[w].Cleared? || s.writers[w].Inserted? ==>
               !Reaches(s.Pairs(), s.writers[w].child, s.writers[w].parent))
  }

  lemma CommitInsertKeepsInv(s: State, w: nat, t: State)
    requires Inv(s) && w in s.writers && s.writers[w].Inserted? && s.writers[w].edge !in s.edges
    requires t == Released(s.(edges := s.edges[s.writers[w].edge := (s.writers[w].parent, s.writers[w].child)]), w)
    ensures Inv(t)
  {
    var e := s.writers[w];
    assert t.edges.Values == s.edges.Values + {(e.parent, e.child)} by {
      assert forall k :: k in s.edges ==> k in t.edges && t.edges[k] == s.edges[k];
      assert t.edges[e.edge] == (e.parent, e.child);
    }
    AddingKeepsAcyclicIff(s.Pairs(), e.parent, e.child);
    hide Acyclic, Reaches;
  }

  lemma CommitDeleteKeepsInv(s: State, w: nat, t: State)
    requires Inv(s) && w in s.writers && s.writers[w].Deleting?
    requires t == Released(s.(edges := s.edges - {s.writers[w].edge}), w)
    ensures Inv(t)
  {
    assert t.Pairs() <= s.Pairs();
    FewerEdgesAcyclic(s.Pairs(), t.Pairs());
    forall v | v in t.writers && (t.writers[v].Cleared? || t.writers[v].Inserted?)
      ensures !Reaches(t.Pairs(), t.writers[v].child, t.writers[v].parent)
    {
      if Reaches(t.Pairs(), t.writers[v].child, t.writers[v].parent) {
        MoreEdgesReach(t.Pairs(), s.Pairs(), t.writers[v].child, t.writers[v].parent);
      }
    }
    hide Acyclic, Reaches;
  }

  lemma StepKeepsInv(s: State, step: Step, t: State)
    requires Inv(s) && Next(true, s, step, t)
    ensures Inv(t)
  {
    hide Acyclic, Reaches;
    match step
    case Commit(w) =>
      if s.writers[w].Inserted? {
        CommitInsertKeepsInv(s, w, t);
      } else {
        CommitDeleteKeepsInv(s, w, t);
      }
    case _ =>
  }

  lemma {:induction false} ReachableInv(states: seq<State>, steps: seq<Step>, i: nat)
    requires Run(true, states, steps) && i < |states|
    ensures Inv(states[i])
  {
    if i == 0 {
      assert Empty.Pairs() == {};
    } else {
      ReachableInv(states, steps, i - 1);
      StepKeepsInv(states[i - 1], steps[i - 1], states[i]);
    }
  }

  /** However relates and unrelates interleave, every committed state is acyclic. */
  lemma AlwaysAcyclic(states: seq<State>, steps: seq<Step>, i: nat)
    requires Run(true, states, steps) && i < |states|
    ensures Acyclic(states[i].Pairs())
  {
    ReachableInv(states, steps, i);
  }

  /** Without the lock two writers both check before either edge is there. */
  lemma BothClear() returns (states: seq<State>, steps: seq<Step>)
    ensures Run(false, states, steps)
    ensures states[|states| - 1] == State(map[], map[0 := Cleared(1, 2), 1 := Cleared(2, 1)], Some(1))
  {
    var s1 := State(map[], map[0 := Asking(1, 2)], None);
    var s2 := State(map[], map[0 := Asking(1, 2), 1 := Asking(2, 1)], None);
    var s3 := State(map[], map[0 := Locked(1, 2), 1 := Asking(2, 1)], Some(0));
    var s4 := State(map[], map[0 := Locked(1, 2), 1 := Locked(2, 1)], Some(1));
    var s5 := State(map[], map[0 := Cleared(1, 2), 1 := Locked(2, 1)], Some(1));
    var s6 := State(map[], map[0 := Cleared(1, 2), 1 := Cleared(2, 1)], Some(1));
    states := [Empty, s1, s2, s3, s4, s5, s6];
    steps := [Ask(0, 1, 2), Ask(1, 2, 1), Lock(0), Lock(1), Check(0), Check(1)];
    NothingReaches(2, 1);
    NothingReaches(1, 2);
    hide Reaches;
    assert s4.Pairs() == {} && s5.Pairs() == {};
  }

  /** The lock is what does it: without it two writers clear A over B and B over A, and both commit. */
  lemma WithoutTheLockACycle() returns (states: seq<State>, steps: seq<Step>)
    ensures Run(false, states, steps)
    ensures !Acyclic(states[|states| - 1].Pairs())
  {
    var front, frontSteps := BothClear();
    var s6 := front[|front| - 1];
    var s7 := State(map[], map[0 := Inserted(1, 2, 7), 1 := Cleared(2, 1)], Some(1));
    var s8 := State(map[], map[0 := Inserted(1, 2, 7), 1 := Inserted(2, 1, 8)], Some(1));
    var s9 := State(map[7 := (1, 2)], map[0 := Ended, 1 := Inserted(2, 1, 8)], Some(1));
    var s10 := State(map[7 := (1, 2), 8 := (2, 1)], map[0 := Ended, 1 := Ended], None);
    var back := [Insert(0, 7), Insert(1, 8), Commit(0), Commit(1)];
    assert Next(false, s6, back[0], s7) && Next(false, s7, back[1], s8) && Next(false, s8, back[2], s9)
        && Next(false, s9, back[3], s10);
    hide Next;
    states, steps := front + [s7, s8, s9, s10], frontSteps + back;
    forall i | 0 <= i < |frontSteps| ensures Next(false, states[i], steps[i], states[i + 1]) {
      assert Next(false, front[i], frontSteps[i], front[i + 1]);
    }
    TwoEdgesCycle(s10);
  }

  lemma NothingReaches(a: Id, b: Id)
    requires a != b
    ensures !Reaches({}, a, b)
  {
    if Reaches({}, a, b) {
      var path :| Joins({}, path, a, b);
      ClosedHoldsReachable({}, {a}, path, a, b);
    }
  }

  lemma TwoEdgesCycle(s: State)
    requires s.edges == map[7 := (1, 2), 8 := (2, 1)]
    ensures !Acyclic(s.Pairs())
  {
    assert s.edges[7] == (1, 2) && s.edges[8] == (2, 1);
    assert (1, 2) in s.Pairs() && (2, 1) in s.Pairs();
    ReachesSelf(s.Pairs(), 1);
    ReachesFrom(s.Pairs(), 2, 1, 1);
    assert OnCycle(s.Pairs(), 1);
  }
}
