/** Runs of a step relation: extended by a step, and joined end to end. */
module Runs {

  ghost predicate Leads<S(!new), E(!new)>(next: (S, E, S) -> bool, states: seq<S>, steps: seq<E>) {
    |states| == |steps| + 1 && forall i :: 0 <= i < |steps| ==> next(states[i], steps[i], states[i + 1])
  }

  lemma OneMore<S(!new), E(!new)>(next: (S, E, S) -> bool, states: seq<S>, steps: seq<E>, step: E, t: S)
    returns (longer: seq<S>, more: seq<E>)
    requires Leads(next, states, steps) && next(states[|states| - 1], step, t)
    ensures Leads(next, longer, more) && longer[0] == states[0] && longer[|longer| - 1] == t
    ensures longer == states + [t] && more == steps + [step]
  {
    longer, more := states + [t], steps + [step];
    forall i | 0 <= i < |more| ensures next(longer[i], more[i], longer[i + 1]) {
      if i < |steps| {
        assert next(states[i], steps[i], states[i + 1]);
      }
    }
  }

  lemma Joined<S(!new), E(!new)>(next: (S, E, S) -> bool, states: seq<S>, steps: seq<E>, states': seq<S>,
                                 steps': seq<E>)
    returns (longer: seq<S>, more: seq<E>)
    requires Leads(next, states, steps) && Leads(next, states', steps') && states'[0] == states[|states| - 1]
    ensures Leads(next, longer, more) && longer[0] == states[0] && longer[|longer| - 1] == states'[|states'| - 1]
  {
    longer, more := states + states'[1..], steps + steps';
    forall i | 0 <= i < |more| ensures next(longer[i], more[i], longer[i + 1]) {
      if i < |steps| {
        assert next(states[i], steps[i], states[i + 1]);
      } else {
        var j := i - |steps|;
        assert next(states'[j], steps'[j], states'[j + 1]);
        assert longer[i] == states'[j] && longer[i + 1] == states'[j + 1];
      }
    }
  }
}
