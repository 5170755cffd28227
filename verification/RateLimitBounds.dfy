/** What the limiter guarantees over whole runs of requests. */
module RateLimitBounds {
  import opened Prelude
  import opened RateLimit

  /** A clock that never runs backwards, as time.monotonic() is. */
  predicate Chronological(reqs: seq<Request>) {
    forall i, j :: 0 <= i <= j < |reqs| ==> reqs[i].now <= reqs[j].now
  }

  /** The dictionary after the first n requests of a run that starts from none. */
  function After(reqs: seq<Request>, cap: nat, n: nat): Lru
    requires n <= |reqs|
  {
    if n == 0 then Empty else Taken(After(reqs, cap, n - 1), cap, reqs[n - 1]).0
  }

  function AnswerTo(reqs: seq<Request>, cap: nat, i: nat): Answer
    requires i < |reqs|
  {
    Taken(After(reqs, cap, i), cap, reqs[i]).1
  }

  // --- The unbounded reference ------------------------------------------------

  function UnboundedTaken(m: map<Key, Fill>, r: Request): (map<Key, Fill>, Answer) {
    var (spent, answer) := Spend(Held(m, r), r.limit);
    (m[r.key := spent], answer)
  }

  function UnboundedAfter(reqs: seq<Request>, n: nat): map<Key, Fill>
    requires n <= |reqs|
  {
    if n == 0 then map[] else UnboundedTaken(UnboundedAfter(reqs, n - 1), reqs[n - 1]).0
  }

  function UnboundedAnswerTo(reqs: seq<Request>, i: nat): Answer
    requires i < |reqs|
  {
    UnboundedTaken(UnboundedAfter(reqs, i), reqs[i]).1
  }

  /** The keys touched in the sixty seconds that end with request i. */
  function Window(reqs: seq<Request>, i: nat): set<Key>
    requires i < |reqs|
  {
    set j | 0 <= j <= i && reqs[j].now > reqs[i].now - 60.0 :: reqs[j].key
  }

  ghost predicate OldestFirst(order: seq<Key>, fills: map<Key, Fill>)
    requires forall k :: k in order ==> k in fills
  {
    forall i, j :: 0 <= i < j < |order| ==> fills[order[i]].updated <= fills[order[j]].updated
  }

  /** The dictionary's order is the order of `updated`, and no bucket is newer than `now`. */
  ghost predicate Ordered(s: Lru, now: real) {
    && s.Valid()
    && (forall k :: k in s.order ==> k in Elements(s.order))
    && OldestFirst(s.order, s.fills)
    && (forall k :: k in s.fills ==> s.fills[k].updated <= now && s.fills[k].tokens >= 0.0)
  }

  /** What the bound may forget: only buckets untouched for sixty seconds. */
  ghost predicate Agrees(s: Lru, m: map<Key, Fill>, now: real) {
    && (forall k :: k in s.fills ==> k in m && m[k] == s.fills[k])
    && (forall k :: k in m && k !in s.fills ==> m[k].updated <= now - 60.0)
    && (forall k :: k in m ==> m[k].tokens >= 0.0)
  }

  lemma GainOf(x: real, y: real, limit: Limit)
    ensures Gain(x + y, limit) == Gain(x, limit) + Gain(y, limit)
    ensures x >= 0.0 ==> Gain(x, limit) >= 0.0
    ensures Gain(60.0, limit) == limit as real
  {}

  lemma RefillBounds(f: Fill, r: Request)
    requires f.tokens >= 0.0 && f.updated <= r.now
    ensures Refilled(f, r).tokens >= 0.0
    ensures f.updated <= r.now - 60.0 ==> Refilled(f, r).tokens == r.limit as real
  {
    var idle := r.now - f.updated;
    GainOf(idle, 0.0, r.limit);
    GainOf(idle - 60.0, 60.0, r.limit);
  }

  lemma {:induction false} WithoutKeepsOrder(order: seq<Key>, key: Key, fills: map<Key, Fill>)
    requires (forall k :: k in order ==> k in fills) && OldestFirst(order, fills)
    ensures forall k :: k in Without(order, key) ==> k in order && k != key
    ensures OldestFirst(Without(order, key), fills)
  {
    if order != [] {
      var tail := order[1..];
      WithoutKeepsOrder(tail, key, fills);
      var rest := Without(tail, key);
      forall i | 0 <= i < |rest| ensures fills[order[0]].updated <= fills[rest[i]].updated {
        assert rest[i] in rest;
        var j :| 0 <= j < |tail| && tail[j] == rest[i];
        assert order[j + 1] == rest[i];
      }
    }
  }

  lemma DropKeepsOrder(s: Lru)
    requires s.Valid() && s.order != [] && (forall k :: k in s.order ==> k in Elements(s.order))
    requires OldestFirst(s.order, s.fills)
    ensures var d := s.WithoutOldest();
            d.Valid() && (forall k :: k in d.order ==> k in Elements(d.order)) && OldestFirst(d.order, d.fills)
  {
    s.WithoutOldestValid();
  }

  lemma ReuseKeepsOrder(s: Lru, was: real, cap: nat, r: Request)
    requires Ordered(s, was) && was <= r.now && cap >= 1 && r.key in s.fills
    ensures Ordered(Touch(s, cap, r), r.now)
  {
    TouchValid(s, cap, r);
    WithoutKeepsOrder(s.order, r.key, s.fills);
    RefillBounds(s.fills[r.key], r);
  }

  lemma AddKeepsOrder(s: Lru, was: real, cap: nat, r: Request)
    requires Ordered(s, was) && was <= r.now && cap >= 1 && r.key !in s.fills
    ensures Ordered(Touch(s, cap, r), r.now)
  {
    s.AddedValid(r);
    var added := s.Added(r);
    assert forall k :: k in added.order ==> k in Elements(added.order);
    assert Ordered(added, r.now);
    if |added.order| > cap {
      DropKeepsOrder(added);
    }
  }

  lemma SpendKeepsOrder(t: Lru, now: real, key: Key, fill: Fill)
    requires Ordered(t, now) && key in t.fills
    requires fill.updated == t.fills[key].updated && fill.tokens >= 0.0
    ensures Ordered(t.(fills := t.fills[key := fill]), now)
  {}

  /** One request keeps the order, refills and spends from its own bucket, and changes no other. */
  lemma TakenKeepsOrder(s: Lru, was: real, cap: nat, r: Request)
    requires Ordered(s, was) && was <= r.now && cap >= 1
    ensures var (t, answer) := Taken(s, cap, r);
            && Ordered(t, r.now)
            && (forall k :: k in t.fills && k != r.key ==> k in s.fills && t.fills[k] == s.fills[k])
            && r.key in t.fills && (t.fills[r.key], answer) == Spend(Held(s.fills, r), r.limit)
            && Held(s.fills, r).tokens >= 0.0
  {
    TouchValid(s, cap, r);
    if r.key in s.fills {
      ReuseKeepsOrder(s, was, cap, r);
    } else {
      AddKeepsOrder(s, was, cap, r);
    }
    var touched := Touch(s, cap, r);
    assert touched.fills[r.key] == Held(s.fills, r);
    SpendKeepsOrder(touched, r.now, r.key, Spend(Held(s.fills, r), r.limit).0);
  }

  // --- The bounded cache answers as the unbounded map -------------------------

  /** Every bucket was last updated by one of the first n requests. */
  ghost predicate Witnessed(s: Lru, reqs: seq<Request>, n: nat)
    requires n <= |reqs|
  {
    forall k :: k in s.fills ==> exists j :: 0 <= j < n && reqs[j].key == k && reqs[j].now == s.fills[k].updated
  }

  /** A bucket is dropped only when more than `cap` keys were touched since it was: sixty seconds idle. */
  lemma OnlyIdleDropped(s: Lru, reqs: seq<Request>, cap: nat, i: nat)
    requires i < |reqs| && Ordered(s, reqs[i].now) && Witnessed(s, reqs, i) && cap >= 1
    requires reqs[i].key !in s.fills && |s.order| + 1 > cap && |Window(reqs, i)| <= cap
    ensures s.order != [] && s.fills[s.order[0]].updated <= reqs[i].now - 60.0
  {
    var r := reqs[i];
    var recent := s.Added(r).order;
    s.AddedValid(r);
    ElementsOfDistinct(recent);
    if s.order == [] || s.fills[s.order[0]].updated > r.now - 60.0 {
      forall k | k in Elements(recent) ensures k in Window(reqs, i) {
        if k != r.key {
          var p :| 0 <= p < |s.order| && s.order[p] == k;
          assert s.fills[s.order[0]].updated <= s.fills[k].updated;
        }
      }
      SubsetCardinality(Elements(recent), Window(reqs, i));
    }
  }

  /** A bucket idle for sixty seconds spends exactly as a new one would. */
  lemma ForgottenIsFull(fills: map<Key, Fill>, m: map<Key, Fill>, r: Request)
    requires r.key in fills ==> r.key in m && m[r.key] == fills[r.key]
    requires r.key in m && r.key !in fills ==> m[r.key].updated <= r.now - 60.0 && m[r.key].tokens >= 0.0
    ensures Spend(Held(fills, r), r.limit) == Spend(Held(m, r), r.limit)
  {
    hide Gain;
    if r.key in m && r.key !in fills {
      RefillBounds(m[r.key], r);
    }
  }

  lemma OnlyOldestDropped(s: Lru, cap: nat, r: Request)
    requires s.Valid() && cap >= 1
    ensures forall k :: k in s.fills && k !in Taken(s, cap, r).0.fills ==>
              r.key !in s.fills && |s.order| + 1 > cap && s.order != [] && k == s.order[0]
  {
    hide Spend, Held;
    TouchValid(s, cap, r);
  }

  lemma OneRequestAgrees(s: Lru, m: map<Key, Fill>, was: real, cap: nat, r: Request)
    requires Ordered(s, was) && was <= r.now && cap >= 1
    requires Agrees(s, m, r.now)
    requires r.key !in s.fills && |s.order| + 1 > cap ==> s.order != [] && s.fills[s.order[0]].updated <= r.now - 60.0
    ensures Taken(s, cap, r).1 == UnboundedTaken(m, r).1
    ensures Agrees(Taken(s, cap, r).0, UnboundedTaken(m, r).0, r.now)
  {
    hide Held, Spend, Taken;
    TakenKeepsOrder(s, was, cap, r);
    ForgottenIsFull(s.fills, m, r);
    OnlyOldestDropped(s, cap, r);
  }

  lemma {:induction false} RunAgrees(reqs: seq<Request>, cap: nat, n: nat, now: real)
    requires Chronological(reqs) && cap >= 1 && n <= |reqs|
    requires forall i :: 0 <= i < n ==> |Window(reqs, i)| <= cap && reqs[i].now <= now
    ensures Ordered(After(reqs, cap, n), now) && Witnessed(After(reqs, cap, n), reqs, n)
    ensures Agrees(After(reqs, cap, n), UnboundedAfter(reqs, n), now)
  {
    hide Taken, UnboundedTaken, Window;
    if n > 0 {
      assert |Window(reqs, n - 1)| <= cap && reqs[n - 1].now <= now;
      RunAgrees(reqs, cap, n - 1, reqs[n - 1].now);
      OneMoreAgrees(After(reqs, cap, n - 1), UnboundedAfter(reqs, n - 1), reqs, cap, n - 1);
    }
  }

  lemma OneMoreAgrees(s: Lru, m: map<Key, Fill>, reqs: seq<Request>, cap: nat, i: nat)
    requires i < |reqs| && cap >= 1 && |Window(reqs, i)| <= cap
    requires Ordered(s, reqs[i].now) && Witnessed(s, reqs, i) && Agrees(s, m, reqs[i].now)
    ensures var (t, answer) := Taken(s, cap, reqs[i]);
            && Ordered(t, reqs[i].now) && Witnessed(t, reqs, i + 1)
            && Agrees(t, UnboundedTaken(m, reqs[i]).0, reqs[i].now)
            && answer == UnboundedTaken(m, reqs[i]).1
  {
    hide Touch, Gain, Window;
    var r := reqs[i];
    if r.key !in s.fills && |s.order| + 1 > cap {
      OnlyIdleDropped(s, reqs, cap, i);
    }
    TakenKeepsOrder(s, r.now, cap, r);
    OneRequestAgrees(s, m, r.now, cap, r);
  }

  /**
   * The bounded dictionary is indistinguishable from an unbounded one on every run in which no
   * sixty seconds touch more than `cap` distinct keys, whatever the limits.
   */
  lemma BoundedAgreesWithUnbounded(reqs: seq<Request>, cap: nat, i: nat)
    requires Chronological(reqs) && cap >= 1 && i < |reqs|
    requires forall j :: 0 <= j <= i ==> |Window(reqs, j)| <= cap
    ensures AnswerTo(reqs, cap, i) == UnboundedAnswerTo(reqs, i)
  {
    hide Taken, UnboundedTaken, Window;
    RunAgrees(reqs, cap, i, reqs[i].now);
    OneMoreAgrees(After(reqs, cap, i), UnboundedAfter(reqs, i), reqs, cap, i);
  }

  // --- How many requests a window admits --------------------------------------

  ghost predicate ConstantLimit(reqs: seq<Request>, key: Key, limit: Limit) {
    forall i :: 0 <= i < |reqs| && reqs[i].key == key ==> reqs[i].limit == limit
  }

  /** The key's bucket, once made, is not dropped by the requests from `from` up to `to`. */
  ghost predicate KeptMeanwhile(reqs: seq<Request>, cap: nat, key: Key, from: nat, until: nat)
    requires until <= |reqs|
  {
    forall i :: from <= i < until && key in After(reqs, cap, i).fills ==> key in After(reqs, cap, i + 1).fills
  }

  function Admitted(reqs: seq<Request>, cap: nat, key: Key, from: nat, until: nat): nat
    requires from <= until <= |reqs|
    decreases until
  {
    if from == until then 0
    else Admitted(reqs, cap, key, from, until - 1)
         + if reqs[until - 1].key == key && AnswerTo(reqs, cap, until - 1).allowed then 1 else 0
  }

  /** The tokens the key could spend at an instant: a bucket not yet made counts as full. */
  function Available(s: Lru, key: Key, limit: Limit, now: real): real {
    if key in s.fills then Min(limit as real, s.fills[key].tokens + Gain(now - s.fills[key].updated, limit))
    else limit as real
  }

  lemma {:induction false} OrderedAfter(reqs: seq<Request>, cap: nat, n: nat, now: real)
    requires Chronological(reqs) && cap >= 1 && n <= |reqs|
    requires n > 0 ==> reqs[n - 1].now <= now
    ensures Ordered(After(reqs, cap, n), now)
  {
    hide Taken;
    if n > 0 {
      OrderedAfter(reqs, cap, n - 1, reqs[n - 1].now);
      TakenKeepsOrder(After(reqs, cap, n - 1), reqs[n - 1].now, cap, reqs[n - 1]);
    }
  }

  /** The dictionary before and after request i, and what the request finds. */
  lemma StepFacts(reqs: seq<Request>, cap: nat, i: nat)
    requires Chronological(reqs) && cap >= 1 && i < |reqs|
    ensures var s, t, r := After(reqs, cap, i), After(reqs, cap, i + 1), reqs[i];
            && Ordered(s, r.now) && Ordered(t, r.now)
            && (forall k :: k in t.fills && k != r.key ==> k in s.fills && t.fills[k] == s.fills[k])
            && r.key in t.fills && (t.fills[r.key], AnswerTo(reqs, cap, i)) == Spend(Held(s.fills, r), r.limit)
            && Held(s.fills, r).tokens >= 0.0
  {
    hide Touch, Spend, Held;
    OrderedAfter(reqs, cap, i, reqs[i].now);
    TakenKeepsOrder(After(reqs, cap, i), reqs[i].now, cap, reqs[i]);
  }

  lemma SpendFacts(s: Lru, t: Lru, answer: Answer, r: Request)
    requires r.key in t.fills && (t.fills[r.key], answer) == Spend(Held(s.fills, r), r.limit)
    ensures Available(t, r.key, r.limit, r.now) + (if answer.allowed then 1.0 else 0.0)
            == Available(s, r.key, r.limit, r.now)
  {
    GainOf(0.0, 0.0, r.limit);
  }

  /** One request moves availability by exactly what it admits. */
  lemma SpendingConserves(reqs: seq<Request>, cap: nat, key: Key, limit: Limit, i: nat)
    requires Chronological(reqs) && cap >= 1 && i < |reqs|
    requires ConstantLimit(reqs, key, limit) && KeptMeanwhile(reqs, cap, key, i, i + 1)
    ensures Available(After(reqs, cap, i + 1), key, limit, reqs[i].now)
            + (if reqs[i].key == key && AnswerTo(reqs, cap, i).allowed then 1.0 else 0.0)
            == Available(After(reqs, cap, i), key, limit, reqs[i].now)
  {
    hide Taken, Held, Spend, Gain;
    StepFacts(reqs, cap, i);
    var s, t := After(reqs, cap, i), After(reqs, cap, i + 1);
    if reqs[i].key == key {
      SpendFacts(s, t, AnswerTo(reqs, cap, i), reqs[i]);
    } else {
      assert key in s.fills ==> key in t.fills;
    }
  }

  lemma WaitingEarns(s: Lru, key: Key, limit: Limit, earlier: real, later: real)
    requires earlier <= later
    ensures Available(s, key, limit, later) <= Available(s, key, limit, earlier) + Gain(later - earlier, limit)
  {
    GainOf(later - earlier, 0.0, limit);
    if key in s.fills {
      GainOf(earlier - s.fills[key].updated, later - earlier, limit);
    }
  }

  lemma {:induction false} AdmittedPlusAvailable(reqs: seq<Request>, cap: nat, key: Key, limit: Limit, from: nat,
                                                 until: nat)
    requires Chronological(reqs) && cap >= 1 && from < until <= |reqs|
    requires ConstantLimit(reqs, key, limit) && KeptMeanwhile(reqs, cap, key, from, until)
    ensures Admitted(reqs, cap, key, from, until) as real
            + Available(After(reqs, cap, until), key, limit, reqs[until - 1].now)
            <= limit as real + Gain(reqs[until - 1].now - reqs[from].now, limit)
    decreases until
  {
    hide Taken, Held, Spend, Gain;
    var last := until - 1;
    SpendingConserves(reqs, cap, key, limit, last);
    if from == last {
      GainOf(0.0, 0.0, limit);
      assert Admitted(reqs, cap, key, from, from) == 0;
    } else {
      AdmittedPlusAvailable(reqs, cap, key, limit, from, last);
      WaitingEarns(After(reqs, cap, last), key, limit, reqs[last - 1].now, reqs[last].now);
      GainOf(reqs[last - 1].now - reqs[from].now, reqs[last].now - reqs[last - 1].now, limit);
    }
  }

  lemma AvailableNonNegative(s: Lru, key: Key, limit: Limit, now: real)
    requires Ordered(s, now)
    ensures Available(s, key, limit, now) >= 0.0
  {
    if key in s.fills {
      GainOf(now - s.fills[key].updated, 0.0, limit);
    }
  }

  /** Over any window of T seconds a key is admitted at most limit + limit * T / 60 times. */
  lemma AdmissionsBounded(reqs: seq<Request>, cap: nat, key: Key, limit: Limit, from: nat, until: nat)
    requires Chronological(reqs) && cap >= 1 && from < until <= |reqs|
    requires ConstantLimit(reqs, key, limit) && KeptMeanwhile(reqs, cap, key, from, until)
    ensures Admitted(reqs, cap, key, from, until) as real
            <= limit as real + Gain(reqs[until - 1].now - reqs[from].now, limit)
  {
    hide Taken, Held, Spend, Gain;
    AdmittedPlusAvailable(reqs, cap, key, limit, from, until);
    OrderedAfter(reqs, cap, until, reqs[until - 1].now);
    AvailableNonNegative(After(reqs, cap, until), key, limit, reqs[until - 1].now);
  }

  // --- X-RateLimit-Remaining --------------------------------------------------

  lemma WaitingLosesNothing(s: Lru, key: Key, limit: Limit, earlier: real, later: real)
    requires earlier <= later
    ensures Available(s, key, limit, later) >= Available(s, key, limit, earlier)
  {
    GainOf(later - earlier, 0.0, limit);
    if key in s.fills {
      GainOf(earlier - s.fills[key].updated, later - earlier, limit);
    }
  }

  /** A request costs its key what it admits and no more, even when it drops the key's bucket. */
  lemma CostsNoMore(reqs: seq<Request>, cap: nat, key: Key, limit: Limit, i: nat)
    requires Chronological(reqs) && cap >= 1 && i < |reqs| && ConstantLimit(reqs, key, limit)
    ensures Available(After(reqs, cap, i + 1), key, limit, reqs[i].now)
            + (if reqs[i].key == key && AnswerTo(reqs, cap, i).allowed then 1.0 else 0.0)
            >= Available(After(reqs, cap, i), key, limit, reqs[i].now)
  {
    hide Taken, Held, Spend, Gain;
    StepFacts(reqs, cap, i);
    if reqs[i].key == key {
      SpendFacts(After(reqs, cap, i), After(reqs, cap, i + 1), AnswerTo(reqs, cap, i), reqs[i]);
    }
  }

  lemma {:induction false} AvailableLasts(reqs: seq<Request>, cap: nat, key: Key, limit: Limit, from: nat, until: nat)
    requires Chronological(reqs) && cap >= 1 && 0 < from <= until < |reqs| && ConstantLimit(reqs, key, limit)
    ensures Available(After(reqs, cap, until), key, limit, reqs[until].now)
            + Admitted(reqs, cap, key, from, until) as real
            >= Available(After(reqs, cap, from), key, limit, reqs[from - 1].now)
    decreases until
  {
    hide Taken, Held, Spend, Gain, Available;
    WaitingLosesNothing(After(reqs, cap, until), key, limit, reqs[until - 1].now, reqs[until].now);
    if from < until {
      AvailableLasts(reqs, cap, key, limit, from, until - 1);
      CostsNoMore(reqs, cap, key, limit, until - 1);
    }
  }

  /** While fewer than the remaining requests an answer promised have been admitted, the next one is. */
  lemma RemainingIsHonoured(reqs: seq<Request>, cap: nat, key: Key, limit: Limit, i: nat, j: nat)
    requires Chronological(reqs) && cap >= 1 && i < j < |reqs|
    requires ConstantLimit(reqs, key, limit) && reqs[i].key == key && reqs[j].key == key
    ensures Admitted(reqs, cap, key, i + 1, j) < AnswerTo(reqs, cap, i).remaining ==> AnswerTo(reqs, cap, j).allowed
  {
    hide Taken, Gain;
    StepFacts(reqs, cap, i);
    StepFacts(reqs, cap, j);
    AvailableLasts(reqs, cap, key, limit, i + 1, j);
    var t, answer := After(reqs, cap, i + 1), AnswerTo(reqs, cap, i);
    GainOf(0.0, 0.0, limit);
    assert answer.allowed ==> Available(t, key, limit, reqs[i].now) >= answer.remaining as real;
    assert Available(After(reqs, cap, j), key, limit, reqs[j].now) == Held(After(reqs, cap, j).fills, reqs[j]).tokens;
  }

  /**
   * An admitted request is asked for no wait, a refused one for a second at least and promised
   * nothing; the bucket remembers which it was.
   */
  lemma AnswerAgrees(reqs: seq<Request>, cap: nat, i: nat)
    requires Chronological(reqs) && cap >= 1 && i < |reqs|
    ensures var answer := AnswerTo(reqs, cap, i);
            if answer.allowed then answer.retryAfter == 0 && 0 <= answer.remaining < reqs[i].limit
            else answer.remaining == 0 && answer.retryAfter >= 1
    ensures var fills := After(reqs, cap, i + 1).fills;
            reqs[i].key in fills && fills[reqs[i].key].throttled == !AnswerTo(reqs, cap, i).allowed
  {
    hide Taken;
    StepFacts(reqs, cap, i);
  }

  lemma {:induction false} AvailableAtOnce(reqs: seq<Request>, cap: nat, key: Key, limit: Limit, from: nat, until: nat)
    requires Chronological(reqs) && cap >= 1 && 0 < from <= until < |reqs| && ConstantLimit(reqs, key, limit)
    requires KeptMeanwhile(reqs, cap, key, from, until) && reqs[until].now == reqs[from - 1].now
    ensures Available(After(reqs, cap, until), key, limit, reqs[until].now)
            + Admitted(reqs, cap, key, from, until) as real
            == Available(After(reqs, cap, from), key, limit, reqs[from - 1].now)
    decreases until
  {
    hide Taken, Held, Spend, Gain, Available;
    if from < until {
      assert reqs[until - 1].now == reqs[until].now;
      AvailableAtOnce(reqs, cap, key, limit, from, until - 1);
      SpendingConserves(reqs, cap, key, limit, until - 1);
    }
  }

  /**
   * No larger promise could be kept: of the requests that come at once, while the bucket is not
   * dropped, exactly the remaining ones are admitted.
   */
  lemma RemainingIsExact(reqs: seq<Request>, cap: nat, key: Key, limit: Limit, i: nat, j: nat)
    requires Chronological(reqs) && cap >= 1 && i < j < |reqs| && reqs[j].now == reqs[i].now
    requires ConstantLimit(reqs, key, limit) && reqs[i].key == key && reqs[j].key == key
    requires KeptMeanwhile(reqs, cap, key, i + 1, j)
    ensures AnswerTo(reqs, cap, j).allowed
            <==> Admitted(reqs, cap, key, i + 1, j) < AnswerTo(reqs, cap, i).remaining
  {
    hide Taken, Gain, Held, Spend, Available, KeptMeanwhile;
    StepFacts(reqs, cap, i);
    StepFacts(reqs, cap, j);
    AvailableAtOnce(reqs, cap, key, limit, i + 1, j);
    PromisedIsLeft(After(reqs, cap, i), After(reqs, cap, i + 1), AnswerTo(reqs, cap, i), reqs[i]);
    AdmittedIff(After(reqs, cap, j), AnswerTo(reqs, cap, j), After(reqs, cap, j + 1), reqs[j]);
  }

  /** `remaining` is the whole tokens left. */
  lemma PromisedIsLeft(s: Lru, t: Lru, answer: Answer, r: Request)
    requires r.key in t.fills && (t.fills[r.key], answer) == Spend(Held(s.fills, r), r.limit)
    requires Held(s.fills, r).tokens >= 0.0
    ensures var left := Available(t, r.key, r.limit, r.now);
            answer.remaining >= 0 && answer.remaining as real <= left < (answer.remaining + 1) as real
  {
    GainOf(0.0, 0.0, r.limit);
    hide Gain;
  }

  /** A request is admitted while a whole token can be spent. */
  lemma AdmittedIff(s: Lru, answer: Answer, t: Lru, r: Request)
    requires r.key in t.fills && (t.fills[r.key], answer) == Spend(Held(s.fills, r), r.limit)
    ensures answer.allowed <==> Available(s, r.key, r.limit, r.now) >= 1.0
  {
    hide Gain;
  }

  // --- Retry-After ------------------------------------------------------------

  /** Since the refusal nothing was admitted, so the bucket holds at least what the wait has earned. */
  ghost predicate Recovering(s: Lru, key: Key, limit: Limit, short: real, since: real) {
    key in s.fills ==>
      s.fills[key].tokens >= Min(limit as real, short + Gain(s.fills[key].updated - since, limit))
  }

  /** Every attempt of the key from request i up to request j is refused. */
  ghost predicate Refused(reqs: seq<Request>, cap: nat, key: Key, i: nat, j: nat)
    requires j <= |reqs|
  {
    forall m :: i <= m < j && reqs[m].key == key ==> !AnswerTo(reqs, cap, m).allowed
  }

  lemma {:induction false} RefusalsOnlyRefill(reqs: seq<Request>, cap: nat, key: Key, limit: Limit, i: nat, j: nat)
    requires Chronological(reqs) && cap >= 1 && i < j <= |reqs|
    requires ConstantLimit(reqs, key, limit) && Refused(reqs, cap, key, i, j) && reqs[i].key == key
    ensures key in After(reqs, cap, i + 1).fills
    ensures Recovering(After(reqs, cap, j), key, limit, After(reqs, cap, i + 1).fills[key].tokens, reqs[i].now)
    decreases j
  {
    hide Taken, Held, Spend, Gain;
    RefusalLeavesShort(reqs, cap, i);
    var short := After(reqs, cap, i + 1).fills[key].tokens;
    if j == i + 1 {
      GainOf(0.0, 0.0, limit);
    } else {
      RefusalsOnlyRefill(reqs, cap, key, limit, i, j - 1);
      StepFacts(reqs, cap, j - 1);
      RefusalKeepsRecovering(After(reqs, cap, j - 1), After(reqs, cap, j), AnswerTo(reqs, cap, j - 1), reqs[j - 1],
                             key, limit, short, reqs[i].now);
    }
  }

  lemma RefusalLeavesShort(reqs: seq<Request>, cap: nat, i: nat)
    requires Chronological(reqs) && cap >= 1 && i < |reqs| && !AnswerTo(reqs, cap, i).allowed
    ensures var t := After(reqs, cap, i + 1);
            && reqs[i].key in t.fills && t.fills[reqs[i].key].updated == reqs[i].now
            && t.fills[reqs[i].key].tokens < 1.0
            && AnswerTo(reqs, cap, i).retryAfter == Wait(t.fills[reqs[i].key].tokens, reqs[i].limit)
  {
    StepFacts(reqs, cap, i);
  }

  lemma RefusalKeepsRecovering(s: Lru, t: Lru, answer: Answer, r: Request, key: Key, limit: Limit, short: real,
                               since: real)
    requires Ordered(s, r.now) && Recovering(s, key, limit, short, since)
    requires short < 1.0 && since <= r.now
    requires r.key == key ==> r.limit == limit && !answer.allowed
    requires forall k :: k in t.fills && k != r.key ==> k in s.fills && t.fills[k] == s.fills[k]
    requires r.key in t.fills && (t.fills[r.key], answer) == Spend(Held(s.fills, r), r.limit)
    ensures Recovering(t, key, limit, short, since)
  {
    hide Gain;
    if r.key == key && key in s.fills {
      RecoveryContinues(s, r, short, since);
    }
  }

  lemma RecoveryContinues(s: Lru, r: Request, short: real, since: real)
    requires r.key in s.fills && s.fills[r.key].updated <= r.now
    requires Recovering(s, r.key, r.limit, short, since)
    ensures Held(s.fills, r).tokens >= Min(r.limit as real, short + Gain(r.now - since, r.limit))
  {
    var updated := s.fills[r.key].updated;
    GainOf(updated - since, r.now - updated, r.limit);
    GainOf(r.now - updated, 0.0, r.limit);
  }

  lemma WaitIsEnough(tokens: real, limit: Limit, elapsed: real)
    requires tokens < 1.0
    requires elapsed >= Wait(tokens, limit) as real
    ensures tokens + Gain(elapsed, limit) >= 1.0
  {
    var wait := (1.0 - tokens) / Rate(limit);
    assert Ceil(wait) as real >= wait;
    assert Gain(wait, limit) == 1.0 - tokens;
    GainOf(elapsed - wait, wait, limit);
  }

  /**
   * An attempt made Retry-After seconds or more after a refusal is admitted, however many refused
   * attempts came between and whether or not the bucket was dropped meanwhile.
   */
  lemma RetryAfterIsHonoured(reqs: seq<Request>, cap: nat, key: Key, limit: Limit, i: nat, j: nat)
    requires Chronological(reqs) && cap >= 1 && i < j < |reqs|
    requires ConstantLimit(reqs, key, limit) && reqs[i].key == key && reqs[j].key == key
    ensures Refused(reqs, cap, key, i, j) && reqs[j].now >= reqs[i].now + AnswerTo(reqs, cap, i).retryAfter as real
            ==> AnswerTo(reqs, cap, j).allowed
  {
    hide Taken, Gain, Wait;
    if Refused(reqs, cap, key, i, j) && reqs[j].now >= reqs[i].now + AnswerTo(reqs, cap, i).retryAfter as real {
      RefusalsOnlyRefill(reqs, cap, key, limit, i, j);
      RefusalLeavesShort(reqs, cap, i);
      StepFacts(reqs, cap, j);
      var s, r := After(reqs, cap, j), reqs[j];
      var short := After(reqs, cap, i + 1).fills[key].tokens;
      WaitIsEnough(short, limit, r.now - reqs[i].now);
      if key in s.fills {
        RecoveryContinues(s, r, short, reqs[i].now);
      }
    }
  }

  /** Since the refusal the bucket was not dropped, and earned no more than the wait is worth. */
  ghost predicate NoMoreThanEarned(s: Lru, key: Key, limit: Limit, short: real, since: real) {
    key in s.fills && s.fills[key].tokens <= short + Gain(s.fills[key].updated - since, limit)
  }

  lemma RefusalEarnsNoMore(s: Lru, t: Lru, answer: Answer, r: Request, key: Key, limit: Limit, short: real, since: real)
    requires NoMoreThanEarned(s, key, limit, short, since) && key in t.fills
    requires r.key == key ==> r.limit == limit && !answer.allowed
    requires forall k :: k in t.fills && k != r.key ==> k in s.fills && t.fills[k] == s.fills[k]
    requires r.key in t.fills && (t.fills[r.key], answer) == Spend(Held(s.fills, r), r.limit)
    ensures NoMoreThanEarned(t, key, limit, short, since)
  {
    if r.key == key {
      EarnedUntil(s, r, short, since);
    }
  }

  lemma EarnedUntil(s: Lru, r: Request, short: real, since: real)
    requires NoMoreThanEarned(s, r.key, r.limit, short, since)
    ensures Held(s.fills, r).tokens <= short + Gain(r.now - since, r.limit) && Held(s.fills, r).updated == r.now
  {
    var updated := s.fills[r.key].updated;
    GainOf(updated - since, r.now - updated, r.limit);
    hide Gain;
  }

  lemma {:induction false} RefusalsEarnNoMore(reqs: seq<Request>, cap: nat, key: Key, limit: Limit, i: nat, j: nat)
    requires Chronological(reqs) && cap >= 1 && i < j <= |reqs|
    requires ConstantLimit(reqs, key, limit) && Refused(reqs, cap, key, i, j) && reqs[i].key == key
    requires KeptMeanwhile(reqs, cap, key, i + 1, j)
    ensures key in After(reqs, cap, i + 1).fills
    ensures NoMoreThanEarned(After(reqs, cap, j), key, limit, After(reqs, cap, i + 1).fills[key].tokens, reqs[i].now)
    decreases j
  {
    hide Taken, Held, Spend, Gain;
    RefusalLeavesShort(reqs, cap, i);
    var short := After(reqs, cap, i + 1).fills[key].tokens;
    if j == i + 1 {
      GainOf(0.0, 0.0, limit);
    } else {
      RefusalsEarnNoMore(reqs, cap, key, limit, i, j - 1);
      StepFacts(reqs, cap, j - 1);
      assert key in After(reqs, cap, j - 1).fills;
      RefusalEarnsNoMore(After(reqs, cap, j - 1), After(reqs, cap, j), AnswerTo(reqs, cap, j - 1), reqs[j - 1],
                         key, limit, short, reqs[i].now);
    }
  }

  lemma LessIsNotEnough(tokens: real, limit: Limit, elapsed: real)
    requires tokens < 1.0 && elapsed <= (Wait(tokens, limit) - 1) as real
    ensures tokens + Gain(elapsed, limit) < 1.0
  {
    var wait := (1.0 - tokens) / Rate(limit);
    assert wait > 0.0 && Ceil(wait) as real < wait + 1.0;
    assert Gain(wait, limit) == 1.0 - tokens;
    GainOf(elapsed, wait - elapsed, limit);
    assert Gain(wait - elapsed, limit) > 0.0;
  }

  /**
   * No earlier whole second is enough: while the bucket is not dropped, an attempt made a second or
   * more before Retry-After runs out is refused again.
   */
  lemma RetryAfterIsLeast(reqs: seq<Request>, cap: nat, key: Key, limit: Limit, i: nat, j: nat)
    requires Chronological(reqs) && cap >= 1 && i < j < |reqs|
    requires ConstantLimit(reqs, key, limit) && reqs[i].key == key && reqs[j].key == key
    requires Refused(reqs, cap, key, i, j) && KeptMeanwhile(reqs, cap, key, i + 1, j)
    ensures reqs[j].now <= reqs[i].now + (AnswerTo(reqs, cap, i).retryAfter - 1) as real
            ==> !AnswerTo(reqs, cap, j).allowed
  {
    hide Taken, Gain, Wait;
    if reqs[j].now <= reqs[i].now + (AnswerTo(reqs, cap, i).retryAfter - 1) as real {
      RefusalsEarnNoMore(reqs, cap, key, limit, i, j);
      RefusalLeavesShort(reqs, cap, i);
      StepFacts(reqs, cap, j);
      LessIsNotEnough(After(reqs, cap, i + 1).fills[key].tokens, limit, reqs[j].now - reqs[i].now);
      EarnedUntil(After(reqs, cap, j), reqs[j], After(reqs, cap, i + 1).fills[key].tokens, reqs[i].now);
    }
  }
}
