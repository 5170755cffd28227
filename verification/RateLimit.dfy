/**
 * The per-tier token buckets of backend/rate_limit.py: an ordered dictionary of mutable buckets,
 * least recently used first, bounded by MAX_BUCKETS.
 */
module RateLimit {
  import opened Prelude

  const MAX_BUCKETS: nat := 10_000

  /** Settings declare every limit at least one request per minute. */
  type Limit = n: nat | 1 <= n witness 1

  datatype Key = Key(tier: string, caller: string)

  datatype Request = Request(key: Key, limit: Limit, now: real)

  datatype Answer = Answer(allowed: bool, remaining: int, retryAfter: int)

  /** What a bucket object holds at one moment. */
  datatype Fill = Fill(tokens: real, updated: real, throttled: bool)

  /** The ordered dictionary at one moment: its keys from least to most recently used. */
  datatype Lru = Lru(order: seq<Key>, fills: map<Key, Fill>) {
    predicate Valid() {
      && NoDuplicates(order)
      && Elements(order) == fills.Keys
    }

    function Added(r: Request): Lru {
      Lru(order + [r.key], fills[r.key := NewFill(r)])
    }

    function WithoutOldest(): Lru
      requires order != []
    {
      Lru(order[1..], fills - {order[0]})
    }

    lemma AddedValid(r: Request)
      requires Valid() && r.key !in fills
      ensures Added(r).Valid()
    {
      assert Elements(order + [r.key]) == Elements(order) + {r.key};
      forall i | 0 <= i < |order| ensures order[i] != r.key {
        assert order[i] in Elements(order);
      }
    }

    lemma WithoutOldestValid()
      requires Valid() && order != []
      ensures WithoutOldest().Valid()
    {
      assert Elements(order) == {order[0]} + Elements(order[1..]);
      assert order[0] !in order[1..];
    }
  }

  const Empty := Lru([], map[])

  function Rate(limit: Limit): real {
    limit as real / 60.0
  }

  /** Tokens earned over so many seconds. */
  function Gain(seconds: real, limit: Limit): real {
    seconds * Rate(limit)
  }

  function Ceil(x: real): int {
    -((-x).Floor)
  }

  function Min(x: real, y: real): real {
    if x <= y then x else y
  }

  function NewFill(r: Request): Fill {
    Fill(r.limit as real, r.now, false)
  }

  function Refilled(f: Fill, r: Request): Fill {
    Fill(Min(r.limit as real, f.tokens + Gain(r.now - f.updated, r.limit)), r.now, f.throttled)
  }

  /** Retry-After: whole seconds until a bucket this short holds a token, and never less than one. */
  function Wait(tokens: real, limit: Limit): int {
    var seconds := Ceil((1.0 - tokens) / Rate(limit));
    if seconds < 1 then 1 else seconds
  }

  /** One token spent, or the refusal with the seconds to wait. */
  function Spend(f: Fill, limit: Limit): (Fill, Answer) {
    if f.tokens >= 1.0 then
      (Fill(f.tokens - 1.0, f.updated, false), Answer(true, (f.tokens - 1.0).Floor, 0))
    else
      (f.(throttled := true), Answer(false, 0, Wait(f.tokens, limit)))
  }

  function Without(order: seq<Key>, key: Key): seq<Key> {
    if order == [] then []
    else if order[0] == key then Without(order[1..], key)
    else [order[0]] + Without(order[1..], key)
  }

  /** The dictionary once the requested key's bucket is in it and refilled, before a token is spent. */
  function Touch(s: Lru, cap: nat, r: Request): Lru {
    if r.key in s.fills then
      Lru(Without(s.order, r.key) + [r.key], s.fills[r.key := Refilled(s.fills[r.key], r)])
    else
      var added := s.Added(r);
      if |added.order| > cap then added.WithoutOldest() else added
  }

  /** What the request finds in its bucket. */
  function Held(fills: map<Key, Fill>, r: Request): Fill {
    if r.key in fills then Refilled(fills[r.key], r) else NewFill(r)
  }

  function Taken(s: Lru, cap: nat, r: Request): (Lru, Answer) {
    var touched := Touch(s, cap, r);
    var (spent, answer) := Spend(Held(s.fills, r), r.limit);
    (if r.key in touched.fills then touched.(fills := touched.fills[r.key := spent]) else touched, answer)
  }

  lemma {:induction false} WithoutContents(order: seq<Key>, key: Key)
    requires NoDuplicates(order)
    ensures NoDuplicates(Without(order, key))
    ensures Elements(Without(order, key)) == Elements(order) - {key}
  {
    if order != [] {
      var tail := order[1..];
      WithoutContents(tail, key);
      var rest := Without(tail, key);
      assert Elements(order) == {order[0]} + Elements(tail);
      if order[0] == key {
        assert key !in Elements(tail);
      } else {
        assert Elements([order[0]] + rest) == {order[0]} + Elements(rest);
        assert order[0] !in Elements(tail);
        forall i | 0 <= i < |rest| ensures rest[i] != order[0] {
          assert rest[i] in Elements(rest);
        }
      }
    }
  }

  lemma TouchValid(s: Lru, cap: nat, r: Request)
    requires s.Valid() && cap >= 1
    ensures Touch(s, cap, r).Valid()
    ensures r.key in Touch(s, cap, r).fills
    ensures |s.order| <= cap ==> |Touch(s, cap, r).order| <= cap
  {
    if r.key in s.fills {
      MovedContents(s.order, r.key);
    } else {
      s.AddedValid(r);
      var added := s.Added(r);
      if |added.order| > cap {
        added.WithoutOldestValid();
        assert r.key == added.order[1..][|added.order| - 2];
      }
    }
  }

  /** Moving a key to the recent end leaves the same keys, each once. */
  lemma MovedContents(order: seq<Key>, key: Key)
    requires NoDuplicates(order) && key in Elements(order)
    ensures var moved := Without(order, key) + [key];
            NoDuplicates(moved) && Elements(moved) == Elements(order) && |moved| == |order|
  {
    WithoutContents(order, key);
    var rest := Without(order, key);
    assert key !in Elements(rest);
    assert Elements(rest + [key]) == Elements(rest) + {key};
    ElementsOfDistinct(rest);
    ElementsOfDistinct(order);
  }

  /** `_Bucket`: a record the limiter updates in place. */
  class Bucket {
    var tokens: real
    var updated: real
    var throttled: bool

    constructor (tokens: real, updated: real)
      ensures State() == Fill(tokens, updated, false)
    {
      this.tokens := tokens;
      this.updated := updated;
      throttled := false;
    }

    ghost function State(): Fill
      reads this
    {
      Fill(tokens, updated, throttled)
    }

    method Refill(r: Request)
      modifies this
      ensures State() == Refilled(old(State()), r)
    {
      tokens := Min(r.limit as real, tokens + Gain(r.now - updated, r.limit));
      updated := r.now;
    }

    method SpendOne(limit: Limit) returns (answer: Answer)
      modifies this
      ensures (State(), answer) == Spend(old(State()), limit)
    {
      if tokens >= 1.0 {
        tokens := tokens - 1.0;
        throttled := false;
        return Answer(true, tokens.Floor, 0);
      }
      throttled := true;
      return Answer(false, 0, Wait(tokens, limit));
    }
  }

  /** The buckets hold what the dictionary says, each key its own. */
  ghost predicate Tracks(buckets: map<Key, Bucket>, view: Lru, repr: set<Bucket>)
    reads repr
  {
    && view.Valid()
    && buckets.Keys == view.fills.Keys
    && (forall k :: k in buckets ==> buckets[k] in repr && buckets[k].State() == view.fills[k])
    && (forall j, k :: j in buckets && k in buckets && j != k ==> buckets[j] != buckets[k])
  }

  lemma StillTracks(buckets: map<Key, Bucket>, view: Lru, repr: set<Bucket>)
    requires Tracks(buckets, view, repr) && view.order != []
    ensures Tracks(buckets - {view.order[0]}, view.WithoutOldest(), repr)
  {
    view.WithoutOldestValid();
  }

  /** `_BUCKETS` and the function that spends from it. */
  class Limiter {
    var order: seq<Key>
    var buckets: map<Key, Bucket>
    ghost var view: Lru
    ghost var repr: set<Bucket>

    ghost predicate Consistent()
      reads this, repr
    {
      order == view.order && Tracks(buckets, view, repr)
    }

    ghost predicate Valid()
      reads this, repr
    {
      Consistent() && |order| <= MAX_BUCKETS
    }

    constructor ()
      ensures Valid() && view == Empty && repr == {}
    {
      order, buckets, view, repr := [], map[], Empty, {};
    }

    /** A full bucket for a key that has none. */
    method Add(r: Request) returns (bucket: Bucket)
      requires Consistent() && r.key !in buckets
      modifies this
      ensures Consistent() && fresh(repr - old(repr))
      ensures view == old(view).Added(r)
      ensures r.key in buckets && bucket == buckets[r.key]
    {
      view.AddedValid(r);
      view := view.Added(r);
      bucket := new Bucket(r.limit as real, r.now);
      repr := repr + {bucket};
      order, buckets := order + [r.key], buckets[r.key := bucket];
    }

    /** `popitem(last=False)`. */
    method DropOldest()
      requires Consistent() && order != []
      modifies this
      ensures Consistent() && repr == old(repr)
      ensures view == old(view).WithoutOldest()
      ensures forall k :: k in buckets ==> k in old(buckets) && buckets[k] == old(buckets[k])
    {
      StillTracks(buckets, view, repr);
      view := view.WithoutOldest();
      hide Tracks;
      order, buckets := order[1..], buckets - {order[0]};
    }

    /** The bucket of a key that has one, moved to the recent end and refilled. */
    method Reuse(r: Request) returns (bucket: Bucket)
      requires Valid() && r.key in buckets
      modifies this, repr
      ensures Valid() && repr == old(repr)
      ensures view == Touch(old(view), MAX_BUCKETS, r)
      ensures r.key in buckets && bucket == buckets[r.key]
    {
      TouchValid(view, MAX_BUCKETS, r);
      view := Touch(view, MAX_BUCKETS, r);
      bucket := buckets[r.key];
      order := Without(order, r.key) + [r.key];
      bucket.Refill(r);
    }

    method Find(r: Request) returns (bucket: Bucket)
      requires Valid()
      modifies this, repr
      ensures Valid() && fresh(repr - old(repr))
      ensures view == Touch(old(view), MAX_BUCKETS, r)
      ensures r.key in buckets && bucket == buckets[r.key]
    {
      TouchValid(view, MAX_BUCKETS, r);
      if r.key !in buckets {
        bucket := Add(r);
        if |order| > MAX_BUCKETS {
          DropOldest();
        }
      } else {
        bucket := Reuse(r);
      }
    }

    method Take(r: Request) returns (answer: Answer)
      requires Valid()
      modifies this, repr
      ensures Valid() && fresh(repr - old(repr))
      ensures (view, answer) == Taken(old(view), MAX_BUCKETS, r)
    {
      var bucket := Find(r);
      answer := bucket.SpendOne(r.limit);
      view := view.(fills := view.fills[r.key := bucket.State()]);
    }
  }
}
