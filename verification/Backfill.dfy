/**
 * The one-off pass of backend/service.py that dates every capture left without a check-in date,
 * inside the transaction of the migration that calls it.
 */
module Backfill {
  import opened Prelude
  import opened Paths
  import opened Ordering
  import opened Graph
  import opened Listing
  import opened Journal
  import opened Service

  const BACKFILL_PER_DAY := 5

  predicate Undated(thing: Thing) {
    thing.active && thing.checkin.None?
  }

  predicate NeedsDate(thing: Thing) {
    Undated(thing) && !Internal(thing)
  }

  function RowOf(things: Things, id: Id): Aged
    requires id in things
  {
    Aged(things[id].created, id)
  }

  /** The captures a backfill dates, in the order it dates them. */
  ghost predicate InCaptureOrder(things: Things, captures: seq<Id>) {
    && NoDuplicates(captures)
    && (forall id :: id in captures <==>
                       && id in things && things[id].active && things[id].checkin.None? && !Internal(things[id]))
    && (forall i, j :: 0 <= i < j < |captures| ==>
          || things[captures[i]].created < things[captures[j]].created
          || (things[captures[i]].created == things[captures[j]].created && captures[i] <= captures[j]))
  }

  function DueOn(first: Day, position: nat): Day {
    first + position / BACKFILL_PER_DAY
  }

  /** A capture nobody described was never filled in: it is marked new as well. */
  function Dated(thing: Thing, due: Day, now: Time): Thing {
    var bare := thing.description.None? || thing.description.value == "";
    thing.(checkin := Some(due), updated := now,
           tags := if bare && NEW_TAG !in thing.tags then thing.tags + [NEW_TAG] else thing.tags)
  }

  function AfterBackfill(db: Db, captures: seq<Id>, first: Day, now: Time): Db
    requires forall id :: id in captures ==> id in db.tables.things
  {
    if captures == [] then db
    else
      var n := |captures| - 1;
      WriteThing(AfterBackfill(db, captures[..n], first, now), now, ClaudeScheduled, Update, captures[n],
                 Dated(db.tables.things[captures[n]], DueOn(first, n), now))
  }

  /** The rows of the query outside the internal tags. */
  function Captures(things: Things, rows: seq<Aged>): seq<Id>
    requires forall r :: r in rows ==> r.id in things
  {
    if rows == [] then []
    else
      var earlier, last := Captures(things, rows[..|rows| - 1]), rows[|rows| - 1].id;
      if Internal(things[last]) then earlier else earlier + [last]
  }

  method DateCapture(s: Session, id: Id, due: Day, now: Time)
    requires id in s.things
    modifies s
    ensures s.View() == WriteThing(old(s.View()), now, ClaudeScheduled, Update, id, Dated(old(s.things[id]), due, now))
    ensures s.committed == old(s.committed)
  {
    var before := s.things[id];
    var thing := before.(checkin := Some(due));
    if (thing.description.None? || thing.description.value == "") && NEW_TAG !in thing.tags {
      thing := thing.(tags := thing.tags + [NEW_TAG]);
    }
    thing := thing.(updated := now);
    s.things := s.things[id := thing];
    s.Journalled(now, ClaudeScheduled, Update, OfThing(id), Some(ThingState(before)), Some(ThingState(thing)));
  }

  method FindCaptures(things: Things) returns (captures: seq<Id>)
    ensures InCaptureOrder(things, captures)
  {
    var undated := OrderBy(set id | id in things && Undated(things[id]) :: RowOf(things, id), OldestFirst);
    CapturesAreThose(things, undated);
    captures := Captures(things, undated);
  }

  method BackfillCheckinDates(s: Session, first: Day, now: Time) returns (count: nat, ghost captures: seq<Id>)
    modifies s
    ensures InCaptureOrder(old(s.things), captures)
    ensures s.View() == AfterBackfill(old(s.View()), captures, first, now)
    ensures s.committed == old(s.committed) && count == |captures|
  {
    hide InCaptureOrder, NoDuplicates, AfterBackfill, Dated, DueOn, WriteThing;
    ghost var was := s.View();
    var dating := FindCaptures(s.things);
    CaptureOrderNames(was.tables.things, dating);
    NothingToDate(was, first, now);
    var position := 0;
    while position < |dating|
      invariant 0 <= position <= |dating|
      invariant s.View() == AfterBackfill(was, dating[..position], first, now)
      invariant s.committed == old(s.committed)
    {
      BackfillStep(was, dating, position, first, now);
      DateCapture(s, dating[position], DueOn(first, position), now);
      position := position + 1;
    }
    assert dating[..position] == dating;
    return |dating|, dating;
  }

  lemma CaptureOrderNames(things: Things, captures: seq<Id>)
    requires InCaptureOrder(things, captures)
    ensures NoDuplicates(captures) && forall id :: id in captures ==> id in things
  {}

  lemma BackfillStep(db: Db, captures: seq<Id>, position: nat, first: Day, now: Time)
    requires position < |captures| && NoDuplicates(captures) && forall id :: id in captures ==> id in db.tables.things
    ensures var earlier, id := AfterBackfill(db, captures[..position], first, now), captures[position];
            && id in earlier.tables.things && earlier.tables.things[id] == db.tables.things[id]
            && AfterBackfill(db, captures[..position + 1], first, now)
               == WriteThing(earlier, now, ClaudeScheduled, Update, id,
                             Dated(earlier.tables.things[id], DueOn(first, position), now))
  {
    assert NoDuplicates(captures[..position]) && captures[position] !in captures[..position] by {
      LastIsNew(captures[..position + 1]);
      assert captures[..position + 1][..position] == captures[..position];
    }
    hide WriteThing, Dated, DueOn, NoDuplicates;
    WhatBackfillWrites(db, captures[..position], first, now);
    assert captures[..position + 1][..position] == captures[..position];
  }

  lemma {:induction false} CapturesAreSome(things: Things, rows: seq<Aged>)
    requires forall r :: r in rows ==> r.id in things && r == RowOf(things, r.id)
    requires SortedBy(rows, OldestFirst) && NoDuplicates(rows)
    ensures var captures := Captures(things, rows);
            && NoDuplicates(captures)
            && (forall id :: id in captures <==> id in things && RowOf(things, id) in rows && !Internal(things[id]))
            && (forall i, j :: 0 <= i < j < |captures| ==>
                  OldestFirst(RowOf(things, captures[i]), RowOf(things, captures[j])))
  {
    if rows != [] {
      var front, last := rows[..|rows| - 1], rows[|rows| - 1];
      CapturesAreSome(things, front);
      assert rows == front + [last];
      hide Internal, Captures;
      assert last !in front;
      forall r | r in front ensures OldestFirst(r, last) {}
    }
  }

  lemma CapturesAreThose(things: Things, rows: seq<Aged>)
    requires Elements(rows) == set id | id in things && Undated(things[id]) :: RowOf(things, id)
    requires SortedBy(rows, OldestFirst) && NoDuplicates(rows)
    ensures (forall r :: r in rows ==> r.id in things) && InCaptureOrder(things, Captures(things, rows))
  {
    assert forall r :: r in rows <==> r in Elements(rows);
    CapturesAreSome(things, rows);
    assert forall id :: id in things && Undated(things[id]) ==> RowOf(things, id) in Elements(rows);
  }

  // --- What the pass leaves -----------------------------------------------------

  /** Each capture gets its own date, and everything else stays as it was. */
  lemma {:induction false} WhatBackfillWrites(db: Db, captures: seq<Id>, first: Day, now: Time)
    requires NoDuplicates(captures) && forall id :: id in captures ==> id in db.tables.things
    ensures var after := AfterBackfill(db, captures, first, now).tables;
            && after.edges == db.tables.edges && after.things.Keys == db.tables.things.Keys
            && (forall id :: id in db.tables.things && id !in captures ==> after.things[id] == db.tables.things[id])
            && (forall k :: 0 <= k < |captures| ==>
                  after.things[captures[k]] == Dated(db.tables.things[captures[k]], DueOn(first, k), now))
  {
    hide Dated, DueOn, WriteThing, NoDuplicates;
    if captures != [] {
      var n := |captures| - 1;
      var front, last := captures[..n], captures[n];
      assert NoDuplicates(front) && last !in front by {
        LastIsNew(captures);
      }
      WhatBackfillWrites(db, front, first, now);
      var earlier, dated := AfterBackfill(db, front, first, now), Dated(db.tables.things[last], DueOn(first, n), now);
      WrittenThing(earlier, now, ClaudeScheduled, Update, last, dated);
    }
  }

  /**
   * What the k-th capture becomes: due on the k div 5-th day after the first, marked new once if it
   * was never described, updated now, and nothing else of it.
   */
  lemma WhatACaptureBecomes(db: Db, captures: seq<Id>, first: Day, now: Time, k: nat)
    requires InCaptureOrder(db.tables.things, captures) && k < |captures|
    ensures var before, things := db.tables.things[captures[k]], AfterBackfill(db, captures, first, now).tables.things;
            var undescribed := before.description == None || before.description == Some("");
            && captures[k] in things
            && things[captures[k]] == before.(
                 checkin := Some(first + k / 5), updated := now,
                 tags := before.tags + (if undescribed && "#New" !in before.tags then ["#New"] else []))
  {
    assert captures[k] in captures;
    CaptureOrderNames(db.tables.things, captures);
    WhatBackfillWrites(db, captures, first, now);
    DatedIs(db.tables.things[captures[k]], first, k, now);
    hide AfterBackfill, InCaptureOrder, NoDuplicates, Dated, DueOn;
    assert AfterBackfill(db, captures, first, now).tables.things[captures[k]]
           == Dated(db.tables.things[captures[k]], DueOn(first, k), now);
  }

  lemma DatedIs(before: Thing, first: Day, k: nat, now: Time)
    ensures var undescribed := before.description == None || before.description == Some("");
            Dated(before, DueOn(first, k), now) == before.(
              checkin := Some(first + k / 5), updated := now,
              tags := before.tags + (if undescribed && "#New" !in before.tags then ["#New"] else []))
  {
    assert before.tags + [] == before.tags;
  }

  /** The entry the k-th capture leaves. */
  function BackfillEntry(db: Db, captures: seq<Id>, k: nat, first: Day, now: Time): Entry
    requires k < |captures| && captures[k] in db.tables.things
  {
    var thing := db.tables.things[captures[k]];
    Entry(db.nextEntry + k, now, ClaudeScheduled, Update, OfThing(captures[k]), Some(ThingState(thing)),
          Some(ThingState(Dated(thing, DueOn(first, k), now))))
  }

  /** One update entry each, by the scheduled actor, in capture order. */
  lemma {:induction false} WhatBackfillJournals(db: Db, captures: seq<Id>, first: Day, now: Time)
    requires NoDuplicates(captures) && forall id :: id in captures ==> id in db.tables.things
    ensures var after := AfterBackfill(db, captures, first, now);
            && |after.journal| == |db.journal| + |captures| && after.journal[..|db.journal|] == db.journal
            && after.nextEntry == db.nextEntry + |captures|
            && forall k :: 0 <= k < |captures| ==>
                 after.journal[|db.journal| + k] == BackfillEntry(db, captures, k, first, now)
  {
    hide Dated, DueOn, NoDuplicates, WriteThing;
    if captures != [] {
      var n := |captures| - 1;
      var front, last := captures[..n], captures[n];
      LastIsNew(captures);
      WhatBackfillJournals(db, front, first, now);
      WhatBackfillWrites(db, front, first, now);
      var earlier, dated := AfterBackfill(db, front, first, now), Dated(db.tables.things[last], DueOn(first, n), now);
      WrittenThing(earlier, now, ClaudeScheduled, Update, last, dated);
      var after := AfterBackfill(db, captures, first, now);
      forall k | 0 <= k < |captures|
        ensures after.journal[|db.journal| + k] == BackfillEntry(db, captures, k, first, now)
      {
        if k < n {
          assert after.journal[|db.journal| + k] == earlier.journal[|db.journal| + k];
          assert earlier.journal[|db.journal| + k] == BackfillEntry(db, front, k, first, now);
        }
      }
    }
  }

  // --- The dates ------------------------------------------------------------------

  /** The captures the pass lets fall due on one day. */
  function FallingDue(things: Things, captures: seq<Id>, day: Day): set<Id>
    requires forall id :: id in captures ==> id in things
  {
    set id | id in captures && things[id].checkin == Some(day)
  }

  /**
   * From the first day on five captures a day, the oldest first, until the last day takes what is
   * left: no day before the first, after the last, or short in between.
   */
  lemma FiveADay(db: Db, captures: seq<Id>, first: Day, now: Time, day: Day)
    requires InCaptureOrder(db.tables.things, captures)
    ensures var after := AfterBackfill(db, captures, first, now).tables.things;
            var left := |captures| - 5 * (day - first);
            && (forall id :: id in captures ==> id in after)
            && |FallingDue(after, captures, day)|
               == if day < first || left <= 0 then 0 else if left < 5 then left else 5
  {
    WhatBackfillWrites(db, captures, first, now);
    CaptureOrderNames(db.tables.things, captures);
    var after := AfterBackfill(db, captures, first, now).tables.things;
    hide AfterBackfill, InCaptureOrder;
    forall k | 0 <= k < |captures| ensures after[captures[k]].checkin == Some(DueOn(first, k)) {
      assert after[captures[k]] == Dated(db.tables.things[captures[k]], DueOn(first, k), now);
    }
    DatedOnDay(after, captures, first, day);
  }

  lemma DatedOnDay(things: Things, captures: seq<Id>, first: Day, day: Day)
    requires NoDuplicates(captures) && forall id :: id in captures ==> id in things
    requires forall k :: 0 <= k < |captures| ==> things[captures[k]].checkin == Some(DueOn(first, k))
    ensures var left := |captures| - BACKFILL_PER_DAY * (day - first);
            |FallingDue(things, captures, day)|
            == if day < first || left <= 0 then 0 else if left < BACKFILL_PER_DAY then left else BACKFILL_PER_DAY
  {
    var n := |captures|;
    var low := if day < first then 0
               else if BACKFILL_PER_DAY * (day - first) > n then n
               else BACKFILL_PER_DAY * (day - first);
    var high := if day < first then 0 else if low + BACKFILL_PER_DAY > n then n else low + BACKFILL_PER_DAY;
    assert forall k :: 0 <= k < n ==> (DueOn(first, k) == day <==> low <= k < high);
    hide DueOn, NoDuplicates;
    DatedSlice(things, captures, day, low, high);
  }

  lemma DatedSlice(things: Things, captures: seq<Id>, day: Day, low: nat, high: nat)
    requires NoDuplicates(captures) && (forall id :: id in captures ==> id in things) && low <= high <= |captures|
    requires forall k :: 0 <= k < |captures| ==> (things[captures[k]].checkin == Some(day) <==> low <= k < high)
    ensures |FallingDue(things, captures, day)| == high - low
  {
    var batch := captures[low..high];
    hide NoDuplicates;
    ElementsOfDistinct(batch);
    forall id | id in FallingDue(things, captures, day) ensures id in Elements(batch) {
      var k :| 0 <= k < |captures| && captures[k] == id;
      assert batch[k - low] == id;
    }
    forall id | id in Elements(batch) ensures id in FallingDue(things, captures, day) {
      var k :| 0 <= k < |batch| && batch[k] == id;
      assert captures[low + k] == id;
    }
    assert FallingDue(things, captures, day) == Elements(batch);
  }

  /** An older capture never falls due after a newer one. */
  lemma OlderNotLater(db: Db, captures: seq<Id>, first: Day, now: Time, i: nat, j: nat)
    requires InCaptureOrder(db.tables.things, captures) && i <= j < |captures|
    ensures var after := AfterBackfill(db, captures, first, now).tables.things;
            && captures[i] in after && captures[j] in after
            && after[captures[i]].checkin.Some? && after[captures[j]].checkin.Some?
            && after[captures[i]].checkin.value <= after[captures[j]].checkin.value
  {
    WhatBackfillWrites(db, captures, first, now);
  }

  /** A second run finds nothing to date. */
  lemma SecondRunTouchesNothing(db: Db, captures: seq<Id>, first: Day, now: Time, again: seq<Id>, later: Day,
                                nextNow: Time)
    requires InCaptureOrder(db.tables.things, captures)
    requires InCaptureOrder(AfterBackfill(db, captures, first, now).tables.things, again)
    ensures again == []
    ensures AfterBackfill(AfterBackfill(db, captures, first, now), again, later, nextNow)
            == AfterBackfill(db, captures, first, now)
  {
    WhatBackfillWrites(db, captures, first, now);
    var after := AfterBackfill(db, captures, first, now).tables.things;
    hide AfterBackfill, DueOn, Internal;
    forall id | id in after ensures !NeedsDate(after[id]) {
      if id in captures {
        var k :| 0 <= k < |captures| && captures[k] == id;
        assert after[id] == Dated(db.tables.things[id], DueOn(first, k), now);
      }
    }
    EmptyOrNot(again);
    assert AfterBackfill(AfterBackfill(db, captures, first, now), [], later, nextNow)
        == AfterBackfill(db, captures, first, now) by {
      NothingToDate(AfterBackfill(db, captures, first, now), later, nextNow);
    }
  }

  lemma EmptyOrNot<T(!new)>(s: seq<T>)
    ensures s == [] || exists x :: x in s
  {
    if s != [] {
      assert s[0] in s;
    }
  }

  lemma NothingToDate(db: Db, first: Day, now: Time)
    ensures AfterBackfill(db, [], first, now) == db
  {}
}
