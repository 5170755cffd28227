/** The orders the queries of backend/queries.py and backend/service.py list Things and edges in. */
module Listing {
  import opened Prelude
  import opened Paths
  import opened Ordering
  import opened Graph

  /** `created_at`, then `id`. */
  datatype Aged = Aged(created: int, id: nat)

  predicate OldestFirst(a: Aged, b: Aged) {
    a.created < b.created || (a.created == b.created && a.id <= b.id)
  }

  /** `priority` downwards, then `title`. */
  datatype Ranked = Ranked(id: nat, priority: real, title: string)

  predicate MostImportantFirst(a: Ranked, b: Ranked) {
    a.priority > b.priority || (a.priority == b.priority && TextLe(a.title, b.title))
  }

  lemma MostImportantFirstIsOrder()
    ensures TotalPreorder(MostImportantFirst)
  {
    forall a, b ensures MostImportantFirst(a, b) || MostImportantFirst(b, a) {
      TextTotal(a.title, b.title);
    }
    forall a, b, c | MostImportantFirst(a, b) && MostImportantFirst(b, c) ensures MostImportantFirst(a, c) {
      if a.priority == c.priority {
        TextTransitive(a.title, b.title, c.title);
      }
    }
  }

  function RankOf(things: Things, id: Id): Ranked
    requires id in things
  {
    Ranked(id, things[id].priority, things[id].title)
  }

  /** The higher priority first, and among equals the title. */
  predicate Before(a: Thing, b: Thing) {
    a.priority > b.priority || (a.priority == b.priority && TextLe(a.title, b.title))
  }

  ghost predicate ByImportance(things: Things, ids: seq<Id>) {
    && (forall id :: id in ids ==> id in things)
    && forall i, j :: 0 <= i < j < |ids| ==> Before(things[ids[i]], things[ids[j]])
  }

  lemma RankedIsByImportance(things: Things, ids: seq<Id>, ranked: seq<Ranked>)
    requires |ids| == |ranked| && forall id :: id in ids ==> id in things
    requires forall k :: 0 <= k < |ids| ==> ranked[k] == RankOf(things, ids[k])
    requires SortedBy(ranked, MostImportantFirst)
    ensures ByImportance(things, ids)
  {
    hide TextLe;
    forall i, j | 0 <= i < j < |ids| ensures MostImportantFirst(ranked[i], ranked[j]) {}
  }

  method ListByImportance(things: Things, ids: set<Id>) returns (list: seq<Id>)
    requires ids <= things.Keys
    ensures Elements(list) == ids && NoDuplicates(list) && ByImportance(things, list)
  {
    MostImportantFirstIsOrder();
    hide MostImportantFirst;
    var ranked := OrderBy(set id | id in ids :: RankOf(things, id), MostImportantFirst);
    assert forall r :: r in ranked <==> r in Elements(ranked);
    assert forall k :: 0 <= k < |ranked| ==> ranked[k] in ranked;
    list := seq(|ranked|, k requires 0 <= k < |ranked| => ranked[k].id);
    forall id | id in ids ensures id in list {
      assert RankOf(things, id) in ranked;
      var k :| 0 <= k < |ranked| && ranked[k] == RankOf(things, id);
      assert list[k] == id;
    }
    RankedIsByImportance(things, list, ranked);
  }
}
