/** The user model (backend/queries.py): preferences, each with the evidence its strength is counted from. */
module UserModel {
  import opened Prelude
  import opened Paths
  import opened Ordering
  import opened Graph
  import opened Listing
  import opened Service
  import opened Text

  /** The Things an EvidenceFor edge points from at the preference. */
  function EvidenceIds(edges: Relationships, preference: Id): set<Id> {
    set id | id in edges && edges[id].kind == EvidenceFor && edges[id].target == preference :: edges[id].source
  }

  function AgeOf(edges: Relationships, id: Id): Aged
    requires id in edges
  {
    Aged(edges[id].created, id)
  }

  predicate Supports(things: Things, edges: Relationships, id: Id, preference: Id) {
    id in edges && edges[id].kind == EvidenceFor && edges[id].target == preference && edges[id].source in things
  }

  /** By the instant attached, and at the same instant by id. */
  ghost predicate InAttachedOrder(edges: Relationships, via: seq<Id>) {
    && (forall id :: id in via ==> id in edges)
    && forall j, k :: 0 <= j < k < |via| ==>
         || edges[via[j]].created < edges[via[k]].created
         || (edges[via[j]].created == edges[via[k]].created && via[j] <= via[k])
  }

  /** The list follows the edges that support the preference, each once, in the order they were attached. */
  ghost predicate ListsEvidence(things: Things, edges: Relationships, preference: Id, list: seq<Id>, via: seq<Id>) {
    && NoDuplicates(via) && InAttachedOrder(edges, via)
    && (forall id :: id in via <==> Supports(things, edges, id, preference))
    && list == SourcesOf(edges, via)
  }

  ghost predicate IsEvidenceOf(things: Things, edges: Relationships, preference: Id, list: seq<Id>) {
    exists via :: ListsEvidence(things, edges, preference, list, via)
  }

  /** Each wanted preference with supporting edges has its evidence listed, and no other is there. */
  ghost predicate FindsEvidence(things: Things, edges: Relationships, preferences: set<Id>, found: map<Id, seq<Id>>) {
    && found.Keys <= preferences
    && (forall p :: p in found ==> IsEvidenceOf(things, edges, p, found[p]) && found[p] != [])
    && (forall p, id :: p in preferences && Supports(things, edges, id, p) ==> p in found)
  }

  /** The edges among the rows that support one preference. */
  function Via(things: Things, edges: Relationships, rows: seq<Aged>, preference: Id): seq<Id> {
    if rows == [] then []
    else
      var earlier, last := Via(things, edges, rows[..|rows| - 1], preference), rows[|rows| - 1].id;
      if Supports(things, edges, last, preference) then earlier + [last] else earlier
  }

  function SourcesOf(edges: Relationships, via: seq<Id>): seq<Id>
    requires forall id :: id in via ==> id in edges
  {
    seq(|via|, k requires 0 <= k < |via| => edges[via[k]].source)
  }

  lemma {:induction false} ViaListsEdges(things: Things, edges: Relationships, rows: seq<Aged>, preference: Id)
    requires SortedBy(rows, OldestFirst) && NoDuplicates(rows)
    requires forall r :: r in rows ==> r.id in edges && r == AgeOf(edges, r.id)
    ensures var via := Via(things, edges, rows, preference);
            && NoDuplicates(via) && InAttachedOrder(edges, via)
            && (forall id :: id in via <==> Supports(things, edges, id, preference) && AgeOf(edges, id) in rows)
  {
    if rows != [] {
      var front, last := rows[..|rows| - 1], rows[|rows| - 1];
      LastIsNew(rows);
      ViaListsEdges(things, edges, front, preference);
      assert rows == front + [last];
      hide Supports;
      forall r | r in front ensures OldestFirst(r, last) {}
    }
  }

  // --- Reading the evidence -------------------------------------------------------

  /** Every wanted preference with a supporting edge among the rows has its list, and no other has. */
  ghost predicate Collected(things: Things, edges: Relationships, rows: seq<Aged>, preferences: set<Id>,
                            found: map<Id, seq<Id>>, via: map<Id, seq<Id>>)
  {
    && found.Keys == via.Keys && found.Keys <= preferences
    && (forall p :: p in preferences ==>
          if p in found then via[p] == Via(things, edges, rows, p) != [] else Via(things, edges, rows, p) == [])
    && (forall p :: p in found ==> (forall id :: id in via[p] ==> id in edges) && found[p] == SourcesOf(edges, via[p]))
  }

  lemma NothingCollected(things: Things, edges: Relationships, preferences: set<Id>)
    ensures Collected(things, edges, [], preferences, map[], map[])
  {}

  function Appended(lists: map<Id, seq<Id>>, p: Id, id: Id): map<Id, seq<Id>> {
    lists[p := (if p in lists then lists[p] else []) + [id]]
  }

  lemma CollectOne(things: Things, edges: Relationships, rows: seq<Aged>, preferences: set<Id>, found: map<Id, seq<Id>>,
                   via: map<Id, seq<Id>>, i: nat)
    requires i < |rows| && rows[i].id in edges && edges[rows[i].id].kind == EvidenceFor
             && edges[rows[i].id].target in preferences
    requires Collected(things, edges, rows[..i], preferences, found, via)
    ensures var id := rows[i].id;
            var edge := edges[id];
            if edge.source in things
            then Collected(things, edges, rows[..i + 1], preferences, Appended(found, edge.target, edge.source),
                           Appended(via, edge.target, id))
            else Collected(things, edges, rows[..i + 1], preferences, found, via)
  {
    assert rows[..i + 1][..i] == rows[..i];
    assert forall p :: Via(things, edges, rows[..i + 1], p)
                       == Via(things, edges, rows[..i], p)
                          + (if Supports(things, edges, rows[i].id, p) then [rows[i].id] else []);
    hide Via;
    var edge := edges[rows[i].id];
    if edge.source in things {
      var p := edge.target;
      var before := if p in via then via[p] else [];
      assert SourcesOf(edges, before + [rows[i].id]) == SourcesOf(edges, before) + [edge.source];
    }
  }

  ghost predicate Attached(edges: Relationships, preferences: set<Id>, rows: seq<Aged>) {
    && SortedBy(rows, OldestFirst) && NoDuplicates(rows)
    && (forall id :: id in edges && edges[id].kind == EvidenceFor && edges[id].target in preferences ==>
          AgeOf(edges, id) in rows)
    && (forall r :: r in rows ==> r.id in edges && r == AgeOf(edges, r.id) && edges[r.id].kind == EvidenceFor
                                  && edges[r.id].target in preferences)
  }

  method ListAttached(edges: Relationships, preferences: set<Id>) returns (rows: seq<Aged>)
    ensures Attached(edges, preferences, rows)
  {
    var attached := set id | id in edges && edges[id].kind == EvidenceFor && edges[id].target in preferences ::
        AgeOf(edges, id);
    rows := OrderBy(attached, OldestFirst);
    assert forall r :: r in rows <==> r in Elements(rows);
  }

  /** `_evidence_by_preference`. */
  method EvidenceByPreference(things: Things, edges: Relationships, preferences: set<Id>)
    returns (found: map<Id, seq<Id>>)
    ensures FindsEvidence(things, edges, preferences, found)
  {
    hide Collected, Via, IsEvidenceOf;
    found := map[];
    ghost var via := map[];
    if preferences == {} {
      return;
    }
    var rows := ListAttached(edges, preferences);
    NothingCollected(things, edges, preferences);
    if rows == [] {
      CollectedLists(things, edges, preferences, rows, found, via);
      return;
    }
    assert forall k :: 0 <= k < |rows| ==> rows[k] in rows;
    var sources := set r | r in rows :: edges[r.id].source;
    var known := map id | id in things && id in sources :: things[id];
    var i := 0;
    while i < |rows|
      invariant 0 <= i <= |rows|
      invariant Collected(things, edges, rows[..i], preferences, found, via)
    {
      var edge := edges[rows[i].id];
      CollectOne(things, edges, rows, preferences, found, via, i);
      if edge.source in known {
        found := Appended(found, edge.target, edge.source);
        via := Appended(via, edge.target, rows[i].id);
      }
      i := i + 1;
    }
    assert rows[..i] == rows;
    CollectedLists(things, edges, preferences, rows, found, via);
  }

  lemma CollectedLists(things: Things, edges: Relationships, preferences: set<Id>, rows: seq<Aged>,
                       found: map<Id, seq<Id>>, via: map<Id, seq<Id>>)
    requires Attached(edges, preferences, rows) && Collected(things, edges, rows, preferences, found, via)
    ensures FindsEvidence(things, edges, preferences, found)
  {
    hide Via, OldestFirst;
    forall p | p in preferences
      ensures p in found ==> ListsEvidence(things, edges, p, found[p], via[p])
      ensures forall id :: Supports(things, edges, id, p) ==> id in Via(things, edges, rows, p)
    {
      ViaListsEdges(things, edges, rows, p);
    }
  }

  method EvidenceOf(things: Things, edges: Relationships, preference: Id) returns (list: seq<Id>)
    ensures IsEvidenceOf(things, edges, preference, list)
  {
    var found := EvidenceByPreference(things, edges, {preference});
    if preference in found {
      return found[preference];
    }
    assert ListsEvidence(things, edges, preference, [], []);
    return [];
  }

  // --- Strength -------------------------------------------------------------------

  ghost predicate SupportsOnce(things: Things, edges: Relationships, preference: Id) {
    forall k, l :: (Supports(things, edges, k, preference) && Supports(things, edges, l, preference)
                    && edges[k].source == edges[l].source) ==> k == l
  }

  /**
   * Strength, the length of the evidence list, is the number of distinct evidence Things exactly
   * when no Thing supports the preference twice: what the unique index is there for.
   */
  lemma StrengthIsExactIff(things: Things, edges: Relationships, preference: Id, list: seq<Id>)
    requires EdgesJoinThings(things, edges) && IsEvidenceOf(things, edges, preference, list)
    ensures Elements(list) == EvidenceIds(edges, preference)
    ensures |list| == |EvidenceIds(edges, preference)|
            <==> SupportsOnce(things, edges, preference)
  {
    var via :| ListsEvidence(things, edges, preference, list, via);
    ListHoldsEvidence(things, edges, preference, list, via);
    CountsOnceIff(list);
    hide Elements, EvidenceIds, NoDuplicates;
    OnceIffDistinct(things, edges, preference, list, via);
  }

  lemma ListHoldsEvidence(things: Things, edges: Relationships, preference: Id, list: seq<Id>, via: seq<Id>)
    requires EdgesJoinThings(things, edges) && ListsEvidence(things, edges, preference, list, via)
    ensures Elements(list) == EvidenceIds(edges, preference)
  {
    hide NoDuplicates, InAttachedOrder;
    forall id | id in EvidenceIds(edges, preference) ensures id in Elements(list) {
      var e :| e in edges && edges[e].kind == EvidenceFor && edges[e].target == preference && edges[e].source == id;
      assert e in via;
      var k :| 0 <= k < |via| && via[k] == e;
      assert list[k] == id;
    }
    assert forall k :: 0 <= k < |list| ==> via[k] in via && list[k] == edges[via[k]].source;
  }

  lemma OnceIffDistinct(things: Things, edges: Relationships, preference: Id, list: seq<Id>, via: seq<Id>)
    requires ListsEvidence(things, edges, preference, list, via)
    ensures NoDuplicates(list) <==> SupportsOnce(things, edges, preference)
  {
    hide InAttachedOrder;
    assert forall k :: 0 <= k < |via| ==> via[k] in via;
    if NoDuplicates(list) {
      forall k, l | Supports(things, edges, k, preference) && Supports(things, edges, l, preference)
          && edges[k].source == edges[l].source
        ensures k == l
      {
        assert k in via && l in via;
        var i :| 0 <= i < |via| && via[i] == k;
        var j :| 0 <= j < |via| && via[j] == l;
        assert list[i] == list[j];
      }
    }
  }

  lemma {:induction false} CountsOnceIff<T>(s: seq<T>)
    ensures |Elements(s)| <= |s|
    ensures |Elements(s)| == |s| <==> NoDuplicates(s)
  {
    if s != [] {
      var front, last := s[..|s| - 1], s[|s| - 1];
      CountsOnceIff(front);
      assert Elements(s) == Elements(front) + {last};
      if last in front {
        assert Elements(s) == Elements(front);
      }
    }
  }

  // --- The user model -------------------------------------------------------------

  datatype Preference = Preference(id: Id, evidence: seq<Id>)

  /** The query: what the anchor points at as a preference, in the scope asked for. */
  predicate Selected(things: Things, edges: Relationships, id: Id, scope: Option<string>, includeRejected: bool,
                     lower: string -> string)
  {
    && id in things && Linked(edges, USER_ANCHOR_ID, id, RelatedTo) && PREFERENCE_TAG in things[id].tags
    && (scope.Some? ==> "scope" in things[id].notes && lower(things[id].notes["scope"]) == scope.value)
    && (includeRejected || REJECTED_TAG !in things[id].tags)
  }

  predicate Scoped(things: Things, id: Id) {
    id in things && "scope" in things[id].notes && Strip(things[id].notes["scope"]) != ""
  }

  /** A selected preference passes for one only with a scope and some evidence. */
  ghost predicate InModel(things: Things, edges: Relationships, id: Id, scope: Option<string>, includeRejected: bool,
                          lower: string -> string)
  {
    && Selected(things, edges, id, if scope.Some? then Some(lower(Strip(scope.value))) else None, includeRejected,
                lower)
    && Scoped(things, id) && exists e :: Supports(things, edges, e, id)
  }

  /**
   * What the model lists: a Thing tagged as a preference that the anchor points at, not rejected
   * unless those are asked for, with a scope of more than white space, which folds to the one asked
   * for if any is, and with a Thing as evidence.
   */
  lemma InModelIff(things: Things, edges: Relationships, id: Id, scope: Option<string>, includeRejected: bool,
                   lower: string -> string)
    ensures InModel(things, edges, id, scope, includeRejected, lower)
            <==> && id in things && "#Preference" in things[id].tags
                 && (exists e :: e in edges && edges[e].kind == RelatedTo && edges[e].source == 1
                                 && edges[e].target == id)
                 && ("#Rejected" in things[id].tags ==> includeRejected)
                 && "scope" in things[id].notes
                 && (exists i :: 0 <= i < |things[id].notes["scope"]| && !IsSpace(things[id].notes["scope"][i]))
                 && (scope.Some? ==> lower(things[id].notes["scope"]) == lower(Strip(scope.value)))
                 && exists e :: e in edges && edges[e].kind == EvidenceFor && edges[e].target == id
                                && edges[e].source in things
  {
    if id in things && "scope" in things[id].notes {
      BlankIff(things[id].notes["scope"]);
    }
    AnchoredIff(edges, id);
    SupportedIff(things, edges, id);
    hide Strip, IsSpace, Linked, Supports;
  }

  lemma AnchoredIff(edges: Relationships, id: Id)
    ensures Linked(edges, USER_ANCHOR_ID, id, RelatedTo)
            <==> exists e :: e in edges && edges[e].kind == RelatedTo && edges[e].source == 1 && edges[e].target == id
  {
    if e :| e in edges && edges[e].kind == RelatedTo && edges[e].source == 1 && edges[e].target == id {
      assert Carries(edges, e, USER_ANCHOR_ID, id, RelatedTo);
    }
  }

  lemma SupportedIff(things: Things, edges: Relationships, id: Id)
    ensures (exists e :: Supports(things, edges, e, id))
            <==> exists e :: e in edges && edges[e].kind == EvidenceFor && edges[e].target == id
                             && edges[e].source in things
  {
    if e :| e in edges && edges[e].kind == EvidenceFor && edges[e].target == id && edges[e].source in things {
      assert Supports(things, edges, e, id);
    }
  }

  function Floored(things: Things, ids: seq<Id>, found: map<Id, seq<Id>>): seq<Id> {
    if ids == [] then []
    else
      var earlier, last := Floored(things, ids[..|ids| - 1], found), ids[|ids| - 1];
      if last in found && Scoped(things, last) then earlier + [last] else earlier
  }

  lemma {:induction false} FlooredKeepsOrder(things: Things, ids: seq<Id>, found: map<Id, seq<Id>>)
    requires NoDuplicates(ids) && ByImportance(things, ids)
    ensures var kept := Floored(things, ids, found);
            && NoDuplicates(kept) && ByImportance(things, kept)
            && forall id :: id in kept <==> id in ids && id in found && Scoped(things, id)
  {
    hide Strip;
    if ids != [] {
      var front, last := ids[..|ids| - 1], ids[|ids| - 1];
      LastIsNew(ids);
      FlooredKeepsOrder(things, front, found);
      assert ids == front + [last];
      hide Scoped, Before;
      forall id | id in front ensures Before(things[id], things[last]) {}
    }
  }

  function IdsOf(model: seq<Preference>): seq<Id> {
    seq(|model|, k requires 0 <= k < |model| => model[k].id)
  }

  /** `user_model`; `lower` is the lower-casing of the database and of Python. */
  method ReadUserModel(things: Things, edges: Relationships, scope: Option<string>, includeRejected: bool,
                       lower: string -> string)
    returns (model: seq<Preference>)
    ensures NoDuplicates(IdsOf(model)) && ByImportance(things, IdsOf(model))
    ensures forall id :: id in IdsOf(model) <==> InModel(things, edges, id, scope, includeRejected, lower)
    ensures forall p :: p in model ==> IsEvidenceOf(things, edges, p.id, p.evidence)
  {
    hide Strip;
    var wanted := if scope.Some? then Some(lower(Strip(scope.value))) else None;
    var rows := set id | id in things && Selected(things, edges, id, wanted, includeRejected, lower);
    var ordered := ListByImportance(things, rows);
    var found := EvidenceByPreference(things, edges, Elements(ordered));
    FlooredKeepsOrder(things, ordered, found);
    var kept := Floored(things, ordered, found);
    hide Floored, Selected, Scoped, ByImportance, NoDuplicates, Supports, IsEvidenceOf;
    EvidenceIsThere(things, edges, rows, found);
    assert forall k :: 0 <= k < |kept| ==> kept[k] in kept;
    model := seq(|kept|, k requires 0 <= k < |kept| => Preference(kept[k], found[kept[k]]));
    assert IdsOf(model) == kept;
  }

  lemma EvidenceIsThere(things: Things, edges: Relationships, preferences: set<Id>, found: map<Id, seq<Id>>)
    requires FindsEvidence(things, edges, preferences, found)
    ensures forall p :: p in found <==> p in preferences && exists e :: Supports(things, edges, e, p)
  {
    hide Supports, NoDuplicates, InAttachedOrder;
    forall p | p in found ensures exists e :: Supports(things, edges, e, p) {
      var via :| ListsEvidence(things, edges, p, found[p], via);
      assert via[0] in via;
    }
  }
}
