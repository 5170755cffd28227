/**
 * `related` (backend/queries.py): the recursive query that enumerates paths out of the origin, and
 * the shortest depth at which it meets each Thing.
 */
module Related {
  import opened Prelude
  import opened Paths
  import opened Ordering
  import opened Graph

  const MAX_RELATED_DEPTH: nat := 5

  const ALL_KINDS := {ChildOf, Blocks, RelatedTo, EvidenceFor, References}

  /** One row of the walk: `path` is what came before the Thing. */
  datatype Row = Row(thing: Id, depth: nat, kind: Kind, path: seq<Id>)

  datatype RelatedThing = RelatedThing(id: Id, title: string, depth: nat, kind: Kind)

  predicate Touches(e: Edge, at: Id, kinds: set<Kind>) {
    (e.source == at || e.target == at) && e.kind in kinds
  }

  /** The CASE expression: the end of the edge that is not `at`, or `at` itself on a self-loop. */
  function OtherEnd(e: Edge, at: Id): Id {
    if e.source == at then e.target else e.source
  }

  function FirstLevel(edges: set<Edge>, kinds: set<Kind>, origin: Id): set<Row> {
    set e | e in edges && Touches(e, origin, kinds) :: Row(OtherEnd(e, origin), 1, e.kind, [origin])
  }

  function NextLevel(edges: set<Edge>, kinds: set<Kind>, level: set<Row>): set<Row> {
    set w, e | w in level && e in edges && Touches(e, w.thing, kinds) && OtherEnd(e, w.thing) !in w.path
      :: Row(OtherEnd(e, w.thing), w.depth + 1, e.kind, w.path + [w.thing])
  }

  function Level(edges: set<Edge>, kinds: set<Kind>, origin: Id, n: nat): set<Row>
    requires n >= 1
  {
    if n == 1 then FirstLevel(edges, kinds, origin) else NextLevel(edges, kinds, Level(edges, kinds, origin, n - 1))
  }

  // --- Undirected distance ----------------------------------------------------

  /** Its ends are the two, either way round. */
  predicate Connects(e: Edge, a: Id, b: Id) {
    (e.source == a && e.target == b) || (e.source == b && e.target == a)
  }

  predicate Adjacent(edges: set<Edge>, kinds: set<Kind>, a: Id, b: Id) {
    exists e :: e in edges && e.kind in kinds && Connects(e, a, b)
  }

  predicate IsWalk(edges: set<Edge>, kinds: set<Kind>, walk: seq<Id>, a: Id, b: Id) {
    && walk != [] && walk[0] == a && walk[|walk| - 1] == b
    && forall i :: 0 <= i < |walk| - 1 ==> Adjacent(edges, kinds, walk[i], walk[i + 1])
  }

  /** Some walk over the wanted edges, either way along each, has d hops and none has fewer. */
  ghost predicate Distance(edges: set<Edge>, kinds: set<Kind>, a: Id, b: Id, d: nat) {
    && (exists walk :: IsWalk(edges, kinds, walk, a, b) && |walk| == d + 1)
    && (forall walk :: IsWalk(edges, kinds, walk, a, b) ==> |walk| >= d + 1)
  }

  lemma ExtendedWalk(edges: set<Edge>, kinds: set<Kind>, walk: seq<Id>, a: Id, b: Id, c: Id)
    requires IsWalk(edges, kinds, walk, a, b) && Adjacent(edges, kinds, b, c)
    ensures IsWalk(edges, kinds, walk + [c], a, c)
  {
    hide Adjacent;
    var longer := walk + [c];
    forall i | 0 <= i < |longer| - 1 ensures Adjacent(edges, kinds, longer[i], longer[i + 1]) {
      if i < |walk| - 1 {
        assert Adjacent(edges, kinds, walk[i], walk[i + 1]);
      }
    }
  }

  lemma ShortenedWalk(edges: set<Edge>, kinds: set<Kind>, walk: seq<Id>, a: Id, b: Id, i: nat, j: nat)
    requires IsWalk(edges, kinds, walk, a, b) && i <= j < |walk| && walk[i] == walk[j]
    ensures IsWalk(edges, kinds, walk[..i] + walk[j..], a, b)
  {
    hide Adjacent;
    var cut := walk[..i] + walk[j..];
    forall k | 0 <= k < |cut| - 1 ensures Adjacent(edges, kinds, cut[k], cut[k + 1]) {
      if k < i {
        assert Adjacent(edges, kinds, walk[k], walk[k + 1]);
      } else {
        assert Adjacent(edges, kinds, walk[j + (k - i)], walk[j + (k - i) + 1]);
      }
    }
  }

  lemma FrontOfWalk(edges: set<Edge>, kinds: set<Kind>, walk: seq<Id>, a: Id, b: Id)
    requires IsWalk(edges, kinds, walk, a, b) && |walk| >= 2
    ensures IsWalk(edges, kinds, walk[..|walk| - 1], a, walk[|walk| - 2])
    ensures Adjacent(edges, kinds, walk[|walk| - 2], b)
  {
    hide Adjacent;
    var n := |walk| - 1;
    assert Adjacent(edges, kinds, walk[n - 1], walk[n]);
    forall i | 0 <= i < n - 1 ensures Adjacent(edges, kinds, walk[..n][i], walk[..n][i + 1]) {
      assert Adjacent(edges, kinds, walk[i], walk[i + 1]);
    }
  }

  /** Cutting out a repeated visit leaves a shorter walk, so a shortest walk has none. */
  lemma ShortestIsSimple(edges: set<Edge>, kinds: set<Kind>, walk: seq<Id>, a: Id, b: Id, d: nat)
    requires Distance(edges, kinds, a, b, d) && IsWalk(edges, kinds, walk, a, b) && |walk| == d + 1
    ensures NoDuplicates(walk)
  {
    hide IsWalk;
    forall i, j | 0 <= i < j < |walk| ensures walk[i] != walk[j] {
      if walk[i] == walk[j] {
        ShortenedWalk(edges, kinds, walk, a, b, i, j);
      }
    }
  }

  lemma TouchingIsAdjacent(edges: set<Edge>, kinds: set<Kind>, e: Edge, at: Id)
    requires e in edges && Touches(e, at, kinds)
    ensures Adjacent(edges, kinds, at, OtherEnd(e, at))
  {}

  /** Every row of level n ends a walk of n hops: repeated edges and loops add rows, never shortcuts. */
  lemma {:induction false} RowsAreWalks(edges: set<Edge>, kinds: set<Kind>, origin: Id, n: nat, row: Row)
    requires n >= 1 && row in Level(edges, kinds, origin, n)
    ensures row.depth == n && |row.path| == n && IsWalk(edges, kinds, row.path + [row.thing], origin, row.thing)
    ensures exists e :: e in edges && Touches(e, row.path[n - 1], kinds) && e.kind == row.kind
                        && OtherEnd(e, row.path[n - 1]) == row.thing
  {
    if n == 1 {
      var e :| e in edges && Touches(e, origin, kinds) && row == Row(OtherEnd(e, origin), 1, e.kind, [origin]);
      assert IsWalk(edges, kinds, [origin], origin, origin);
      OneHopFurther(edges, kinds, e, [origin], origin, origin);
    } else {
      var w, e :| w in Level(edges, kinds, origin, n - 1) && e in edges && Touches(e, w.thing, kinds)
        && row == Row(OtherEnd(e, w.thing), w.depth + 1, e.kind, w.path + [w.thing]);
      RowsAreWalks(edges, kinds, origin, n - 1, w);
      hide IsWalk, Touches, OtherEnd, Level;
      OneHopFurther(edges, kinds, e, row.path, origin, w.thing);
    }
  }

  lemma OneHopFurther(edges: set<Edge>, kinds: set<Kind>, e: Edge, walk: seq<Id>, origin: Id, at: Id)
    requires e in edges && Touches(e, at, kinds) && IsWalk(edges, kinds, walk, origin, at)
    ensures IsWalk(edges, kinds, walk + [OtherEnd(e, at)], origin, OtherEnd(e, at))
  {
    TouchingIsAdjacent(edges, kinds, e, at);
    hide IsWalk, Touches, OtherEnd;
    ExtendedWalk(edges, kinds, walk, origin, at, OtherEnd(e, at));
  }

  /** Its edges join two different Things each, all of them among these. */
  ghost predicate Over(edges: set<Edge>, things: set<Id>) {
    forall e :: e in edges ==> e.source != e.target && e.source in things && e.target in things
  }

  /** A Thing already on the path is not revisited. */
  lemma {:induction false} RowsAreSimple(edges: set<Edge>, kinds: set<Kind>, origin: Id, things: set<Id>, n: nat,
                                         row: Row)
    requires Over(edges, things) && origin in things && n >= 1 && row in Level(edges, kinds, origin, n)
    ensures NoDuplicates(row.path + [row.thing]) && |row.path| == n
    ensures forall id :: id in row.path + [row.thing] ==> id in things
  {
    if n > 1 {
      var w, e :| w in Level(edges, kinds, origin, n - 1) && e in edges && Touches(e, w.thing, kinds)
        && OtherEnd(e, w.thing) !in w.path
        && row == Row(OtherEnd(e, w.thing), w.depth + 1, e.kind, w.path + [w.thing]);
      RowsAreSimple(edges, kinds, origin, things, n - 1, w);
    }
  }

  /** So the walk ends on every graph, cycles or not: no path is longer than there are Things. */
  lemma WalkEnds(edges: set<Edge>, kinds: set<Kind>, origin: Id, things: set<Id>, n: nat)
    requires Over(edges, things) && origin in things && n >= |things|
    ensures n >= 1 && Level(edges, kinds, origin, n) == {}
  {
    SubsetCardinality({origin}, things);
    hide Level;
    if row :| row in Level(edges, kinds, origin, n) {
      RowsAreSimple(edges, kinds, origin, things, n, row);
      var visited := row.path + [row.thing];
      ElementsOfDistinct(visited);
      SubsetCardinality(Elements(visited), things);
      assert false;
    }
  }

  /** A walk that never repeats a Thing is enumerated. */
  lemma {:induction false} SimpleWalksAreRows(edges: set<Edge>, kinds: set<Kind>, origin: Id, walk: seq<Id>, b: Id)
    returns (row: Row)
    requires IsWalk(edges, kinds, walk, origin, b) && NoDuplicates(walk) && |walk| >= 2
    ensures row in Level(edges, kinds, origin, |walk| - 1)
    ensures row.thing == b && row.path == walk[..|walk| - 1] && row.depth == |walk| - 1
  {
    var n := |walk| - 1;
    var last := walk[n - 1];
    FrontOfWalk(edges, kinds, walk, origin, b);
    assert walk[0] == origin && walk[n] == b;
    hide IsWalk;
    var e :| e in edges && e.kind in kinds && ((e.source == last && e.target == b)
                                               || (e.source == b && e.target == last));
    assert Touches(e, last, kinds) && OtherEnd(e, last) == b;
    if n == 1 {
      row := Row(b, 1, e.kind, [origin]);
      assert row.path == walk[..1];
    } else {
      var w := SimpleWalksAreRows(edges, kinds, origin, walk[..n], last);
      row := Row(b, w.depth + 1, e.kind, w.path + [w.thing]);
      assert walk[..n][..n - 1] == walk[..n - 1];
      assert row.path == walk[..n];
      assert b !in w.path;
    }
  }

  lemma DistanceHasRow(edges: set<Edge>, kinds: set<Kind>, origin: Id, b: Id, d: nat) returns (row: Row)
    requires Distance(edges, kinds, origin, b, d) && b != origin
    ensures d >= 1 && row in Level(edges, kinds, origin, d) && row.thing == b && row.depth == d
  {
    var walk :| IsWalk(edges, kinds, walk, origin, b) && |walk| == d + 1;
    ShortestIsSimple(edges, kinds, walk, origin, b, d);
    row := SimpleWalksAreRows(edges, kinds, origin, walk, b);
  }

  /** Wherever there is a walk there is a distance, no longer than it. */
  lemma {:induction false} WalkHasDistance(edges: set<Edge>, kinds: set<Kind>, walk: seq<Id>, a: Id, b: Id)
    returns (d: nat)
    requires IsWalk(edges, kinds, walk, a, b)
    ensures Distance(edges, kinds, a, b, d) && d + 1 <= |walk|
    decreases |walk|
  {
    if shorter :| IsWalk(edges, kinds, shorter, a, b) && |shorter| < |walk| {
      d := WalkHasDistance(edges, kinds, shorter, a, b);
    } else {
      d := |walk| - 1;
    }
  }

  ghost predicate InWalk(edges: set<Edge>, kinds: set<Kind>, origin: Id, max: nat, row: Row) {
    1 <= row.depth <= max && row in Level(edges, kinds, origin, row.depth)
  }

  /** The key step: a row of a Thing is its shallowest exactly when it stands at the Thing's distance. */
  lemma ShallowestIsDistance(edges: set<Edge>, kinds: set<Kind>, origin: Id, max: nat, row: Row)
    requires InWalk(edges, kinds, origin, max, row) && row.thing != origin
    ensures (forall r :: InWalk(edges, kinds, origin, max, r) && r.thing == row.thing ==> row.depth <= r.depth)
            <==> Distance(edges, kinds, origin, row.thing, row.depth)
  {
    hide Level;
    RowsAreWalks(edges, kinds, origin, row.depth, row);
    var d := WalkHasDistance(edges, kinds, row.path + [row.thing], origin, row.thing);
    var r := DistanceHasRow(edges, kinds, origin, row.thing, d);
    assert InWalk(edges, kinds, origin, max, r);
    forall r | InWalk(edges, kinds, origin, max, r) && r.thing == row.thing ensures d <= r.depth {
      RowsAreWalks(edges, kinds, origin, r.depth, r);
    }
    if Distance(edges, kinds, origin, row.thing, row.depth) {
      SameDistance(edges, kinds, origin, row.thing, d, row.depth);
    }
  }

  /** The recursive query: levels are added until the depth allowed. */
  method Walk(edges: set<Edge>, kinds: set<Kind>, origin: Id, max: nat) returns (walk: set<Row>)
    requires max >= 1
    ensures forall row :: row in walk <==> InWalk(edges, kinds, origin, max, row)
  {
    var level, n := FirstLevel(edges, kinds, origin), 1;
    walk := level;
    AllOfLevel(edges, kinds, origin, 1);
    while n < max
      invariant 1 <= n <= max && level == Level(edges, kinds, origin, n)
      invariant forall row :: row in walk <==> InWalk(edges, kinds, origin, n, row)
    {
      n := n + 1;
      level := NextLevel(edges, kinds, level);
      AllOfLevel(edges, kinds, origin, n);
      walk := walk + level;
    }
  }

  lemma AllOfLevel(edges: set<Edge>, kinds: set<Kind>, origin: Id, n: nat)
    requires n >= 1
    ensures forall row :: row in Level(edges, kinds, origin, n) ==> row.depth == n
  {
    forall row | row in Level(edges, kinds, origin, n) ensures row.depth == n {
      RowsAreWalks(edges, kinds, origin, n, row);
    }
  }

  ghost predicate OnePerThing(walk: set<Row>, origin: Id, found: map<Id, Row>) {
    && (forall id :: id in found ==> id != origin && found[id] in walk && found[id].thing == id)
    && (forall row :: row in walk && row.thing != origin ==> row.thing in found && found[row.thing].depth <= row.depth)
  }

  /** DISTINCT ON the Thing, shallowest first: of rows that tie, any one. */
  method Shallowest(walk: set<Row>, origin: Id) returns (found: map<Id, Row>)
    ensures OnePerThing(walk, origin, found)
  {
    found := map[];
    var rest := walk;
    while rest != {}
      invariant rest <= walk
      invariant OnePerThing(walk - rest, origin, found)
    {
      var row :| row in rest;
      rest := rest - {row};
      if row.thing != origin && (row.thing !in found || row.depth < found[row.thing].depth) {
        found := found[row.thing := row];
      }
    }
  }

  lemma FoundAtDistance(edges: set<Edge>, kinds: set<Kind>, origin: Id, max: nat, walk: set<Row>, found: map<Id, Row>,
                        id: Id, d: nat)
    requires forall row :: row in walk <==> InWalk(edges, kinds, origin, max, row)
    requires OnePerThing(walk, origin, found)
    ensures (id in found && found[id].depth == d)
            <==> (id != origin && 1 <= d <= max && Distance(edges, kinds, origin, id, d))
  {
    if id in found {
      ShallowestIsDistance(edges, kinds, origin, max, found[id]);
    }
    if id != origin && 1 <= d <= max && Distance(edges, kinds, origin, id, d) {
      var row := DistanceHasRow(edges, kinds, origin, id, d);
      assert InWalk(edges, kinds, origin, max, row);
      SameDistance(edges, kinds, origin, id, d, found[id].depth);
    }
  }

  lemma SameDistance(edges: set<Edge>, kinds: set<Kind>, a: Id, b: Id, d: nat, d': nat)
    requires Distance(edges, kinds, a, b, d) && Distance(edges, kinds, a, b, d')
    ensures d == d'
  {
    var walk :| IsWalk(edges, kinds, walk, a, b) && |walk| == d + 1;
    var walk' :| IsWalk(edges, kinds, walk', a, b) && |walk'| == d' + 1;
  }

  lemma FoundIsThing(things: Things, edges: Relationships, kinds: set<Kind>, origin: Id, max: nat, row: Row)
    requires EdgesJoinThings(things, edges) && InWalk(edges.Values, kinds, origin, max, row)
    ensures row.thing in things
  {
    RowsAreWalks(edges.Values, kinds, origin, row.depth, row);
    var e :| e in edges.Values && Touches(e, row.path[row.depth - 1], kinds)
        && OtherEnd(e, row.path[row.depth - 1]) == row.thing;
    var id :| id in edges && edges[id] == e;
  }

  lemma NoKindsNoDistance(edges: set<Edge>, origin: Id, id: Id, d: nat)
    requires d >= 1
    ensures !Distance(edges, {}, origin, id, d)
  {
    forall walk: seq<Id> | |walk| >= 2 ensures !IsWalk(edges, {}, walk, origin, id) {
      assert !Adjacent(edges, {}, walk[0], walk[1]);
    }
  }

  predicate NearerFirst(a: RelatedThing, b: RelatedThing) {
    a.depth < b.depth || (a.depth == b.depth && TextLe(a.title, b.title))
  }

  lemma NearerFirstIsOrder()
    ensures TotalPreorder(NearerFirst)
  {
    forall a, b ensures NearerFirst(a, b) || NearerFirst(b, a) {
      TextTotal(a.title, b.title);
    }
    forall a, b, c | NearerFirst(a, b) && NearerFirst(b, c) ensures NearerFirst(a, c) {
      if a.depth == c.depth {
        TextTransitive(a.title, b.title, c.title);
      }
    }
  }

  /** The kind is that of an edge by which some shortest walk arrives. */
  ghost predicate ArrivesBy(edges: set<Edge>, kinds: set<Kind>, origin: Id, r: RelatedThing) {
    exists e, before ::
      && e in edges && e.kind in kinds && e.kind == r.kind
      && Connects(e, before, r.id) && r.depth >= 1 && Distance(edges, kinds, origin, before, r.depth - 1)
  }

  /** The Thing one hop before the end of a shortest walk is one hop nearer. */
  lemma PenultimateIsNearer(edges: set<Edge>, kinds: set<Kind>, origin: Id, row: Row)
    requires row.depth >= 1 && row in Level(edges, kinds, origin, row.depth)
    requires Distance(edges, kinds, origin, row.thing, row.depth)
    ensures |row.path| == row.depth && Distance(edges, kinds, origin, row.path[row.depth - 1], row.depth - 1)
  {
    var n := row.depth;
    RowsAreWalks(edges, kinds, origin, n, row);
    var before := row.path[n - 1];
    FrontOfWalk(edges, kinds, row.path + [row.thing], origin, row.thing);
    assert (row.path + [row.thing])[..n] == row.path;
    hide IsWalk, Level;
    forall w | IsWalk(edges, kinds, w, origin, before) ensures |w| >= n {
      ExtendedWalk(edges, kinds, w, origin, before, row.thing);
    }
  }

  /** The Thing is answered at depth d exactly when d is its distance, and within the depth allowed. */
  ghost predicate Exact(edges: set<Edge>, kinds: set<Kind>, origin: Id, max: int, results: seq<RelatedThing>, id: Id,
                        d: nat)
  {
    (exists r :: r in results && r.id == id && r.depth == d)
    <==> (id != origin && 1 <= d <= max && Distance(edges, kinds, origin, id, d))
  }

  /** What `related` answers: exactly the Things at distance 1 to `max`, each once, nearest first, then by title. */
  ghost predicate Answers(things: Things, edges: set<Edge>, kinds: set<Kind>, origin: Id, max: int,
                          results: seq<RelatedThing>)
  {
    && (forall id, d: nat :: Exact(edges, kinds, origin, max, results, id, d))
    && (forall r :: r in results ==>
          r.id in things && r.title == things[r.id].title && ArrivesBy(edges, kinds, origin, r))
    && (forall i, j :: 0 <= i < j < |results| ==> results[i].id != results[j].id)
    && (forall i, j :: 0 <= i < j < |results| ==>
          || results[i].depth < results[j].depth
          || (results[i].depth == results[j].depth && TextLe(results[i].title, results[j].title)))
  }

  lemma SortedIsNearest(results: seq<RelatedThing>)
    requires SortedBy(results, NearerFirst)
    ensures forall i, j :: 0 <= i < j < |results| ==>
              || results[i].depth < results[j].depth
              || (results[i].depth == results[j].depth && TextLe(results[i].title, results[j].title))
  {
    hide TextLe;
    forall i, j | 0 <= i < j < |results| ensures NearerFirst(results[i], results[j]) {}
  }

  lemma FoundAnswers(things: Things, edges: Relationships, kinds: set<Kind>, origin: Id, max: nat, walk: set<Row>,
                     found: map<Id, Row>, results: seq<RelatedThing>)
    requires EdgesJoinThings(things, edges)
    requires forall row :: row in walk <==> InWalk(edges.Values, kinds, origin, max, row)
    requires OnePerThing(walk, origin, found)
    requires SortedBy(results, NearerFirst) && NoDuplicates(results)
    requires Elements(results) == set id | id in found && id in things ::
             RelatedThing(id, things[id].title, found[id].depth, found[id].kind)
    ensures Answers(things, edges.Values, kinds, origin, max, results)
  {
    SortedIsNearest(results);
    hide Level, Distance, IsWalk, SortedBy, NearerFirst, ArrivesBy, InWalk, TextLe;
    forall r | r in results
      ensures r.id in found && r.id in things
              && r == RelatedThing(r.id, things[r.id].title, found[r.id].depth, found[r.id].kind)
    {
      assert r in Elements(results);
    }
    forall i, j | 0 <= i < j < |results| ensures results[i].id != results[j].id {
      assert results[i] in results && results[j] in results;
    }
    forall r | r in results ensures ArrivesBy(edges.Values, kinds, origin, r) {
      FoundArrives(edges.Values, kinds, origin, max, walk, found, r);
    }
    forall id, d: nat ensures Exact(edges.Values, kinds, origin, max, results, id, d) {
      FoundAtDistance(edges.Values, kinds, origin, max, walk, found, id, d);
      if id in found && found[id].depth == d {
        FoundIsThing(things, edges, kinds, origin, max, found[id]);
        assert RelatedThing(id, things[id].title, d, found[id].kind) in Elements(results);
      }
    }
  }

  lemma FoundArrives(edges: set<Edge>, kinds: set<Kind>, origin: Id, max: nat, walk: set<Row>, found: map<Id, Row>,
                     r: RelatedThing)
    requires forall row :: row in walk <==> InWalk(edges, kinds, origin, max, row)
    requires OnePerThing(walk, origin, found) && r.id in found && r.depth == found[r.id].depth
             && r.kind == found[r.id].kind
    ensures ArrivesBy(edges, kinds, origin, r)
  {
    var row := found[r.id];
    FoundAtDistance(edges, kinds, origin, max, walk, found, r.id, r.depth);
    PenultimateIsNearer(edges, kinds, origin, row);
    hide Distance, InWalk, OnePerThing;
    var before := row.path[r.depth - 1];
    var e := ArrivingEdge(edges, kinds, origin, row);
    assert Connects(e, before, r.id);
  }

  /** The edge a row arrives by, from the last Thing of its path. */
  lemma ArrivingEdge(edges: set<Edge>, kinds: set<Kind>, origin: Id, row: Row) returns (e: Edge)
    requires row.depth >= 1 && row in Level(edges, kinds, origin, row.depth)
    ensures |row.path| == row.depth
    ensures e in edges && e.kind in kinds && e.kind == row.kind && Connects(e, row.path[row.depth - 1], row.thing)
  {
    RowsAreWalks(edges, kinds, origin, row.depth, row);
    hide IsWalk;
    var last := row.path[row.depth - 1];
    e :| e in edges && Touches(e, last, kinds) && e.kind == row.kind && OtherEnd(e, last) == row.thing;
  }

  /** Types left out means every type; a depth beyond the maximum walks the maximum. */
  method RelatedThings(things: Things, edges: Relationships, origin: Id, types: Option<set<Kind>>, depth: int)
    returns (results: seq<RelatedThing>)
    requires EdgesJoinThings(things, edges)
    ensures Answers(things, edges.Values,
                    if types.Some? then types.value else {ChildOf, Blocks, RelatedTo, EvidenceFor, References}, origin,
                    if depth < 5 then depth else 5, results)
  {
    var kinds := if types.Some? then types.value else ALL_KINDS;
    var max := if depth < MAX_RELATED_DEPTH then depth else MAX_RELATED_DEPTH;
    if depth < 1 {
      return [];
    }
    if kinds == {} {
      forall id, d: nat | d >= 1 ensures !Distance(edges.Values, kinds, origin, id, d) {
        NoKindsNoDistance(edges.Values, origin, id, d);
      }
      return [];
    }
    var walk := Walk(edges.Values, kinds, origin, max);
    var found := Shallowest(walk, origin);
    var rows := set id | id in found && id in things ::
        RelatedThing(id, things[id].title, found[id].depth, found[id].kind);
    NearerFirstIsOrder();
    results := OrderBy(rows, NearerFirst);
    FoundAnswers(things, edges, kinds, origin, max, walk, found, results);
  }
}
