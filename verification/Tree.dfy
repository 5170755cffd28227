/** The tree view (backend/queries.py): one level of the ChildOf hierarchy at a time. */
module Tree {
  import opened Prelude
  import opened Paths
  import opened Graph
  import opened Listing

  /** A row of a level: the Thing, and how many active children hang below it. */
  datatype TreeNode = TreeNode(id: Id, childCount: nat)

  predicate Excluded(thing: Thing, tags: set<string>) {
    exists tag :: tag in thing.tags && tag in tags
  }

  function ActiveChildren(things: Things, edges: Relationships, parent: Id): set<Id> {
    set id | id in edges && edges[id].kind == ChildOf && edges[id].source == parent
             && edges[id].target in things && things[edges[id].target].active :: edges[id].target
  }

  /** The Things some active Thing claims as a child. */
  function Claimed(things: Things, edges: Relationships): set<Id> {
    set id | id in edges && edges[id].kind == ChildOf
             && edges[id].source in things && things[edges[id].source].active :: edges[id].target
  }

  /** The Things of a level: the children of a parent, or without one the active Things nobody active claims. */
  function LevelIds(things: Things, edges: Relationships, parent: Option<Id>, excludeTags: set<string>): set<Id> {
    match parent
    case None => set id | id in things && things[id].active && !Excluded(things[id], excludeTags)
        && id !in Claimed(things, edges)
    case Some(p) => set id | id in ActiveChildren(things, edges, p) && !Excluded(things[id], excludeTags)
  }

  method LevelRows(things: Things, edges: Relationships, parent: Option<Id>, excludeTags: set<string>)
    returns (rows: set<Id>)
    ensures rows == LevelIds(things, edges, parent, excludeTags)
  {
    rows := set id | id in things && things[id].active;
    if excludeTags != {} {
      rows := set id | id in rows && !Excluded(things[id], excludeTags);
    }
    match parent {
      case None =>
        var claimed := Claimed(things, edges);
        rows := set id | id in rows && id !in claimed;
      case Some(p) =>
        var children := set id | id in edges && edges[id].kind == ChildOf && edges[id].source == p :: edges[id].target;
        rows := set id | id in rows && id in children;
    }
  }

  /** `_active_child_counts`: a child counts once however many edges say so. */
  function ActiveChildCounts(things: Things, edges: Relationships, parents: set<Id>): map<Id, nat> {
    map p | p in parents && ActiveChildren(things, edges, p) != {} :: |ActiveChildren(things, edges, p)|
  }

  function Ids(level: seq<TreeNode>): seq<Id> {
    seq(|level|, k requires 0 <= k < |level| => level[k].id)
  }

  method TreeLevel(things: Things, edges: Relationships, parent: Option<Id>, excludeTags: set<string>)
    returns (level: seq<TreeNode>)
    ensures Elements(Ids(level)) == LevelIds(things, edges, parent, excludeTags)
    ensures NoDuplicates(Ids(level)) && ByImportance(things, Ids(level))
    ensures |level| == |LevelIds(things, edges, parent, excludeTags)|
    ensures forall n :: n in level ==> n.childCount == |ActiveChildren(things, edges, n.id)|
  {
    var rows := LevelRows(things, edges, parent, excludeTags);
    assert rows <= things.Keys;
    hide ActiveChildren, LevelIds, ByImportance, NoDuplicates;
    var ordered := ListByImportance(things, rows);
    var counts := ActiveChildCounts(things, edges, Elements(ordered));
    level := seq(|ordered|, k requires 0 <= k < |ordered| =>
                   TreeNode(ordered[k], if ordered[k] in counts then counts[ordered[k]] else 0));
    assert Ids(level) == ordered;
    ElementsOfDistinct(ordered);
  }

  /**
   * What a level shows: the active children of the parent, or without one the active Things that no
   * active Thing has as a child, less every Thing with even one of the tags left out.
   */
  lemma LevelShows(things: Things, edges: Relationships, parent: Option<Id>, excludeTags: set<string>, id: Id)
    ensures id in LevelIds(things, edges, parent, excludeTags)
            <==> && id in things && things[id].active
                 && (forall tag :: tag in things[id].tags ==> tag !in excludeTags)
                 && match parent
                    case Some(p) =>
                      exists e :: e in edges && edges[e].kind == ChildOf && edges[e].source == p
                                  && edges[e].target == id
                    case None =>
                      !exists e :: e in edges && edges[e].kind == ChildOf && edges[e].target == id
                                   && edges[e].source in things && things[edges[e].source].active
  {}

  // --- What a node promises ---------------------------------------------------

  /** `child_count` is what expanding returns, unless the tags left out take some of the children. */
  lemma CountIsExpansionIff(things: Things, edges: Relationships, parent: Id, excludeTags: set<string>)
    ensures |ActiveChildren(things, edges, parent)| == |LevelIds(things, edges, Some(parent), excludeTags)|
            <==> forall id :: id in ActiveChildren(things, edges, parent) ==> !Excluded(things[id], excludeTags)
  {
    var all, shown := ActiveChildren(things, edges, parent), LevelIds(things, edges, Some(parent), excludeTags);
    assert shown <= all;
    var hidden := all - shown;
    assert all == shown + hidden;
    assert |all| == |shown| + |hidden|;
    if hidden == {} {
      assert all == shown;
    }
  }

  // --- Nothing is lost --------------------------------------------------------

  /** The Thing is shown by opening the tree from its top level, node after node. */
  ghost predicate ShownBy(things: Things, edges: Relationships, descent: seq<Id>, id: Id) {
    && descent != [] && descent[|descent| - 1] == id
    && descent[0] in LevelIds(things, edges, None, {})
    && forall i :: 0 <= i < |descent| - 1 ==> descent[i + 1] in LevelIds(things, edges, Some(descent[i]), {})
  }

  function ActivePairs(things: Things, edges: Relationships): Edges {
    set e | e in ChildOfPairs(edges) && e.0 in things && things[e.0].active && e.1 in things && things[e.1].active
  }

  ghost function Ancestors(pairs: Edges, id: Id): set<Id> {
    set e | e in pairs && Reaches(pairs, e.1, id) :: e.0
  }

  /** In an acyclic hierarchy a parent has fewer ancestors than its child. */
  lemma ParentIsHigher(pairs: Edges, parent: Id, child: Id)
    requires Acyclic(pairs) && (parent, child) in pairs
    ensures Ancestors(pairs, parent) < Ancestors(pairs, child)
  {
    forall a | a in Ancestors(pairs, parent) ensures a in Ancestors(pairs, child) {
      var e :| e in pairs && Reaches(pairs, e.1, parent) && e.0 == a;
      ReachesNext(pairs, e.1, parent, child);
    }
    ReachesSelf(pairs, child);
    assert parent in Ancestors(pairs, child);
    assert !OnCycle(pairs, parent);
    forall e | e in pairs && e.0 == parent ensures !Reaches(pairs, e.1, parent) {
      assert e == (parent, e.1);
    }
  }

  lemma {:induction false} DescentExists(things: Things, edges: Relationships, id: Id) returns (descent: seq<Id>)
    requires Acyclic(ActivePairs(things, edges)) && id in things && things[id].active
    ensures ShownBy(things, edges, descent, id)
    decreases Ancestors(ActivePairs(things, edges), id)
  {
    if id !in Claimed(things, edges) {
      descent := [id];
    } else {
      var e :| e in edges && edges[e].kind == ChildOf && edges[e].target == id
        && edges[e].source in things && things[edges[e].source].active;
      var parent := edges[e].source;
      assert (parent, id) in ActivePairs(things, edges);
      ParentIsHigher(ActivePairs(things, edges), parent, id);
      var above := DescentExists(things, edges, parent);
      assert id in LevelIds(things, edges, Some(parent), {});
      descent := above + [id];
      forall i | 0 <= i < |descent| - 1 ensures descent[i + 1] in LevelIds(things, edges, Some(descent[i]), {}) {
        if i < |above| - 1 {
          assert above[i + 1] in LevelIds(things, edges, Some(above[i]), {});
        }
      }
    }
  }

  /** Over an acyclic hierarchy the tree shows exactly the active Things. */
  lemma TreeShowsExactlyTheActive(things: Things, edges: Relationships, id: Id)
    requires Acyclic(ChildOfPairs(edges))
    ensures (exists descent :: ShownBy(things, edges, descent, id)) <==> id in things && things[id].active
  {
    FewerEdgesAcyclic(ChildOfPairs(edges), ActivePairs(things, edges));
    if id in things && things[id].active {
      var descent := DescentExists(things, edges, id);
    }
    forall descent | ShownBy(things, edges, descent, id) ensures id in things && things[id].active {
      var n := |descent| - 1;
      if n > 0 {
        assert descent[n - 1 + 1] in LevelIds(things, edges, Some(descent[n - 1]), {});
      }
    }
  }
}
