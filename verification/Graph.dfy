/** The tables of backend/db_models.py: Things, typed edges and the append-only journal. */
module Graph {
  import opened Prelude
  import opened Paths

  type Time = int
  type Day = int

  const USER_ANCHOR_ID: Id := 1

  const USER_TAG := "#User"
  const PREFERENCE_TAG := "#Preference"
  const REJECTED_TAG := "#Rejected"
  const OBSERVATION_TAG := "#Observation"
  const SCHEDULED_TASK_TAG := "#ScheduledTask"
  const BRIEFING_TAG := "#Briefing"
  const NEW_TAG := "#New"
  const INTERNAL_TAGS := {USER_TAG, PREFERENCE_TAG, OBSERVATION_TAG, SCHEDULED_TASK_TAG, BRIEFING_TAG}

  /** ChildOf runs from parent to child, EvidenceFor from the evidence to what it supports. */
  datatype Kind = ChildOf | Blocks | RelatedTo | EvidenceFor | References

  datatype Thing = Thing(
    title: string, description: Option<string>, notes: map<string, string>, tags: seq<string>,
    urls: map<string, string>, checkin: Option<Day>, priority: real, active: bool, created: Time, updated: Time)

  datatype Edge = Edge(source: Id, target: Id, kind: Kind, context: Option<string>, created: Time)

  datatype Actor = User | ClaudeInteractive | ClaudeScheduled

  type Things = map<Id, Thing>
  type Relationships = map<Id, Edge>

  predicate Internal(thing: Thing) {
    exists tag :: tag in thing.tags && tag in INTERNAL_TAGS
  }

  /** Every edge joins two Things: the foreign keys. */
  predicate EdgesJoinThings(things: Things, edges: Relationships) {
    forall id :: id in edges ==> edges[id].source in things && edges[id].target in things
  }

  predicate NoSelfLoops(edges: Relationships) {
    forall id :: id in edges ==> edges[id].source != edges[id].target
  }

  function ChildOfPairs(edges: Relationships): Edges {
    set id | id in edges && edges[id].kind == ChildOf :: (edges[id].source, edges[id].target)
  }

  /** The index: a pair carries at most one EvidenceFor edge. */
  ghost predicate EvidenceUnique(edges: Relationships) {
    forall k, l :: k in edges && l in edges && edges[k].kind == EvidenceFor && edges[l].kind == EvidenceFor
                   && edges[k].source == edges[l].source && edges[k].target == edges[l].target
      ==> k == l
  }
}
