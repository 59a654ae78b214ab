/** Data contracts shared by the optimizer passes (dsl/contracts.py). */
module Contracts {

  datatype EdgeKind = HardData | HardControl | HardLifecycle | MayDep

  datatype DependencyEdge = DependencyEdge(src: string, dst: string, kind: EdgeKind, justification: seq<string>)

  datatype SoftKind = SoftOrder | MinGap | NoOverlap | SameSessionGroup | BudgetK | RateLimit | BatchGroup | CoalesceStateWrite | BackoffWindow

  /** `orderedScope` is empty where the parameters name no order. */
  datatype SoftConstraint = SoftConstraint(
    kind: SoftKind, scope: seq<string>, reason: string, ruleId: string, orderedScope: seq<string>, guard: string,
    fallback: string)

  /** A schedulable unit; `actions` are its effective action references. */
  datatype Mssu = Mssu(mssuType: string, effectTokens: set<string>, actions: set<string>)

  /** `ids` lists the keys of `nodes` in insertion order. */
  datatype TypedDag = TypedDag(
    ids: seq<string>, nodes: map<string, Mssu>, hardEdges: seq<DependencyEdge>, softConstraints: seq<SoftConstraint>)

  function Ends(edges: seq<DependencyEdge>): seq<(string, string)> {
    seq(|edges|, i requires 0 <= i < |edges| => (edges[i].src, edges[i].dst))
  }

  function EdgeArcs(edges: seq<DependencyEdge>): set<(string, string)> {
    set e | e in edges :: (e.src, e.dst)
  }

  ghost predicate EndpointsKnown(nodes: map<string, Mssu>, edges: seq<DependencyEdge>) {
    forall e :: e in edges ==> e.src in nodes && e.dst in nodes
  }
}
