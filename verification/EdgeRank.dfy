/** The order in which the DAG builder gives up hard edges (optimizer/m4_typed_dag.py `_edge_removal_rank`). */
module EdgeRank {
  import opened Contracts
  import Text

  /** Key of an edge; the edge with the smallest key goes first. */
  datatype Rank = Rank(guarded: nat, kind: nat, source: nat, src: string, dst: string)

  predicate RankLess(a: Rank, b: Rank) {
    a.guarded < b.guarded || (a.guarded == b.guarded &&
      (a.kind < b.kind || (a.kind == b.kind &&
        (a.source < b.source || (a.source == b.source &&
          (Text.Less(a.src, b.src) || (a.src == b.src && Text.Less(a.dst, b.dst))))))))
  }

  lemma RankTotal(a: Rank, b: Rank)
    ensures RankLess(a, b) || a == b || RankLess(b, a)
    ensures !(RankLess(a, b) && RankLess(b, a))
    ensures !RankLess(a, a)
  {
    Text.LessTotal(a.src, b.src);
    Text.LessTotal(a.dst, b.dst);
    Text.LessIrreflexive(a.src);
    Text.LessIrreflexive(a.dst);
  }

  lemma RankTransitive(a: Rank, b: Rank, c: Rank)
    requires RankLess(a, b) && RankLess(b, c)
    ensures RankLess(a, c)
  {
    if Text.Less(a.src, b.src) && Text.Less(b.src, c.src) { Text.LessTransitive(a.src, b.src, c.src); }
    if Text.Less(a.dst, b.dst) && Text.Less(b.dst, c.dst) { Text.LessTransitive(a.dst, b.dst, c.dst); }
  }

  predicate IsIoOrVdev(justification: seq<string>) {
    exists item | item in justification :: Text.StartsWith(item, "io:") || Text.StartsWith(item, "vdev_dep:")
  }

  /** The last declared pair key, stripped and in lower case; empty when none is declared. */
  function PairKey(justification: seq<string>): string {
    if justification == [] then ""
    else
      var item := justification[|justification| - 1];
      if Text.StartsWith(item, "pair_key:") then Text.Lower(Text.Strip(item[|"pair_key:"|..]))
      else PairKey(justification[..|justification| - 1])
  }

  predicate IsSemanticLifecycle(nodes: map<string, Mssu>, e: DependencyEdge) {
    e.kind == HardLifecycle &&
    (|| IsIoOrVdev(e.justification)
     || ((exists item | item in e.justification :: Text.StartsWith(item, "rule_template:"))
         && PairKey(e.justification) in {"device_id", "endpoint", "host"})
     || (e.dst in nodes &&
         (nodes[e.dst].mssuType == "CLEANUP"
          || nodes[e.dst].effectTokens * {"unsubscribe", "disconnect", "ble_disconnect", "close", "cleanup"} != {})))
  }

  /** Edges that carry real data, I/O, a declared dependency or a semantic lifecycle. */
  predicate Protected(nodes: map<string, Mssu>, e: DependencyEdge) {
    IsIoOrVdev(e.justification) || IsSemanticLifecycle(nodes, e) || e.kind == HardData
  }

  function KindRank(kind: EdgeKind): nat {
    match kind
    case HardControl => 0
    case HardLifecycle => 1
    case HardData => 2
    case MayDep => 3
  }

  function SourceRank(justification: seq<string>): nat {
    if exists item | item in justification :: Text.Contains(item, "candidate:") then 0
    else if exists item | item in justification :: Text.Contains(item, "rule_template:") then 1
    else 2
  }

  function RemovalRank(nodes: map<string, Mssu>, e: DependencyEdge): Rank {
    Rank(if Protected(nodes, e) then 1 else 0, KindRank(e.kind), SourceRank(e.justification), e.src, e.dst)
  }

  ghost predicate Mentions(e: DependencyEdge, part: string) {
    exists item | item in e.justification :: Text.Contains(item, part)
  }

  /** Control edges go before lifecycle edges, those before data edges, and all before other kinds. */
  ghost predicate SoonerKind(a: EdgeKind, b: EdgeKind) {
    (a == HardControl && b != HardControl) || (a == HardLifecycle && b in {HardData, MayDep}) || (a == HardData && b == MayDep)
  }

  /** Which of two edges goes first: the one that is not protected; else the one of the sooner kind; else the candidate; else
      the one from a template; else the one between the smaller names. */
  lemma FirstToGo(nodes: map<string, Mssu>, a: DependencyEdge, b: DependencyEdge)
    ensures RankLess(RemovalRank(nodes, a), RemovalRank(nodes, b)) <==>
              if Protected(nodes, a) != Protected(nodes, b) then Protected(nodes, b)
              else if a.kind != b.kind then SoonerKind(a.kind, b.kind)
              else if Mentions(a, "candidate:") != Mentions(b, "candidate:") then Mentions(a, "candidate:")
              else if !Mentions(a, "candidate:") && Mentions(a, "rule_template:") != Mentions(b, "rule_template:") then Mentions(a, "rule_template:")
              else Text.Less(a.src, b.src) || (a.src == b.src && Text.Less(a.dst, b.dst))
  {
    SourceRankOf(a);
    SourceRankOf(b);
    var p, q := RemovalRank(nodes, a), RemovalRank(nodes, b);
    assert a.kind != b.kind ==> (p.kind < q.kind <==> SoonerKind(a.kind, b.kind)) && p.kind != q.kind;
  }

  lemma SourceRankOf(e: DependencyEdge)
    ensures SourceRank(e.justification) == if Mentions(e, "candidate:") then 0 else if Mentions(e, "rule_template:") then 1 else 2
  {
  }
}
