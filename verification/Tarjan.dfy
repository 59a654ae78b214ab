/** Depth-first search for strongly connected components with index, lowlink and an explicit stack
    (optimizer/m4_typed_dag.py `_action_graph_sccs`). */
module Tarjan {
  import opened Digraph
  import opened Sequences

  ghost function Arcs<N>(adjacency: map<N, set<N>>): set<(N, N)> {
    set u, v | u in adjacency && v in adjacency[u] :: (u, v)
  }

  /** Every target is itself a key of the adjacency table. */
  ghost predicate Complete<N>(adjacency: map<N, set<N>>) {
    forall u :: u in adjacency ==> adjacency[u] <= adjacency.Keys
  }

  /** No arc leaves `s`. */
  ghost predicate NoExit<N(!new)>(adjacency: map<N, set<N>>, s: set<N>) {
    forall u :: u in s && u in adjacency ==> adjacency[u] <= s
  }

  /** `reach` behaves as reachability along `adjacency`: a preorder that follows arcs and never leaves
      a set without outgoing arcs. The search is proved against these laws alone. */
  ghost predicate Laws<N(!new)>(adjacency: map<N, set<N>>, reach: set<(N, N)>) {
    && (forall x :: x in adjacency ==> (x, x) in reach)
    && (forall x, y :: x in adjacency && y in adjacency[x] ==> (x, y) in reach)
    && Transitive(reach)
    && Confined(adjacency, reach)
  }

  ghost predicate Transitive<N(!new)>(reach: set<(N, N)>) {
    forall x, y, z :: (x, y) in reach && (y, z) in reach ==> (x, z) in reach
  }

  ghost predicate Confined<N(!new)>(adjacency: map<N, set<N>>, reach: set<(N, N)>) {
    forall s: set<N>, x, y {:trigger NoExit(adjacency, s), (x, y) in reach} ::
      NoExit(adjacency, s) && x in s && (x, y) in reach ==> y in s
  }

  /** A set that contains, with each member, exactly the nodes mutually reachable with it. */
  ghost predicate IsComponent<N(!new)>(reach: set<(N, N)>, c: set<N>) {
    forall x, y :: x in c ==> (y in c <==> (x, y) in reach && (y, x) in reach)
  }

  /** Snapshot of the mutable search state. `closed` are all components popped so far. */
  datatype Search<N> = Search(
    index: nat, indexOf: map<N, nat>, lowlink: map<N, nat>, stack: seq<N>, onStack: set<N>, closed: set<set<N>>)

  /** The stack lists `onStack` by increasing index. */
  ghost predicate Stacked<N(!new)>(s: Search<N>) {
    && s.onStack == Elements(s.stack) && s.onStack <= s.indexOf.Keys
    && (forall i, j :: 0 <= i < j < |s.stack| ==> s.indexOf[s.stack[i]] < s.indexOf[s.stack[j]])
  }

  ghost predicate Tables<N(!new)>(adjacency: map<N, set<N>>, s: Search<N>, grays: set<N>) {
    && grays <= s.onStack <= s.indexOf.Keys <= adjacency.Keys
    && s.lowlink.Keys == s.indexOf.Keys
    && (forall v :: v in s.indexOf ==> s.indexOf[v] < s.index)
  }

  ghost predicate ClosedOk<N(!new)>(reach: set<(N, N)>, s: Search<N>) {
    && {} !in s.closed
    && (forall c :: c in s.closed ==> IsComponent(reach, c) && c <= s.indexOf.Keys - s.onStack)
    && (forall v {:trigger Covered(s.closed, v)} :: v in s.indexOf && v !in s.onStack ==> Covered(s.closed, v))
  }

  ghost predicate Covered<N(!new)>(closed: set<set<N>>, v: N) {
    exists c :: c in closed && v in c
  }

  /** Finished nodes lead only to visited nodes, popped nodes only to popped nodes. */
  ghost predicate Explored<N(!new)>(adjacency: map<N, set<N>>, s: Search<N>, grays: set<N>) {
    && (forall u :: u in s.indexOf && u in adjacency && u !in grays ==> adjacency[u] <= s.indexOf.Keys)
    && (forall u :: u in s.indexOf && u in adjacency && u !in s.onStack ==> adjacency[u] !! s.onStack)
  }

  ghost predicate GrayReaches<N(!new)>(reach: set<(N, N)>, s: Search<N>, grays: set<N>)
    requires grays <= s.indexOf.Keys && s.onStack <= s.indexOf.Keys
  {
    forall x, y :: x in grays && y in s.onStack && s.indexOf[x] <= s.indexOf[y] ==> (x, y) in reach
  }

  ghost predicate ToGray<N(!new)>(reach: set<(N, N)>, s: Search<N>, grays: set<N>, y: N)
    requires grays <= s.indexOf.Keys && y in s.indexOf.Keys
  {
    exists z :: z in grays && s.indexOf[z] <= s.indexOf[y] && (y, z) in reach
  }

  /** The search invariant; `grays` are the nodes whose call is still running. */
  ghost predicate Inv<N(!new)>(adjacency: map<N, set<N>>, reach: set<(N, N)>, s: Search<N>, grays: set<N>) {
    && Tables(adjacency, s, grays)
    && ClosedOk(reach, s)
    && Explored(adjacency, s, grays)
    && GrayReaches(reach, s, grays)
    && (forall y {:trigger ToGray(reach, s, grays, y)} :: y in s.onStack ==> ToGray(reach, s, grays, y))
  }

  /** The lowlink of `v` is the index of a node on the stack that `v` reaches. */
  ghost predicate LowWitness<N(!new)>(reach: set<(N, N)>, s: Search<N>, v: N)
    requires v in s.lowlink && s.onStack <= s.indexOf.Keys
  {
    exists w :: w in s.onStack && s.indexOf[w] == s.lowlink[v] && (v, w) in reach
  }

  /** State `s` grew out of `s0`: old entries and the old stack are untouched, new entries come later. */
  ghost predicate Extends<N(!new)>(s0: Search<N>, s: Search<N>) {
    && s0.indexOf.Keys <= s.indexOf.Keys && s0.lowlink.Keys <= s.lowlink.Keys
    && (forall v :: v in s0.indexOf ==> s.indexOf[v] == s0.indexOf[v] && (v in s.onStack <==> v in s0.onStack))
    && (forall v :: v in s0.lowlink ==> s.lowlink[v] == s0.lowlink[v])
    && (forall v :: v in s.indexOf && v !in s0.indexOf ==> s0.index <= s.indexOf[v])
  }

  /** Arcs from the part of the stack above `s0` back into the stack of `s0` respect the lowlink of `node`.
      Of the arcs leaving `node`, only those into `explored` count. */
  ghost predicate LowBounds<N(!new)>(adjacency: map<N, set<N>>, s0: Search<N>, s: Search<N>, node: N, explored: set<N>)
    requires s.onStack <= adjacency.Keys && node in s.lowlink && s0.onStack <= s.indexOf.Keys
  {
    forall x, y :: x in s.onStack && x !in s0.onStack && y in adjacency[x] && y in s0.onStack && (x == node ==> y in explored)
      ==> s.lowlink[node] <= s.indexOf[y]
  }

  ghost predicate Entered<N(!new)>(adjacency: map<N, set<N>>, s0: Search<N>, s: Search<N>, grays: set<N>, node: N) {
    && Tables(adjacency, s0, grays) && Extends(s0, s)
    && node in adjacency && node !in s0.indexOf && node in s.indexOf && node in s.lowlink
    && s.indexOf[node] == s0.index && s.lowlink[node] <= s.indexOf[node]
  }

  /** Inside the call on `node`, entered in state `s0`, with the arcs into `explored` already followed. */
  ghost predicate Exploring<N(!new)>(
    adjacency: map<N, set<N>>, reach: set<(N, N)>, s0: Search<N>, s: Search<N>, grays: set<N>, node: N, explored: set<N>)
  {
    && Entered(adjacency, s0, s, grays, node)
    && Inv(adjacency, reach, s, grays + {node})
    && explored <= adjacency[node] && explored <= s.indexOf.Keys
    && LowWitness(reach, s, node)
    && LowBounds(adjacency, s0, s, node, explored)
  }

  /** The call on `node`, entered in state `s0`, has returned. */
  ghost predicate Returned<N(!new)>(
    adjacency: map<N, set<N>>, reach: set<(N, N)>, s0: Search<N>, s: Search<N>, grays: set<N>, node: N)
  {
    && Entered(adjacency, s0, s, grays, node)
    && Inv(adjacency, reach, s, grays)
    && (s.lowlink[node] < s.indexOf[node] ==> LowWitness(reach, s, node))
    && LowBounds(adjacency, s0, s, node, adjacency[node])
  }

  ghost function Enter<N>(s: Search<N>, node: N): Search<N> {
    Search(s.index + 1, s.indexOf[node := s.index], s.lowlink[node := s.index], s.stack + [node], s.onStack + {node}, s.closed)
  }

  function Lower<N>(s: Search<N>, node: N, value: nat): Search<N>
    requires node in s.lowlink
  {
    s.(lowlink := s.lowlink[node := if s.lowlink[node] <= value then s.lowlink[node] else value])
  }

  lemma EnterOk<N(!new)>(adjacency: map<N, set<N>>, reach: set<(N, N)>, s0: Search<N>, grays: set<N>, node: N)
    requires (node, node) in reach && Inv(adjacency, reach, s0, grays) && node in adjacency && node !in s0.indexOf
    requires forall g :: g in grays ==> (g, node) in reach
    ensures Exploring(adjacency, reach, s0, Enter(s0, node), grays, node, {})
  {
    var s := Enter(s0, node);
    EnterInv(adjacency, reach, s0, grays, node);
    assert LowWitness(reach, s, node) by { assert node in s.onStack; }
  }

  lemma EnterInv<N(!new)>(adjacency: map<N, set<N>>, reach: set<(N, N)>, s0: Search<N>, grays: set<N>, node: N)
    requires (node, node) in reach && Inv(adjacency, reach, s0, grays) && node in adjacency && node !in s0.indexOf
    requires forall g :: g in grays ==> (g, node) in reach
    ensures Inv(adjacency, reach, Enter(s0, node), grays + {node})
  {
    var s := Enter(s0, node);
    EnterToGray(adjacency, reach, s0, grays, node);
    assert ClosedOk(reach, s) && Explored(adjacency, s, grays + {node});
  }

  lemma EnterToGray<N(!new)>(adjacency: map<N, set<N>>, reach: set<(N, N)>, s0: Search<N>, grays: set<N>, node: N)
    requires (node, node) in reach && Tables(adjacency, s0, grays) && node in adjacency && node !in s0.indexOf
    requires forall y {:trigger ToGray(reach, s0, grays, y)} :: y in s0.onStack ==> ToGray(reach, s0, grays, y)
    ensures var s := Enter(s0, node);
            Tables(adjacency, s, grays + {node}) && forall y {:trigger ToGray(reach, s, grays + {node}, y)} :: y in s.onStack ==> ToGray(reach, s, grays + {node}, y)
  {
    var s := Enter(s0, node);
    forall y | y in s.onStack ensures ToGray(reach, s, grays + {node}, y) {
      if y != node {
        assert ToGray(reach, s0, grays, y);
        var z :| z in grays && s0.indexOf[z] <= s0.indexOf[y] && (y, z) in reach;
        assert z in grays + {node};
      } else {
        assert node in grays + {node};
      }
    }
  }

  /** Changing lowlink entries leaves the invariant alone. */
  lemma LowerKeepsInv<N(!new)>(adjacency: map<N, set<N>>, reach: set<(N, N)>, s: Search<N>, grays: set<N>, node: N, value: nat)
    requires Inv(adjacency, reach, s, grays) && node in s.lowlink
    ensures Inv(adjacency, reach, Lower(s, node, value), grays)
  {
    var t := Lower(s, node, value);
    forall y | y in t.onStack ensures ToGray(reach, t, grays, y) {
      assert ToGray(reach, s, grays, y);
    }
  }

  /** A visited successor of `node` that is still on the stack lowers its lowlink. */
  lemma SeenOk<N(!new)>(
    adjacency: map<N, set<N>>, reach: set<(N, N)>, s0: Search<N>, s: Search<N>, grays: set<N>, node: N, explored: set<N>, nxt: N)
    requires (node, nxt) in reach && Exploring(adjacency, reach, s0, s, grays, node, explored)
    requires nxt in adjacency[node] && nxt in s.onStack
    ensures Exploring(adjacency, reach, s0, Lower(s, node, s.indexOf[nxt]), grays, node, explored + {nxt})
  {
    var t := Lower(s, node, s.indexOf[nxt]);
    LowerKeepsInv(adjacency, reach, s, grays + {node}, node, s.indexOf[nxt]);
    assert LowWitness(reach, t, node) by {
      var w :| w in s.onStack && s.indexOf[w] == s.lowlink[node] && (node, w) in reach;
      assert w in t.onStack && nxt in t.onStack;
    }
  }

  /** Back from the call on an unvisited successor. */
  lemma ChildOk<N(!new)>(
    adjacency: map<N, set<N>>, reach: set<(N, N)>, s0: Search<N>, s: Search<N>, t: Search<N>, grays: set<N>, node: N,
    explored: set<N>, nxt: N)
    requires Transitive(reach) && (node, nxt) in reach && Exploring(adjacency, reach, s0, s, grays, node, explored)
    requires nxt in adjacency[node] && Returned(adjacency, reach, s, t, grays + {node}, nxt)
    ensures Exploring(adjacency, reach, s0, Lower(t, node, t.lowlink[nxt]), grays, node, explored + {nxt})
  {
    var low := Lower(t, node, t.lowlink[nxt]);
    LowerKeepsInv(adjacency, reach, t, grays + {node}, node, t.lowlink[nxt]);
    ChildLowWitness(adjacency, reach, s0, s, t, grays, node, explored, nxt);
    ChildLowBounds(adjacency, reach, s0, s, t, grays, node, explored, nxt);
  }

  lemma ChildLowBounds<N(!new)>(
    adjacency: map<N, set<N>>, reach: set<(N, N)>, s0: Search<N>, s: Search<N>, t: Search<N>, grays: set<N>, node: N,
    explored: set<N>, nxt: N)
    requires Entered(adjacency, s0, s, grays, node) && Tables(adjacency, s, grays + {node})
    requires LowBounds(adjacency, s0, s, node, explored)
    requires nxt in adjacency[node] && Entered(adjacency, s, t, grays + {node}, nxt) && Tables(adjacency, t, grays + {node})
    requires LowBounds(adjacency, s, t, nxt, adjacency[nxt])
    ensures Entered(adjacency, s0, Lower(t, node, t.lowlink[nxt]), grays, node)
    ensures LowBounds(adjacency, s0, Lower(t, node, t.lowlink[nxt]), node, explored + {nxt})
  {
    assert Extends(s0, Lower(t, node, t.lowlink[nxt]));
  }

  lemma ChildLowWitness<N(!new)>(
    adjacency: map<N, set<N>>, reach: set<(N, N)>, s0: Search<N>, s: Search<N>, t: Search<N>, grays: set<N>, node: N,
    explored: set<N>, nxt: N)
    requires Transitive(reach) && (node, nxt) in reach && Exploring(adjacency, reach, s0, s, grays, node, explored)
    requires nxt in adjacency[node] && Returned(adjacency, reach, s, t, grays + {node}, nxt)
    ensures LowWitness(reach, Lower(t, node, t.lowlink[nxt]), node)
  {
    var low := Lower(t, node, t.lowlink[nxt]);
    if t.lowlink[nxt] < t.lowlink[node] {
      var w :| w in t.onStack && t.indexOf[w] == t.lowlink[nxt] && (nxt, w) in reach;
      assert (node, nxt) in reach && w in low.onStack;
    } else {
      var w :| w in s.onStack && s.indexOf[w] == s.lowlink[node] && (node, w) in reach;
      assert w in low.onStack;
    }
  }

  /** All arcs followed, and `node` reaches further down the stack: it stays there. */
  lemma StayOk<N(!new)>(adjacency: map<N, set<N>>, reach: set<(N, N)>, s0: Search<N>, s: Search<N>, grays: set<N>, node: N)
    requires node in adjacency && Transitive(reach) && Exploring(adjacency, reach, s0, s, grays, node, adjacency[node])
    requires s.lowlink[node] < s.indexOf[node]
    ensures Returned(adjacency, reach, s0, s, grays, node)
  {
    StayToGray(adjacency, reach, s, grays, node);
    assert Inv(adjacency, reach, s, grays);
  }

  lemma StayToGray<N(!new)>(adjacency: map<N, set<N>>, reach: set<(N, N)>, s: Search<N>, grays: set<N>, node: N)
    requires Transitive(reach) && Tables(adjacency, s, grays + {node})
    requires s.lowlink[node] < s.indexOf[node] && LowWitness(reach, s, node)
    requires forall y {:trigger ToGray(reach, s, grays + {node}, y)} :: y in s.onStack ==> ToGray(reach, s, grays + {node}, y)
    ensures forall y {:trigger ToGray(reach, s, grays, y)} :: y in s.onStack ==> ToGray(reach, s, grays, y)
  {
    var w :| w in s.onStack && s.indexOf[w] == s.lowlink[node] && (node, w) in reach;
    assert ToGray(reach, s, grays + {node}, w);
    var z :| z in grays + {node} && s.indexOf[z] <= s.indexOf[w] && (w, z) in reach;
    assert (node, z) in reach && z in grays;
    forall y | y in s.onStack ensures ToGray(reach, s, grays, y) {
      assert ToGray(reach, s, grays + {node}, y);
      var g :| g in grays + {node} && s.indexOf[g] <= s.indexOf[y] && (y, g) in reach;
      assert g == node ==> (y, z) in reach && s.indexOf[z] <= s.indexOf[y];
    }
  }

  /** The nodes popped when the call on `node` ends: those at or above it on the stack. */
  ghost function Top<N>(s: Search<N>, node: N): set<N>
    requires node in s.indexOf && s.onStack <= s.indexOf.Keys
  {
    set v | v in s.onStack && s.indexOf[v] >= s.indexOf[node]
  }

  ghost function Close<N>(s: Search<N>, top: set<N>, stack: seq<N>): Search<N> {
    s.(stack := stack, onStack := s.onStack - top, closed := s.closed + {top})
  }

  /** All arcs followed and nothing below `node` reachable: no arc leaves the top of the stack except
      into popped components. */
  lemma TopSealed<N(!new)>(adjacency: map<N, set<N>>, reach: set<(N, N)>, s0: Search<N>, s: Search<N>, grays: set<N>, node: N)
    requires node in adjacency && Exploring(adjacency, reach, s0, s, grays, node, adjacency[node])
    requires s.lowlink[node] == s.indexOf[node]
    ensures Top(s, node) == s.onStack - s0.onStack
    ensures forall u :: u in Top(s, node) ==> adjacency[u] <= s.indexOf.Keys && adjacency[u] !! s0.onStack
  {
    forall u, v | u in Top(s, node) && v in adjacency[u] ensures v in s.indexOf && v !in s0.onStack {
      assert u in s.onStack && u !in s0.onStack;
    }
  }

  lemma TopIsComponent<N(!new)>(adjacency: map<N, set<N>>, reach: set<(N, N)>, s0: Search<N>, s: Search<N>, grays: set<N>, node: N)
    requires node in adjacency && Laws(adjacency, reach) && Exploring(adjacency, reach, s0, s, grays, node, adjacency[node])
    requires s.lowlink[node] == s.indexOf[node]
    ensures IsComponent(reach, Top(s, node))
  {
    TopSealed(adjacency, reach, s0, s, grays, node);
    var top := Top(s, node);
    var popped := s.indexOf.Keys - s.onStack;
    assert NoExit(adjacency, popped);
    assert NoExit(adjacency, popped + top);
    forall y | y in top ensures (node, y) in reach && (y, node) in reach {
      assert ToGray(reach, s, grays + {node}, y);
      var z :| z in grays + {node} && s.indexOf[z] <= s.indexOf[y] && (y, z) in reach;
      assert z in popped + top;
    }
    assert node in top;
    forall x, y | x in top && (x, y) in reach && (y, x) in reach ensures y in top {
      assert y in popped + top;
    }
  }

  /** Popping the component of `node` ends its call. */
  lemma PopOk<N(!new)>(
    adjacency: map<N, set<N>>, reach: set<(N, N)>, s0: Search<N>, s: Search<N>, grays: set<N>, node: N, stack: seq<N>)
    requires node in adjacency && Laws(adjacency, reach) && Exploring(adjacency, reach, s0, s, grays, node, adjacency[node])
    requires s.lowlink[node] == s.indexOf[node]
    ensures Returned(adjacency, reach, s0, Close(s, Top(s, node), stack), grays, node)
  {
    TopSealed(adjacency, reach, s0, s, grays, node);
    TopIsComponent(adjacency, reach, s0, s, grays, node);
    var t := Close(s, Top(s, node), stack);
    PopInv(adjacency, reach, s0, s, grays, node, stack);
    assert t.onStack == s0.onStack;
  }

  lemma PopInv<N(!new)>(
    adjacency: map<N, set<N>>, reach: set<(N, N)>, s0: Search<N>, s: Search<N>, grays: set<N>, node: N, stack: seq<N>)
    requires node in adjacency && Entered(adjacency, s0, s, grays, node) && Inv(adjacency, reach, s, grays + {node})
    requires adjacency[node] <= s.indexOf.Keys && Top(s, node) == s.onStack - s0.onStack
    requires forall u :: u in Top(s, node) ==> adjacency[u] <= s.indexOf.Keys && adjacency[u] !! s0.onStack
    requires IsComponent(reach, Top(s, node))
    ensures Inv(adjacency, reach, Close(s, Top(s, node), stack), grays)
  {
    var t := Close(s, Top(s, node), stack);
    forall y | y in t.onStack ensures ToGray(reach, t, grays, y) {
      assert ToGray(reach, s, grays + {node}, y);
      var z :| z in grays + {node} && s.indexOf[z] <= s.indexOf[y] && (y, z) in reach;
    }
    PopClosed(reach, s, Top(s, node), stack, node);
  }

  lemma PopClosed<N(!new)>(reach: set<(N, N)>, s: Search<N>, top: set<N>, stack: seq<N>, node: N)
    requires ClosedOk(reach, s) && IsComponent(reach, top) && node in top && top <= s.onStack <= s.indexOf.Keys
    ensures ClosedOk(reach, Close(s, top, stack))
  {
    var t := Close(s, top, stack);
    forall v | v in t.indexOf && v !in t.onStack ensures Covered(t.closed, v) {
      assert v in s.onStack || Covered(s.closed, v);
      assert top in t.closed;
    }
  }

  /** The components worth reporting: those of two or more nodes, and self-loops. */
  ghost predicate Reportable<N(!new)>(adjacency: map<N, set<N>>, c: set<N>) {
    |c| > 1 || exists v :: v in c && v in adjacency && v in adjacency[v]
  }

  /** `components` lists each reportable closed component once. */
  ghost predicate Reported<N(!new)>(adjacency: map<N, set<N>>, components: seq<set<N>>, closed: set<set<N>>) {
    Distinct(components) && forall c :: c in components <==> c in closed && Reportable(adjacency, c)
  }

  lemma EnterStacked<N(!new)>(adjacency: map<N, set<N>>, s: Search<N>, grays: set<N>, node: N)
    requires Stacked(s) && Tables(adjacency, s, grays) && node !in s.indexOf
    ensures Stacked(Enter(s, node))
  {
    forall i | 0 <= i < |s.stack| ensures s.stack[i] in s.indexOf {
      assert s.stack[i] in s.onStack;
    }
  }

  /** A popped successor of `node` changes nothing. */
  lemma SkipOk<N(!new)>(
    adjacency: map<N, set<N>>, reach: set<(N, N)>, s0: Search<N>, s: Search<N>, grays: set<N>, node: N, explored: set<N>, nxt: N)
    requires Exploring(adjacency, reach, s0, s, grays, node, explored)
    requires nxt in adjacency[node] && nxt in s.indexOf && nxt !in s.onStack
    ensures Exploring(adjacency, reach, s0, s, grays, node, explored + {nxt})
  {
    assert nxt !in s0.onStack;
  }

  lemma GraysReachNext<N(!new)>(
    adjacency: map<N, set<N>>, reach: set<(N, N)>, s0: Search<N>, s: Search<N>, grays: set<N>, node: N, explored: set<N>, nxt: N)
    requires Laws(adjacency, reach) && Exploring(adjacency, reach, s0, s, grays, node, explored)
    requires nxt in adjacency[node]
    ensures forall g :: g in grays + {node} ==> (g, nxt) in reach
  {
    forall g | g in grays + {node} ensures (g, nxt) in reach {
      assert (node, nxt) in reach && (g, node) in reach;
    }
  }

  lemma DropLast<N(!new)>(s: Search<N>, stack: seq<N>)
    requires Stacked(s) && stack <= s.stack && stack != []
    ensures Elements(stack[..|stack| - 1]) == Elements(stack) - {stack[|stack| - 1]}
  {
    var front, last := stack[..|stack| - 1], stack[|stack| - 1];
    assert stack == front + [last];
    forall i | 0 <= i < |front| ensures front[i] != last {
      assert s.stack[i] == front[i] && s.stack[|front|] == last;
    }
  }

  /** What lies above a stack position is what entered no earlier. */
  lemma PoppedTop<N(!new)>(s: Search<N>, stack: seq<N>, node: N)
    requires Stacked(s) && |stack| < |s.stack| && stack <= s.stack && s.stack[|stack|] == node
    ensures s.onStack - Elements(stack) == Top(s, node)
    ensures Elements(stack) == s.onStack - Top(s, node)
  {
    assert node in s.onStack;
    forall v | v in s.onStack ensures v in Elements(stack) <==> s.indexOf[v] < s.indexOf[node] {
      var i :| 0 <= i < |s.stack| && s.stack[i] == v;
      assert i < |stack| ==> v == stack[i];
    }
  }

  lemma StackedPrefix<N(!new)>(s: Search<N>, stack: seq<N>)
    requires Stacked(s) && stack <= s.stack
    ensures Stacked(s.(stack := stack, onStack := Elements(stack)))
  {
    forall i | 0 <= i < |stack| ensures stack[i] in s.indexOf {
      assert s.stack[i] in s.onStack;
    }
  }

  lemma CloseReported<N(!new)>(
    adjacency: map<N, set<N>>, reach: set<(N, N)>, s: Search<N>, components: seq<set<N>>, top: set<N>, node: N)
    requires ClosedOk(reach, s) && Reported(adjacency, components, s.closed)
    requires node in adjacency && node in top && top <= s.onStack
    ensures Reported(adjacency, if |top| > 1 || node in adjacency[node] then components + [top] else components, s.closed + {top})
  {
    assert top !in s.closed;
    if |top| <= 1 {
      SubsetSize({node}, top);
      assert top == {node};
    }
    var now := if |top| > 1 || node in adjacency[node] then components + [top] else components;
    assert Reportable(adjacency, top) <==> |top| > 1 || node in adjacency[node];
    forall c ensures c in now <==> c in s.closed + {top} && Reportable(adjacency, c) {}
  }

  class SccSearch<N(==,!new)> {
    const adjacency: map<N, set<N>>
    var index: nat
    var indexOf: map<N, nat>
    var lowlink: map<N, nat>
    var stack: seq<N>
    var onStack: set<N>
    var components: seq<set<N>>
    ghost var closed: set<set<N>>

    constructor (adjacency: map<N, set<N>>)
      ensures this.adjacency == adjacency && components == []
      ensures View() == Search(0, map[], map[], [], {}, {})
    {
      this.adjacency := adjacency;
      index, indexOf, lowlink, stack, onStack, components := 0, map[], map[], [], {}, [];
      closed := {};
    }

    ghost function View(): Search<N>
      reads this
    {
      Search(index, indexOf, lowlink, stack, onStack, closed)
    }

    /** Visits everything reachable from `node` that is not visited yet and pops the component of `node`
        if `node` turns out to be its root. */
    method StrongConnect(node: N, ghost reach: set<(N, N)>, ghost grays: set<N>)
      requires Complete(adjacency) && Laws(adjacency, reach)
      requires Inv(adjacency, reach, View(), grays) && Stacked(View()) && Reported(adjacency, components, closed)
      requires node in adjacency && node !in indexOf && forall g :: g in grays ==> (g, node) in reach
      modifies this
      ensures Returned(adjacency, reach, old(View()), View(), grays, node)
      ensures Stacked(View()) && Reported(adjacency, components, closed)
      decreases adjacency.Keys - indexOf.Keys, 1
    {
      ghost var s0 := View();
      EnterOk(adjacency, reach, s0, grays, node);
      EnterStacked(adjacency, s0, grays, node);
      Push(node);
      var todo := adjacency[node];
      assert adjacency[node] - todo == {};
      while todo != {}
        invariant todo <= adjacency[node] && node in indexOf
        invariant Exploring(adjacency, reach, s0, View(), grays, node, adjacency[node] - todo)
        invariant Stacked(View()) && Reported(adjacency, components, closed)
        decreases todo
      {
        var nxt :| nxt in todo;
        ghost var explored := adjacency[node] - todo;
        todo := todo - {nxt};
        assert explored + {nxt} == adjacency[node] - todo;
        FollowArc(node, nxt, reach, s0, grays, explored);
      }
      assert adjacency[node] - todo == adjacency[node];
      if lowlink[node] != indexOf[node] {
        StayOk(adjacency, reach, s0, View(), grays, node);
        return;
      }
      PopComponent(node, reach, s0, grays);
    }

    method FollowArc(node: N, nxt: N, ghost reach: set<(N, N)>, ghost s0: Search<N>, ghost grays: set<N>, ghost explored: set<N>)
      requires Complete(adjacency) && Laws(adjacency, reach)
      requires node in adjacency && nxt in adjacency[node] && node in indexOf
      requires Exploring(adjacency, reach, s0, View(), grays, node, explored)
      requires Stacked(View()) && Reported(adjacency, components, closed)
      modifies this
      ensures node in indexOf
      ensures Exploring(adjacency, reach, s0, View(), grays, node, explored + {nxt})
      ensures Stacked(View()) && Reported(adjacency, components, closed)
      decreases adjacency.Keys - indexOf.Keys, 3
    {
      if nxt !in indexOf {
        Descend(node, nxt, reach, s0, grays, explored);
      } else if nxt in onStack {
        SeenOk(adjacency, reach, s0, View(), grays, node, explored, nxt);
        LowerTo(node, indexOf[nxt]);
      } else {
        SkipOk(adjacency, reach, s0, View(), grays, node, explored, nxt);
      }
    }

    method Descend(node: N, nxt: N, ghost reach: set<(N, N)>, ghost s0: Search<N>, ghost grays: set<N>, ghost explored: set<N>)
      requires Complete(adjacency) && Laws(adjacency, reach)
      requires node in adjacency && nxt in adjacency[node] && node in indexOf && nxt !in indexOf
      requires Exploring(adjacency, reach, s0, View(), grays, node, explored)
      requires Stacked(View()) && Reported(adjacency, components, closed)
      modifies this
      ensures node in indexOf
      ensures Exploring(adjacency, reach, s0, View(), grays, node, explored + {nxt})
      ensures Stacked(View()) && Reported(adjacency, components, closed)
      decreases adjacency.Keys - indexOf.Keys, 2
    {
      ghost var s := View();
      GraysReachNext(adjacency, reach, s0, s, grays, node, explored, nxt);
      StrongConnect(nxt, reach, grays + {node});
      ChildOk(adjacency, reach, s0, s, View(), grays, node, explored, nxt);
      LowerTo(node, lowlink[nxt]);
    }

    method Push(node: N)
      modifies this
      ensures View() == Enter(old(View()), node) && components == old(components) && closed == old(closed)
    {
      indexOf := indexOf[node := index];
      lowlink := lowlink[node := index];
      index := index + 1;
      stack := stack + [node];
      onStack := onStack + {node};
    }

    method LowerTo(node: N, value: nat)
      requires node in lowlink
      modifies this`lowlink
      ensures View() == Lower(old(View()), node, value)
    {
      lowlink := lowlink[node := if lowlink[node] <= value then lowlink[node] else value];
    }

    method PopComponent(node: N, ghost reach: set<(N, N)>, ghost s0: Search<N>, ghost grays: set<N>)
      requires node in adjacency && Laws(adjacency, reach)
      requires Exploring(adjacency, reach, s0, View(), grays, node, adjacency[node])
      requires Stacked(View()) && Reported(adjacency, components, closed)
      requires lowlink[node] == indexOf[node]
      modifies this
      ensures Returned(adjacency, reach, s0, View(), grays, node)
      ensures Stacked(View()) && Reported(adjacency, components, closed)
    {
      ghost var s := View();
      var component := PopTo(node);
      PopOk(adjacency, reach, s0, s, grays, node, stack);
      CloseReported(adjacency, reach, s, components, component, node);
      closed := closed + {component};
      assert View() == Close(s, component, stack);
      if |component| > 1 {
        components := components + [component];
      } else if node in adjacency[node] {
        components := components + [component];
      }
    }

    /** Pops the stack down to and including `node`. */
    method PopTo(node: N) returns (component: set<N>)
      requires Stacked(View()) && node in onStack
      modifies this`stack, this`onStack
      ensures component == Top(old(View()), node)
      ensures onStack == old(onStack) - component
      ensures Stacked(View())
    {
      ghost var s := View();
      component := {};
      var member := node;
      while stack != []
        invariant stack <= s.stack && onStack == Elements(stack) && node in onStack
        invariant component == s.onStack - onStack
        decreases |stack|
      {
        member := stack[|stack| - 1];
        DropLast(s, stack);
        stack := stack[..|stack| - 1];
        onStack := onStack - {member};
        component := component + {member};
        if member == node { break; }
      }
      PoppedTop(s, stack, node);
      StackedPrefix(s, stack);
    }
  }

  /** Reachability along `adjacency`, as a set of pairs. */
  ghost function Reachable<N(!new)>(adjacency: map<N, set<N>>): set<(N, N)> {
    set x, y | x in adjacency && y in adjacency && Reach(Arcs(adjacency), x, y) :: (x, y)
  }

  lemma ReachableStaysInside<N(!new)>(adjacency: map<N, set<N>>, s: set<N>, x: N, y: N)
    requires Complete(adjacency) && NoExit(adjacency, s) && x in s && (x, y) in Reachable(adjacency)
    ensures y in s
  {
    if y !in s {
      var u, v := Crossing(Arcs(adjacency), x, y, s);
      assert false;
    }
  }

  lemma ReachableLaws<N(!new)>(adjacency: map<N, set<N>>)
    requires Complete(adjacency)
    ensures Laws(adjacency, Reachable(adjacency))
  {
    var r, reach := Arcs(adjacency), Reachable(adjacency);
    forall x | x in adjacency ensures (x, x) in reach {
      ReachRefl(r, x);
    }
    forall x, y | x in adjacency && y in adjacency[x] ensures (x, y) in reach {
      assert (x, y) in r;
      ReachArc(r, x, y);
    }
    forall x, y, z | (x, y) in reach && (y, z) in reach ensures (x, z) in reach {
      ReachTrans(r, x, y, z);
    }
    forall s: set<N>, x, y | NoExit(adjacency, s) && x in s && (x, y) in reach ensures y in s {
      ReachableStaysInside(adjacency, s, x, y);
    }
  }

  /** A strongly connected component: with each of its nodes, exactly those mutually reachable with it. */
  ghost predicate IsScc<N(!new)>(adjacency: map<N, set<N>>, c: set<N>) {
    && c != {} && c <= adjacency.Keys
    && forall x, y :: x in c ==>
         (y in c <==> y in adjacency && Reach(Arcs(adjacency), x, y) && Reach(Arcs(adjacency), y, x))
  }

  lemma ComponentIffScc<N(!new)>(adjacency: map<N, set<N>>, c: set<N>)
    requires c != {} && c <= adjacency.Keys
    ensures IsComponent(Reachable(adjacency), c) <==> IsScc(adjacency, c)
  {
    var r, reach := Arcs(adjacency), Reachable(adjacency);
    forall x, y | x in c ensures ((x, y) in reach && (y, x) in reach) <==> (y in adjacency && Reach(r, x, y) && Reach(r, y, x)) {}
  }

  /** When every node is visited and none is on the stack, the closed components are all there are. */
  lemma ClosedAreSccs<N(!new)>(adjacency: map<N, set<N>>, s: Search<N>, c: set<N>)
    requires Inv(adjacency, Reachable(adjacency), s, {}) && s.indexOf.Keys == adjacency.Keys
    ensures s.onStack == {}
    ensures c in s.closed <==> IsScc(adjacency, c)
  {
    var reach := Reachable(adjacency);
    forall y | y in s.onStack ensures ToGray(reach, s, {}, y) {}
    if c != {} && c <= adjacency.Keys {
      ComponentIffScc(adjacency, c);
      if IsScc(adjacency, c) {
        var x :| x in c;
        assert Covered(s.closed, x);
        var d :| d in s.closed && x in d;
        assert c == d;
      }
    }
  }

  /** A component is worth reporting exactly when a cycle runs through it. */
  lemma ReportableIffCyclic<N(!new)>(adjacency: map<N, set<N>>, comps: seq<set<N>>)
    requires Complete(adjacency)
    requires forall c :: c in comps <==> IsScc(adjacency, c) && Reportable(adjacency, c)
    ensures comps == [] <==> Acyclic(Arcs(adjacency))
  {
    var r := Arcs(adjacency);
    AcyclicIffNoReturn(r);
    if x, y :| (x, y) in r && Reach(r, y, x) {
      ReportedIffOnCycle(adjacency, comps, x);
    }
    if comps != [] {
      var c := comps[0];
      assert c in comps;
      var x :| x in c;
      ReportedIffOnCycle(adjacency, comps, x);
    }
  }

  /** Some walk of at least one arc leads from `x` back to `x`. */
  ghost predicate OnCycle<N(!new)>(r: set<(N, N)>, x: N) {
    exists y :: (x, y) in r && Reach(r, y, x)
  }

  /** The reported components together are exactly the nodes that lie on some cycle. */
  lemma ReportedIffOnCycle<N(!new)>(adjacency: map<N, set<N>>, comps: seq<set<N>>, x: N)
    requires Complete(adjacency)
    requires forall c :: c in comps <==> IsScc(adjacency, c) && Reportable(adjacency, c)
    ensures (exists c :: c in comps && x in c) <==> OnCycle(Arcs(adjacency), x)
  {
    var r := Arcs(adjacency);
    if y :| (x, y) in r && Reach(r, y, x) {
      var c := SccOf(adjacency, x);
      ReachArc(r, x, y);
      assert y in c;
      if y != x { SubsetSize({x, y}, c); }
      assert c in comps;
    }
    if c :| c in comps && x in c {
      ReachRefl(r, x);
      SubsetSize({x}, c);
      if |c| == 1 {
        assert (x, x) in r;
      } else {
        var y :| y in c && y != x;
        var u, v := Crossing(r, x, y, {x});
        ReachTrans(r, v, y, x);
      }
    }
  }

  lemma SccOf<N(!new)>(adjacency: map<N, set<N>>, x: N) returns (c: set<N>)
    requires x in adjacency
    ensures IsScc(adjacency, c) && x in c
  {
    var r := Arcs(adjacency);
    ReachRefl(r, x);
    c := set y | y in adjacency && Reach(r, x, y) && Reach(r, y, x);
    forall u, y | u in c ensures y in c <==> y in adjacency && Reach(r, u, y) && Reach(r, y, u) {
      if y in c { ReachTrans(r, u, x, y); ReachTrans(r, y, x, u); }
      if Reach(r, u, y) && Reach(r, y, u) { ReachTrans(r, x, u, y); ReachTrans(r, y, u, x); }
    }
  }

  /** The strongly connected components of two or more nodes (or with a self-loop), each exactly once. */
  method FindComponents<N(==,!new)>(adjacency: map<N, set<N>>) returns (components: seq<set<N>>)
    requires Complete(adjacency)
    ensures Distinct(components)
    ensures forall c :: c in components <==> IsScc(adjacency, c) && Reportable(adjacency, c)
    ensures components == [] <==> Acyclic(Arcs(adjacency))
    ensures forall x :: (exists c :: c in components && x in c) <==> OnCycle(Arcs(adjacency), x)
  {
    ghost var reach := Reachable(adjacency);
    ReachableLaws(adjacency);
    var search := new SccSearch(adjacency);
    var todo := adjacency.Keys;
    while todo != {}
      invariant todo <= adjacency.Keys && adjacency.Keys - todo <= search.indexOf.Keys
      invariant Inv(adjacency, reach, search.View(), {}) && Stacked(search.View())
      invariant Reported(adjacency, search.components, search.closed)
      decreases todo
    {
      var action :| action in todo;
      todo := todo - {action};
      if action !in search.indexOf {
        search.StrongConnect(action, reach, {});
      }
    }
    components := search.components;
    forall c ensures c in search.closed <==> IsScc(adjacency, c) {
      ClosedAreSccs(adjacency, search.View(), c);
    }
    ReportableIffCyclic(adjacency, components);
    forall x ensures (exists c :: c in components && x in c) <==> OnCycle(Arcs(adjacency), x) {
      ReportedIffOnCycle(adjacency, components, x);
    }
  }
}
