/** The recursive traversal of a shared expression, with a vector of visited ids that grows on demand. */
module Visit {
  import opened Sets

  /** A hash-consed expression: children are ids. */
  datatype Node = App(args: seq<nat>) | Quantifier(body: nat) | Variable
  {
    function Children(): seq<nat> {
      match this
      case App(args) => args
      case Quantifier(body) => [body]
      case Variable => []
    }
  }

  type Graph = map<nat, Node>

  /** `rank` witnesses that the graph is finite and has no cycle. */
  ghost predicate Acyclic(g: Graph, rank: nat -> nat) {
    forall e, c | e in g && c in g[e].Children() :: c in g && rank(c) < rank(e)
  }

  /** `e` and everything below it. */
  ghost function Reach(g: Graph, rank: nat -> nat, e: nat): set<nat>
    requires Acyclic(g, rank) && e in g
    decreases rank(e), 1, 0
  {
    {e} + ReachAll(g, rank, g[e].Children(), rank(e))
  }

  ghost function ReachAll(g: Graph, rank: nat -> nat, cs: seq<nat>, bound: nat): set<nat>
    requires Acyclic(g, rank) && forall c | c in cs :: c in g && rank(c) < bound
    decreases bound, 0, |cs|
  {
    if cs == [] then {} else
      ReachAll(g, rank, cs[..|cs| - 1], bound) + Reach(g, rank, cs[|cs| - 1])
  }

  lemma {:induction false} ChildInReachAll(g: Graph, rank: nat -> nat, cs: seq<nat>, bound: nat, c: nat)
    requires Acyclic(g, rank) && (forall c | c in cs :: c in g && rank(c) < bound) && c in cs
    ensures Reach(g, rank, c) <= ReachAll(g, rank, cs, bound)
    decreases |cs|
  {
    if c != cs[|cs| - 1] {
      ChildInReachAll(g, rank, cs[..|cs| - 1], bound, c);
    }
  }

  /** Everything below `e` is a node of smaller rank. */
  lemma {:induction false} ReachRank(g: Graph, rank: nat -> nat, e: nat)
    requires Acyclic(g, rank) && e in g
    ensures forall x | x in Reach(g, rank, e) :: x in g && (x == e || rank(x) < rank(e))
    decreases rank(e), 1, 0
  {
    ReachAllRank(g, rank, g[e].Children(), rank(e));
  }

  lemma {:induction false} ReachAllRank(g: Graph, rank: nat -> nat, cs: seq<nat>, bound: nat)
    requires Acyclic(g, rank) && forall c | c in cs :: c in g && rank(c) < bound
    ensures forall x | x in ReachAll(g, rank, cs, bound) :: x in g && rank(x) < bound
    decreases bound, 0, |cs|
  {
    if cs != [] {
      ReachAllRank(g, rank, cs[..|cs| - 1], bound);
      ReachRank(g, rank, cs[|cs| - 1]);
    }
  }

  /** Reachability is what it should be: the least set with `e` that is closed under children. */
  lemma {:induction false} ReachIsClosed(g: Graph, rank: nat -> nat, e: nat)
    requires Acyclic(g, rank) && e in g
    ensures forall x, c | x in Reach(g, rank, e) && x in g && c in g[x].Children() :: c in Reach(g, rank, e)
    decreases rank(e), 1, 0
  {
    forall c | c in g[e].Children() { ChildInReachAll(g, rank, g[e].Children(), rank(e), c); }
    ReachAllIsClosed(g, rank, g[e].Children(), rank(e));
  }

  lemma {:induction false} ReachAllIsClosed(g: Graph, rank: nat -> nat, cs: seq<nat>, bound: nat)
    requires Acyclic(g, rank) && forall c | c in cs :: c in g && rank(c) < bound
    ensures forall x, c | x in ReachAll(g, rank, cs, bound) && x in g && c in g[x].Children() ::
      c in ReachAll(g, rank, cs, bound)
    decreases bound, 0, |cs|
  {
    if cs != [] {
      ReachAllIsClosed(g, rank, cs[..|cs| - 1], bound);
      ReachIsClosed(g, rank, cs[|cs| - 1]);
    }
  }

  /** Below a visited node everything is visited, unless a node on the call stack intervenes. */
  lemma {:induction false} VisitedBelow(g: Graph, rank: nat -> nat, seen: set<nat>, open: set<nat>, e: nat)
    requires Acyclic(g, rank) && e in g && e in seen
    requires forall x | x in seen && x !in open && x in g :: forall c | c in g[x].Children() :: c in seen
    requires Reach(g, rank, e) !! open
    ensures Reach(g, rank, e) <= seen
    decreases rank(e), 1, 0
  {
    assert e in Reach(g, rank, e);
    VisitedBelowAll(g, rank, seen, open, g[e].Children(), rank(e));
  }

  lemma {:induction false} VisitedBelowAll(g: Graph, rank: nat -> nat, seen: set<nat>, open: set<nat>, cs: seq<nat>,
      bound: nat)
    requires Acyclic(g, rank) && forall c | c in cs :: c in g && rank(c) < bound && c in seen
    requires forall x | x in seen && x !in open && x in g :: forall c | c in g[x].Children() :: c in seen
    requires ReachAll(g, rank, cs, bound) !! open
    ensures ReachAll(g, rank, cs, bound) <= seen
    decreases bound, 0, |cs|
  {
    if cs != [] {
      VisitedBelowAll(g, rank, seen, open, cs[..|cs| - 1], bound);
      VisitedBelow(g, rank, seen, open, cs[|cs| - 1]);
    }
  }

  // ----- the order of the log -----

  /** The post-order of the tree that the shared expression unfolds to, arguments from left to right. */
  ghost function Unfolding(g: Graph, rank: nat -> nat, e: nat): seq<nat>
    requires Acyclic(g, rank) && e in g
    decreases rank(e), 1, 0
  {
    UnfoldingAll(g, rank, g[e].Children(), rank(e)) + [e]
  }

  ghost function UnfoldingAll(g: Graph, rank: nat -> nat, cs: seq<nat>, bound: nat): seq<nat>
    requires Acyclic(g, rank) && forall c | c in cs :: c in g && rank(c) < bound
    decreases bound, 0, |cs|
  {
    if cs == [] then [] else
      UnfoldingAll(g, rank, cs[..|cs| - 1], bound) + Unfolding(g, rank, cs[|cs| - 1])
  }

  lemma {:induction false} UnfoldingReaches(g: Graph, rank: nat -> nat, e: nat)
    requires Acyclic(g, rank) && e in g
    ensures forall x :: x in Unfolding(g, rank, e) <==> x in Reach(g, rank, e)
    decreases rank(e), 1, 0
  {
    UnfoldingAllReaches(g, rank, g[e].Children(), rank(e));
  }

  lemma {:induction false} UnfoldingAllReaches(g: Graph, rank: nat -> nat, cs: seq<nat>, bound: nat)
    requires Acyclic(g, rank) && forall c | c in cs :: c in g && rank(c) < bound
    ensures forall x :: x in UnfoldingAll(g, rank, cs, bound) <==> x in ReachAll(g, rank, cs, bound)
    decreases bound, 0, |cs|
  {
    if cs != [] {
      UnfoldingAllReaches(g, rank, cs[..|cs| - 1], bound);
      UnfoldingReaches(g, rank, cs[|cs| - 1]);
    }
  }

  ghost function Apps(g: Graph, s: seq<nat>): seq<nat> {
    if s == [] then [] else
      var last := s[|s| - 1];
      Apps(g, s[..|s| - 1]) + if last in g && g[last].App? then [last] else []
  }

  lemma {:induction false} AppsAppend(g: Graph, s: seq<nat>, t: seq<nat>)
    ensures Apps(g, s + t) == Apps(g, s) + Apps(g, t)
  {
    if t == [] {
      assert s + t == s;
    } else {
      AppsAppend(g, s, t[..|t| - 1]);
      assert (s + t)[..|s + t| - 1] == s + t[..|t| - 1];
    }
  }

  lemma {:induction false} AppsMembers(g: Graph, s: seq<nat>)
    ensures forall x :: x in Apps(g, s) <==> x in s && x in g && g[x].App?
  {
    if s != [] {
      AppsMembers(g, s[..|s| - 1]);
      assert s == s[..|s| - 1] + [s[|s| - 1]];
    }
  }

  /** `trail` unfolds what has been left so far, and the log has its applications, each where it stands first. */
  ghost predicate Printed(g: Graph, seen: set<nat>, open: set<nat>, trail: seq<nat>, log: seq<nat>) {
    && log == FirstOnes(Apps(g, trail))
    && forall x :: x in trail <==> x in seen && x !in open
  }

  lemma PrintedAgain(g: Graph, rank: nat -> nat, seen: set<nat>, open: set<nat>, trail: seq<nat>, log: seq<nat>, e: nat)
    requires Acyclic(g, rank) && e in g && Printed(g, seen, open, trail, log)
    requires Reach(g, rank, e) <= seen && Reach(g, rank, e) !! open
    ensures Printed(g, seen, open, trail + Unfolding(g, rank, e), log)
  {
    var more := Unfolding(g, rank, e);
    UnfoldingReaches(g, rank, e);
    AppsAppend(g, trail, more);
    AppsMembers(g, trail);
    AppsMembers(g, more);
    FirstOnesOfKnown(Apps(g, trail), Apps(g, more));
  }

  /** The node `e` leaves the call stack after everything below it. */
  lemma PrintedLeave(g: Graph, seen: set<nat>, open: set<nat>, trail: seq<nat>, log: seq<nat>, e: nat)
    requires e in g && e in seen && e !in open && Printed(g, seen, open + {e}, trail, log)
    ensures Printed(g, seen, open, trail + [e], if g[e].App? then log + [e] else log)
  {
    AppsAppend(g, trail, [e]);
    AppsMembers(g, trail);
    assert Apps(g, [e]) == if g[e].App? then [e] else [] by { assert [e][..0] == []; }
    if g[e].App? {
      FirstOnesAppend(Apps(g, trail), e);
    } else {
      assert Apps(g, trail) + [] == Apps(g, trail);
    }
  }

  lemma PrintedEnter(g: Graph, seen: set<nat>, open: set<nat>, trail: seq<nat>, log: seq<nat>, e: nat)
    requires e !in seen && Printed(g, seen, open, trail, log)
    ensures Printed(g, seen + {e}, open + {e}, trail, log)
  {}

  ghost function Marked(visited: seq<bool>): set<nat> {
    set i: nat | i < |visited| && visited[i]
  }

  /** Each application in the log stands after every application below it. */
  ghost predicate PostOrder(g: Graph, rank: nat -> nat, log: seq<nat>)
    requires Acyclic(g, rank)
  {
    forall i, x | 0 <= i < |log| && log[i] in g && x in Reach(g, rank, log[i]) && x != log[i] && x in g && g[x].App? ::
      x in log[..i]
  }

  /** Between calls: `open` is the call stack, the log holds the finished applications. */
  ghost predicate Consistent(g: Graph, rank: nat -> nat, seen: set<nat>, open: set<nat>, log: seq<nat>)
    requires Acyclic(g, rank)
  {
    && open <= seen && seen <= g.Keys
    && (forall x | x in seen && x !in open :: forall c | c in g[x].Children() :: c in seen)
    && Distinct(log) && PostOrder(g, rank, log)
    && forall x :: x in log <==> x in seen && x !in open && g[x].App?
  }

  class Visitor {
    const graph: Graph
    ghost const rank: nat -> nat
    var visited: seq<bool>
    var log: seq<nat>   // the printed applications

    constructor (graph: Graph, ghost rank: nat -> nat)
      ensures this.graph == graph && this.rank == rank && visited == [] && log == []
    {
      this.graph, this.rank := graph, rank;
      visited, log := [], [];
    }

    /** Visits exactly what is below `e`, prints each application once, after its arguments. */
    method Visit(e: nat, ghost open: set<nat>, ghost trail: seq<nat>)
      requires Acyclic(graph, rank) && e in graph
      requires Consistent(graph, rank, Marked(visited), open, log)
      requires Reach(graph, rank, e) !! open
      requires Printed(graph, Marked(visited), open, trail, log)
      modifies this
      ensures Consistent(graph, rank, Marked(visited), open, log)
      ensures Printed(graph, Marked(visited), open, trail + Unfolding(graph, rank, e), log)
      ensures Marked(visited) == old(Marked(visited)) + Reach(graph, rank, e)
      ensures old(log) <= log
      decreases rank(e), 1
    {
      hide *;
      ReachUnfolds(open, e);
      if |visited| <= e {
        Resized(visited, e + 1);
        visited := visited + seq(e + 1 - |visited|, _ => false);
      }
      ghost var seen := Marked(visited);
      if visited[e] {
        MarkedOne(visited, e);
        Already(seen, open, e, log);
        PrintedAgain(graph, rank, seen, open, trail, log, e);
        return;
      }
      MarkedOne(visited, e);
      visited := visited[e := true];
      Enter(seen, open, e);
      PrintedEnter(graph, seen, open, trail, log, e);
      UnfoldingStep(e, trail);
      ghost var below := UnfoldingAll(graph, rank, graph[e].Children(), rank(e));
      match graph[e]
      case App(args) =>
        ChildrenOf(e);
        VisitArgs(e, args, open, trail);
        assert seen + Reach(graph, rank, e) == Marked(visited);
        Leave(seen, open, e, log);
        PrintedLeave(graph, Marked(visited), open, trail + below, log, e);
        log := log + [e];
      case Quantifier(body) =>
        ChildrenOf(e);
        ChildApart(open, e, body);
        Visit(body, open + {e}, trail);
        OneChild(e, body);
        assert seen + Reach(graph, rank, e) == Marked(visited);
        LeaveSilently(seen, open, e, log);
        PrintedLeave(graph, Marked(visited), open, trail + below, log, e);
      case Variable =>
        ChildrenOf(e);
        NothingBelow(e);
        assert trail + [] == trail;
        assert seen + Reach(graph, rank, e) == Marked(visited);
        LeaveSilently(seen, open, e, log);
        PrintedLeave(graph, Marked(visited), open, trail + below, log, e);
    }

    /** The loop over the arguments of an application that is being visited. */
    method VisitArgs(e: nat, args: seq<nat>, ghost open: set<nat>, ghost trail: seq<nat>)
      requires Acyclic(graph, rank) && e in graph && graph[e].Children() == args
      requires forall c | c in args :: c in graph && rank(c) < rank(e)
      requires Consistent(graph, rank, Marked(visited), open + {e}, log)
      requires Reach(graph, rank, e) !! open
      requires Printed(graph, Marked(visited), open + {e}, trail, log)
      modifies this
      ensures Consistent(graph, rank, Marked(visited), open + {e}, log)
      ensures Printed(graph, Marked(visited), open + {e}, trail + UnfoldingAll(graph, rank, args, rank(e)), log)
      ensures Marked(visited) == old(Marked(visited)) + ReachAll(graph, rank, args, rank(e))
      ensures old(log) <= log
      decreases rank(e), 0
    {
      hide *;
      NothingBelow(e);
      assert args[..0] == [] && trail + [] == trail;
      for i := 0 to |args|
        invariant Consistent(graph, rank, Marked(visited), open + {e}, log)
        invariant Marked(visited) == old(Marked(visited)) + ReachAll(graph, rank, args[..i], rank(e))
        invariant
          var done := UnfoldingAll(graph, rank, args[..i], rank(e));
          Printed(graph, Marked(visited), open + {e}, trail + done, log)
        invariant old(log) <= log
      {
        ChildApart(open, e, args[i]);
        VisitNext(args, i, e);
        ghost var before, more := UnfoldingAll(graph, rank, args[..i], rank(e)), Unfolding(graph, rank, args[i]);
        Visit(args[i], open + {e}, trail + before);
        assert trail + before + more == trail + (before + more);
      }
      assert args[..|args|] == args;
    }

    lemma ReachUnfolds(open: set<nat>, e: nat)
      requires Acyclic(graph, rank) && e in graph && Reach(graph, rank, e) !! open
      ensures forall c | c in graph[e].Children() :: c in graph && rank(c) < rank(e)
      ensures Reach(graph, rank, e) == {e} + ReachAll(graph, rank, graph[e].Children(), rank(e))
      ensures e !in open
    {
      assert e in Reach(graph, rank, e);
    }

    lemma UnfoldingStep(e: nat, trail: seq<nat>)
      requires Acyclic(graph, rank) && e in graph
      ensures trail + Unfolding(graph, rank, e) ==
              trail + UnfoldingAll(graph, rank, graph[e].Children(), rank(e)) + [e]
    {}

    lemma NothingBelow(e: nat)
      requires Acyclic(graph, rank)
      ensures ReachAll(graph, rank, [], rank(e)) == {} && UnfoldingAll(graph, rank, [], rank(e)) == []
    {}

    lemma ChildrenOf(e: nat)
      requires e in graph
      ensures match graph[e]
              case App(args) => graph[e].Children() == args
              case Quantifier(body) => graph[e].Children() == [body]
              case Variable => graph[e].Children() == []
    {}

    lemma Already(seen: set<nat>, open: set<nat>, e: nat, log: seq<nat>)
      requires Acyclic(graph, rank) && e in graph && e in seen && Reach(graph, rank, e) !! open
      requires Consistent(graph, rank, seen, open, log)
      ensures seen + Reach(graph, rank, e) == seen
    {
      VisitedBelow(graph, rank, seen, open, e);
    }

    lemma Enter(seen: set<nat>, open: set<nat>, e: nat)
      requires Acyclic(graph, rank) && e in graph && e !in seen
      requires Consistent(graph, rank, seen, open, log)
      ensures Consistent(graph, rank, seen + {e}, open + {e}, log)
    {}

    lemma ChildApart(open: set<nat>, e: nat, c: nat)
      requires Acyclic(graph, rank) && e in graph && c in graph[e].Children()
      requires Reach(graph, rank, e) !! open
      ensures c in graph && rank(c) < rank(e) && Reach(graph, rank, c) !! open + {e}
    {
      ChildInReachAll(graph, rank, graph[e].Children(), rank(e), c);
      ReachRank(graph, rank, c);
    }

    lemma VisitNext(args: seq<nat>, i: nat, e: nat)
      requires Acyclic(graph, rank) && i < |args| && forall c | c in args :: c in graph && rank(c) < rank(e)
      ensures ReachAll(graph, rank, args[..i + 1], rank(e)) ==
              ReachAll(graph, rank, args[..i], rank(e)) + Reach(graph, rank, args[i])
      ensures UnfoldingAll(graph, rank, args[..i + 1], rank(e)) ==
              UnfoldingAll(graph, rank, args[..i], rank(e)) + Unfolding(graph, rank, args[i])
    {
      assert args[..i + 1][..i] == args[..i];
    }

    lemma OneChild(e: nat, body: nat)
      requires Acyclic(graph, rank) && e in graph && graph[e] == Quantifier(body)
      ensures Reach(graph, rank, e) == {e} + Reach(graph, rank, body)
      ensures UnfoldingAll(graph, rank, graph[e].Children(), rank(e)) == Unfolding(graph, rank, body)
    {
      VisitNext([body], 0, e);
      assert [body][..0] == [] && [body][..1] == [body];
    }

    /** All children are done: `e` leaves the call stack and is printed. */
    lemma Leave(seen: set<nat>, open: set<nat>, e: nat, log: seq<nat>)
      requires Acyclic(graph, rank) && e in graph && graph[e].App? && e !in open && e !in seen
      requires Reach(graph, rank, e) !! open
      requires Consistent(graph, rank, seen + Reach(graph, rank, e), open + {e}, log)
      ensures Consistent(graph, rank, seen + Reach(graph, rank, e), open, log + [e])
    {
      var below := Reach(graph, rank, e);
      ReachRank(graph, rank, e);
      forall c | c in graph[e].Children() ensures c in below {
        ChildInReachAll(graph, rank, graph[e].Children(), rank(e), c);
        assert c in Reach(graph, rank, c);
      }
      var log' := log + [e];
      forall i, x | 0 <= i < |log'| && log'[i] in graph && x in Reach(graph, rank, log'[i]) && x != log'[i]
          && x in graph && graph[x].App?
        ensures x in log'[..i]
      {
        if i < |log| {
          assert log'[i] == log[i] && log'[..i] == log[..i];
        } else {
          assert log'[..i] == log;
        }
      }
    }

    lemma LeaveSilently(seen: set<nat>, open: set<nat>, e: nat, log: seq<nat>)
      requires Acyclic(graph, rank) && e in graph && !graph[e].App? && e !in open && e !in seen
      requires Consistent(graph, rank, seen + Reach(graph, rank, e), open + {e}, log)
      ensures Consistent(graph, rank, seen + Reach(graph, rank, e), open, log)
    {
      forall c | c in graph[e].Children() ensures c in Reach(graph, rank, e) {
        ChildInReachAll(graph, rank, graph[e].Children(), rank(e), c);
        assert c in Reach(graph, rank, c);
      }
    }

    /** A traversal from scratch. */
    method VisitRoot(e: nat)
      requires Acyclic(graph, rank) && e in graph && visited == [] && log == []
      modifies this
      ensures Marked(visited) == Reach(graph, rank, e)
      ensures Distinct(log) && PostOrder(graph, rank, log)
      ensures forall x :: x in log <==> x in Reach(graph, rank, e) && x in graph && graph[x].App?
      ensures log == FirstOnes(Apps(graph, Unfolding(graph, rank, e)))
    {
      assert Marked(visited) == {};
      Visit(e, {}, []);
      assert [] + Unfolding(graph, rank, e) == Unfolding(graph, rank, e);
      ReachRank(graph, rank, e);
    }
  }

  lemma Resized(visited: seq<bool>, size: nat)
    requires |visited| <= size
    ensures Marked(visited + seq(size - |visited|, _ => false)) == Marked(visited)
  {}

  lemma MarkedOne(visited: seq<bool>, e: nat)
    requires e < |visited|
    ensures Marked(visited[e := true]) == Marked(visited) + {e}
    ensures visited[e] <==> e in Marked(visited)
  {}
}
