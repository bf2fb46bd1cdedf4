/**
What a parallel build can reach, stated on the graph alone. `Needed` and `Buildable` are
the least sets closed under three rules (a node is looked at, its children and cohorts are
looked at, it is made); no queue, counter or sequence number appears in them. They are the
reference that the scheduler is compared with.
*/
module BuildRules {
  import opened Wrappers
  import opened BuildGraph

  // What becomes of a node once it is examined with no unmade children. Each node is
  // examined that way at most once, so one answer per node covers every run.
  datatype Fate =
    | UpToDate             // not out of date
    | NoShell(ok: bool)    // handled without starting a shell; ok if the commands were valid
    | Shell(ok: bool)      // a job runs in a shell; ok if its exit status is 0 or ignored

  predicate Succeeds(f: Fate) {
    match f
    case UpToDate => true
    case NoShell(ok) => ok
    case Shell(ok) => ok
  }

  predicate IsWait(g: Graph, c: nat) { c < |g| && g[c].wait }

  // All `.WAIT` siblings before position i are in D.
  ghost predicate WaitsPassed(g: Graph, D: set<nat>, n: nat, i: nat)
    requires n < |g| && i <= |g[n].children|
  {
    forall j :: 0 <= j < i && IsWait(g, g[n].children[j]) ==> g[n].children[j] in D
  }

  // The children list of n is in T, at least up to the first `.WAIT` that is not in D.
  ghost predicate Scanned(g: Graph, T: set<nat>, D: set<nat>, n: nat)
    requires n < |g|
  {
    forall i :: 0 <= i < |g[n].children| && WaitsPassed(g, D, n, i) ==> g[n].children[i] in T
  }

  // T (looked at) and D (made or up to date) are closed under the rules. With strict set, a
  // `.WAIT` holds back the siblings after it until it is done itself.
  ghost predicate Closed(g: Graph, main: nat, fate: seq<Fate>, strict: bool, T: set<nat>, D: set<nat>)
    requires |fate| == |g|
  {
    && main in T
    && (forall n: nat :: n < |g| && n in T && OrderReady(g, D, n) ==>
          forall q :: q in g[n].cohorts ==> q in T)
    && (forall n: nat :: n < |g| && n in T && OrderReady(g, D, n) ==>
          if strict then Scanned(g, T, D, n) else forall c :: c in g[n].children ==> c in T)
    && (forall n: nat :: n < |g| && n in T && OrderReady(g, D, n) && ChildrenDone(g, D, n) && Succeeds(fate[n]) ==>
          n in D)
  }

  ghost predicate AlwaysLookedAt(g: Graph, main: nat, fate: seq<Fate>, strict: bool, n: nat)
    requires |fate| == |g|
  {
    forall T: set<nat>, D: set<nat> :: Closed(g, main, fate, strict, T, D) ==> n in T
  }

  ghost predicate AlwaysMade(g: Graph, main: nat, fate: seq<Fate>, strict: bool, n: nat)
    requires |fate| == |g|
  {
    forall T: set<nat>, D: set<nat> :: Closed(g, main, fate, strict, T, D) ==> n in D
  }

  ghost function Needed(g: Graph, main: nat, fate: seq<Fate>, strict: bool): set<nat>
    requires |fate| == |g|
  {
    set n: nat | n < |g| && AlwaysLookedAt(g, main, fate, strict, n)
  }

  ghost function Buildable(g: Graph, main: nat, fate: seq<Fate>, strict: bool): set<nat>
    requires |fate| == |g|
  {
    set n: nat | n < |g| && AlwaysMade(g, main, fate, strict, n)
  }

  // The two sets are themselves closed, so they are the least solution of the rules.
  lemma LeastIsClosed(g: Graph, main: nat, fate: seq<Fate>, strict: bool)
    requires WellFormed(g) && |fate| == |g| && main < |g|
    ensures Closed(g, main, fate, strict, Needed(g, main, fate, strict), Buildable(g, main, fate, strict))
  {
    var T0, D0 := Needed(g, main, fate, strict), Buildable(g, main, fate, strict);
    assert AlwaysLookedAt(g, main, fate, strict, main);
    forall n: nat | n < |g| && n in T0 && OrderReady(g, D0, n)
      ensures forall q :: q in g[n].cohorts ==> q in T0
      ensures if strict then Scanned(g, T0, D0, n) else forall c :: c in g[n].children ==> c in T0
      ensures ChildrenDone(g, D0, n) && Succeeds(fate[n]) ==> n in D0
    {
      assert NodeWf(g, n);
      forall T: set<nat>, D: set<nat> | Closed(g, main, fate, strict, T, D)
        ensures forall q :: q in g[n].cohorts ==> q in T
        ensures forall i :: 0 <= i < |g[n].children| && (strict ==> WaitsPassed(g, D0, n, i)) ==> g[n].children[i] in T
        ensures ChildrenDone(g, D0, n) && Succeeds(fate[n]) ==> n in D
      {
        FollowsRules(g, main, fate, strict, n, T, D);
      }
      assert forall i :: 0 <= i < |g[n].children| && (strict ==> WaitsPassed(g, D0, n, i)) ==>
          g[n].children[i] in g[n].children && AlwaysLookedAt(g, main, fate, strict, g[n].children[i]);
      assert forall q :: q in g[n].cohorts ==> AlwaysLookedAt(g, main, fate, strict, q);
      assert ChildrenDone(g, D0, n) && Succeeds(fate[n]) ==> AlwaysMade(g, main, fate, strict, n);
    }
  }

  // Every closed pair follows the rules wherever the least solution triggers them.
  lemma FollowsRules(g: Graph, main: nat, fate: seq<Fate>, strict: bool, n: nat, T: set<nat>, D: set<nat>)
    requires |fate| == |g| && n < |g|
    requires Closed(g, main, fate, strict, T, D)
    requires n in Needed(g, main, fate, strict) && OrderReady(g, Buildable(g, main, fate, strict), n)
    ensures forall q :: q in g[n].cohorts ==> q in T
    ensures forall i :: 0 <= i < |g[n].children| && (strict ==> WaitsPassed(g, Buildable(g, main, fate, strict), n, i))
              ==> g[n].children[i] in T
    ensures ChildrenDone(g, Buildable(g, main, fate, strict), n) && Succeeds(fate[n]) ==> n in D
  {
    var D0 := Buildable(g, main, fate, strict);
    assert D0 <= D;
    assert OrderReady(g, D, n);
    forall i | 0 <= i < |g[n].children| && (strict ==> WaitsPassed(g, D0, n, i))
      ensures g[n].children[i] in T
    {
      if strict {
        assert WaitsPassed(g, D, n, i);
      }
    }
    if ChildrenDone(g, D0, n) {
      assert ChildrenDone(g, D, n);
    }
  }

  // Holding siblings back can only make the least solution smaller, and changes nothing in
  // a graph without `.WAIT` nodes.
  lemma WaitOnlyDelays(g: Graph, main: nat, fate: seq<Fate>)
    requires WellFormed(g) && |fate| == |g| && main < |g|
    ensures Needed(g, main, fate, true) <= Needed(g, main, fate, false)
    ensures Buildable(g, main, fate, true) <= Buildable(g, main, fate, false)
    ensures (forall n :: 0 <= n < |g| ==> !g[n].wait) ==>
              && Needed(g, main, fate, true) == Needed(g, main, fate, false)
              && Buildable(g, main, fate, true) == Buildable(g, main, fate, false)
  {
    LaxIsStrict(g, main, fate);
    if forall n :: 0 <= n < |g| ==> !g[n].wait {
      StrictIsLax(g, main, fate);
    }
  }

  lemma LaxIsStrict(g: Graph, main: nat, fate: seq<Fate>)
    requires |fate| == |g|
    ensures forall T, D :: Closed(g, main, fate, false, T, D) ==> Closed(g, main, fate, true, T, D)
  {
    forall T, D | Closed(g, main, fate, false, T, D)
      ensures Closed(g, main, fate, true, T, D)
    {
      forall n: nat | n < |g| && n in T && OrderReady(g, D, n)
        ensures Scanned(g, T, D, n)
      {
        assert forall c :: c in g[n].children ==> c in T;
      }
    }
  }

  lemma StrictIsLax(g: Graph, main: nat, fate: seq<Fate>)
    requires |fate| == |g|
    requires forall n :: 0 <= n < |g| ==> !g[n].wait
    ensures forall T, D :: Closed(g, main, fate, true, T, D) ==> Closed(g, main, fate, false, T, D)
  {
    forall T, D | Closed(g, main, fate, true, T, D)
      ensures Closed(g, main, fate, false, T, D)
    {
      forall n: nat | n < |g| && n in T && OrderReady(g, D, n)
        ensures forall c :: c in g[n].children ==> c in T
      {
        assert Scanned(g, T, D, n);
        forall i | 0 <= i < |g[n].children|
          ensures g[n].children[i] in T
        {
          assert forall j :: 0 <= j < i ==> !IsWait(g, g[n].children[j]);
          assert WaitsPassed(g, D, n, i);
        }
      }
    }
  }

  // Every child of n, and every instance of a child, is numbered below n.
  ghost predicate RankedBelow(g: Graph, rank: seq<nat>, n: nat)
    requires |rank| == |g| && n < |g|
  {
    forall c :: c in g[n].children ==>
      c < |g| && rank[c] < rank[n] && forall q :: q in g[c].cohorts ==> q < |g| && rank[q] < rank[n]
  }

  // The graph has a topological numbering.
  ghost predicate Acyclic(g: Graph, rank: seq<nat>) {
    |rank| == |g| && forall n :: 0 <= n < |g| ==> RankedBelow(g, rank, n)
  }

  // No .ORDER edge starts at a node that is to be remade.
  ghost predicate NoOrder(g: Graph) {
    forall n, o :: 0 <= n < |g| && o in g[n].orderPred ==> !Remade(g, o)
  }

  // Without cycles, failures and effective .ORDER edges, everything looked at is made.
  lemma {:induction false} AcyclicNodeIsMade(g: Graph, main: nat, fate: seq<Fate>, T: set<nat>, D: set<nat>,
                                             rank: seq<nat>, n: nat)
    requires |fate| == |g| && Closed(g, main, fate, true, T, D)
    requires Acyclic(g, rank) && NoOrder(g) && forall x :: 0 <= x < |g| ==> Succeeds(fate[x])
    requires n < |g| && n in T
    ensures n in D
    decreases rank[n], 1, 0
  {
    assert OrderReady(g, D, n) && RankedBelow(g, rank, n);
    AcyclicChildrenAreMade(g, main, fate, T, D, rank, n, |g[n].children|);
    forall c | c in g[n].children
      ensures AllDone(g, D, c)
    {
      assert OrderReady(g, D, c);
      forall q | q in g[c].cohorts
        ensures q in D
      {
        AcyclicNodeIsMade(g, main, fate, T, D, rank, q);
      }
    }
  }

  lemma {:induction false} AcyclicChildrenAreMade(g: Graph, main: nat, fate: seq<Fate>, T: set<nat>, D: set<nat>,
                                                  rank: seq<nat>, n: nat, k: nat)
    requires |fate| == |g| && Closed(g, main, fate, true, T, D)
    requires Acyclic(g, rank) && NoOrder(g) && forall x :: 0 <= x < |g| ==> Succeeds(fate[x])
    requires n < |g| && k <= |g[n].children| && Scanned(g, T, D, n)
    ensures forall i :: 0 <= i < k ==> g[n].children[i] in T && g[n].children[i] in D
    decreases rank[n], 0, k
  {
    if k > 0 {
      assert RankedBelow(g, rank, n);
      AcyclicChildrenAreMade(g, main, fate, T, D, rank, n, k - 1);
      assert WaitsPassed(g, D, n, k - 1);
      assert g[n].children[k - 1] in g[n].children;
      AcyclicNodeIsMade(g, main, fate, T, D, rank, g[n].children[k - 1]);
    }
  }

  lemma AcyclicBuildsMain(g: Graph, main: nat, fate: seq<Fate>, rank: seq<nat>)
    requires |fate| == |g| && main < |g|
    requires Acyclic(g, rank) && NoOrder(g) && forall x :: 0 <= x < |g| ==> Succeeds(fate[x])
    ensures main in Buildable(g, main, fate, true)
  {
    forall T, D | Closed(g, main, fate, true, T, D)
      ensures main in D
    {
      AcyclicNodeIsMade(g, main, fate, T, D, rank, main);
    }
    assert AlwaysMade(g, main, fate, true, main);
  }

  // A target is never made when its .ORDER predecessor is looked at only through the target
  // itself: the target waits before its own children are looked at.
  lemma OrderThroughItself(g: Graph, main: nat, fate: seq<Fate>, U: set<nat>, a: nat, o: nat)
    requires |fate| == |g| && main in U && a in U && a < |g|
    requires o in g[a].orderPred && Remade(g, o) && o !in U
    requires forall n, c :: 0 <= n < |g| && n in U && n != a && c in g[n].children ==> c in U
    requires forall n, q :: 0 <= n < |g| && n in U && n != a && q in g[n].cohorts ==> q in U
    ensures a !in Buildable(g, main, fate, false)
  {
    assert !OrderReady(g, U - {a}, a);
    assert Closed(g, main, fate, false, U, U - {a});
    assert !AlwaysMade(g, main, fate, false, a);
  }

  // `.MAIN: a`, `a: o` and `.ORDER: o a`, as nodes 0, 1 and 2.
  ghost predicate OrderedSource(g: Graph) {
    && |g| == 3
    && g[0] == Node([1], [], [], [], [], None, true, false)
    && g[1] == Node([2], [0], [2], [], [], None, true, false)
    && g[2] == Node([], [1], [], [1], [], None, true, false)
  }

  lemma OrderedSourceEdges(g: Graph, p: nat, c: nat)
    requires OrderedSource(g) && p < 3 && c < 3
    ensures EdgesMatch(g, p, c)
  {
    assert multiset(g[0].children) == multiset{1} && multiset(g[1].children) == multiset{2};
    assert multiset(g[1].parents) == multiset{0} && multiset(g[2].parents) == multiset{1};
    assert p == 0 || p == 1 || p == 2;
    assert c == 0 || c == 1 || c == 2;
  }

  lemma OrderedSourceIsWellFormed(g: Graph)
    requires OrderedSource(g)
    ensures WellFormed(g) && Acyclic(g, [2, 1, 0])
  {
    var rank := [2, 1, 0];
    forall n | 0 <= n < |g|
      ensures NodeWf(g, n) && RankedBelow(g, rank, n)
    {
      assert n == 0 || n == 1 || n == 2;
    }
    forall p, c | 0 <= p < |g| && 0 <= c < |g|
      ensures EdgesMatch(g, p, c)
    {
      OrderedSourceEdges(g, p, c);
    }
  }

  // Such a build has no cycle at all, and still its target is never made.
  lemma OrderedSourceIsNeverBuilt(g: Graph, fate: seq<Fate>)
    requires OrderedSource(g) && |fate| == 3
    ensures 1 !in Buildable(g, 0, fate, false)
  {
    OrderThroughItself(g, 0, fate, {0, 1}, 1, 2);
  }
}
