/**
The dependency graph that the parallel and the compat builds walk: the fixed part of a
GNode (its lists and flags), what it means for a child with all its `::` cohorts to be
done, and the counting facts behind the `unmade` and `unmade_cohorts` counters.
*/
module BuildGraph {
  import opened Wrappers

  // The states of a node in parallel mode, in the order of the enumeration.
  datatype Made = UNMADE | DEFERRED | REQUESTED | BEINGMADE | MADE | UPTODATE

  predicate IsDone(m: Made) { m.MADE? || m.UPTODATE? }

  predicate IsReady(m: Made) { !m.UNMADE? && !m.DEFERRED? }

  // The part of a node that no build step changes. Nodes are named by their index.
  datatype Node = Node(
    children: seq<nat>, parents: seq<nat>,
    orderPred: seq<nat>, orderSucc: seq<nat>,
    cohorts: seq<nat>, centurion: Option<nat>,
    remake: bool, wait: bool)

  type Graph = seq<Node>

  ghost predicate InRange(list: seq<nat>, size: nat) {
    forall x :: x in list ==> x < size
  }

  ghost predicate NodeInRange(node: Node, size: nat) {
    && InRange(node.children, size)
    && InRange(node.parents, size)
    && InRange(node.orderPred, size)
    && InRange(node.orderSucc, size)
    && InRange(node.cohorts, size)
    && (node.centurion.Some? ==> node.centurion.value < size)
  }

  // A `::` instance cannot be named, so nothing but its first instance is linked to it.
  ghost predicate CohortShape(node: Node, centurion: nat) {
    && node.centurion == Some(centurion)
    && node.parents == []
    && node.cohorts == []
    && node.orderPred == []
    && node.orderSucc == []
    && !node.wait
  }

  // What the graph that Make_ExpandUse and Make_ProcessWait hand to the build loop says about
  // one node: every link is recorded at both its ends, `::` instances and `.WAIT` nodes have
  // their shape, and whatever a node to be remade depends on is to be remade too.
  ghost predicate NodeWf(g: Graph, n: nat)
    requires n < |g|
  {
    && NodeInRange(g[n], |g|)
    && (forall o :: o in g[n].orderPred ==> o < |g| && n in g[o].orderSucc)
    && (forall q :: q in g[n].cohorts ==>
          q < |g| && CohortShape(g[q], n) && multiset(g[n].cohorts)[q] == 1 && (g[n].remake ==> g[q].remake))
    && (g[n].centurion.Some? ==> g[n].centurion.value < |g| && n in g[g[n].centurion.value].cohorts)
    && (g[n].wait ==> g[n].cohorts == [] && g[n].centurion == None)
    && (forall c :: c in g[n].children ==> c < |g| && (g[n].remake ==> g[c].remake))
  }

  // Child and parent edges agree, with their multiplicity.
  ghost predicate EdgesMatch(g: Graph, p: nat, c: nat)
    requires p < |g| && c < |g|
  {
    multiset(g[p].children)[c] == multiset(g[c].parents)[p]
  }

  ghost predicate WellFormed(g: Graph) {
    && (forall n :: 0 <= n < |g| ==> NodeWf(g, n))
    && (forall p, c :: 0 <= p < |g| && 0 <= c < |g| ==> EdgesMatch(g, p, c))
  }

  function Centurion(g: Graph, n: nat): nat
    requires n < |g|
  {
    match g[n].centurion
    case None => n
    case Some(c) => c
  }

  predicate Remade(g: Graph, n: nat) { n < |g| && g[n].remake }

  // No `.ORDER` predecessor that is to be remade is outside D.
  ghost predicate OrderReady(g: Graph, D: set<nat>, n: nat)
    requires n < |g|
  {
    forall o :: o in g[n].orderPred ==> o in D || !Remade(g, o)
  }

  // A node and all its `::` instances are in D.
  ghost predicate AllDone(g: Graph, D: set<nat>, c: nat) {
    c < |g| && c in D && forall q :: q in g[c].cohorts ==> q in D
  }

  // The nodes that count as done for their parents; a `::` instance has none.
  ghost function AllDoneSet(g: Graph, D: set<nat>): set<nat> {
    set c: nat | c < |g| && g[c].centurion == None && AllDone(g, D, c)
  }

  ghost predicate ChildrenDone(g: Graph, D: set<nat>, n: nat)
    requires n < |g|
  {
    forall c :: c in g[n].children ==> AllDone(g, D, c)
  }

  ghost function DoneSet(made: seq<Made>): set<nat> {
    set n: nat | n < |made| && IsDone(made[n])
  }

  ghost function Touched(made: seq<Made>): set<nat> {
    set n: nat | n < |made| && !made[n].UNMADE?
  }

  // How many entries of list, counted with multiplicity, are outside A.
  ghost function Missing(A: set<nat>, list: seq<nat>): nat {
    if list == [] then 0 else (if list[0] in A then 0 else 1) + Missing(A, list[1..])
  }

  lemma {:induction false} MissingZero(A: set<nat>, list: seq<nat>)
    ensures Missing(A, list) == 0 <==> forall x :: x in list ==> x in A
  {
    if list != [] {
      MissingZero(A, list[1..]);
      assert list == [list[0]] + list[1..];
    }
  }

  lemma {:induction false} MissingNone(list: seq<nat>)
    ensures Missing({}, list) == |list|
  {
    if list != [] {
      MissingNone(list[1..]);
    }
  }

  // Completing one more node lowers the count by its number of edges.
  lemma {:induction false} MissingAdd(A: set<nat>, q: nat, list: seq<nat>)
    requires q !in A
    ensures Missing(A + {q}, list) == Missing(A, list) - multiset(list)[q]
  {
    if list != [] {
      MissingAdd(A, q, list[1..]);
      assert list == [list[0]] + list[1..];
      assert multiset(list) == multiset{list[0]} + multiset(list[1..]);
    }
  }

  // Completing node n completes at most its first instance, and only when nothing else of
  // that `::` group is missing.
  lemma AllDoneSetAdd(g: Graph, D: set<nat>, n: nat)
    requires WellFormed(g) && n < |g| && n !in D
    ensures Centurion(g, n) < |g| && Centurion(g, n) !in AllDoneSet(g, D)
    ensures AllDoneSet(g, D + {n}) ==
            if AllDone(g, D + {n}, Centurion(g, n)) then AllDoneSet(g, D) + {Centurion(g, n)} else AllDoneSet(g, D)
  {
    assert NodeWf(g, n);
    var cent := Centurion(g, n);
    assert g[cent].centurion == None by {
      if cent != n {
        assert NodeWf(g, cent);
        assert CohortShape(g[n], cent);
        NoCohortOfCohort(g, cent);
      }
    }
    forall c: nat | c < |g| && g[c].centurion == None && c != cent
      ensures AllDone(g, D, c) <==> AllDone(g, D + {n}, c)
    {
      assert NodeWf(g, c);
      assert !CohortShape(g[n], c);
      assert n !in g[c].cohorts;
    }
  }

  // A node with `::` instances is not one itself.
  lemma NoCohortOfCohort(g: Graph, c: nat)
    requires WellFormed(g) && c < |g| && g[c].cohorts != []
    ensures g[c].centurion == None
  {
    assert NodeWf(g, c);
    assert forall d :: 0 <= d < |g| ==> !CohortShape(g[c], d);
    assert g[c].centurion.Some? ==> NodeWf(g, g[c].centurion.value);
  }

  // Only first instances are children.
  lemma ChildIsFirstInstance(g: Graph, p: nat, c: nat)
    requires WellFormed(g) && p < |g| && c in g[p].children
    ensures c < |g| && g[c].centurion == None && p in g[c].parents
  {
    assert NodeWf(g, p);
    assert EdgesMatch(g, p, c);
    assert multiset(g[c].parents)[p] > 0;
    assert g[c].parents != [];
    assert NodeWf(g, c);
    assert g[c].centurion.Some? ==> NodeWf(g, g[c].centurion.value);
    assert forall k :: 0 <= k < |g| ==> !CohortShape(g[c], k);
  }

  // The `unmade` counter is zero exactly when nothing is missing among the children.
  lemma NothingMissing(g: Graph, D: set<nat>, p: nat)
    requires WellFormed(g) && p < |g|
    ensures Missing(AllDoneSet(g, D), g[p].children) == 0 <==> ChildrenDone(g, D, p)
  {
    MissingZero(AllDoneSet(g, D), g[p].children);
    forall c | c in g[p].children
      ensures c in AllDoneSet(g, D) <==> AllDone(g, D, c)
    {
      ChildIsFirstInstance(g, p, c);
    }
  }
}
