/**
When a parallel build gets through. A build can look at a node, and make it, exactly if there is
a numbering of "looked at" and "made" in which everything comes after what the rules ask for: the
children and their `::` instances, the node's own `.ORDER` predecessors, and those of the parent
through which the node was reached.
*/
module BuildOrder {
  import opened BuildGraph
  import opened BuildRules

  type Numbering = map<nat, nat>

  // What is made before time t.
  ghost function MadeBefore(done: Numbering, t: nat): set<nat> {
    set n | n in done && done[n] < t
  }

  // Node n may be looked at as the i-th child of m.
  ghost predicate ReachedAt(g: Graph, strict: bool, D: set<nat>, m: nat, i: nat, n: nat)
    requires m < |g|
  {
    i < |g[m].children| && g[m].children[i] == n && (strict ==> WaitsPassed(g, D, m, i))
  }

  // Node n may be looked at when m was, and D is made.
  ghost predicate Reached(g: Graph, strict: bool, D: set<nat>, m: nat, n: nat)
    requires m < |g|
  {
    OrderReady(g, D, m) && (n in g[m].cohorts || exists i: nat :: ReachedAt(g, strict, D, m, i, n))
  }

  ghost predicate LookedThrough(g: Graph, strict: bool, look: Numbering, done: Numbering, n: nat, m: nat)
    requires n in look
  {
    m < |g| && m in look && look[m] < look[n] && Reached(g, strict, MadeBefore(done, look[n]), m, n)
  }

  ghost predicate LookOk(g: Graph, main: nat, strict: bool, look: Numbering, done: Numbering, n: nat) {
    n in look ==> n == main || exists m :: LookedThrough(g, strict, look, done, n, m)
  }

  ghost predicate DoneOk(g: Graph, fate: seq<Fate>, look: Numbering, done: Numbering, n: nat)
    requires |fate| == |g|
  {
    n in done ==>
      && n < |g| && n in look && look[n] < done[n] && Succeeds(fate[n])
      && OrderReady(g, MadeBefore(done, done[n]), n) && ChildrenDone(g, MadeBefore(done, done[n]), n)
  }

  // Everything that is numbered comes after what it needs.
  ghost predicate InOrder(g: Graph, main: nat, fate: seq<Fate>, strict: bool, look: Numbering, done: Numbering)
    requires |fate| == |g|
  {
    && (forall n: nat :: LookOk(g, main, strict, look, done, n))
    && (forall n: nat :: DoneOk(g, fate, look, done, n))
  }

  // ---------------------------------------------------------------- a numbering is a proof

  lemma MoreMade(g: Graph, strict: bool, D: set<nat>, D': set<nat>, m: nat, n: nat)
    requires m < |g| && D <= D'
    ensures Reached(g, strict, D, m, n) ==> Reached(g, strict, D', m, n)
    ensures OrderReady(g, D, m) ==> OrderReady(g, D', m)
    ensures ChildrenDone(g, D, m) ==> ChildrenDone(g, D', m)
  {
    if Reached(g, strict, D, m, n) && n !in g[m].cohorts {
      var i: nat :| ReachedAt(g, strict, D, m, i, n);
      assert ReachedAt(g, strict, D', m, i, n);
    }
  }

  lemma ReachedIsLookedAt(g: Graph, main: nat, fate: seq<Fate>, strict: bool, T: set<nat>, D: set<nat>, m: nat, n: nat)
    requires |fate| == |g| && Closed(g, main, fate, strict, T, D) && m < |g| && m in T && Reached(g, strict, D, m, n)
    ensures n in T
  {
    if n !in g[m].cohorts {
      var i: nat :| ReachedAt(g, strict, D, m, i, n);
      if strict {
        assert Scanned(g, T, D, m);
      }
    }
  }

  lemma {:induction false} LookedIsForced(g: Graph, main: nat, fate: seq<Fate>, strict: bool, look: Numbering, done: Numbering,
                                          T: set<nat>, D: set<nat>, n: nat)
    requires |fate| == |g| && InOrder(g, main, fate, strict, look, done) && Closed(g, main, fate, strict, T, D)
    requires n in look
    ensures n in T
    decreases look[n], 1
  {
    assert LookOk(g, main, strict, look, done, n);
    if n != main {
      var m :| LookedThrough(g, strict, look, done, n, m);
      LookedIsForced(g, main, fate, strict, look, done, T, D, m);
      EarlierIsForced(g, main, fate, strict, look, done, T, D, look[n]);
      MoreMade(g, strict, MadeBefore(done, look[n]), D, m, n);
      ReachedIsLookedAt(g, main, fate, strict, T, D, m, n);
    }
  }

  lemma {:induction false} EarlierIsForced(g: Graph, main: nat, fate: seq<Fate>, strict: bool, look: Numbering, done: Numbering,
                                           T: set<nat>, D: set<nat>, t: nat)
    requires |fate| == |g| && InOrder(g, main, fate, strict, look, done) && Closed(g, main, fate, strict, T, D)
    ensures MadeBefore(done, t) <= D
    decreases t, 0
  {
    forall n | n in done && done[n] < t ensures n in D {
      MadeIsForced(g, main, fate, strict, look, done, T, D, n);
    }
  }

  lemma {:induction false} MadeIsForced(g: Graph, main: nat, fate: seq<Fate>, strict: bool, look: Numbering, done: Numbering,
                                        T: set<nat>, D: set<nat>, n: nat)
    requires |fate| == |g| && InOrder(g, main, fate, strict, look, done) && Closed(g, main, fate, strict, T, D)
    requires n in done
    ensures n in D
    decreases done[n], 1
  {
    assert DoneOk(g, fate, look, done, n);
    LookedIsForced(g, main, fate, strict, look, done, T, D, n);
    EarlierIsForced(g, main, fate, strict, look, done, T, D, done[n]);
    MoreMade(g, strict, MadeBefore(done, done[n]), D, n, n);
  }

  // ---------------------------------------------------------------- a numbering of everything

  predicate Bounded(num: Numbering, t: nat) {
    forall n :: n in num ==> num[n] < t
  }

  lemma LookMore(g: Graph, main: nat, fate: seq<Fate>, strict: bool, look: Numbering, done: Numbering, t: nat, m: nat, n: nat)
    requires |fate| == |g| && InOrder(g, main, fate, strict, look, done) && Bounded(look, t) && Bounded(done, t)
    requires m < |g| && m in look && Reached(g, strict, done.Keys, m, n) && n !in look
    ensures InOrder(g, main, fate, strict, look[n := t], done)
  {
    var look' := look[n := t];
    assert MadeBefore(done, t) == done.Keys;
    assert LookedThrough(g, strict, look', done, n, m);
    forall x: nat ensures LookOk(g, main, strict, look', done, x) {
      assert LookOk(g, main, strict, look, done, x);
      if x in look && x != main {
        var y :| LookedThrough(g, strict, look, done, x, y);
        assert LookedThrough(g, strict, look', done, x, y);
      }
    }
    forall x: nat ensures DoneOk(g, fate, look', done, x) {
      assert DoneOk(g, fate, look, done, x);
    }
  }

  lemma DoneMore(g: Graph, main: nat, fate: seq<Fate>, strict: bool, look: Numbering, done: Numbering, t: nat, n: nat)
    requires |fate| == |g| && InOrder(g, main, fate, strict, look, done) && Bounded(look, t) && Bounded(done, t)
    requires n < |g| && n in look && n !in done && Succeeds(fate[n])
    requires OrderReady(g, done.Keys, n) && ChildrenDone(g, done.Keys, n)
    ensures InOrder(g, main, fate, strict, look, done[n := t])
  {
    var done' := done[n := t];
    assert MadeBefore(done', t) == done.Keys;
    forall x: nat ensures LookOk(g, main, strict, look, done', x) {
      assert LookOk(g, main, strict, look, done, x);
      if x in look && x != main {
        var y :| LookedThrough(g, strict, look, done, x, y);
        assert MadeBefore(done', look[x]) == MadeBefore(done, look[x]);
        assert LookedThrough(g, strict, look, done', x, y);
      }
    }
    forall x: nat ensures DoneOk(g, fate, look, done', x) {
      assert DoneOk(g, fate, look, done, x);
      if x in done {
        assert MadeBefore(done', done[x]) == MadeBefore(done, done[x]);
      }
    }
  }

  // Nothing more can be looked at or made.
  ghost predicate Exhausted(g: Graph, fate: seq<Fate>, strict: bool, T: set<nat>, D: set<nat>)
    requires |fate| == |g|
  {
    && (forall m: nat, n: nat :: m < |g| && m in T && Reached(g, strict, D, m, n) ==> n in T)
    && (forall n: nat :: n < |g| && n in T && OrderReady(g, D, n) && ChildrenDone(g, D, n) && Succeeds(fate[n]) ==> n in D)
  }

  lemma ExhaustedIsClosed(g: Graph, main: nat, fate: seq<Fate>, strict: bool, T: set<nat>, D: set<nat>)
    requires |fate| == |g| && main in T && Exhausted(g, fate, strict, T, D)
    ensures Closed(g, main, fate, strict, T, D)
  {
    forall n: nat | n < |g| && n in T && OrderReady(g, D, n)
      ensures forall q :: q in g[n].cohorts ==> q in T
      ensures forall i :: 0 <= i < |g[n].children| && (strict ==> WaitsPassed(g, D, n, i)) ==> g[n].children[i] in T
    {
      forall q | q in g[n].cohorts ensures q in T {
        assert Reached(g, strict, D, n, q);
      }
      forall i | 0 <= i < |g[n].children| && (strict ==> WaitsPassed(g, D, n, i)) ensures g[n].children[i] in T {
        assert ReachedAt(g, strict, D, n, i, g[n].children[i]);
        assert Reached(g, strict, D, n, g[n].children[i]);
      }
    }
  }

  ghost predicate InGraph(g: Graph, num: Numbering) { forall n :: n in num ==> n < |g| }

  lemma ReachedIsNode(g: Graph, strict: bool, D: set<nat>, m: nat, n: nat)
    requires WellFormed(g) && m < |g| && Reached(g, strict, D, m, n)
    ensures n < |g|
  {
    assert NodeWf(g, m);
    if n !in g[m].cohorts {
      var i: nat :| ReachedAt(g, strict, D, m, i, n);
      assert g[m].children[i] in g[m].children;
    }
  }

  ghost function Unnumbered(g: Graph, num: Numbering): set<nat> {
    set n: nat | n < |g| && n !in num
  }

  lemma OneLess(g: Graph, num: Numbering, n: nat, t: nat)
    requires n < |g| && n !in num
    ensures |Unnumbered(g, num[n := t])| < |Unnumbered(g, num)|
  {
    assert Unnumbered(g, num) == Unnumbered(g, num[n := t]) + {n};
  }

  // Going on as long as something can be looked at or made gives a numbering of everything.
  lemma {:induction false} GoOn(g: Graph, main: nat, fate: seq<Fate>, strict: bool, look: Numbering, done: Numbering, t: nat)
    returns (look': Numbering, done': Numbering)
    requires WellFormed(g) && |fate| == |g| && main in look
    requires InOrder(g, main, fate, strict, look, done) && Bounded(look, t) && Bounded(done, t) && InGraph(g, look)
    ensures InOrder(g, main, fate, strict, look', done') && main in look' && Closed(g, main, fate, strict, look'.Keys, done'.Keys)
    decreases |Unnumbered(g, look)| + |Unnumbered(g, done)|
  {
    if m: nat, n: nat :| m < |g| && m in look && Reached(g, strict, done.Keys, m, n) && n !in look {
      LookMore(g, main, fate, strict, look, done, t, m, n);
      ReachedIsNode(g, strict, done.Keys, m, n);
      OneLess(g, look, n, t);
      look', done' := GoOn(g, main, fate, strict, look[n := t], done, t + 1);
    } else if n: nat :| n < |g| && n in look && OrderReady(g, done.Keys, n) && ChildrenDone(g, done.Keys, n) && Succeeds(fate[n]) && n !in done {
      DoneMore(g, main, fate, strict, look, done, t, n);
      OneLess(g, done, n, t);
      look', done' := GoOn(g, main, fate, strict, look, done[n := t], t + 1);
    } else {
      look', done' := look, done;
      ExhaustedIsClosed(g, main, fate, strict, look.Keys, done.Keys);
    }
  }

  // A numbering that begins with the main target and leaves nothing out.
  lemma NumberAll(g: Graph, main: nat, fate: seq<Fate>, strict: bool) returns (look: Numbering, done: Numbering)
    requires WellFormed(g) && |fate| == |g| && main < |g|
    ensures InOrder(g, main, fate, strict, look, done) && main in look && Closed(g, main, fate, strict, look.Keys, done.Keys)
    ensures look.Keys == Needed(g, main, fate, strict) && done.Keys == Buildable(g, main, fate, strict)
  {
    look, done := map[main := 0], map[];
    look, done := GoOn(g, main, fate, strict, look, done, 1);
    var T, D := Needed(g, main, fate, strict), Buildable(g, main, fate, strict);
    LeastIsClosed(g, main, fate, strict);
    forall n | n in look ensures n in T {
      LookedIsForced(g, main, fate, strict, look, done, T, D, n);
    }
    forall n | n in done ensures n in D {
      MadeIsForced(g, main, fate, strict, look, done, T, D, n);
    }
  }

  // What a build looks at, and what it makes, is what can be numbered in order.
  lemma NumberedExactly(g: Graph, main: nat, fate: seq<Fate>, strict: bool, n: nat)
    requires WellFormed(g) && |fate| == |g| && main < |g|
    ensures n in Needed(g, main, fate, strict) <==>
            exists look, done :: InOrder(g, main, fate, strict, look, done) && n in look
    ensures n in Buildable(g, main, fate, strict) <==>
            exists look, done :: InOrder(g, main, fate, strict, look, done) && n in done
  {
    var look0, done0 := NumberAll(g, main, fate, strict);
    var T, D := Needed(g, main, fate, strict), Buildable(g, main, fate, strict);
    LeastIsClosed(g, main, fate, strict);
    forall look, done | InOrder(g, main, fate, strict, look, done)
      ensures n in look ==> n in T
      ensures n in done ==> n in D
    {
      if n in look {
        LookedIsForced(g, main, fate, strict, look, done, T, D, n);
      }
      if n in done {
        MadeIsForced(g, main, fate, strict, look, done, T, D, n);
      }
    }
  }

  // The numbered nodes are closed under the edges of the graph, and all of them are made.
  ghost predicate Complete(g: Graph, main: nat, look: Numbering, done: Numbering) {
    && main in look && look.Keys <= done.Keys
    && (forall n, c :: 0 <= n < |g| && n in look && c in g[n].children ==> c in look)
    && (forall n, q :: 0 <= n < |g| && n in look && q in g[n].cohorts ==> q in look)
  }

  // Everything that is looked at is made exactly if all that the main target depends on can be
  // numbered in order.
  lemma AllMadeExactly(g: Graph, main: nat, fate: seq<Fate>, strict: bool)
    requires WellFormed(g) && |fate| == |g| && main < |g|
    ensures Needed(g, main, fate, strict) <= Buildable(g, main, fate, strict) <==>
            exists look, done :: InOrder(g, main, fate, strict, look, done) && Complete(g, main, look, done)
  {
    var T, D := Needed(g, main, fate, strict), Buildable(g, main, fate, strict);
    LeastIsClosed(g, main, fate, strict);
    if T <= D {
      var look, done := NumberAll(g, main, fate, strict);
      NeededIsComplete(g, main, fate, strict, look, done);
    }
    if look, done :| InOrder(g, main, fate, strict, look, done) && Complete(g, main, look, done) {
      assert Closed(g, main, fate, strict, look.Keys, look.Keys);
      forall n | n in T ensures n in D {
        assert AlwaysLookedAt(g, main, fate, strict, n);
        MadeIsForced(g, main, fate, strict, look, done, T, D, n);
      }
    }
  }

  lemma NeededIsComplete(g: Graph, main: nat, fate: seq<Fate>, strict: bool, look: Numbering, done: Numbering)
    requires |fate| == |g| && InOrder(g, main, fate, strict, look, done) && main in look && look.Keys <= done.Keys
    requires Closed(g, main, fate, strict, look.Keys, done.Keys)
    ensures Complete(g, main, look, done)
  {
    forall n | 0 <= n < |g| && n in look
      ensures forall c :: c in g[n].children ==> c in look
      ensures forall q :: q in g[n].cohorts ==> q in look
    {
      assert DoneOk(g, fate, look, done, n);
      MoreMade(g, strict, MadeBefore(done, done[n]), done.Keys, n, n);
      forall c | c in g[n].children ensures c in look {
        assert AllDone(g, done.Keys, c) && DoneOk(g, fate, look, done, c);
      }
    }
  }
}
