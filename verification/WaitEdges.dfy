/**
Make_ProcessWait of make.c: before a parallel build, every `.WAIT` among the children of a node
is made to depend on what stands between it and the `.WAIT` before it. In the build, a `.WAIT`
is then done only after everything before it.
*/
module WaitEdges {
  import opened Wrappers
  import opened BuildGraph
  import opened BuildRules
  import opened ScheduleState

  // ---------------------------------------------------------------- linked lists of children

  // The place of the last `.WAIT` before i, or 0 if there is none.
  function WaitBefore(g: Graph, list: seq<nat>, i: nat): (k: nat)
    requires i <= |list|
    ensures k <= i && (k == i ==> i == 0)
  {
    if i == 0 then 0
    else if IsWait(g, list[i - 1]) then i - 1
    else WaitBefore(g, list, i - 1)
  }

  lemma {:induction false} WaitBeforeIsWait(g: Graph, list: seq<nat>, i: nat)
    requires i <= |list|
    ensures var k := WaitBefore(g, list, i); k == 0 || (k < |list| && IsWait(g, list[k]))
  {
    if i > 0 && !IsWait(g, list[i - 1]) {
      WaitBeforeIsWait(g, list, i - 1);
    }
  }

  // The `.WAIT` at i depends on all that stands between it and the one before it.
  ghost predicate WaitLinkedAt(g: Graph, list: seq<nat>, i: nat)
    requires i < |list|
  {
    IsWait(g, list[i]) ==> forall j :: WaitBefore(g, list, i) <= j < i ==> list[j] in g[list[i]].children
  }

  ghost predicate LinkedUpTo(g: Graph, list: seq<nat>, i: nat) {
    i <= |list| && forall j :: 0 <= j < i ==> WaitLinkedAt(g, list, j)
  }

  // A list without repeated `.WAIT` nodes, as each is created for its place.
  ghost predicate ListOk(g: Graph, list: seq<nat>) {
    forall i, j :: 0 <= i < j < |list| && IsWait(g, list[i]) ==> list[i] != list[j]
  }

  // ---------------------------------------------------------------- adding an edge

  function AddEdge(g: Graph, w: nat, c: nat): Graph
    requires w < |g| && c < |g|
  {
    var g1 := g[w := g[w].(children := g[w].children + [c])];
    g1[c := g1[c].(parents := g1[c].parents + [w])]
  }

  ghost predicate MayDepend(g: Graph, w: nat, c: nat) {
    && WellFormed(g) && w < |g| && c < |g| && w != c
    && g[w].wait && g[c].centurion == None && (g[w].remake ==> g[c].remake)
  }

  // What of a node is not an edge.
  function Fixed(node: Node): Node { node.(children := [], parents := []) }

  lemma FixedAfterEdge(g: Graph, w: nat, c: nat, n: nat)
    requires w < |g| && c < |g| && w != c && n < |g|
    ensures var g' := AddEdge(g, w, c);
      && Fixed(g'[n]) == Fixed(g[n])
      && g'[n].children == (if n == w then g[n].children + [c] else g[n].children)
      && g'[n].parents == (if n == c then g[n].parents + [w] else g[n].parents)
  {
  }

  lemma CohortsAfterEdge(g: Graph, w: nat, c: nat, n: nat, q: nat)
    requires MayDepend(g, w, c) && n < |g| && q in g[n].cohorts
    ensures q < |g| && CohortShape(AddEdge(g, w, c)[q], n)
  {
    assert NodeWf(g, n) && CohortShape(g[q], n);
    FixedAfterEdge(g, w, c, q);
  }

  lemma ChildrenAfterEdge(g: Graph, w: nat, c: nat, n: nat)
    requires MayDepend(g, w, c) && n < |g|
    ensures var g' := AddEdge(g, w, c); forall x :: x in g'[n].children ==> x < |g| && (g[n].remake ==> g[x].remake)
    ensures var g' := AddEdge(g, w, c); forall x :: x in g'[n].parents ==> x < |g|
  {
    assert NodeWf(g, n);
    FixedAfterEdge(g, w, c, n);
  }

  lemma NodeAfterEdge(g: Graph, w: nat, c: nat, n: nat)
    requires MayDepend(g, w, c) && n < |g|
    ensures NodeWf(AddEdge(g, w, c), n)
  {
    var g' := AddEdge(g, w, c);
    assert NodeWf(g, n);
    ChildrenAfterEdge(g, w, c, n);
    FixedAfterEdge(g, w, c, n);
    forall x: nat | x < |g| ensures Fixed(g'[x]) == Fixed(g[x]) {
      FixedAfterEdge(g, w, c, x);
    }
    forall q | q in g[n].cohorts ensures CohortShape(g'[q], n) {
      CohortsAfterEdge(g, w, c, n, q);
    }
  }

  // A dependency of a `.WAIT` on a sibling is recorded at both its ends, and the graph is still
  // one that can be built.
  lemma EdgeAdded(g: Graph, w: nat, c: nat)
    requires MayDepend(g, w, c)
    ensures WellFormed(AddEdge(g, w, c))
  {
    var g' := AddEdge(g, w, c);
    forall n | 0 <= n < |g| ensures NodeWf(g', n) {
      NodeAfterEdge(g, w, c, n);
    }
    forall x, y | 0 <= x < |g| && 0 <= y < |g| ensures EdgesMatch(g', x, y) {
      assert EdgesMatch(g, x, y);
    }
  }

  // The `.WAIT` w is at place i of the list, and x between it and the `.WAIT` before it.
  ghost predicate NewEdgeAt(g: Graph, list: seq<nat>, w: nat, x: nat, i: nat, j: nat) {
    i < |list| && list[i] == w && IsWait(g, w) && WaitBefore(g, list, i) <= j < i && list[j] == x
  }

  ghost predicate NewEdge(g: Graph, list: seq<nat>, w: nat, x: nat) {
    exists i: nat, j: nat :: NewEdgeAt(g, list, w, x, i, j)
  }

  // What stays as it is while the `.WAIT` nodes of a list are linked: everything but the lists of
  // the `.WAIT` nodes, which grow by such edges alone, and the parents.
  ghost predicate Grown(was: Graph, now: Graph, list: seq<nat>, n: nat)
    requires n < |was| == |now|
  {
    && now[n].wait == was[n].wait && now[n].cohorts == was[n].cohorts && now[n].remake == was[n].remake
    && (if was[n].wait then
          && (forall x :: x in was[n].children ==> x in now[n].children)
          && (forall x :: x in now[n].children ==> x in was[n].children || NewEdge(was, list, n, x))
        else now[n].children == was[n].children)
  }

  ghost predicate AllGrown(was: Graph, now: Graph, list: seq<nat>) {
    |was| == |now| && forall n :: 0 <= n < |was| ==> Grown(was, now, list, n)
  }

  lemma {:induction false} WaitBeforeSame(was: Graph, now: Graph, list: seq<nat>, of: seq<nat>, i: nat)
    requires AllGrown(was, now, of) && i <= |list|
    ensures WaitBefore(was, list, i) == WaitBefore(now, list, i)
  {
    if i > 0 {
      assert list[i - 1] < |was| ==> Grown(was, now, of, list[i - 1]);
      WaitBeforeSame(was, now, list, of, i - 1);
    }
  }

  lemma LinkedStays(was: Graph, now: Graph, list: seq<nat>, of: seq<nat>, i: nat)
    requires AllGrown(was, now, of) && i < |list| && WaitLinkedAt(was, list, i)
    ensures WaitLinkedAt(now, list, i)
  {
    WaitBeforeSame(was, now, list, of, i);
    assert list[i] < |was| ==> Grown(was, now, of, list[i]);
  }

  lemma LinkedUpToStays(was: Graph, now: Graph, list: seq<nat>, of: seq<nat>, i: nat)
    requires AllGrown(was, now, of) && LinkedUpTo(was, list, i)
    ensures LinkedUpTo(now, list, i)
  {
    forall j | 0 <= j < i ensures WaitLinkedAt(now, list, j) {
      LinkedStays(was, now, list, of, j);
    }
  }

  // Only `.WAIT` nodes have new dependencies, and each of these is on a sibling between it and the
  // `.WAIT` before it, in the list of a node that has been dealt with.
  ghost predicate Added(was: Graph, doneWait: seq<bool>, w: nat, x: nat, n: nat) {
    n < |was| && n < |doneWait| && doneWait[n] && !was[n].wait && NewEdge(was, was[n].children, w, x)
  }

  ghost predicate ListKept(was: Graph, now: Graph, doneWait: seq<bool>, n: nat)
    requires n < |was| == |now|
  {
    && now[n].wait == was[n].wait && now[n].cohorts == was[n].cohorts
    && (!was[n].wait ==> now[n].children == was[n].children)
    && (forall x :: x in was[n].children ==> x in now[n].children)
    && (forall x :: x in now[n].children ==> x in was[n].children || exists m: nat :: Added(was, doneWait, n, x, m))
  }

  ghost predicate ListsKept(was: Graph, now: Graph, doneWait: seq<bool>) {
    |was| == |now| && forall n :: 0 <= n < |was| ==> ListKept(was, now, doneWait, n)
  }

  lemma {:induction false} WaitBeforeKept(a: Graph, b: Graph, doneWait: seq<bool>, list: seq<nat>, i: nat)
    requires ListsKept(a, b, doneWait) && i <= |list|
    ensures WaitBefore(a, list, i) == WaitBefore(b, list, i)
  {
    if i > 0 {
      assert list[i - 1] < |a| ==> ListKept(a, b, doneWait, list[i - 1]);
      WaitBeforeKept(a, b, doneWait, list, i - 1);
    }
  }

  lemma NewEdgeKept(a: Graph, b: Graph, doneWait: seq<bool>, list: seq<nat>, w: nat, x: nat)
    requires ListsKept(a, b, doneWait) && w < |a| && NewEdge(b, list, w, x)
    ensures NewEdge(a, list, w, x)
  {
    var i: nat, j: nat :| NewEdgeAt(b, list, w, x, i, j);
    assert ListKept(a, b, doneWait, w);
    WaitBeforeKept(a, b, doneWait, list, i);
    assert NewEdgeAt(a, list, w, x, i, j);
  }

  // Linking the `.WAIT` nodes of one more list.
  lemma ListsKeptToo(a: Graph, b: Graph, c: Graph, doneWait: seq<bool>, pgn: nat)
    requires ListsKept(a, b, doneWait) && pgn < |b| == |doneWait| && !b[pgn].wait && AllGrown(b, c, b[pgn].children)
    ensures ListsKept(a, c, doneWait[pgn := true])
  {
    var done' := doneWait[pgn := true];
    assert ListKept(a, b, doneWait, pgn);
    forall n | 0 <= n < |a| ensures ListKept(a, c, done', n) {
      assert ListKept(a, b, doneWait, n) && Grown(b, c, b[pgn].children, n);
      forall x | x in c[n].children && x !in a[n].children ensures exists m: nat :: Added(a, done', n, x, m) {
        if x in b[n].children {
          var m: nat :| Added(a, doneWait, n, x, m);
          assert Added(a, done', n, x, m);
        } else {
          NewEdgeKept(a, b, doneWait, b[pgn].children, n, x);
          assert Added(a, done', n, x, pgn);
        }
      }
    }
  }

  lemma NothingAdded(g: Graph, doneWait: seq<bool>)
    ensures ListsKept(g, g, doneWait)
  {
    forall n | 0 <= n < |g| ensures ListKept(g, g, doneWait, n) {
    }
  }

  // ---------------------------------------------------------------- the walk over the graph

  // A node whose list has been dealt with: its `.WAIT` nodes are linked, and its other children
  // and its `::` instances have been, or will be, dealt with.
  ghost predicate Examined(g: Graph, doneWait: seq<bool>, examine: seq<nat>, n: nat)
    requires n < |g| == |doneWait|
  {
    doneWait[n] ==>
      && !g[n].wait && LinkedUpTo(g, g[n].children, |g[n].children|)
      && (forall c :: c in g[n].children && c < |g| && !g[c].wait ==> doneWait[c] || c in examine)
      && (forall q :: q in g[n].cohorts && q < |g| ==> doneWait[q] || q in examine)
  }

  // What a `.WAIT` depends on has been, or will be, dealt with, too.
  ghost predicate WaitsFollowed(g: Graph, doneWait: seq<bool>, examine: seq<nat>, n: nat)
    requires n < |g| == |doneWait|
  {
    g[n].wait ==> forall c :: c in g[n].children && c < |g| && !g[c].wait ==> doneWait[c] || c in examine
  }

  ghost predicate Walked(g: Graph, doneWait: seq<bool>, examine: seq<nat>) {
    && |doneWait| == |g|
    && forall n :: 0 <= n < |g| ==> Examined(g, doneWait, examine, n) && WaitsFollowed(g, doneWait, examine, n)
  }

  // Nodes to be remade that are not `.WAIT` ones.
  ghost predicate Targets(g: Graph, list: seq<nat>) {
    forall i :: 0 <= i < |list| ==> list[i] < |g| && !g[list[i]].wait && g[list[i]].remake
  }

  lemma TargetsJoin(g: Graph, a: seq<nat>, b: seq<nat>)
    requires Targets(g, a) && Targets(g, b)
    ensures Targets(g, a + b)
  {
  }

  lemma TargetsStay(was: Graph, now: Graph, of: seq<nat>, list: seq<nat>)
    requires AllGrown(was, now, of) && Targets(was, list)
    ensures Targets(now, list)
  {
    forall i | 0 <= i < |list| ensures list[i] < |now| && !now[list[i]].wait && now[list[i]].remake {
      assert Grown(was, now, of, list[i]);
    }
  }

  lemma CohortsAreTargets(g: Graph, n: nat)
    requires WellFormed(g) && n < |g| && g[n].remake
    ensures Targets(g, g[n].cohorts)
  {
    assert NodeWf(g, n);
    forall i | 0 <= i < |g[n].cohorts| ensures g[n].cohorts[i] < |g| {
      assert g[n].cohorts[i] in g[n].cohorts;
    }
    assert forall i :: 0 <= i < |g[n].cohorts| ==> CohortShape(g[g[n].cohorts[i]], n);
  }

  function Undone(doneWait: seq<bool>): nat {
    if doneWait == [] then 0 else (if doneWait[0] then 0 else 1) + Undone(doneWait[1..])
  }

  lemma {:induction false} UndoneLess(doneWait: seq<bool>, n: nat)
    requires n < |doneWait| && !doneWait[n]
    ensures Undone(doneWait[n := true]) < Undone(doneWait)
  {
    var doneWait' := doneWait[n := true];
    if n == 0 {
      assert doneWait'[1..] == doneWait[1..];
    } else {
      assert doneWait'[1..] == doneWait[1..][n - 1 := true];
      UndoneLess(doneWait[1..], n - 1);
    }
  }

  // One round of the walk: the first node of the list has been dealt with, now or before.
  lemma StillWalked(was: Graph, now: Graph, doneWait: seq<bool>, examine: seq<nat>, examine': seq<nat>, pgn: nat)
    requires Walked(was, doneWait, examine) && pgn < |was| && !was[pgn].wait && AllGrown(was, now, was[pgn].children)
    requires examine != [] && examine[0] == pgn && forall x :: x in examine[1..] ==> x in examine'
    requires if doneWait[pgn] then now == was else
               && LinkedUpTo(now, now[pgn].children, |now[pgn].children|)
               && (forall c :: c in now[pgn].children && c < |now| && !now[c].wait ==> c in examine')
               && (forall q :: q in now[pgn].cohorts ==> q in examine')
    ensures Walked(now, doneWait[pgn := true], examine')
  {
    var done' := doneWait[pgn := true];
    assert forall x :: x in examine ==> x == pgn || x in examine[1..];
    forall n | 0 <= n < |now| ensures Examined(now, done', examine', n) && WaitsFollowed(now, done', examine', n) {
      assert Grown(was, now, was[pgn].children, n) && Grown(was, now, was[pgn].children, pgn);
      assert Examined(was, doneWait, examine, n) && WaitsFollowed(was, doneWait, examine, n);
      forall c: nat | c < |now| ensures now[c].wait == was[c].wait {
        assert Grown(was, now, was[pgn].children, c);
      }
      if doneWait[n] {
        LinkedUpToStays(was, now, was[n].children, was[pgn].children, |was[n].children|);
      }
    }
  }

  // The state of Make_ProcessWait; the graph already has the root.
  class WaitProcessor {
    var g: Graph
    var unmade: seq<nat>
    var doneWait: seq<bool>

    ghost predicate Valid()
      reads this
    {
      && WellFormed(g) && |unmade| == |doneWait| == |g|
      && (forall n :: 0 <= n < |g| ==> unmade[n] == |g[n].children|)
      && (forall n :: 0 <= n < |g| && !g[n].wait ==> ListOk(g, g[n].children))
    }

    // `.WAIT` nodes come without dependencies of their own.
    constructor (g: Graph)
      requires WellFormed(g) && forall n :: 0 <= n < |g| ==> if g[n].wait then g[n].children == [] else ListOk(g, g[n].children)
      ensures Valid() && this.g == g && Walked(g, doneWait, [])
    {
      this.g := g;
      unmade := seq(|g|, n requires 0 <= n < |g| => |g[n].children|);
      doneWait := seq(|g|, n => false);
    }

    // One edge of add_wait_dependency.
    method AddChild(wn: nat, cn: nat)
      requires Valid() && MayDepend(g, wn, cn)
      modifies this`g, this`unmade
      ensures Valid() && g == AddEdge(old(g), wn, cn)
    {
      EdgeAdded(g, wn, cn);
      ghost var before := g;
      g := g[wn := g[wn].(children := g[wn].children + [cn])];
      unmade := unmade[wn := unmade[wn] + 1];
      g := g[cn := g[cn].(parents := g[cn].parents + [wn])];
      forall n | 0 <= n < |g| && !g[n].wait ensures ListOk(g, g[n].children) {
        ListAfterEdge(before, wn, cn, n);
      }
    }

    // add_wait_dependency: the `.WAIT` at place i depends on everything from place from on, and no
    // other list has changed.
    method AddWaitDependency(pgn: nat, from: nat, i: nat)
      requires Valid() && pgn < |g| && !g[pgn].wait && g[pgn].remake && i < |g[pgn].children|
      requires IsWait(g, g[pgn].children[i]) && from == WaitBefore(g, g[pgn].children, i)
      modifies this`g, this`unmade
      ensures Valid()
      ensures var list := old(g[pgn].children); OnlyAdded(old(g), g, list[i], list[from..i])
    {
      var list, wn, c := g[pgn].children, g[pgn].children[i], from;
      ghost var was := g;
      NothingMore(g, wn, list[from..from]);
      assert ListOk(was, list);
      while list[c] != wn
        invariant from <= c <= i && Valid() && OnlyAdded(was, g, wn, list[from..c])
        decreases i - c
      {
        ghost var before := g;
        SiblingMayBeAdded(was, g, pgn, list, i, c, list[from..c]);
        AddChild(wn, list[c]);
        AddedOneMore(was, before, g, wn, list, from, c);
        c := c + 1;
      }
      assert c == i;
    }

    // The children of one node: link the `.WAIT` nodes, and collect the others. Every list has grown
    // by exactly the links that its node is due.
    method ExamineChildren(pgn: nat) returns (others: seq<nat>)
      requires Valid() && pgn < |g| && !g[pgn].wait && g[pgn].remake
      modifies this`g, this`unmade
      ensures Valid() && ListsAt(old(g), g, old(g[pgn].children), |old(g[pgn].children)|)
      ensures Targets(old(g), others) && forall c :: c in old(g[pgn].children) && c < |g| && !old(g)[c].wait ==> c in others
    {
      var list := g[pgn].children;
      ghost var was := g;
      others := [];
      var owln, i := 0, 0;
      NoLinks(g, list);
      while i < |list|
        invariant i <= |list| && Valid() && ListsAt(was, g, list, i) && owln == WaitBefore(was, list, i)
        invariant Targets(was, others)
        invariant forall j :: 0 <= j < i && list[j] < |g| && !was[list[j]].wait ==> list[j] in others
      {
        ghost var before := g;
        StillListed(was, g, list, i, pgn);
        var cgn := list[i];
        if g[cgn].wait {
          AddWaitDependency(pgn, owln, i);
          OneMoreLinked(was, before, g, list, i);
          owln := i;
        } else {
          others := others + [cgn];
          NoneMoreLinked(was, g, list, i);
        }
        i := i + 1;
      }
    }

    // The loop of Make_ProcessWait, from the root on.
    method ProcessWait(main: nat)
      requires Valid() && main < |g| && !g[main].wait && g[main].remake && Walked(g, doneWait, [])
      modifies this
      ensures Valid() && main < |g| && doneWait[main] && Walked(g, doneWait, []) && ListsKept(old(g), g, doneWait)
    {
      var examine: seq<nat> := [main];
      WalkedMore(g, doneWait, examine);
      NothingAdded(g, doneWait);
      while examine != []
        invariant Valid() && main < |g| && (doneWait[main] || main in examine) && ListsKept(old(g), g, doneWait)
        invariant Targets(g, examine) && Walked(g, doneWait, examine)
        decreases Undone(doneWait), |examine|
      {
        var pgn := examine[0];
        ghost var was, before, done0 := examine, g, doneWait;
        examine := examine[1..];
        NotGrown(g, g[pgn].children);
        if !doneWait[pgn] {
          doneWait := doneWait[pgn := true];
          UndoneLess(done0, pgn);
          var others := ExamineChildren(pgn);
          ListsAreGrown(before, g, before[pgn].children, |before[pgn].children|);
          ListsKeptToo(old(g), before, g, done0, pgn);
          TargetsStay(before, g, before[pgn].children, examine);
          TargetsStay(before, g, before[pgn].children, others);
          SameWaits(before, g, before[pgn].children);
          assert Grown(before, g, before[pgn].children, pgn);
          CohortsAreTargets(g, pgn);
          TargetsJoin(g, g[pgn].cohorts, examine);
          TargetsJoin(g, g[pgn].cohorts + examine, others);
          examine := g[pgn].cohorts + examine + others;
        }
        assert doneWait == done0[pgn := true];
        StillWalked(before, g, done0, was, examine, pgn);
      }
    }
  }

  lemma ListAfterEdge(g: Graph, w: nat, c: nat, n: nat)
    requires w < |g| && c < |g| && w != c && n < |g| && n != w && ListOk(g, g[n].children)
    ensures ListOk(AddEdge(g, w, c), AddEdge(g, w, c)[n].children)
  {
    var g', list := AddEdge(g, w, c), g[n].children;
    assert g'[n].children == list;
    forall i, j | 0 <= i < j < |list| && IsWait(g', list[i]) ensures list[i] != list[j] {
      assert IsWait(g, list[i]);
    }
  }

  // The list of w has grown by the given nodes, and no other list has.
  ghost predicate AddedAt(was: Graph, now: Graph, w: nat, more: seq<nat>, n: nat)
    requires n < |was| == |now|
  {
    && now[n].children == (if n == w then was[n].children + more else was[n].children)
    && Fixed(now[n]) == Fixed(was[n])
  }

  ghost predicate OnlyAdded(was: Graph, now: Graph, w: nat, more: seq<nat>) {
    |was| == |now| && w < |was| && forall n :: 0 <= n < |was| ==> AddedAt(was, now, w, more, n)
  }

  lemma NothingMore(g: Graph, w: nat, none: seq<nat>)
    requires w < |g| && none == []
    ensures OnlyAdded(g, g, w, none)
  {
    forall n | 0 <= n < |g| ensures AddedAt(g, g, w, none, n) {
    }
  }

  lemma AddedOneMore(was: Graph, before: Graph, now: Graph, w: nat, list: seq<nat>, from: nat, c: nat)
    requires from <= c < |list| && OnlyAdded(was, before, w, list[from..c]) && list[c] < |before| && w != list[c]
    requires now == AddEdge(before, w, list[c])
    ensures OnlyAdded(was, now, w, list[from..c + 1])
  {
    var more, x := list[from..c], list[c];
    assert list[from..c + 1] == more + [x];
    forall n | 0 <= n < |was| ensures AddedAt(was, now, w, more + [x], n) {
      assert AddedAt(was, before, w, more, n);
      FixedAfterEdge(before, w, x, n);
      assert was[n].children + more + [x] == was[n].children + (more + [x]);
    }
  }

  lemma NotGrown(g: Graph, list: seq<nat>)
    ensures AllGrown(g, g, list)
  {
  }

  lemma WalkedMore(g: Graph, doneWait: seq<bool>, examine: seq<nat>)
    requires Walked(g, doneWait, [])
    ensures Walked(g, doneWait, examine)
  {
    forall n | 0 <= n < |g| ensures Examined(g, doneWait, examine, n) && WaitsFollowed(g, doneWait, examine, n) {
      assert Examined(g, doneWait, [], n) && WaitsFollowed(g, doneWait, [], n);
    }
  }

  lemma ListedChild(g: Graph, p: nat, i: nat)
    requires WellFormed(g) && p < |g| && i < |g[p].children|
    ensures var c := g[p].children[i]; c < |g| && g[c].centurion == None && (g[p].remake ==> g[c].remake)
  {
    assert g[p].children[i] in g[p].children;
    ChildIsFirstInstance(g, p, g[p].children[i]);
    assert NodeWf(g, p);
  }

  lemma SiblingMayBeAdded(was: Graph, now: Graph, pgn: nat, list: seq<nat>, i: nat, c: nat, more: seq<nat>)
    requires WellFormed(was) && WellFormed(now) && i < |list| && OnlyAdded(was, now, list[i], more)
    requires pgn < |was| && !was[pgn].wait && was[pgn].remake && list == was[pgn].children
    requires c < |list| && list[c] != list[i] && IsWait(was, list[i])
    ensures MayDepend(now, list[i], list[c])
  {
    assert AddedAt(was, now, list[i], more, pgn) && AddedAt(was, now, list[i], more, list[i]);
    assert Fixed(now[pgn]).remake && Fixed(now[list[i]]).wait;
    ListedChild(now, pgn, c);
    ListedChild(now, pgn, i);
  }

  // The links that n is due for the first i places of a list: to what stands between it and the
  // `.WAIT` before it, wherever it stands.
  function LinksOf(g: Graph, list: seq<nat>, i: nat, n: nat): seq<nat>
    requires i <= |list|
  {
    if i == 0 then []
    else if list[i - 1] == n && IsWait(g, n) then LinksOf(g, list, i - 1, n) + list[WaitBefore(g, list, i - 1)..i - 1]
    else LinksOf(g, list, i - 1, n)
  }

  ghost predicate ListAt(was: Graph, now: Graph, list: seq<nat>, i: nat, n: nat)
    requires n < |was| == |now| && i <= |list|
  {
    now[n].children == was[n].children + LinksOf(was, list, i, n) && Fixed(now[n]) == Fixed(was[n])
  }

  ghost predicate ListsAt(was: Graph, now: Graph, list: seq<nat>, i: nat) {
    i <= |list| && |was| == |now| && forall n :: 0 <= n < |was| ==> ListAt(was, now, list, i, n)
  }

  lemma NoLinks(g: Graph, list: seq<nat>)
    ensures ListsAt(g, g, list, 0)
  {
    forall n | 0 <= n < |g| ensures ListAt(g, g, list, 0, n) {
    }
  }

  lemma {:induction false} LinksAreNew(g: Graph, list: seq<nat>, i: nat, n: nat, x: nat)
    requires i <= |list|
    ensures x in LinksOf(g, list, i, n) <==> exists k: nat, j: nat :: k < i && NewEdgeAt(g, list, n, x, k, j)
  {
    if i > 0 {
      var k, from := i - 1, WaitBefore(g, list, i - 1);
      LinksAreNew(g, list, k, n, x);
      if list[k] == n && IsWait(g, n) {
        if x in list[from..k] {
          var j :| 0 <= j < |list[from..k]| && list[from..k][j] == x;
          assert NewEdgeAt(g, list, n, x, k, from + j);
        }
        forall j: nat | NewEdgeAt(g, list, n, x, k, j) ensures x in list[from..k] {
          assert list[from..k][j - from] == x;
        }
      }
    }
  }

  // The lists have grown by new edges alone, and the `.WAIT` nodes are linked.
  lemma ListsAreGrown(was: Graph, now: Graph, list: seq<nat>, i: nat)
    requires ListsAt(was, now, list, i)
    ensures AllGrown(was, now, list) && LinkedUpTo(now, list, i)
  {
    forall n | 0 <= n < |was| ensures Grown(was, now, list, n) {
      assert ListAt(was, now, list, i, n);
      assert Fixed(now[n]).wait == was[n].wait && Fixed(now[n]).cohorts == was[n].cohorts && Fixed(now[n]).remake == was[n].remake;
      forall x | x in now[n].children && x !in was[n].children ensures NewEdge(was, list, n, x) && was[n].wait {
        LinksAreNew(was, list, i, n, x);
        var k: nat, j: nat :| k < i && NewEdgeAt(was, list, n, x, k, j);
      }
      if !was[n].wait {
        NoLinksOfTarget(was, list, i, n);
      }
    }
    forall k | 0 <= k < i ensures WaitLinkedAt(now, list, k) {
      if IsWait(now, list[k]) {
        LinkedAt(was, now, list, i, k);
      }
    }
  }

  lemma {:induction false} NoLinksOfTarget(g: Graph, list: seq<nat>, i: nat, n: nat)
    requires i <= |list| && !IsWait(g, n)
    ensures LinksOf(g, list, i, n) == []
  {
    if i > 0 {
      NoLinksOfTarget(g, list, i - 1, n);
    }
  }

  lemma LinkedAt(was: Graph, now: Graph, list: seq<nat>, i: nat, k: nat)
    requires ListsAt(was, now, list, i) && AllGrown(was, now, list) && k < i && IsWait(now, list[k])
    ensures WaitLinkedAt(now, list, k)
  {
    var w := list[k];
    assert ListAt(was, now, list, i, w) && Grown(was, now, list, w);
    WaitBeforeSame(was, now, list, list, k);
    forall j | WaitBefore(was, list, k) <= j < k ensures list[j] in now[w].children {
      assert NewEdgeAt(was, list, w, list[j], k, j);
      LinksAreNew(was, list, i, w, list[j]);
    }
  }

  lemma OneMoreLinked(was: Graph, before: Graph, now: Graph, list: seq<nat>, i: nat)
    requires ListsAt(was, before, list, i) && i < |list| && IsWait(was, list[i])
    requires OnlyAdded(before, now, list[i], list[WaitBefore(was, list, i)..i])
    ensures ListsAt(was, now, list, i + 1) && WaitBefore(was, list, i + 1) == i
  {
    var more, i' := list[WaitBefore(was, list, i)..i], i + 1;
    forall n | 0 <= n < |was| ensures ListAt(was, now, list, i', n) {
      assert ListAt(was, before, list, i, n) && AddedAt(before, now, list[i], more, n);
      assert was[n].children + LinksOf(was, list, i, n) + more == was[n].children + (LinksOf(was, list, i, n) + more);
    }
  }

  lemma NoneMoreLinked(was: Graph, now: Graph, list: seq<nat>, i: nat)
    requires ListsAt(was, now, list, i) && i < |list| && !IsWait(was, list[i])
    ensures ListsAt(was, now, list, i + 1) && WaitBefore(was, list, i + 1) == WaitBefore(was, list, i)
  {
    var i' := i + 1;
    forall n | 0 <= n < |was| ensures ListAt(was, now, list, i', n) {
      assert ListAt(was, now, list, i, n);
    }
  }

  // The list that is being dealt with is still there.
  lemma StillListed(was: Graph, now: Graph, list: seq<nat>, i: nat, p: nat)
    requires WellFormed(was) && WellFormed(now) && p < |was| && !was[p].wait && was[p].remake && list == was[p].children
    requires ListsAt(was, now, list, i) && i < |list|
    ensures now[p].children == list && !now[p].wait && now[p].remake
    ensures var c := list[i]; c < |was| && now[c].wait == was[c].wait && was[c].remake
    ensures WaitBefore(now, list, i) == WaitBefore(was, list, i)
  {
    ListsAreGrown(was, now, list, i);
    assert Grown(was, now, list, p);
    ListedChild(was, p, i);
    assert Grown(was, now, list, list[i]);
    WaitBeforeSame(was, now, list, list, i);
  }

  lemma SameWaits(was: Graph, now: Graph, list: seq<nat>)
    requires AllGrown(was, now, list)
    ensures forall c: nat :: c < |now| ==> now[c].wait == was[c].wait
  {
    forall c: nat | c < |now| ensures now[c].wait == was[c].wait {
      assert Grown(was, now, list, c);
    }
  }

  // ---------------------------------------------------------------- what the edges are for

  // The sibling at j, with its `::` instances, is numbered below the `.WAIT` at i.
  ghost predicate SiblingRanked(g: Graph, rank: seq<nat>, list: seq<nat>, i: nat, j: nat)
    requires |rank| == |g| && j < i < |list|
  {
    IsWait(g, list[i]) ==>
      list[j] < |g| && rank[list[j]] < rank[list[i]] && forall q :: q in g[list[j]].cohorts ==> q < |g| && rank[q] < rank[list[i]]
  }

  ghost predicate WaitsRanked(g: Graph, doneWait: seq<bool>, rank: seq<nat>) {
    && |rank| == |doneWait| == |g|
    && forall n, i, j :: 0 <= n < |g| && doneWait[n] && !g[n].wait && 0 <= j < i < |g[n].children| ==>
         SiblingRanked(g, rank, g[n].children, i, j)
  }

  // The links lead into a cycle only if there was one, or if something depends on what comes after
  // it: the graph that is left is acyclic just when the one before was, with a numbering in which
  // every `.WAIT` comes after its earlier siblings.
  lemma AcyclicExactly(was: Graph, now: Graph, doneWait: seq<bool>, rank: seq<nat>)
    requires ListsKept(was, now, doneWait) && Walked(now, doneWait, [])
    ensures Acyclic(now, rank) <==> Acyclic(was, rank) && WaitsRanked(was, doneWait, rank)
  {
    if Acyclic(now, rank) {
      forall n | 0 <= n < |was| ensures RankedBelow(was, rank, n) {
        FewerRanked(was, now, doneWait, rank, n);
      }
      forall n, i, j | 0 <= n < |was| && doneWait[n] && !was[n].wait && 0 <= j < i < |was[n].children|
        ensures SiblingRanked(was, rank, was[n].children, i, j)
      {
        assert Examined(now, doneWait, [], n) && ListKept(was, now, doneWait, n);
        LinkedRanked(was, now, doneWait, rank, was[n].children, i, j);
      }
    }
    if Acyclic(was, rank) && WaitsRanked(was, doneWait, rank) {
      forall n | 0 <= n < |now| ensures RankedBelow(now, rank, n) {
        StillRanked(was, now, doneWait, rank, n);
      }
    }
  }

  lemma FewerRanked(was: Graph, now: Graph, doneWait: seq<bool>, rank: seq<nat>, n: nat)
    requires ListsKept(was, now, doneWait) && n < |was| == |rank| && RankedBelow(now, rank, n)
    ensures RankedBelow(was, rank, n)
  {
    assert ListKept(was, now, doneWait, n);
    forall c | c in was[n].children
      ensures c < |was| && rank[c] < rank[n] && forall q :: q in was[c].cohorts ==> q < |was| && rank[q] < rank[n]
    {
      assert c in now[n].children && ListKept(was, now, doneWait, c);
    }
  }

  lemma {:induction false} LinkedRanked(was: Graph, now: Graph, doneWait: seq<bool>, rank: seq<nat>, list: seq<nat>, i: nat, j: nat)
    requires ListsKept(was, now, doneWait) && Acyclic(now, rank) && LinkedUpTo(now, list, |list|) && j < i < |list|
    ensures SiblingRanked(was, rank, list, i, j)
    decreases i
  {
    if IsWait(was, list[i]) {
      var w, k := list[i], WaitBefore(now, list, i);
      assert ListKept(was, now, doneWait, w) && WaitLinkedAt(now, list, i) && RankedBelow(now, rank, w);
      if j >= k {
        assert list[j] in now[w].children && ListKept(was, now, doneWait, list[j]);
      } else {
        WaitBeforeIsWait(now, list, i);
        assert list[k] in now[w].children && ListKept(was, now, doneWait, list[k]);
        LinkedRanked(was, now, doneWait, rank, list, k, j);
      }
    }
  }

  lemma StillRanked(was: Graph, now: Graph, doneWait: seq<bool>, rank: seq<nat>, n: nat)
    requires ListsKept(was, now, doneWait) && n < |was| && Acyclic(was, rank) && WaitsRanked(was, doneWait, rank)
    ensures RankedBelow(now, rank, n)
  {
    assert ListKept(was, now, doneWait, n) && RankedBelow(was, rank, n);
    forall c: nat | c in now[n].children
      ensures c < |now| && rank[c] < rank[n] && forall q :: q in now[c].cohorts ==> q < |now| && rank[q] < rank[n]
    {
      if c !in was[n].children {
        var m: nat :| Added(was, doneWait, n, c, m);
        var i: nat, j: nat :| NewEdgeAt(was, was[m].children, n, c, i, j);
        assert SiblingRanked(was, rank, was[m].children, i, j);
      }
      assert ListKept(was, now, doneWait, c);
    }
  }

  // A build of the graph that is left never looks at a node that was not dealt with.
  lemma OnlyWalkedAreNeeded(p: Problem, doneWait: seq<bool>, n: nat)
    requires ValidProblem(p) && Walked(p.g, doneWait, []) && doneWait[p.main]
    requires n in Needed(p.g, p.main, p.fate, false) && !p.g[n].wait
    ensures doneWait[n]
  {
    var T := set x: nat | x < |p.g| && (doneWait[x] || p.g[x].wait);
    forall x: nat | x < |p.g| && x in T
      ensures (forall q :: q in p.g[x].cohorts ==> q in T) && (forall c :: c in p.g[x].children ==> c in T)
    {
      assert Examined(p.g, doneWait, [], x) && WaitsFollowed(p.g, doneWait, [], x) && NodeWf(p.g, x);
    }
    assert Closed(p.g, p.main, p.fate, false, T, T);
    assert AlwaysLookedAt(p.g, p.main, p.fate, false, n);
  }

  // In every state of the build, a `.WAIT` that is done has all its earlier siblings, with all
  // their `::` instances, behind it.
  lemma WaitIsAfterSiblings(p: Problem, s: State, doneWait: seq<bool>, n: nat, i: nat, j: nat)
    requires Inv(p, s) && Walked(p.g, doneWait, []) && doneWait[p.main]
    requires n in Touched(s.made) && !p.g[n].wait && j < i < |p.g[n].children|
    requires IsWait(p.g, p.g[n].children[i]) && p.g[n].children[i] in DoneSet(s.made)
    ensures AllDone(p.g, DoneSet(s.made), p.g[n].children[j])
  {
    OnlyWalkedAreNeeded(p, doneWait, n);
    assert Examined(p.g, doneWait, [], n);
    LinkedWait(p, s, n, i, j);
  }

  lemma {:induction false} LinkedWait(p: Problem, s: State, n: nat, i: nat, j: nat)
    requires Inv(p, s) && n < |p.g| && LinkedUpTo(p.g, p.g[n].children, |p.g[n].children|)
    requires j < i < |p.g[n].children| && IsWait(p.g, p.g[n].children[i]) && p.g[n].children[i] in DoneSet(s.made)
    ensures AllDone(p.g, DoneSet(s.made), p.g[n].children[j])
    decreases i
  {
    var list, w := p.g[n].children, p.g[n].children[i];
    var k := WaitBefore(p.g, list, i);
    assert WaitLinkedAt(p.g, list, i);
    assert NodeOk(p.g, s.made, w);
    if j >= k {
      assert list[j] in p.g[w].children;
    } else {
      WaitBeforeIsWait(p.g, list, i);
      assert list[k] in p.g[w].children;
      LinkedWait(p, s, n, k, j);
    }
  }
}
