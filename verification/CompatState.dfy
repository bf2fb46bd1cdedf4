/**
The state of a compat-mode build: a depth-first walk over the dependency graph that marks
nodes as it goes, with the invariant that ties every mark to the nodes on the recursion path.
*/
module CompatState {
  import opened Wrappers

  // The states of a node in compat mode.
  datatype Made = UNMADE | BEINGMADE | MADE | UPTODATE | ERROR | ABORTED

  // The part of a node that the walk reads. With .MADE set, the walk does not make what the
  // node depends on.
  datatype Node = Node(children: seq<nat>, cohorts: seq<nat>, isMade: bool)

  type Graph = seq<Node>

  // Links stay in the graph, and a `::` instance has no further instances of its own.
  ghost predicate NodeWf(g: Graph, n: nat)
    requires n < |g|
  {
    && (forall c :: c in g[n].children ==> c < |g|)
    && (forall q :: q in g[n].cohorts ==> q < |g| && g[q].cohorts == [])
  }

  ghost predicate WellFormed(g: Graph) {
    forall n :: 0 <= n < |g| ==> NodeWf(g, n)
  }

  // d is a child of n, or another `::` instance of one.
  ghost predicate IsDep(g: Graph, n: nat, d: nat) {
    n < |g| && (d in g[n].children || exists c :: c in g[n].children && c < |g| && d in g[c].cohorts)
  }

  // The state of the walk. The clock ticks when a node is entered and when it is left; looped
  // holds the nodes of the recursion path between a node and its re-entry.
  datatype State = State(
    made: seq<Made>, remake: seq<bool>, runs: seq<nat>,
    start: seq<nat>, finish: seq<nat>, clock: nat, looped: set<nat>)

  ghost predicate Sized(g: Graph, st: State) {
    |st.made| == |g| && |st.remake| == |g| && |st.start| == |g| && |st.finish| == |g|
  }

  // Whether the recursion, with the nodes of path on its stack, has entered and left n.
  predicate Left(st: State, path: seq<nat>, n: nat) {
    n < |st.made| && !st.made[n].UNMADE? && n !in path
  }

  // What d is like for a node n that depends on it and must not be made: it failed, it was
  // given up after n was entered, or it waits for n itself.
  ghost predicate Bad(st: State, path: seq<nat>, n: nat, d: nat)
    requires n < |st.start| && d < |st.made| == |st.finish|
  {
    if d in path then d in st.looped
    else st.made[d].ERROR? || (st.made[d].ABORTED? && st.start[n] < st.finish[d])
  }

  ghost predicate HasBad(g: Graph, st: State, path: seq<nat>, n: nat)
    requires Sized(g, st) && n < |g|
  {
    exists d: nat :: d < |g| && IsDep(g, n, d) && Bad(st, path, n, d)
  }

  // ---------------------------------------------------------------- invariant

  // The state of one node, and whether its commands were run.
  ghost predicate MarkOk(g: Graph, st: State, path: seq<nat>, n: nat)
    requires Sized(g, st) && n < |g|
  {
    && (st.made[n].UNMADE? ==> n !in path && n !in st.looped)
    && (st.made[n].BEINGMADE? ==> n in path)
    && (n in path ==> st.start[n] < st.clock && (st.made[n].BEINGMADE? || (st.made[n].ERROR? && n in st.looped)))
    && (Left(st, path, n) ==> st.start[n] < st.finish[n] < st.clock)
    && (Left(st, path, n) && n in st.looped ==> st.made[n].ABORTED?)
    && multiset(path)[n] <= 1 && multiset(st.runs)[n] <= 1
    && (n in st.runs ==> Left(st, path, n) && (st.made[n].MADE? || st.made[n].ERROR?))
  }

  // A node that was left has seen d, which it depends on.
  ghost predicate SeenBy(st: State, path: seq<nat>, n: nat, d: nat)
    requires n < |st.finish| && d < |st.made| == |st.finish|
  {
    && !st.made[d].UNMADE?
    && (d in st.looped || (d !in path && st.finish[d] < st.finish[n]))
  }

  ghost predicate LeftOk(g: Graph, st: State, path: seq<nat>, n: nat)
    requires Sized(g, st) && n < |g|
  {
    Left(st, path, n) && !g[n].isMade ==>
      && (forall d: nat :: d < |g| && IsDep(g, n, d) ==> SeenBy(st, path, n, d))
      && (st.made[n].ABORTED? <==> HasBad(g, st, path, n))
  }

  // The place of the last node on the path that has been told not to be made, or -1.
  function LastTold(remake: seq<bool>, path: seq<nat>): (k: int)
    ensures -1 <= k < |path|
  {
    if path == [] then -1
    else
      var last := path[|path| - 1];
      if last < |remake| && !remake[last] then |path| - 1 else LastTold(remake, path[..|path| - 1])
  }

  // The i-th node on the path: it depends on the next one, was entered before it, and has been
  // told not to be made only with a reason.
  ghost predicate PathOk(g: Graph, st: State, path: seq<nat>, i: nat)
    requires Sized(g, st) && i < |path|
  {
    && path[i] < |g|
    && (i + 1 < |path| ==> IsDep(g, path[i], path[i + 1]))
    && (!st.remake[path[i]] ==> HasBad(g, st, path, path[i]))
    && (path[i] in st.looped ==> i <= LastTold(st.remake, path))
  }

  // Trouble with a node that was left after the i-th node of the path was entered has been
  // told to that node or to one above it.
  ghost predicate Told(st: State, path: seq<nat>, i: nat, x: nat)
    requires |st.made| == |st.finish| == |st.start| && i < |path| && x < |st.made|
  {
    path[i] < |st.start| && Left(st, path, x) && (st.made[x].ERROR? || st.made[x].ABORTED?) && st.start[path[i]] < st.finish[x] ==>
      i <= LastTold(st.remake, path)
  }

  // A chain of dependencies.
  ghost predicate Chain(g: Graph, p: seq<nat>) {
    forall i :: 0 <= i < |p| - 1 ==> IsDep(g, p[i], p[i + 1])
  }

  ghost predicate OnCycle(g: Graph, x: nat) {
    exists p: seq<nat> :: |p| >= 2 && p[0] == x && p[|p| - 1] == x && Chain(g, p)
  }

  // Only nodes that the targets need are entered, and only real cycles are reported.
  ghost predicate OriginOk(g: Graph, reach: set<nat>, st: State, n: nat)
    requires Sized(g, st) && n < |g|
  {
    && (!st.made[n].UNMADE? ==> n in reach)
    && (n in st.looped ==> OnCycle(g, n))
  }

  ghost predicate Inv(g: Graph, reach: set<nat>, st: State, path: seq<nat>) {
    && WellFormed(g) && Sized(g, st)
    && (forall n :: 0 <= n < |g| ==> MarkOk(g, st, path, n))
    && (forall n :: 0 <= n < |g| ==> LeftOk(g, st, path, n))
    && (forall n :: 0 <= n < |g| ==> OriginOk(g, reach, st, n))
    && (forall i :: 0 <= i < |path| ==> PathOk(g, st, path, i))
    && (forall i, x :: 0 <= i < |path| && 0 <= x < |g| ==> Told(st, path, i, x))
  }

  // ---------------------------------------------------------------- what later steps keep

  ghost predicate Kept(g: Graph, st: State, st': State, path: seq<nat>, n: nat)
    requires Sized(g, st) && Sized(g, st') && n < |g|
  {
    && (Left(st, path, n) ==>
          st'.made[n] == st.made[n] && st'.start[n] == st.start[n] && st'.finish[n] == st.finish[n])
    && (n in path ==> st'.start[n] == st.start[n])
    && (!st.made[n].UNMADE? ==> !st'.made[n].UNMADE?)
    && (n in path && (st'.remake[n] != st.remake[n]) ==> n == path[|path| - 1] && !st'.remake[n])
  }

  ghost predicate Extends(g: Graph, st: State, st': State, path: seq<nat>) {
    && Sized(g, st) && Sized(g, st')
    && st.clock <= st'.clock && st.looped <= st'.looped
    && (forall n :: 0 <= n < |g| ==> Kept(g, st, st', path, n))
  }

  // The top of the path has dealt with d, which it depends on.
  ghost predicate Seen(g: Graph, st: State, path: seq<nat>, d: nat)
    requires Sized(g, st) && |path| > 0 && path[|path| - 1] < |g|
  {
    var n := path[|path| - 1];
    d < |g| && !st.made[d].UNMADE? && (d in path ==> d in st.looped) && (Bad(st, path, n, d) ==> !st.remake[n])
  }

  ghost predicate SeenAll(g: Graph, st: State, path: seq<nat>, list: seq<nat>)
    requires Sized(g, st) && |path| > 0 && path[|path| - 1] < |g|
  {
    forall c :: c in list ==> c < |g| && Seen(g, st, path, c) && forall q :: q in g[c].cohorts ==> Seen(g, st, path, q)
  }

  lemma SeenKept(g: Graph, st: State, st': State, path: seq<nat>, d: nat)
    requires Extends(g, st, st', path)
    requires |path| > 0 && path[|path| - 1] < |g| && Seen(g, st, path, d)
    ensures Seen(g, st', path, d)
  {
    assert Kept(g, st, st', path, d);
    assert Kept(g, st, st', path, path[|path| - 1]);
  }

  lemma ExtendsTrans(g: Graph, st: State, st1: State, st2: State, path: seq<nat>)
    requires Extends(g, st, st1, path) && Extends(g, st1, st2, path)
    ensures Extends(g, st, st2, path)
  {
    forall n | 0 <= n < |g| ensures Kept(g, st, st2, path, n) {
      assert Kept(g, st, st1, path, n) && Kept(g, st1, st2, path, n);
    }
  }

  lemma {:induction false} LastToldSame(r: seq<bool>, r': seq<bool>, path: seq<nat>)
    requires |r| == |r'| && forall x :: x in path && x < |r| ==> r[x] == r'[x]
    ensures LastTold(r, path) == LastTold(r', path)
  {
    if path != [] {
      LastToldSame(r, r', path[..|path| - 1]);
    }
  }

  // ---------------------------------------------------------------- the steps

  // MakeUnmade enters an unmade node.
  function Enter(st: State, n: nat): State
    requires n < |st.made| == |st.remake| == |st.start|
  {
    st.(made := st.made[n := BEINGMADE], remake := st.remake[n := true],
        start := st.start[n := st.clock], clock := st.clock + 1)
  }

  // MakeUnmade leaves a node.
  function Leave(st: State, n: nat, m: Made): State
    requires n < |st.made| == |st.finish|
  {
    st.(made := st.made[n := m], finish := st.finish[n := st.clock], clock := st.clock + 1)
  }

  // A node whose dependency failed is told not to be made.
  function Tell(st: State, n: nat): State
    requires n < |st.remake|
  {
    st.(remake := st.remake[n := false])
  }

  // MakeOther meets the i-th node of the path again.
  function Reenter(st: State, path: seq<nat>, i: nat): State
    requires i < |path| && path[i] < |st.made|
  {
    st.(made := st.made[path[i] := ERROR], looped := st.looped + (set x | x in path[i..]))
  }

  lemma HasBadKept(g: Graph, st: State, path: seq<nat>, st': State, path': seq<nat>, n: nat)
    requires Sized(g, st) && Sized(g, st') && n < |g|
    requires HasBad(g, st, path, n)
    requires forall d: nat :: d < |g| && IsDep(g, n, d) && Bad(st, path, n, d) ==> Bad(st', path', n, d)
    ensures HasBad(g, st', path', n)
  {
    var d: nat :| d < |g| && IsDep(g, n, d) && Bad(st, path, n, d);
    assert Bad(st', path', n, d);
  }

  ghost predicate EnterPre(g: Graph, reach: set<nat>, st: State, path: seq<nat>, n: nat) {
    && Inv(g, reach, st, path) && n < |g| && st.made[n].UNMADE? && n in reach
    && (path != [] ==> IsDep(g, path[|path| - 1], n))
  }

  lemma EnterBad(g: Graph, reach: set<nat>, st: State, path: seq<nat>, n: nat, x: nat, d: nat)
    requires EnterPre(g, reach, st, path, n) && x < |g| && x != n && d < |g|
    ensures Bad(Enter(st, n), path + [n], x, d) == Bad(st, path, x, d)
  {
    assert MarkOk(g, st, path, n);
  }

  lemma EnterLeft(g: Graph, reach: set<nat>, st: State, path: seq<nat>, n: nat, x: nat)
    requires EnterPre(g, reach, st, path, n) && x < |g|
    ensures LeftOk(g, Enter(st, n), path + [n], x)
  {
    var st', path' := Enter(st, n), path + [n];
    if Left(st', path', x) && !g[x].isMade {
      assert LeftOk(g, st, path, x);
      forall d: nat | d < |g| && IsDep(g, x, d) ensures SeenBy(st', path', x, d) {
        assert SeenBy(st, path, x, d);
      }
      forall d: nat | d < |g| ensures Bad(st', path', x, d) == Bad(st, path, x, d) {
        EnterBad(g, reach, st, path, n, x, d);
      }
      if HasBad(g, st, path, x) { HasBadKept(g, st, path, st', path', x); }
      if HasBad(g, st', path', x) { HasBadKept(g, st', path', st, path, x); }
    }
  }

  lemma EnterPath(g: Graph, reach: set<nat>, st: State, path: seq<nat>, n: nat, i: nat)
    requires EnterPre(g, reach, st, path, n) && i <= |path|
    ensures PathOk(g, Enter(st, n), path + [n], i)
  {
    var st', path' := Enter(st, n), path + [n];
    assert MarkOk(g, st, path, n);
    assert path'[..|path'| - 1] == path;
    LastToldSame(st.remake, st'.remake, path);
    if i < |path| {
      assert PathOk(g, st, path, i);
      if !st.remake[path[i]] {
        forall d: nat | d < |g| ensures Bad(st', path', path[i], d) == Bad(st, path, path[i], d) {
          EnterBad(g, reach, st, path, n, path[i], d);
        }
        HasBadKept(g, st, path, st', path', path[i]);
      }
    }
  }

  lemma EnterTold(g: Graph, reach: set<nat>, st: State, path: seq<nat>, n: nat, i: nat, x: nat)
    requires EnterPre(g, reach, st, path, n) && i <= |path| && x < |g|
    ensures Told(Enter(st, n), path + [n], i, x)
  {
    var st', path' := Enter(st, n), path + [n];
    assert MarkOk(g, st, path, n) && MarkOk(g, st, path, x);
    assert path'[..|path'| - 1] == path;
    LastToldSame(st.remake, st'.remake, path);
    if i < |path| {
      assert Told(st, path, i, x);
    }
  }

  lemma EnterStep(g: Graph, reach: set<nat>, st: State, path: seq<nat>, n: nat)
    requires EnterPre(g, reach, st, path, n)
    ensures Inv(g, reach, Enter(st, n), path + [n])
    ensures Extends(g, st, Enter(st, n), path)
  {
    var st', path' := Enter(st, n), path + [n];
    assert MarkOk(g, st, path, n);
    forall x | 0 <= x < |g|
      ensures MarkOk(g, st', path', x) && OriginOk(g, reach, st', x) && LeftOk(g, st', path', x) && Kept(g, st, st', path, x)
    {
      assert MarkOk(g, st, path, x) && OriginOk(g, reach, st, x);
      EnterLeft(g, reach, st, path, n, x);
    }
    forall i | 0 <= i < |path'| ensures PathOk(g, st', path', i) {
      EnterPath(g, reach, st, path, n, i);
    }
    forall i, x | 0 <= i < |path'| && 0 <= x < |g| ensures Told(st', path', i, x) {
      EnterTold(g, reach, st, path, n, i, x);
    }
  }

  // ---------------------------------------------------------------- leaving a node

  // The node on top of the path is given up if it has been told so, and only then.
  ghost predicate LeavePre(g: Graph, reach: set<nat>, st: State, path: seq<nat>, n: nat, m: Made, pgn: nat) {
    && Inv(g, reach, st, path + [n]) && n < |g| && pgn < |g|
    && (path != [] ==> pgn == path[|path| - 1])
    && (if st.remake[n] then m.MADE? || m.UPTODATE? || m.ERROR? else m.ABORTED?)
    && (!g[n].isMade ==> forall d: nat :: d < |g| && IsDep(g, n, d) ==> Seen(g, st, path + [n], d))
  }

  predicate Failed(m: Made) { m.ERROR? || m.ABORTED? }

  function Leaving(st: State, n: nat, m: Made, pgn: nat): State
    requires n < |st.made| == |st.finish| && pgn < |st.remake|
  {
    if Failed(m) then Tell(Leave(st, n, m), pgn) else Leave(st, n, m)
  }

  lemma LeaveTop(g: Graph, reach: set<nat>, st: State, path: seq<nat>, n: nat, m: Made, pgn: nat)
    requires LeavePre(g, reach, st, path, n, m, pgn)
    ensures n !in path && (n in st.looped ==> m.ABORTED?) && st.start[n] < st.clock
    ensures !st.remake[n] ==> HasBad(g, st, path + [n], n)
    ensures st.remake[n] ==> LastTold(st.remake, path + [n]) == LastTold(st.remake, path)
    ensures path != [] ==> IsDep(g, pgn, n) && st.start[pgn] < st.clock
    ensures path != [] && Failed(m) ==> LastTold(Leaving(st, n, m, pgn).remake, path) == |path| - 1
  {
    var p := path + [n];
    assert p[..|p| - 1] == path;
    assert PathOk(g, st, p, |path|);
    assert MarkOk(g, st, p, n);
    if path != [] {
      assert PathOk(g, st, p, |path| - 1);
      assert MarkOk(g, st, p, pgn);
    }
  }

  // For a node that does not see n for the first time, n stays what it was.
  lemma LeaveBad(g: Graph, st: State, path: seq<nat>, n: nat, m: Made, pgn: nat, x: nat, d: nat)
    requires Sized(g, st) && n < |g| && pgn < |g| && x < |g| && d < |g|
    requires n !in path && (n in st.looped ==> m.ABORTED?) && st.start[x] < st.clock
    ensures Bad(st, path + [n], x, d) ==> Bad(Leaving(st, n, m, pgn), path, x, d)
    ensures Bad(Leaving(st, n, m, pgn), path, x, d) && (d == n ==> n in st.looped) ==> Bad(st, path + [n], x, d)
  {
  }

  lemma LeaveLeft(g: Graph, reach: set<nat>, st: State, path: seq<nat>, n: nat, m: Made, pgn: nat, x: nat)
    requires LeavePre(g, reach, st, path, n, m, pgn) && x < |g|
    ensures LeftOk(g, Leaving(st, n, m, pgn), path, x)
  {
    var st', p := Leaving(st, n, m, pgn), path + [n];
    LeaveTop(g, reach, st, path, n, m, pgn);
    if Left(st', path, x) && !g[x].isMade {
      assert MarkOk(g, st, p, x);
      if x == n {
        LeaveSeen(g, reach, st, path, n, m, pgn);
      } else {
        assert LeftOk(g, st, p, x);
        forall d: nat | d < |g| && IsDep(g, x, d)
          ensures SeenBy(st', path, x, d) && Bad(st', path, x, d) == Bad(st, p, x, d)
        {
          assert SeenBy(st, p, x, d);
          LeaveBad(g, st, path, n, m, pgn, x, d);
        }
        if HasBad(g, st, p, x) { HasBadKept(g, st, p, st', path, x); }
        if HasBad(g, st', path, x) { HasBadKept(g, st', path, st, p, x); }
      }
    }
  }

  lemma LeaveSeen(g: Graph, reach: set<nat>, st: State, path: seq<nat>, n: nat, m: Made, pgn: nat)
    requires LeavePre(g, reach, st, path, n, m, pgn)
    requires !g[n].isMade
    ensures LeftOk(g, Leaving(st, n, m, pgn), path, n)
  {
    var st', p := Leaving(st, n, m, pgn), path + [n];
    LeaveTop(g, reach, st, path, n, m, pgn);
    forall d: nat | d < |g| && IsDep(g, n, d)
      ensures SeenBy(st', path, n, d) && Bad(st', path, n, d) == Bad(st, p, n, d)
      ensures Bad(st, p, n, d) ==> !st.remake[n]
    {
      assert Seen(g, st, p, d);
      assert MarkOk(g, st, p, d);
      LeaveBad(g, st, path, n, m, pgn, n, d);
    }
    if m.ABORTED? {
      HasBadKept(g, st, p, st', path, n);
    }
  }

  lemma LeavePath(g: Graph, reach: set<nat>, st: State, path: seq<nat>, n: nat, m: Made, pgn: nat, i: nat)
    requires LeavePre(g, reach, st, path, n, m, pgn) && i < |path|
    ensures PathOk(g, Leaving(st, n, m, pgn), path, i)
  {
    var st', p := Leaving(st, n, m, pgn), path + [n];
    LeaveTop(g, reach, st, path, n, m, pgn);
    assert PathOk(g, st, p, i);
    assert p[i] == path[i] && (i + 1 < |path| ==> p[i + 1] == path[i + 1]);
    assert MarkOk(g, st, p, path[i]);
    if !st.remake[path[i]] {
      forall d: nat | d < |g| && Bad(st, p, path[i], d) ensures Bad(st', path, path[i], d) {
        LeaveBad(g, st, path, n, m, pgn, path[i], d);
      }
      HasBadKept(g, st, p, st', path, path[i]);
    } else if !st'.remake[path[i]] {
      assert IsDep(g, pgn, n) && Bad(st', path, pgn, n);
    }
  }

  lemma LeaveTold(g: Graph, reach: set<nat>, st: State, path: seq<nat>, n: nat, m: Made, pgn: nat, i: nat, x: nat)
    requires LeavePre(g, reach, st, path, n, m, pgn) && i < |path| && x < |g|
    ensures Told(Leaving(st, n, m, pgn), path, i, x)
  {
    var p := path + [n];
    LeaveTop(g, reach, st, path, n, m, pgn);
    assert Told(st, p, i, x);
    assert p[i] == path[i];
  }

  lemma LeaveMark(g: Graph, reach: set<nat>, st: State, path: seq<nat>, n: nat, m: Made, pgn: nat, x: nat)
    requires LeavePre(g, reach, st, path, n, m, pgn) && x < |g|
    ensures MarkOk(g, Leaving(st, n, m, pgn), path, x) && OriginOk(g, reach, Leaving(st, n, m, pgn), x)
  {
    var p := path + [n];
    LeaveTop(g, reach, st, path, n, m, pgn);
    assert MarkOk(g, st, p, x) && OriginOk(g, reach, st, x) && MarkOk(g, st, p, n) && OriginOk(g, reach, st, n);
    assert multiset(p) == multiset(path) + multiset{n};
  }

  lemma LeaveStep(g: Graph, reach: set<nat>, st: State, path: seq<nat>, n: nat, m: Made, pgn: nat)
    requires LeavePre(g, reach, st, path, n, m, pgn)
    ensures Inv(g, reach, Leaving(st, n, m, pgn), path)
    ensures path != [] ==> Seen(g, Leaving(st, n, m, pgn), path, n)
  {
    var st' := Leaving(st, n, m, pgn);
    forall x | 0 <= x < |g|
      ensures MarkOk(g, st', path, x) && OriginOk(g, reach, st', x) && LeftOk(g, st', path, x)
    {
      LeaveMark(g, reach, st, path, n, m, pgn, x);
      LeaveLeft(g, reach, st, path, n, m, pgn, x);
    }
    forall i | 0 <= i < |path| ensures PathOk(g, st', path, i) {
      LeavePath(g, reach, st, path, n, m, pgn, i);
    }
    forall i, x | 0 <= i < |path| && 0 <= x < |g| ensures Told(st', path, i, x) {
      LeaveTold(g, reach, st, path, n, m, pgn, i, x);
    }
    LeaveTop(g, reach, st, path, n, m, pgn);
  }

  // ---------------------------------------------------------------- meeting a node again

  // d is a dependency of the node on top of the path.
  ghost predicate MeetPre(g: Graph, reach: set<nat>, st: State, path: seq<nat>, d: nat) {
    Inv(g, reach, st, path) && d < |g| && path != [] && path[|path| - 1] < |g| && IsDep(g, path[|path| - 1], d)
  }

  // A node that was left, successfully or given up, needs nothing more.
  lemma MeetLeft(g: Graph, reach: set<nat>, st: State, path: seq<nat>, d: nat)
    requires MeetPre(g, reach, st, path, d)
    requires !st.made[d].UNMADE? && !st.made[d].BEINGMADE? && !st.made[d].ERROR?
    ensures Seen(g, st, path, d)
  {
    assert MarkOk(g, st, path, d);
    assert Told(st, path, |path| - 1, d);
  }

  // Telling the top of the path, for a reason.
  lemma TellStep(g: Graph, reach: set<nat>, st: State, path: seq<nat>, d: nat)
    requires MeetPre(g, reach, st, path, d)
    requires Bad(st, path, path[|path| - 1], d)
    ensures Inv(g, reach, Tell(st, path[|path| - 1]), path)
    ensures Extends(g, st, Tell(st, path[|path| - 1]), path)
    ensures Seen(g, Tell(st, path[|path| - 1]), path, d)
  {
    var top := path[|path| - 1];
    var st' := Tell(st, top);
    assert MarkOk(g, st, path, d);
    forall x | 0 <= x < |g|
      ensures MarkOk(g, st', path, x) && OriginOk(g, reach, st', x) && LeftOk(g, st', path, x)
    {
      assert MarkOk(g, st, path, x) && OriginOk(g, reach, st, x) && LeftOk(g, st, path, x);
      TellBad(g, st, path, top, x);
      if Left(st, path, x) && !g[x].isMade {
        forall y: nat | y < |g| && IsDep(g, x, y) ensures SeenBy(st', path, x, y) {
          assert SeenBy(st, path, x, y);
        }
      }
    }
    forall i | 0 <= i < |path| ensures PathOk(g, st', path, i) {
      assert PathOk(g, st, path, i);
      TellBad(g, st, path, top, path[i]);
      TellBad(g, st, path, top, top);
    }
    forall i, x | 0 <= i < |path| && 0 <= x < |g| ensures Told(st', path, i, x) {
    }
  }

  lemma TellBad(g: Graph, st: State, path: seq<nat>, top: nat, x: nat)
    requires Sized(g, st) && x < |g| && top < |g|
    ensures HasBad(g, Tell(st, top), path, x) == HasBad(g, st, path, x)
  {
    var st' := Tell(st, top);
    forall d: nat | d < |g| ensures Bad(st', path, x, d) == Bad(st, path, x, d) {
    }
    if HasBad(g, st, path, x) { HasBadKept(g, st, path, st', path, x); }
    if HasBad(g, st', path, x) { HasBadKept(g, st', path, st, path, x); }
  }

  // ---------------------------------------------------------------- meeting a cycle

  ghost predicate ReenterPre(g: Graph, reach: set<nat>, st: State, path: seq<nat>, i: nat) {
    i < |path| && MeetPre(g, reach, st, path, path[i]) && st.made[path[i]].BEINGMADE?
  }

  function Reentering(st: State, path: seq<nat>, i: nat): State
    requires i < |path| && path[i] < |st.made| && path[|path| - 1] < |st.remake|
  {
    Tell(Reenter(st, path, i), path[|path| - 1])
  }

  // The nodes from the re-entered one to the top of the path lie on a cycle.
  lemma PathIsCycle(g: Graph, reach: set<nat>, st: State, path: seq<nat>, i: nat, k: nat)
    requires ReenterPre(g, reach, st, path, i) && i <= k < |path|
    ensures OnCycle(g, path[k])
  {
    var p := path[k..] + path[i..k + 1];
    var m := |path| - k;
    forall j | 0 <= j < |p| - 1 ensures IsDep(g, p[j], p[j + 1]) {
      if j < m - 1 {
        assert PathOk(g, st, path, k + j);
      } else if j >= m {
        assert PathOk(g, st, path, i + j - m);
      }
    }
    assert Chain(g, p) && p[0] == path[k] && p[|p| - 1] == path[k];
  }

  lemma ReenterBad(g: Graph, reach: set<nat>, st: State, path: seq<nat>, i: nat, x: nat, d: nat)
    requires ReenterPre(g, reach, st, path, i) && x < |g| && d < |g|
    ensures Bad(st, path, x, d) ==> Bad(Reentering(st, path, i), path, x, d)
    ensures Bad(Reentering(st, path, i), path, x, d) && (d in path ==> d in st.looped) ==> Bad(st, path, x, d)
  {
  }

  lemma ReenterLeft(g: Graph, reach: set<nat>, st: State, path: seq<nat>, i: nat, x: nat)
    requires ReenterPre(g, reach, st, path, i) && x < |g|
    ensures LeftOk(g, Reentering(st, path, i), path, x)
  {
    var st' := Reentering(st, path, i);
    assert LeftOk(g, st, path, x);
    if Left(st, path, x) && !g[x].isMade {
      forall d: nat | d < |g| && IsDep(g, x, d)
        ensures SeenBy(st', path, x, d) && Bad(st', path, x, d) == Bad(st, path, x, d)
      {
        assert SeenBy(st, path, x, d);
        ReenterBad(g, reach, st, path, i, x, d);
      }
      if HasBad(g, st, path, x) { HasBadKept(g, st, path, st', path, x); }
      if HasBad(g, st', path, x) { HasBadKept(g, st', path, st, path, x); }
    }
  }

  lemma ReenterPath(g: Graph, reach: set<nat>, st: State, path: seq<nat>, i: nat, k: nat)
    requires ReenterPre(g, reach, st, path, i) && k < |path|
    ensures PathOk(g, Reentering(st, path, i), path, k)
  {
    var st' := Reentering(st, path, i);
    assert PathOk(g, st, path, k);
    if !st.remake[path[k]] {
      forall d: nat | d < |g| && Bad(st, path, path[k], d) ensures Bad(st', path, path[k], d) {
        ReenterBad(g, reach, st, path, i, path[k], d);
      }
      HasBadKept(g, st, path, st', path, path[k]);
    } else if !st'.remake[path[k]] {
      assert path[i] in path[i..];
      assert Bad(st', path, path[k], path[i]);
    }
  }

  lemma ReenterStep(g: Graph, reach: set<nat>, st: State, path: seq<nat>, i: nat)
    requires ReenterPre(g, reach, st, path, i)
    ensures Inv(g, reach, Reentering(st, path, i), path)
    ensures Extends(g, st, Reentering(st, path, i), path)
    ensures Seen(g, Reentering(st, path, i), path, path[i])
  {
    var st' := Reentering(st, path, i);
    assert path[i] in path[i..];
    forall x | 0 <= x < |g|
      ensures MarkOk(g, st', path, x) && OriginOk(g, reach, st', x) && LeftOk(g, st', path, x)
    {
      assert MarkOk(g, st, path, x) && OriginOk(g, reach, st, x);
      if x in path[i..] {
        var k :| 0 <= k < |path[i..]| && path[i..][k] == x;
        PathIsCycle(g, reach, st, path, i, i + k);
      }
      ReenterLeft(g, reach, st, path, i, x);
    }
    forall k | 0 <= k < |path| ensures PathOk(g, st', path, k) {
      ReenterPath(g, reach, st, path, i, k);
    }
    forall k, x | 0 <= k < |path| && 0 <= x < |g| ensures Told(st', path, k, x) {
      assert Told(st, path, k, x);
    }
  }

  // ---------------------------------------------------------------- running commands

  predicate Settled(m: Made) { m.MADE? || m.UPTODATE? || m.ABORTED? }

  // Nothing that n depends on is still to be made, being made, or has failed.
  ghost predicate DepsSettled(g: Graph, made: seq<Made>, n: nat)
    requires |made| == |g|
  {
    forall d: nat :: d < |g| && IsDep(g, n, d) ==> Settled(made[d])
  }

  ghost predicate RunOk(g: Graph, made: seq<Made>, runs: seq<nat>, n: nat)
    requires |made| == |g| && n < |g|
  {
    && multiset(runs)[n] <= 1
    && (n in runs && !g[n].isMade ==> DepsSettled(g, made, n))
  }

  // No commands were run twice, or before their time. This holds at every moment, also when
  // the process gives up in the middle of the walk.
  ghost predicate Safe(g: Graph, made: seq<Made>, runs: seq<nat>) {
    |made| == |g| && forall n :: 0 <= n < |g| ==> RunOk(g, made, runs, n)
  }

  // What making a node would come to: whether it is out of date, whether there are commands for it,
  // and whether they succeed. A node is examined at most once, so one answer per node covers every run.
  datatype Fate = Fate(outOfDate: bool, hasCommands: bool, succeeds: bool)

  // -k, -q, -t, the .END node, the nodes whose commands are run even with -t, and the fates.
  datatype Options = Options(
    keepgoing: bool, query: bool, touch: bool, endNode: nat, recursive: set<nat>, fate: nat -> Fate)

  // With -q, finding a node other than .END out of date ends the process.
  predicate Quits(o: Options, n: nat) { o.fate(n).outOfDate && o.query && n != o.endNode }

  // Whether the commands of a node are run once it is examined.
  predicate Runs(o: Options, n: nat) {
    o.fate(n).outOfDate && !Quits(o, n) && o.fate(n).hasCommands && (o.touch ==> n in o.recursive)
  }

  // What becomes of a node that is examined.
  function MadeAs(o: Options, n: nat): Made {
    if !o.fate(n).outOfDate then UPTODATE
    else if !o.fate(n).hasCommands || (Runs(o, n) && !o.fate(n).succeeds) then ERROR
    else MADE
  }

  ghost predicate RunAllowed(o: Options, runs: seq<nat>, n: nat) { n in runs ==> Runs(o, n) }

  ghost predicate Allowed(o: Options, runs: seq<nat>) { forall n: nat :: RunAllowed(o, runs, n) }

  lemma AllowedMore(o: Options, runs: seq<nat>, n: nat)
    requires Allowed(o, runs) && Runs(o, n)
    ensures Allowed(o, runs + [n])
  {
    forall x: nat ensures RunAllowed(o, runs + [n], x) {
      assert RunAllowed(o, runs, x);
    }
  }

  // A node that was left without being given up is what its fate says, and its commands were run
  // just when they are to be. Without -k, only the path has nodes in error, on its cycles.
  ghost predicate FlagAt(o: Options, made: seq<Made>, runs: seq<nat>, path: seq<nat>, n: nat)
    requires n < |made|
  {
    && (n !in path && !made[n].UNMADE? && !made[n].ABORTED? ==>
          made[n] == MadeAs(o, n) && !Quits(o, n) && (n in runs <==> Runs(o, n)))
    && (made[n].ERROR? && !o.keepgoing ==> n in path)
  }

  ghost predicate FlagsOk(o: Options, made: seq<Made>, runs: seq<nat>, path: seq<nat>) {
    forall n :: 0 <= n < |made| ==> FlagAt(o, made, runs, path, n)
  }

  // Why the process may end early: with -q, a node was found out of date; without -k, one failed.
  ghost predicate HasReason(o: Options, made: seq<Made>) {
    || (exists n :: 0 <= n < |made| && made[n].BEINGMADE? && Quits(o, n))
    || (!o.keepgoing && exists n :: 0 <= n < |made| && made[n].ERROR? && MadeAs(o, n).ERROR?)
  }

  // What that comes to when the walk is over. Commands were run only for nodes that are out of date
  // and, with -t, marked for it, and with -q only for .END; they failed just where a node is in
  // error for them. Without -k no node is in error; without -t, what is made had its commands run.
  ghost predicate EndsAt(o: Options, made: seq<Made>, runs: seq<nat>, n: nat)
    requires n < |made|
  {
    && (n in runs ==> o.fate(n).outOfDate && (o.touch ==> n in o.recursive) && (o.query ==> n == o.endNode))
    && (n in runs ==> made[n] == if o.fate(n).succeeds then MADE else ERROR)
    && (made[n].MADE? ==> o.fate(n).outOfDate && (o.touch || n in runs) && (o.query ==> n == o.endNode))
    && (made[n].UPTODATE? ==> !o.fate(n).outOfDate)
    && (made[n].ERROR? ==> o.keepgoing && (n in runs || !o.fate(n).hasCommands))
  }

  lemma FlagsAtEnd(g: Graph, reach: set<nat>, o: Options, st: State)
    requires Inv(g, reach, st, []) && FlagsOk(o, st.made, st.runs, [])
    ensures forall n :: 0 <= n < |g| ==> EndsAt(o, st.made, st.runs, n)
  {
    forall n | 0 <= n < |g| ensures EndsAt(o, st.made, st.runs, n) {
      assert FlagAt(o, st.made, st.runs, [], n) && MarkOk(g, st, [], n);
    }
  }

  // The first node of a list that failed or was given up.
  function FirstFailed(made: seq<Made>, list: seq<nat>): Option<nat> {
    if list == [] then None
    else if list[0] < |made| && Failed(made[list[0]]) then Some(list[0])
    else FirstFailed(made, list[1..])
  }

  lemma {:induction false} FirstFailedSnoc(made: seq<Made>, list: seq<nat>, n: nat)
    requires n < |made|
    ensures FirstFailed(made, list + [n]) ==
            if FirstFailed(made, list).None? && Failed(made[n]) then Some(n) else FirstFailed(made, list)
  {
    if list == [] {
      assert list + [n] == [n];
    } else {
      assert (list + [n])[1..] == list[1..] + [n];
      FirstFailedSnoc(made, list[1..], n);
    }
  }

  lemma {:induction false} FirstFailedSame(made: seq<Made>, made': seq<Made>, list: seq<nat>)
    requires |made| == |made'| && forall t :: t in list ==> t < |made| && made[t] == made'[t]
    ensures FirstFailed(made, list) == FirstFailed(made', list)
  {
    if list != [] {
      assert list[0] in list && forall t :: t in list[1..] ==> t in list;
      FirstFailedSame(made, made', list[1..]);
    }
  }

  lemma {:induction false} NoneFailed(made: seq<Made>, list: seq<nat>, t: nat)
    requires FirstFailed(made, list).None? && t in list && t < |made|
    ensures !Failed(made[t])
  {
    if list[0] != t {
      NoneFailed(made, list[1..], t);
    }
  }

  lemma FlagsEnter(o: Options, made: seq<Made>, runs: seq<nat>, path: seq<nat>, n: nat)
    requires FlagsOk(o, made, runs, path) && n < |made| && made[n].UNMADE?
    ensures FlagsOk(o, made[n := BEINGMADE], runs, path + [n])
  {
    var made', path' := made[n := BEINGMADE], path + [n];
    assert n in path';
    forall x | 0 <= x < |made| ensures FlagAt(o, made', runs, path', x) {
      assert FlagAt(o, made, runs, path, x);
      assert x in path ==> x in path';
    }
  }

  lemma FlagsReenter(o: Options, made: seq<Made>, runs: seq<nat>, path: seq<nat>, n: nat)
    requires FlagsOk(o, made, runs, path) && n < |made| && made[n].BEINGMADE? && n in path
    ensures FlagsOk(o, made[n := ERROR], runs, path)
  {
    var made' := made[n := ERROR];
    forall x | 0 <= x < |made| ensures FlagAt(o, made', runs, path, x) {
      assert FlagAt(o, made, runs, path, x);
    }
  }

  // A node is left: given up, or examined.
  lemma FlagsLeave(o: Options, made: seq<Made>, runs: seq<nat>, path: seq<nat>, n: nat, m: Made, ran: bool)
    requires FlagsOk(o, made, runs, path + [n]) && n < |made| && n !in path && n !in runs
    requires if m.ABORTED? then !ran else m == MadeAs(o, n) && !Quits(o, n) && ran == Runs(o, n)
    ensures var made', runs' := made[n := m], if ran then runs + [n] else runs;
      if m.ERROR? && !o.keepgoing then HasReason(o, made') else FlagsOk(o, made', runs', path)
  {
    var made', runs' := made[n := m], if ran then runs + [n] else runs;
    if m.ERROR? && !o.keepgoing {
      assert made'[n].ERROR?;
    } else {
      forall x | 0 <= x < |made| ensures FlagAt(o, made', runs', path, x) {
        assert FlagAt(o, made, runs, path + [n], x);
        assert x != n ==> (x in path <==> x in path + [n]);
      }
    }
  }

  lemma InvIsSafe(g: Graph, reach: set<nat>, st: State, path: seq<nat>)
    requires Inv(g, reach, st, path)
    ensures Safe(g, st.made, st.runs)
  {
    forall n | 0 <= n < |g| ensures RunOk(g, st.made, st.runs, n) {
      assert MarkOk(g, st, path, n) && LeftOk(g, st, path, n);
      if n in st.runs && !g[n].isMade {
        forall d: nat | d < |g| && IsDep(g, n, d) ensures Settled(st.made[d]) {
          assert SeenBy(st, path, n, d) && MarkOk(g, st, path, d);
        }
      }
    }
  }

  // When the top of the path has seen what it depends on and has not been told anything.
  lemma ReadyToRun(g: Graph, reach: set<nat>, st: State, path: seq<nat>, n: nat)
    requires Inv(g, reach, st, path + [n]) && n < |g| && st.remake[n]
    requires forall d: nat :: d < |g| && IsDep(g, n, d) ==> Seen(g, st, path + [n], d)
    ensures DepsSettled(g, st.made, n)
  {
    forall d: nat | d < |g| && IsDep(g, n, d) ensures Settled(st.made[d]) {
      assert Seen(g, st, path + [n], d) && MarkOk(g, st, path + [n], d);
    }
  }

  lemma RunStep(g: Graph, reach: set<nat>, st: State, path: seq<nat>, n: nat)
    requires Inv(g, reach, st, path) && n < |g| && n !in st.runs
    requires Left(st, path, n) && (st.made[n].MADE? || st.made[n].ERROR?)
    ensures Inv(g, reach, st.(runs := st.runs + [n]), path)
  {
    var st' := st.(runs := st.runs + [n]);
    forall x | 0 <= x < |g|
      ensures MarkOk(g, st', path, x) && OriginOk(g, reach, st', x) && LeftOk(g, st', path, x)
    {
      assert MarkOk(g, st, path, x) && OriginOk(g, reach, st, x) && LeftOk(g, st, path, x);
      RunBad(g, st, path, n, x);
      if Left(st, path, x) && !g[x].isMade {
        forall y: nat | y < |g| && IsDep(g, x, y) ensures SeenBy(st', path, x, y) {
          assert SeenBy(st, path, x, y);
        }
      }
    }
    forall i | 0 <= i < |path| ensures PathOk(g, st', path, i) {
      assert PathOk(g, st, path, i);
      RunBad(g, st, path, n, path[i]);
    }
    forall i, x | 0 <= i < |path| && 0 <= x < |g| ensures Told(st', path, i, x) {
      assert Told(st, path, i, x);
    }
  }

  lemma RunBad(g: Graph, st: State, path: seq<nat>, n: nat, x: nat)
    requires Sized(g, st) && x < |g|
    ensures HasBad(g, st.(runs := st.runs + [n]), path, x) == HasBad(g, st, path, x)
  {
    var st' := st.(runs := st.runs + [n]);
    forall d: nat | d < |g| ensures Bad(st', path, x, d) == Bad(st, path, x, d) {
    }
    if HasBad(g, st, path, x) { HasBadKept(g, st, path, st', path, x); }
    if HasBad(g, st', path, x) { HasBadKept(g, st', path, st, path, x); }
  }

  // Leaving a node after its commands were run or not.
  function Done(st: State, n: nat, m: Made, pgn: nat, ran: bool): State
    requires n < |st.made| == |st.finish| && pgn < |st.remake|
  {
    Leaving(st, n, m, pgn).(runs := if ran then st.runs + [n] else st.runs)
  }

  lemma DoneStep(g: Graph, reach: set<nat>, st: State, path: seq<nat>, n: nat, m: Made, pgn: nat, ran: bool)
    requires LeavePre(g, reach, st, path, n, m, pgn)
    requires ran ==> m.MADE? || m.ERROR?
    ensures Inv(g, reach, Done(st, n, m, pgn, ran), path)
    ensures Safe(g, Done(st, n, m, pgn, ran).made, Done(st, n, m, pgn, ran).runs)
    ensures path != [] ==> Seen(g, Done(st, n, m, pgn, ran), path, n)
  {
    LeaveStep(g, reach, st, path, n, m, pgn);
    LeaveTop(g, reach, st, path, n, m, pgn);
    assert MarkOk(g, st, path + [n], n);
    if ran {
      RunStep(g, reach, Leaving(st, n, m, pgn), path, n);
    }
    InvIsSafe(g, reach, Done(st, n, m, pgn, ran), path);
  }

  lemma NotOnPath(g: Graph, reach: set<nat>, st: State, path: seq<nat>, n: nat)
    requires Inv(g, reach, st, path) && n < |g| && st.made[n].UNMADE?
    ensures n !in path
  {
    assert MarkOk(g, st, path, n);
  }

  lemma TopNotBelow(g: Graph, reach: set<nat>, st: State, path: seq<nat>, n: nat)
    requires Inv(g, reach, st, path + [n]) && n < |g|
    ensures n !in path && n !in st.runs
  {
    assert n in path + [n] && MarkOk(g, st, path + [n], n);
  }

  lemma TopIsBeingMade(g: Graph, reach: set<nat>, st: State, path: seq<nat>, n: nat)
    requires Inv(g, reach, st, path + [n]) && n < |g| && st.remake[n]
    ensures st.made[n].BEINGMADE?
  {
    var p := path + [n];
    assert p[|path|] == n && PathOk(g, st, p, |path|) && MarkOk(g, st, p, n);
  }

  // Between entering a node and leaving it, nothing below it on the path was touched.
  lemma AroundNode(g: Graph, st: State, st1: State, path: seq<nat>, n: nat, m: Made, pgn: nat, ran: bool)
    requires Extends(g, st, st1, path) && n < |g| && pgn < |g| && st.made[n].UNMADE? && n !in path
    requires path != [] ==> pgn == path[|path| - 1]
    requires !m.UNMADE?
    ensures Extends(g, st, Done(st1, n, m, pgn, ran), path)
  {
    var st2 := Done(st1, n, m, pgn, ran);
    forall x | 0 <= x < |g| ensures Kept(g, st, st2, path, x) {
      assert Kept(g, st, st1, path, x);
    }
  }

  // What a call for the node on top leaves alone, below.
  lemma ExtendsBelow(g: Graph, reach: set<nat>, st: State, path: seq<nat>, n: nat, st1: State)
    requires EnterPre(g, reach, st, path, n)
    requires Extends(g, Enter(st, n), st1, path + [n])
    ensures Extends(g, st, st1, path)
  {
    assert MarkOk(g, st, path, n);
    forall x | 0 <= x < |g| ensures Kept(g, st, st1, path, x) {
      assert Kept(g, Enter(st, n), st1, path + [n], x);
    }
  }

  // Outside the recursion, nothing depends on the remake flags.
  lemma TellIdle(g: Graph, reach: set<nat>, st: State, n: nat)
    requires Inv(g, reach, st, []) && n < |g|
    ensures Inv(g, reach, Tell(st, n), []) && Extends(g, st, Tell(st, n), [])
  {
    var st' := Tell(st, n);
    forall x | 0 <= x < |g|
      ensures MarkOk(g, st', [], x) && OriginOk(g, reach, st', x) && LeftOk(g, st', [], x) && Kept(g, st, st', [], x)
    {
      assert MarkOk(g, st, [], x) && OriginOk(g, reach, st, x) && LeftOk(g, st, [], x);
      TellBad(g, st, [], n, x);
      if Left(st, [], x) && !g[x].isMade {
        forall y: nat | y < |g| && IsDep(g, x, y) ensures SeenBy(st', [], x, y) {
          assert SeenBy(st, [], x, y);
        }
      }
    }
  }

  lemma CohortIsDep(g: Graph, n: nat, c: nat, q: nat)
    requires WellFormed(g) && n < |g| && c < |g| && IsDep(g, n, c) && q in g[c].cohorts
    ensures IsDep(g, n, q)
  {
    assert forall c1 :: c1 in g[n].children && c1 < |g| ==> NodeWf(g, c1);
  }

  // ---------------------------------------------------------------- how much is left to do

  function Unmade(made: seq<Made>): set<nat> {
    set n: nat | n < |made| && made[n].UNMADE?
  }

  // All that a node of the set depends on, and its `::` instances, are in the set.
  ghost predicate ClosedSet(g: Graph, reach: set<nat>) {
    forall n: nat :: n < |g| && n in reach ==>
      (forall c :: c in g[n].children ==> c in reach) && (forall q :: q in g[n].cohorts ==> q in reach)
  }

  lemma UnmadeLess(made: seq<Made>, made': seq<Made>, n: nat)
    requires n < |made| && made[n].UNMADE? && made' == made[n := BEINGMADE]
    ensures Unmade(made') <= Unmade(made) && |Unmade(made')| < |Unmade(made)|
  {
    assert Unmade(made') == Unmade(made) - {n};
  }

  // A list of nodes that have no further instances of their own is made before one that has.
  function ListLevel(g: Graph, list: seq<nat>): nat {
    if list == [] then 0
    else if forall c :: c in list && c < |g| ==> g[c].cohorts == [] then 2
    else 4
  }

  function NodeLevel(g: Graph, n: nat): nat {
    if n < |g| && g[n].cohorts != [] then 3 else 1
  }

  lemma AllDepsSeen(g: Graph, st: State, path: seq<nat>, n: nat)
    requires Sized(g, st) && n < |g| && path != [] && path[|path| - 1] == n
    requires SeenAll(g, st, path, g[n].children)
    ensures forall d: nat :: d < |g| && IsDep(g, n, d) ==> Seen(g, st, path, d)
  {
    forall d: nat | d < |g| && IsDep(g, n, d) ensures Seen(g, st, path, d) {
      if d !in g[n].children {
        var c :| c in g[n].children && c < |g| && d in g[c].cohorts;
      }
    }
  }

  lemma SeenAllKept(g: Graph, st: State, st': State, path: seq<nat>, list: seq<nat>)
    requires Extends(g, st, st', path)
    requires path != [] && path[|path| - 1] < |g| && SeenAll(g, st, path, list)
    ensures SeenAll(g, st', path, list)
  {
    forall c | c in list
      ensures c < |g| && Seen(g, st', path, c) && forall q :: q in g[c].cohorts ==> Seen(g, st', path, q)
    {
      SeenKept(g, st, st', path, c);
      forall q | q in g[c].cohorts ensures Seen(g, st', path, q) {
        SeenKept(g, st, st', path, q);
      }
    }
  }

  // What a call for gn asks for: the node on top of the path depends on it.
  ghost predicate Asks(g: Graph, reach: set<nat>, path: seq<nat>, pgn: nat, gn: nat) {
    && gn < |g| && pgn < |g| && gn in reach
    && (path != [] ==> pgn == path[|path| - 1] && IsDep(g, pgn, gn))
  }

  ghost predicate AsksAll(g: Graph, reach: set<nat>, path: seq<nat>, pgn: nat, list: seq<nat>) {
    pgn < |g| && (path != [] ==> pgn == path[|path| - 1]) && forall c :: c in list ==> Asks(g, reach, path, pgn, c)
  }

  lemma AsksChildren(g: Graph, reach: set<nat>, path: seq<nat>, n: nat)
    requires WellFormed(g) && ClosedSet(g, reach) && n < |g| && n in reach
    ensures AsksAll(g, reach, path + [n], n, g[n].children)
  {
    assert NodeWf(g, n);
  }

  lemma AsksCohorts(g: Graph, reach: set<nat>, path: seq<nat>, pgn: nat, n: nat)
    requires WellFormed(g) && ClosedSet(g, reach) && Asks(g, reach, path, pgn, n)
    ensures AsksAll(g, reach, path, pgn, g[n].cohorts)
    ensures ListLevel(g, g[n].cohorts) < NodeLevel(g, n)
    ensures forall q :: q in g[n].cohorts ==> q < |g| && g[q].cohorts == []
  {
    assert NodeWf(g, n);
    forall q | q in g[n].cohorts ensures Asks(g, reach, path, pgn, q) {
      if path != [] {
        CohortIsDep(g, pgn, n, q);
      }
    }
  }

  lemma SeenAllMore(g: Graph, st: State, path: seq<nat>, list: seq<nat>, i: nat)
    requires Sized(g, st) && path != [] && path[|path| - 1] < |g| && i < |list|
    requires SeenAll(g, st, path, list[..i]) && SeenAll(g, st, path, [list[i]])
    ensures SeenAll(g, st, path, list[..i + 1])
  {
    assert list[..i + 1] == list[..i] + [list[i]];
    assert list[i] in [list[i]];
  }

  lemma FewerUnmade(made': seq<Made>, made: seq<Made>)
    requires Unmade(made') <= Unmade(made)
    ensures |Unmade(made')| <= |Unmade(made)|
    ensures |Unmade(made')| == |Unmade(made)| ==> Unmade(made') == Unmade(made)
  {
    var rest := Unmade(made) - Unmade(made');
    assert Unmade(made) == Unmade(made') + rest;
  }

  // A node that is being made is on the path.
  lemma PlaceOnPath(g: Graph, reach: set<nat>, st: State, path: seq<nat>, n: nat) returns (i: nat)
    requires Inv(g, reach, st, path) && n < |g| && st.made[n].BEINGMADE?
    ensures i < |path| && path[i] == n
  {
    assert MarkOk(g, st, path, n);
    i :| 0 <= i < |path| && path[i] == n;
  }

  // A parent is told about a node that failed before.
  lemma TellEither(g: Graph, reach: set<nat>, st: State, path: seq<nat>, pgn: nat, n: nat)
    requires Inv(g, reach, st, path) && Asks(g, reach, path, pgn, n) && st.made[n].ERROR?
    ensures Inv(g, reach, Tell(st, pgn), path) && Extends(g, st, Tell(st, pgn), path)
    ensures path != [] ==> Seen(g, Tell(st, pgn), path, n)
  {
    assert MarkOk(g, st, path, n);
    if path == [] {
      TellIdle(g, reach, st, pgn);
    } else {
      TellStep(g, reach, st, path, n);
    }
  }

  // Between two targets, what was left stays as it is.
  lemma LeftStays(g: Graph, reach: set<nat>, st: State, st': State, list: seq<nat>)
    requires Inv(g, reach, st, []) && Extends(g, st, st', [])
    requires forall t :: t in list ==> t < |g| && !st.made[t].UNMADE?
    ensures forall t :: t in list ==> st'.made[t] == st.made[t] && !st.made[t].BEINGMADE?
  {
    forall t | t in list ensures st'.made[t] == st.made[t] && !st.made[t].BEINGMADE? {
      assert MarkOk(g, st, [], t) && Kept(g, st, st', [], t);
    }
  }

  // ---------------------------------------------------------------- the end of a build

  // A dependency that keeps n from being made: it failed, or it was given up after n was
  // entered. One that had been given up before does not.
  ghost predicate Hinders(st: State, n: nat, d: nat)
    requires n < |st.start| && d < |st.made| == |st.finish|
  {
    st.made[d].ERROR? || (st.made[d].ABORTED? && st.start[n] < st.finish[d])
  }

  ghost predicate Hindered(g: Graph, st: State, n: nat)
    requires Sized(g, st) && n < |g|
  {
    exists d: nat :: d < |g| && IsDep(g, n, d) && Hinders(st, n, d)
  }

  ghost predicate DepOutcome(st: State, n: nat, d: nat)
    requires n < |st.finish| && d < |st.made| == |st.finish|
  {
    !st.made[d].UNMADE? && (d in st.looped || st.finish[d] < st.finish[n])
  }

  // What is known of a node when the walk is over.
  ghost predicate NodeOutcome(g: Graph, reach: set<nat>, st: State, n: nat)
    requires Sized(g, st) && n < |g|
  {
    && !st.made[n].BEINGMADE?
    && (!st.made[n].UNMADE? ==> n in reach && st.start[n] < st.finish[n])
    && (n in st.looped ==> st.made[n].ABORTED? && OnCycle(g, n))
    && (n in st.runs ==> st.made[n].MADE? || st.made[n].ERROR?)
    && (!st.made[n].UNMADE? && !g[n].isMade ==>
          && (forall d: nat :: d < |g| && IsDep(g, n, d) ==> DepOutcome(st, n, d))
          && (st.made[n].ABORTED? <==> Hindered(g, st, n)))
  }

  ghost predicate Outcome(g: Graph, reach: set<nat>, st: State) {
    && WellFormed(g) && Sized(g, st) && Safe(g, st.made, st.runs)
    && forall n :: 0 <= n < |g| ==> NodeOutcome(g, reach, st, n)
  }

  lemma InvOutcome(g: Graph, reach: set<nat>, st: State)
    requires Inv(g, reach, st, [])
    ensures Outcome(g, reach, st)
  {
    InvIsSafe(g, reach, st, []);
    forall n | 0 <= n < |g| ensures NodeOutcome(g, reach, st, n) {
      assert MarkOk(g, st, [], n) && OriginOk(g, reach, st, n) && LeftOk(g, st, [], n);
      if !st.made[n].UNMADE? && !g[n].isMade {
        forall d: nat | d < |g| && IsDep(g, n, d)
          ensures DepOutcome(st, n, d) && Hinders(st, n, d) == Bad(st, [], n, d)
        {
          assert SeenBy(st, [], n, d);
        }
        if HasBad(g, st, [], n) {
          var d: nat :| d < |g| && IsDep(g, n, d) && Bad(st, [], n, d);
          assert Hinders(st, n, d);
        }
      }
    }
  }

  ghost predicate NoneMade(g: Graph, p: seq<nat>) {
    forall i :: 0 <= i < |p| ==> p[i] < |g| && !g[p[i]].isMade
  }

  lemma NoneFailedOutcome(g: Graph, reach: set<nat>, st: State, list: seq<nat>)
    requires Inv(g, reach, st, []) && forall t :: t in list ==> t < |g| && !st.made[t].UNMADE?
    ensures FirstFailed(st.made, list).None? ==> forall t :: t in list ==> st.made[t].MADE? || st.made[t].UPTODATE?
  {
    if FirstFailed(st.made, list).None? {
      forall t | t in list ensures st.made[t].MADE? || st.made[t].UPTODATE? {
        NoneFailed(st.made, list, t);
        assert MarkOk(g, st, [], t);
      }
    }
  }

  // What may be entered can be said more generously.
  lemma MoreReached(g: Graph, reach: set<nat>, more: set<nat>, st: State)
    requires Inv(g, reach, st, []) && reach <= more
    ensures Inv(g, more, st, [])
  {
    forall n | 0 <= n < |g| ensures OriginOk(g, more, st, n) {
      assert OriginOk(g, reach, st, n);
    }
  }

  // Along a chain of dependencies that meets no looped node, nodes were left ever earlier.
  lemma {:induction false} ChainIsVisited(g: Graph, reach: set<nat>, st: State, p: seq<nat>, k: nat)
    requires Outcome(g, reach, st) && Chain(g, p) && NoneMade(g, p) && k < |p|
    requires !st.made[p[0]].UNMADE?
    ensures !st.made[p[k]].UNMADE?
    ensures k == 0 || (exists i :: 0 <= i < |p| && p[i] in st.looped) || st.finish[p[k]] < st.finish[p[0]]
  {
    if k > 0 {
      ChainIsVisited(g, reach, st, p, k - 1);
      assert IsDep(g, p[k - 1], p[(k - 1) + 1]);
      assert NodeOutcome(g, reach, st, p[k - 1]);
      assert DepOutcome(st, p[k - 1], p[k]);
    }
  }

  // Every cycle that the walk could reach was met: one of its nodes was re-entered or lies
  // between a node and its re-entry, and so it was given up.
  lemma CycleIsMet(g: Graph, reach: set<nat>, st: State, p: seq<nat>)
    requires Outcome(g, reach, st) && Chain(g, p) && NoneMade(g, p)
    requires |p| >= 2 && p[0] == p[|p| - 1] && !st.made[p[0]].UNMADE?
    ensures exists i :: 0 <= i < |p| && p[i] in st.looped && st.made[p[i]].ABORTED? && p[i] !in st.runs
  {
    ChainIsVisited(g, reach, st, p, |p| - 1);
    var i :| 0 <= i < |p| && p[i] in st.looped;
    assert NodeOutcome(g, reach, st, p[i]);
  }

  // Without a failure and without a cycle, nothing was given up.
  lemma {:induction false} NothingGivenUp(g: Graph, reach: set<nat>, st: State, n: nat)
    requires Outcome(g, reach, st) && n < |g| && !st.made[n].UNMADE?
    requires st.looped == {} && forall x :: 0 <= x < |g| ==> !g[x].isMade && !st.made[x].ERROR?
    ensures st.made[n].MADE? || st.made[n].UPTODATE?
    decreases st.finish[n]
  {
    assert NodeOutcome(g, reach, st, n);
    if st.made[n].ABORTED? {
      var d: nat :| d < |g| && IsDep(g, n, d) && Hinders(st, n, d);
      assert DepOutcome(st, n, d);
      NothingGivenUp(g, reach, st, d);
    }
  }

  // ---------------------------------------------------------------- a dependency given up before

  // Node 0 depends on 1 and 2, node 1 on 3, and node 2 on 1; 3 fails, with -k.
  function Diamond(): Graph {
    [Node([1, 2], [], false), Node([3], [], false), Node([1], [], false), Node([], [], false)]
  }

  function Fresh(): State {
    State([UNMADE, UNMADE, UNMADE, UNMADE], [false, false, false, false], [], [0, 0, 0, 0], [0, 0, 0, 0], 0, {})
  }

  // The steps up to the point where 2 is entered: 3 has failed, and 1 was given up for it.
  function BeforeTwo(): State {
    Done(Done(Enter(Enter(Enter(Fresh(), 0), 1), 3), 3, ERROR, 1, true), 1, ABORTED, 0, false)
  }

  // Node 2 then meets 1, which changes nothing, and its commands are run on a dependency that
  // was given up.
  lemma GivenUpIsIgnored()
    ensures var st := Enter(BeforeTwo(), 2);
      && IsDep(Diamond(), 2, 1) && st.made[1].ABORTED? && st.made[2].BEINGMADE? && st.remake[2]
      && !Hinders(st, 2, 1) && !st.remake[0]
    ensures var st := Done(Enter(BeforeTwo(), 2), 2, MADE, 0, true);
      st.made[1].ABORTED? && st.made[2].MADE? && 2 in st.runs && st.finish[1] < st.start[2]
  {
    var s3 := Enter(Enter(Enter(Fresh(), 0), 1), 3);
    assert s3.made == [BEINGMADE, BEINGMADE, UNMADE, BEINGMADE] && s3.remake == [true, true, false, true];
    assert s3.clock == 3 && s3.start == [0, 1, 0, 2];
    var s4 := Done(s3, 3, ERROR, 1, true);
    assert s4.made == [BEINGMADE, BEINGMADE, UNMADE, ERROR] && s4.remake == [true, false, false, true];
    var s5 := Done(s4, 1, ABORTED, 0, false);
    assert s5.made == [BEINGMADE, ABORTED, UNMADE, ERROR] && s5.remake == [false, false, false, true];
    assert s5.finish[1] == 4 && s5.clock == 5 && s5.runs == [3];
    assert 1 in Diamond()[2].children;
    var s7 := Done(Enter(s5, 2), 2, MADE, 0, true);
    assert s7.runs == [3, 2] && s7.start[2] == 5;
  }
}
