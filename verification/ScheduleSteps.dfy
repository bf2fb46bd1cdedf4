/**
How the single steps of the parallel build change the state, and why each of them keeps
the invariants.
*/
module ScheduleSteps {
  import opened Wrappers
  import opened BuildGraph
  import opened BuildRules
  import BuildOrder
  import opened ScheduleState

  ghost predicate IsSuffix(back: seq<nat>, queue: seq<nat>) {
    |back| <= |queue| && queue[|queue| - |back|..] == back
  }

  function FirstOf(queue: seq<nat>): Option<nat> {
    if queue == [] then None else Some(queue[0])
  }

  // Inserting before the first entry of a suffix of the queue keeps that suffix.
  lemma InsertKeepsSuffix(made: seq<Made>, queue: seq<nat>, back: seq<nat>, n: nat)
    requires QueueOk(made, queue) && IsSuffix(back, queue)
    ensures IsSuffix(back, InsertBefore(queue, FirstOf(back), n))
  {
    var front := queue[..|queue| - |back|];
    assert queue == front + back;
    if back != [] {
      var x := back[0];
      assert x in back && x in queue;
      assert QueuedOnce(made, queue, x);
      assert multiset(queue)[x] == multiset(front)[x] + multiset(back)[x];
      assert multiset(back)[x] > 0;
      assert multiset(front)[x] == 0;
    }
    InsertBeforeSplit(front, back, FirstOf(back), n);
    assert front + [n] + back == (front + [n]) + back;
  }

  // A node that is requested and then has its cohorts scheduled.
  lemma RequestedWithCohorts(g: Graph, m0: seq<Made>, m1: seq<Made>, m2: seq<Made>, cn: nat)
    requires |m0| == |g| && cn < |g| && !IsReady(m0[cn]) && m1 == m0[cn := REQUESTED]
    requires Scheduled(g, m0, m1) && Scheduled(g, m1, m2) && CohortsFollow(g, m1, m2)
    requires forall q :: q in g[cn].cohorts ==> q in Touched(m2)
    ensures Scheduled(g, m0, m2) && CohortsFollow(g, m0, m2)
  {
    ScheduledSets(g, m0, m1);
    forall n | 0 <= n < |g|
      ensures MayBeScheduled(g, m0, m2, n) && Follows(g, m0, m2, n)
    {
      assert MayBeScheduled(g, m0, m1, n) && MayBeScheduled(g, m1, m2, n);
      assert Follows(g, m1, m2, n);
    }
  }

  lemma NothingScheduled(g: Graph, m: seq<Made>)
    requires |m| == |g|
    ensures Scheduled(g, m, m) && CohortsFollow(g, m, m)
  {
    assert forall n :: 0 <= n < |g| ==> MayBeScheduled(g, m, m, n) && Follows(g, m, m, n);
  }

  lemma DeferredAlone(g: Graph, m: seq<Made>, n: nat)
    requires |m| == |g| && n < |g| && !IsReady(m[n]) && !OrderReady(g, DoneSet(m), n)
    ensures Scheduled(g, m, m[n := DEFERRED]) && CohortsFollow(g, m, m[n := DEFERRED])
  {
    var m' := m[n := DEFERRED];
    assert forall x :: 0 <= x < |g| ==> MayBeScheduled(g, m, m', x) && Follows(g, m, m', x);
  }

  // Deferred although nothing of .ORDER holds it back.
  ghost predicate HeldBack(g: Graph, m: seq<Made>, n: nat)
    requires |m| == |g| && n < |g|
  {
    m[n].DEFERRED? && OrderReady(g, DoneSet(m), n)
  }

  lemma MoreScheduled(g: Graph, m0: seq<Made>, m1: seq<Made>, m2: seq<Made>)
    requires |m0| == |g|
    requires Scheduled(g, m0, m1) && CohortsFollow(g, m0, m1)
    requires Scheduled(g, m1, m2) && CohortsFollow(g, m1, m2)
    ensures Scheduled(g, m0, m2) && CohortsFollow(g, m0, m2)
    ensures DoneSet(m2) == DoneSet(m1) && Touched(m1) <= Touched(m2)
    ensures forall n: nat :: n < |g| && !HeldBack(g, m1, n) ==> !HeldBack(g, m2, n)
  {
    ScheduledTwice(g, m0, m1, m2);
    ScheduledSets(g, m1, m2);
    forall n: nat | n < |g| && !HeldBack(g, m1, n)
      ensures !HeldBack(g, m2, n)
    {
      assert MayBeScheduled(g, m1, m2, n);
    }
  }

  // ---------------------------------------------------------------- what is left alone

  // Scheduling cn changes nothing but it and its instances.
  ghost predicate Around(g: Graph, m: seq<Made>, m': seq<Made>, cn: nat, n: nat)
    requires |m| == |m'| == |g| && n < |g| && cn < |g|
  {
    m'[n] == m[n] || n == cn || n in g[cn].cohorts
  }

  ghost predicate OnlyAround(g: Graph, m: seq<Made>, m': seq<Made>, cn: nat) {
    |m| == |m'| == |g| && cn < |g| && forall n :: 0 <= n < |g| ==> Around(g, m, m', cn, n)
  }

  lemma NothingAround(g: Graph, m: seq<Made>, cn: nat)
    requires |m| == |g| && cn < |g|
    ensures OnlyAround(g, m, m, cn)
  {
    assert forall n :: 0 <= n < |g| ==> Around(g, m, m, cn, n);
  }

  lemma NodeAndInstances(g: Graph, m: seq<Made>, k: Made, m': seq<Made>, cn: nat)
    requires |m| == |g| && cn < |g| && OnlyAround(g, m[cn := k], m', cn)
    ensures OnlyAround(g, m, m', cn)
  {
    forall n | 0 <= n < |g| ensures Around(g, m, m', cn, n) {
      assert Around(g, m[cn := k], m', cn, n);
    }
  }

  lemma OneMoreInstance(g: Graph, m: seq<Made>, m1: seq<Made>, m2: seq<Made>, cn: nat, q: nat)
    requires WellFormed(g) && OnlyAround(g, m, m1, cn) && q in g[cn].cohorts && OnlyAround(g, m1, m2, q)
    ensures OnlyAround(g, m, m2, cn)
  {
    assert NodeWf(g, cn) && CohortShape(g[q], cn);
    forall n | 0 <= n < |g| ensures Around(g, m, m2, cn, n) {
      assert Around(g, m, m1, cn, n) && Around(g, m1, m2, q, n);
    }
  }

  // A `.WAIT` that was not looked at before, or that was and had to wait, holds up the siblings
  // after it as long as something is not done that it depends on.
  ghost predicate HoldsUp(g: Graph, made: seq<Made>, w: nat)
    requires |made| == |g|
  {
    w < |g| && g[w].wait && !IsReady(made[w]) && OrderReady(g, DoneSet(made), w) && !ChildrenDone(g, DoneSet(made), w)
  }

  // How many nodes of a list are looked at, from place i on: up to the first that holds up the
  // others, and that one too.
  ghost function ScanEnd(g: Graph, made: seq<Made>, list: seq<nat>, i: nat): (k: nat)
    requires |made| == |g| && i <= |list|
    ensures i <= k <= |list|
    decreases |list| - i
  {
    if i == |list| then i
    else if HoldsUp(g, made, list[i]) then i + 1
    else ScanEnd(g, made, list, i + 1)
  }

  // The node, or the one whose instance it is, is among the first k of the list.
  ghost predicate AmongFirst(g: Graph, list: seq<nat>, k: nat, n: nat) {
    exists j: nat :: PlacedAt(g, list, k, n, j)
  }

  ghost predicate PlacedAt(g: Graph, list: seq<nat>, k: nat, n: nat, j: nat) {
    j < k && j < |list| && list[j] < |g| && (n == list[j] || n in g[list[j]].cohorts)
  }

  ghost predicate LeftAlone(g: Graph, m: seq<Made>, m': seq<Made>, list: seq<nat>, k: nat, n: nat)
    requires |m| == |m'| == |g| && n < |g|
  {
    m'[n] == m[n] || AmongFirst(g, list, k, n)
  }

  // Nothing behind the first k nodes of the list was looked at.
  ghost predicate LooksNoFurther(g: Graph, m: seq<Made>, m': seq<Made>, list: seq<nat>, k: nat) {
    |m| == |m'| == |g| && forall n :: 0 <= n < |g| ==> LeftAlone(g, m, m', list, k, n)
  }

  lemma NoFurther(g: Graph, m: seq<Made>, list: seq<nat>)
    requires |m| == |g|
    ensures LooksNoFurther(g, m, m, list, 0)
  {
    assert forall n :: 0 <= n < |g| ==> LeftAlone(g, m, m, list, 0, n);
  }

  lemma OneFurther(g: Graph, m: seq<Made>, m1: seq<Made>, m2: seq<Made>, list: seq<nat>, i: nat)
    requires LooksNoFurther(g, m, m1, list, i) && i < |list| && OnlyAround(g, m1, m2, list[i])
    ensures LooksNoFurther(g, m, m2, list, i + 1)
  {
    var k := i + 1;
    forall n | 0 <= n < |g| ensures LeftAlone(g, m, m2, list, k, n) {
      assert LeftAlone(g, m, m1, list, i, n) && Around(g, m1, m2, list[i], n);
      if AmongFirst(g, list, i, n) {
        var j: nat :| PlacedAt(g, list, i, n, j);
        assert PlacedAt(g, list, k, n, j);
      } else if n == list[i] || n in g[list[i]].cohorts {
        assert PlacedAt(g, list, k, n, i);
      }
    }
  }

  // Whether a `.WAIT` holds up the rest is decided by the state before the scan.
  lemma HeldUpBefore(g: Graph, m: seq<Made>, m1: seq<Made>, list: seq<nat>, i: nat)
    requires WellFormed(g) && |m| == |g| && Scheduled(g, m, m1) && LooksNoFurther(g, m, m1, list, i) && i < |list|
    requires forall j :: 0 <= j < i ==> !HoldsUp(g, m, list[j])
    ensures HoldsUp(g, m1, list[i]) <==> HoldsUp(g, m, list[i])
  {
    var w := list[i];
    ScheduledSets(g, m, m1);
    if w < |g| {
      assert MayBeScheduled(g, m, m1, w) && LeftAlone(g, m, m1, list, i, w);
      if m1[w] != m[w] {
        var j: nat :| PlacedAt(g, list, i, w, j);
        if w != list[j] {
          assert NodeWf(g, list[j]) && CohortShape(g[w], list[j]);
        }
      }
    }
  }

  lemma StopIsHoldingUp(g: Graph, made: seq<Made>, unmade: seq<int>, cn: nat)
    requires WellFormed(g) && |made| == |unmade| == |g| && UnmadeOk(g, unmade, DoneSet(made)) && cn < |g| && g[cn].remake
    ensures HoldsUp(g, made, cn) <==> g[cn].wait && !IsReady(made[cn]) && OrderReady(g, DoneSet(made), cn) && unmade[cn] > 0
  {
    assert UnmadeIs(g, unmade, DoneSet(made), cn);
    NothingMissing(g, DoneSet(made), cn);
  }

  // A scan that stopped at a `.WAIT` that is not done has looked at all that it must.
  lemma StoppedScan(g: Graph, T: set<nat>, D: set<nat>, n: nat, i: nat)
    requires n < |g| && i < |g[n].children| && IsWait(g, g[n].children[i]) && g[n].children[i] !in D
    requires forall j :: 0 <= j <= i ==> g[n].children[j] in T
    ensures Scanned(g, T, D, n)
  {
    forall k | 0 <= k < |g[n].children| && WaitsPassed(g, D, n, k) ensures g[n].children[k] in T {
      assert k <= i;
    }
  }

  // ---------------------------------------------------------------- .ORDER successors

  // Whether MakeBuildChild tells its caller to stop.
  ghost predicate Stops(g: Graph, made: seq<Made>, unmade: seq<int>, n: nat)
    requires |made| == |unmade| == |g| && n < |g|
  {
    g[n].wait && !IsReady(made[n]) && OrderReady(g, DoneSet(made), n) && unmade[n] > 0
  }

  // A successor that was deferred is noted, unless it is a `.WAIT` that waits for children, and
  // nothing is noted but successors.
  ghost predicate NotedAt(g: Graph, m: seq<Made>, unmade: seq<int>, was: seq<bool>, now: seq<bool>, list: seq<nat>, n: nat)
    requires |m| == |unmade| == |was| == |now| == |g| && n < |g|
  {
    && (was[n] ==> now[n])
    && (now[n] && !was[n] ==> n in list && !IsReady(m[n]))
    && (n in list && m[n].DEFERRED? && g[n].centurion == None && !Stops(g, m, unmade, n) ==> now[n])
  }

  ghost predicate OrderNoted(g: Graph, m: seq<Made>, unmade: seq<int>, was: seq<bool>, now: seq<bool>, list: seq<nat>) {
    |m| == |unmade| == |was| == |now| == |g| && forall n :: 0 <= n < |g| ==> NotedAt(g, m, unmade, was, now, list, n)
  }

  ghost predicate KeptAt(g: Graph, m: seq<Made>, m': seq<Made>, list: seq<nat>, n: nat)
    requires |m| == |m'| == |g| && n < |g|
  {
    n !in list && g[n].centurion == None ==> m'[n] == m[n]
  }

  ghost predicate OthersKept(g: Graph, m: seq<Made>, m': seq<Made>, list: seq<nat>) {
    |m| == |m'| == |g| && forall n :: 0 <= n < |g| ==> KeptAt(g, m, m', list, n)
  }

  lemma NothingNoted(g: Graph, m: seq<Made>, unmade: seq<int>, done: seq<bool>)
    requires |m| == |unmade| == |done| == |g|
    ensures OrderNoted(g, m, unmade, done, done, []) && OthersKept(g, m, m, [])
  {
    assert forall n :: 0 <= n < |g| ==> NotedAt(g, m, unmade, done, done, [], n) && KeptAt(g, m, m, [], n);
  }

  lemma OneMoreNoted(g: Graph, m: seq<Made>, m1: seq<Made>, m2: seq<Made>, unmade: seq<int>,
                     was: seq<bool>, done1: seq<bool>, done2: seq<bool>, list: seq<nat>, succ: nat)
    requires WellFormed(g) && OrderNoted(g, m, unmade, was, done1, list) && OthersKept(g, m, m1, list) && Scheduled(g, m, m1)
    requires succ < |g| && |m2| == |g|
    requires if !m1[succ].DEFERRED? then m2 == m1 && done2 == done1 else
               OnlyAround(g, m1, m2, succ) && done2 == if Stops(g, m1, unmade, succ) then done1 else done1[succ := true]
    ensures OrderNoted(g, m, unmade, was, done2, list + [succ]) && OthersKept(g, m, m2, list + [succ])
  {
    var list' := list + [succ];
    ScheduledSets(g, m, m1);
    forall n | 0 <= n < |g| ensures NotedAt(g, m, unmade, was, done2, list', n) && KeptAt(g, m, m2, list', n) {
      assert NotedAt(g, m, unmade, was, done1, list, n) && KeptAt(g, m, m1, list, n);
      assert MayBeScheduled(g, m, m1, n) && MayBeScheduled(g, m, m1, succ);
      assert n in list' <==> n in list || n == succ;
      if m1[succ].DEFERRED? && n != succ && m2[n] != m1[n] {
        assert Around(g, m1, m2, succ, n) && NodeWf(g, succ) && CohortShape(g[n], succ);
      }
    }
  }

  // Every node that is ready was past .ORDER with the done nodes D already.
  ghost predicate ReadyBefore(g: Graph, m: seq<Made>, D: set<nat>)
    requires |m| == |g|
  {
    forall n: nat :: n < |g| && IsReady(m[n]) ==> OrderReady(g, D, n)
  }

  // A new sequence number allows every node to be examined again.
  lemma NewSequenceNumber(g: Graph, made: seq<Made>, unmade: seq<int>, checked: seq<nat>, seqno: nat, D: set<nat>)
    requires |made| == |unmade| == |checked| == |g|
    requires Live(g, made, unmade, checked, seqno, D) && CheckedOk(made, checked, seqno)
    ensures Live(g, made, unmade, checked, seqno + 1, D) && CheckedOk(made, checked, seqno + 1)
    ensures forall n :: 0 <= n < |g| ==> checked[n] < seqno + 1
  {
    var next := seqno + 1;
    forall n | 0 <= n < |g|
      ensures Settles(g, made, unmade, checked, next, D, n) && CheckedAt(made, checked, next, n) && checked[n] < next
    {
      assert Settles(g, made, unmade, checked, seqno, D, n) && CheckedAt(made, checked, seqno, n);
    }
  }

  // Finishing a `::` instance lowers the counter of its first instance, and no other.
  lemma CohortCountsAfterFinish(g: Graph, c: seq<int>, c': seq<int>, D: set<nat>, n: nat)
    requires WellFormed(g) && n < |g| && n !in D && |c| == |g| && CohortsOk(g, c, D)
    requires c' == match g[n].centurion { case None => c case Some(k) => if k < |c| then c[k := c[k] - 1] else c }
    ensures CohortsOk(g, c', D + {n})
  {
    assert NodeWf(g, n);
    forall k | 0 <= k < |g|
      ensures UnmadeCohortsIs(g, c', D + {n}, k)
    {
      assert UnmadeCohortsIs(g, c, D, k) && NodeWf(g, k);
      MissingAdd(D, n, g[k].cohorts);
    }
  }

  // Once the .ORDER successors of a finished node are scheduled, every node that it was the
  // last to hold back has its cohorts scheduled.
  lemma AttendedAfterOrder(g: Graph, m: seq<Made>, m': seq<Made>, D: set<nat>, cgn: nat)
    requires WellFormed(g) && |m| == |g| && cgn < |g| && DoneSet(m) == D + {cgn} && cgn !in D
    requires Attended(g, m, D) && ReadyBefore(g, m, D)
    requires Scheduled(g, m, m') && CohortsFollow(g, m, m')
    requires Centurion(g, cgn) < |g|
    requires forall n :: n in g[Centurion(g, cgn)].orderSucc ==> n < |g| && !HeldBack(g, m', n)
    ensures Attended(g, m', D) && Attended(g, m', DoneSet(m'))
    ensures forall n: nat :: n < |g| && HeldBack(g, m', n) ==> OrderReady(g, D, n)
  {
    AttendedAfterScheduling(g, m, m', D);
    ScheduledSets(g, m, m');
    forall n | 0 <= n < |g|
      ensures Attends(g, m', DoneSet(m'), n)
      ensures HeldBack(g, m', n) ==> OrderReady(g, D, n)
    {
      assert Attends(g, m', D, n) && MayBeScheduled(g, m, m', n) && Follows(g, m, m', n);
      if OrderReady(g, DoneSet(m'), n) && !OrderReady(g, D, n) {
        assert cgn in g[n].orderPred;
        assert NodeWf(g, n) && NodeWf(g, cgn);
        assert n in g[cgn].orderSucc;
        assert g[cgn].centurion.Some? ==> NodeWf(g, g[cgn].centurion.value);
        assert forall k :: 0 <= k < |g| ==> !CohortShape(g[cgn], k);
        assert Centurion(g, cgn) == cgn;
      }
    }
  }

  // The counter of node n after the entries `told` of the parents list.
  ghost predicate CountedDown(g: Graph, u: seq<int>, u': seq<int>, told: seq<nat>, complete: bool, n: nat)
    requires |u| == |u'| == |g| && n < |g|
  {
    u'[n] == u[n] - if g[n].remake && complete then multiset(told)[n] else 0
  }

  // A parent that is left deferred still waits for another child.
  ghost predicate Notified(g: Graph, m: seq<Made>, u: seq<int>, cent: nat, n: nat)
    requires |m| == |u| == |g| && n < |g| && cent < |g|
  {
    AllDone(g, DoneSet(m), cent) && g[n].remake && HeldBack(g, m, n) ==> u[n] != 0 && !g[cent].wait
  }

  // A deferred parent is queued again, at the end, just when the child is complete and was the last
  // one, or a `.WAIT`, or one that `.ORDER` had held back; nothing else changes.
  ghost predicate Woken(g: Graph, s: State, s': State, cent: nat, n: nat) {
    && Sized(g, s) && Sized(g, s') && n < |g| && cent < |g|
    && var wakes := && g[n].remake && AllDone(g, DoneSet(s.made), cent) && HeldBack(g, s.made, n)
                    && (s'.unmade[n] == 0 || g[cent].wait || s.doneOrder[cent]);
    && s'.made == (if wakes then s.made[n := REQUESTED] else s.made)
    && s'.toBeMade == (if wakes then s.toBeMade + [n] else s.toBeMade)
  }

  // No parent is told more often than it has edges to the finished child.
  lemma EnoughUnmade(g: Graph, u: seq<int>, D: set<nat>, cgn: nat, i: nat)
    requires WellFormed(g) && cgn < |g| && cgn !in D && |u| == |g| && UnmadeOk(g, u, D)
    requires Centurion(g, cgn) < |g| && i < |g[Centurion(g, cgn)].parents|
    requires g[Centurion(g, cgn)].parents[i] < |g| && g[g[Centurion(g, cgn)].parents[i]].remake
    ensures var parents := g[Centurion(g, cgn)].parents;
            multiset(parents[..i])[parents[i]] < u[parents[i]]
  {
    var cent := Centurion(g, cgn);
    var parents := g[cent].parents;
    var n := parents[i];
    assert UnmadeIs(g, u, D, n) && EdgesMatch(g, n, cent);
    AllDoneSetAdd(g, D, cgn);
    MissingAdd(AllDoneSet(g, D), cent, g[n].children);
    assert parents == parents[..i] + [n] + parents[i + 1..];
  }

  // After all parents are told, the counters are right for one more finished node.
  lemma UnmadeAfterUpdate(g: Graph, u: seq<int>, u': seq<int>, D: set<nat>, cgn: nat)
    requires WellFormed(g) && cgn < |g| && cgn !in D && |u| == |u'| == |g| && UnmadeOk(g, u, D)
    requires Centurion(g, cgn) < |g|
    requires forall n :: 0 <= n < |g| ==>
               CountedDown(g, u, u', g[Centurion(g, cgn)].parents, AllDone(g, D + {cgn}, Centurion(g, cgn)), n)
    ensures UnmadeOk(g, u', D + {cgn})
  {
    var cent := Centurion(g, cgn);
    AllDoneSetAdd(g, D, cgn);
    forall n | 0 <= n < |g|
      ensures UnmadeIs(g, u', D + {cgn}, n)
    {
      assert UnmadeIs(g, u, D, n) && EdgesMatch(g, n, cent);
      assert CountedDown(g, u, u', g[cent].parents, AllDone(g, D + {cgn}, cent), n);
      MissingAdd(AllDoneSet(g, D), cent, g[n].children);
    }
  }

  // A `.WAIT` child counts as done with itself, so its parents are told and scan again.
  lemma LiveAfterUpdate(g: Graph, m: seq<Made>, m': seq<Made>, u: seq<int>, u': seq<int>,
                        checked: seq<nat>, seqno: nat, D: set<nat>, cgn: nat)
    requires WellFormed(g) && cgn < |g| && cgn !in D && Centurion(g, cgn) < |g|
    requires |m| == |m'| == |u| == |u'| == |checked| == |g|
    requires Live(g, m, u, checked, seqno, D) && NodesOk(g, m') && DoneSet(m') == D + {cgn}
    requires forall n :: 0 <= n < |g| ==> checked[n] < seqno
    requires forall n: nat :: n < |g| && HeldBack(g, m, n) ==> OrderReady(g, D, n)
    requires Scheduled(g, m, m') && Touched(m') == Touched(m)
    requires forall n :: 0 <= n < |g| ==>
               CountedDown(g, u, u', g[Centurion(g, cgn)].parents, AllDone(g, D + {cgn}, Centurion(g, cgn)), n)
    requires forall n :: n in g[Centurion(g, cgn)].parents && n < |g| ==> Notified(g, m', u', Centurion(g, cgn), n)
    ensures Live(g, m', u', checked, seqno, D + {cgn})
  {
    var cent := Centurion(g, cgn);
    ScheduledSets(g, m, m');
    forall n | 0 <= n < |g|
      ensures Settles(g, m', u', checked, seqno, D + {cgn}, n)
    {
      if OrderReady(g, D + {cgn}, n) && IsDropped(m', checked, seqno, n) {
        assert MayBeScheduled(g, m, m', n) && HeldBack(g, m, n);
        assert Settles(g, m, u, checked, seqno, D, n) && NodeOk(g, m', n);
        assert CountedDown(g, u, u', g[cent].parents, AllDone(g, D + {cgn}, cent), n);
        assert n in g[cent].parents ==> Notified(g, m', u', cent, n);
        WaitChildTold(g, D, cgn, n);
        ScannedAfterFinish(g, Touched(m), Touched(m'), D, cgn, n);
      }
    }
  }

  // If the finished node is a `.WAIT` child of n, then n is among the parents that are told.
  lemma WaitChildTold(g: Graph, D: set<nat>, cgn: nat, n: nat)
    requires WellFormed(g) && cgn < |g| && n < |g| && Centurion(g, cgn) < |g|
    ensures cgn in g[n].children && IsWait(g, cgn) ==>
              && Centurion(g, cgn) == cgn
              && n in g[cgn].parents
              && AllDone(g, D + {cgn}, cgn)
  {
    assert NodeWf(g, cgn);
    if cgn in g[n].children {
      ChildIsFirstInstance(g, n, cgn);
    }
  }

  lemma RunningAfterScheduling(fate: seq<Fate>, g: Graph, m: seq<Made>, m': seq<Made>, running: set<nat>)
    requires |fate| == |m| == |g| && Scheduled(g, m, m') && RunningOk(fate, m, running)
    ensures RunningOk(fate, m', running)
  {
    forall n | 0 <= n < |m'|
      ensures JobOk(fate, m', running, n)
    {
      assert JobOk(fate, m, running, n) && MayBeScheduled(g, m, m', n);
    }
  }

  lemma ScheduledAgain(g: Graph, m0: seq<Made>, m1: seq<Made>, m2: seq<Made>)
    requires |m0| == |g| && Scheduled(g, m0, m1) && Scheduled(g, m1, m2)
    ensures Scheduled(g, m0, m2)
  {
    ScheduledSets(g, m0, m1);
    forall n | 0 <= n < |g|
      ensures MayBeScheduled(g, m0, m2, n)
    {
      assert MayBeScheduled(g, m0, m1, n) && MayBeScheduled(g, m1, m2, n);
    }
  }

  ghost predicate AllCountedDown(g: Graph, u: seq<int>, u': seq<int>, told: seq<nat>, complete: bool) {
    |u| == |u'| == |g| && forall n :: 0 <= n < |g| ==> CountedDown(g, u, u', told, complete, n)
  }

  ghost predicate AllNotified(g: Graph, m: seq<Made>, u: seq<int>, cent: nat, told: seq<nat>) {
    |m| == |u| == |g| && cent < |g| && forall n :: n in told && n < |g| ==> Notified(g, m, u, cent, n)
  }

  lemma NobodyTold(g: Graph, m: seq<Made>, u: seq<int>, cent: nat, complete: bool)
    requires |m| == |u| == |g| && cent < |g|
    ensures AllCountedDown(g, u, u, [], complete) && AllNotified(g, m, u, cent, [])
  {
    assert forall n :: 0 <= n < |g| ==> CountedDown(g, u, u, [], complete, n);
  }

  // The counter of the next parent is not zero.
  lemma MayBeTold(g: Graph, u: seq<int>, u1: seq<int>, D: set<nat>, cgn: nat, i: nat, complete: bool)
    requires WellFormed(g) && cgn < |g| && cgn !in D && |u| == |g| && UnmadeOk(g, u, D)
    requires Centurion(g, cgn) < |g| && i < |g[Centurion(g, cgn)].parents|
    requires AllCountedDown(g, u, u1, g[Centurion(g, cgn)].parents[..i], complete)
    ensures var pgn := g[Centurion(g, cgn)].parents[i]; pgn < |g| && (g[pgn].remake ==> u1[pgn] >= 1)
  {
    var cent := Centurion(g, cgn);
    var pgn := g[cent].parents[i];
    assert NodeWf(g, cent) && pgn in g[cent].parents;
    if g[pgn].remake {
      EnoughUnmade(g, u, D, cgn, i);
      assert CountedDown(g, u, u1, g[cent].parents[..i], complete, pgn);
    }
  }

  // Telling one parent changes no other counter.
  lemma TellOne(g: Graph, u: seq<int>, u1: seq<int>, u2: seq<int>, told: seq<nat>, told': seq<nat>, complete: bool, pgn: nat)
    requires |u| == |u1| == |g| && pgn < |g| && told' == told + [pgn]
    requires u2 == if g[pgn].remake && complete then u1[pgn := u1[pgn] - 1] else u1
    requires AllCountedDown(g, u, u1, told, complete)
    ensures AllCountedDown(g, u, u2, told', complete)
  {
    forall n | 0 <= n < |g|
      ensures CountedDown(g, u, u2, told', complete, n)
    {
      assert CountedDown(g, u, u1, told, complete, n);
    }
  }

  // Requesting a deferred node keeps everything that the notification loop relies on.
  lemma RequestDeferred(p: Problem, s: State, n: nat, D: set<nat>)
    requires Basic(p, s) && n < |p.g| && s.made[n].DEFERRED? && OrderReady(p.g, DoneSet(s.made), n)
    requires Attended(p.g, s.made, D) && CheckedOk(s.made, s.checked, s.seqno)
    ensures Basic(p, s.(made := s.made[n := REQUESTED], toBeMade := s.toBeMade + [n]))
    ensures Attended(p.g, s.made[n := REQUESTED], D)
    ensures CheckedOk(s.made[n := REQUESTED], s.checked, s.seqno)
    ensures Scheduled(p.g, s.made, s.made[n := REQUESTED])
    ensures DoneSet(s.made[n := REQUESTED]) == DoneSet(s.made) && Touched(s.made[n := REQUESTED]) == Touched(s.made)
  {
    var m := s.made[n := REQUESTED];
    assert NodeOk(p.g, s.made, n) && n in Touched(s.made);
    ScheduleStep(p, s, n, REQUESTED, s.toBeMade + [n]);
    assert Touched(m) == Touched(s.made);
    forall x | 0 <= x < |p.g|
      ensures Attends(p.g, m, D, x) && CheckedAt(m, s.checked, s.seqno, x)
    {
      assert Attends(p.g, s.made, D, x) && CheckedAt(s.made, s.checked, s.seqno, x);
    }
  }

  // Parents that have been told stay told when another one is.
  lemma StillNotified(g: Graph, m: seq<Made>, m': seq<Made>, u: seq<int>, u': seq<int>, cent: nat, told: seq<nat>, pgn: nat)
    requires |m| == |m'| == |u| == |u'| == |g| && cent < |g| && pgn < |g|
    requires AllNotified(g, m, u, cent, told)
    requires Notified(g, m', u', cent, pgn) && DoneSet(m) == DoneSet(m')
    requires forall n :: 0 <= n < |g| && n != pgn ==> m'[n] == m[n] && u'[n] == u[n]
    ensures AllNotified(g, m', u', cent, told + [pgn])
  {
    forall n | n in told + [pgn] && n < |g|
      ensures Notified(g, m', u', cent, n)
    {
      if n != pgn {
        assert Notified(g, m, u, cent, n);
      }
    }
  }

  lemma OneMoreTold(g: Graph, m1: seq<Made>, m2: seq<Made>, m3: seq<Made>, u1: seq<int>, u2: seq<int>, u3: seq<int>,
                    cent: nat, i: nat, complete: bool)
    requires cent < |g| && i < |g[cent].parents| && g[cent].parents[i] < |g| == |m1| && |m3| == |u3| == |g|
    requires Scheduled(g, m1, m2) && Scheduled(g, m2, m3) && DoneSet(m3) == DoneSet(m2)
    requires AllCountedDown(g, u1, u2, g[cent].parents[..i], complete) && AllNotified(g, m2, u2, cent, g[cent].parents[..i])
    requires var pgn := g[cent].parents[i];
      && u3 == (if g[pgn].remake && complete then u2[pgn := u2[pgn] - 1] else u2)
      && Notified(g, m3, u3, cent, pgn) && forall n :: 0 <= n < |g| && n != pgn ==> m3[n] == m2[n]
    ensures Scheduled(g, m1, m3)
    ensures AllCountedDown(g, u1, u3, g[cent].parents[..i + 1], complete) && AllNotified(g, m3, u3, cent, g[cent].parents[..i + 1])
  {
    var told, pgn := g[cent].parents[..i], g[cent].parents[i];
    assert g[cent].parents[..i + 1] == told + [pgn];
    TellOne(g, u1, u2, u3, told, told + [pgn], complete, pgn);
    ScheduledAgain(g, m1, m2, m3);
    StillNotified(g, m2, m3, u2, u3, cent, told, pgn);
  }

  // Why MakeStartJobs stops: fewer nodes left to start, or as many and fewer nodes left to
  // examine under this sequence number, or as many of both and a shorter queue.
  ghost predicate Progress(s: State, s': State) {
    || Unstarted(s'.made) < Unstarted(s.made)
    || (Unstarted(s'.made) == Unstarted(s.made) && Unchecked(s'.checked, s'.seqno) < Unchecked(s.checked, s.seqno))
    || (Unstarted(s'.made) == Unstarted(s.made) && Unchecked(s'.checked, s'.seqno) == Unchecked(s.checked, s.seqno)
        && |s'.toBeMade| < |s.toBeMade|)
  }

  // The state before .MAIN is put on the queue.
  ghost predicate IsInitial(p: Problem, s: State) {
    && Sized(p.g, s)
    && (forall n :: 0 <= n < |p.g| ==> s.made[n].UNMADE? && s.checked[n] == 0)
    && (forall n :: 0 <= n < |p.g| ==> s.unmade[n] == |p.g[n].children|)
    && (forall n :: 0 <= n < |p.g| ==> s.unmadeCohorts[n] == |p.g[n].cohorts|)
    && s.seqno == 1 && s.toBeMade == [] && s.running == {} && s.history == []
  }

  lemma InitialState(p: Problem, s: State)
    requires ValidProblem(p) && IsInitial(p, s)
    ensures Basic(p, s) && Counted(p, s, {}) && RunningOk(p.fate, s.made, s.running)
    ensures DoneSet(s.made) == {} && p.main in Needed(p.g, p.main, p.fate, false)
  {
    assert DoneSet(s.made) == {} && AllDoneSet(p.g, {}) == {};
    LeastIsClosed(p.g, p.main, p.fate, false);
    forall n | 0 <= n < |p.g|
      ensures NodeOk(p.g, s.made, n) && QueuedOnce(s.made, s.toBeMade, n) && Recorded(s.made, s.history, n)
      ensures UnmadeIs(p.g, s.unmade, {}, n) && UnmadeCohortsIs(p.g, s.unmadeCohorts, {}, n)
      ensures Attends(p.g, s.made, {}, n) && CheckedAt(s.made, s.checked, s.seqno, n)
      ensures Settles(p.g, s.made, s.unmade, s.checked, s.seqno, {}, n) && JobOk(p.fate, s.made, s.running, n)
    {
      MissingNone(p.g[n].children);
      MissingNone(p.g[n].cohorts);
    }
  }

  // Taking a node off the queue without starting it.
  lemma DeferStep(p: Problem, s: State, c: seq<nat>)
    requires Inv(p, s) && s.toBeMade != []
    requires s.toBeMade[0] < |p.g| && |c| == |p.g| && (c == s.checked || c == s.checked[s.toBeMade[0] := s.seqno])
    ensures var gn := s.toBeMade[0];
            var s' := s.(made := s.made[gn := DEFERRED], toBeMade := s.toBeMade[1..], checked := c);
            && Basic(p, s') && RunningOk(p.fate, s'.made, s'.running) && !s'.made[p.main].UNMADE?
            && Attended(p.g, s'.made, DoneSet(s'.made)) && CheckedOk(s'.made, c, s'.seqno)
            && DoneSet(s'.made) == DoneSet(s.made) && Touched(s'.made) == Touched(s.made)
            && Unstarted(s'.made) == Unstarted(s.made)
            && OrderReady(p.g, DoneSet(s.made), gn)
  {
    var gn := s.toBeMade[0];
    var m := s.made[gn := DEFERRED];
    QueueAfterDequeue(s.made, s.toBeMade, DEFERRED);
    assert DoneSet(m) == DoneSet(s.made) && Touched(m) == Touched(s.made) && Unstarted(m) == Unstarted(s.made);
    assert NodeOk(p.g, s.made, gn);
    HistoryAfterSchedule(p.g, s.made, gn, DEFERRED, s.history);
    forall n | 0 <= n < |p.g|
      ensures NodeOk(p.g, m, n) && JobOk(p.fate, m, s.running, n)
      ensures Attends(p.g, m, DoneSet(m), n) && CheckedAt(m, c, s.seqno, n)
    {
      assert NodeOk(p.g, s.made, n) && JobOk(p.fate, s.made, s.running, n);
      assert Attends(p.g, s.made, DoneSet(s.made), n) && CheckedAt(s.made, s.checked, s.seqno, n);
    }
  }

  // A node that was examined already under this sequence number is dropped again.
  lemma DropStep(p: Problem, s: State)
    requires Inv(p, s) && s.toBeMade != []
    requires s.toBeMade[0] < |p.g| && s.checked[s.toBeMade[0]] == s.seqno
    ensures var s' := s.(made := s.made[s.toBeMade[0] := DEFERRED], toBeMade := s.toBeMade[1..]);
            Inv(p, s') && Progress(s, s')
  {
    var gn := s.toBeMade[0];
    QueueAfterDequeue(s.made, s.toBeMade, DEFERRED);
    DeferStep(p, s, s.checked);
    var m, D := s.made[gn := DEFERRED], DoneSet(s.made);
    forall n | 0 <= n < |p.g|
      ensures Settles(p.g, m, s.unmade, s.checked, s.seqno, D, n)
    {
      assert Settles(p.g, s.made, s.unmade, s.checked, s.seqno, D, n);
    }
  }

  // A node with unmade children is dropped after its children have been looked at.
  lemma AfterChildren(p: Problem, s: State, m1: seq<Made>, s': State)
    requires Inv(p, s) && s.toBeMade != [] && s.toBeMade[0] < |p.g|
    requires s.checked[s.toBeMade[0]] != s.seqno && s.unmade[s.toBeMade[0]] != 0
    requires m1 == s.made[s.toBeMade[0] := DEFERRED]
    requires Basic(p, s') && Scheduled(p.g, m1, s'.made) && CohortsFollow(p.g, m1, s'.made)
    requires Scanned(p.g, Touched(s'.made), DoneSet(s'.made), s.toBeMade[0])
    requires s'.unmade == s.unmade && s'.unmadeCohorts == s.unmadeCohorts && s'.running == s.running
    requires s'.seqno == s.seqno && s'.checked == s.checked[s.toBeMade[0] := s.seqno]
    ensures Inv(p, s') && Progress(s, s')
  {
    var gn, D := s.toBeMade[0], DoneSet(s.made);
    QueueAfterDequeue(s.made, s.toBeMade, DEFERRED);
    DeferStep(p, s, s'.checked);
    ScheduledSets(p.g, m1, s'.made);
    AttendedAfterScheduling(p.g, m1, s'.made, D);
    RunningAfterScheduling(p.fate, p.g, m1, s'.made, s.running);
    LiveAfterChildren(p.g, s.made, m1, s'.made, s.unmade, s.checked, s.seqno, gn);
    assert MayBeScheduled(p.g, m1, s'.made, p.main);
    assert gn in Unchecked(s.checked, s.seqno) && gn !in Unchecked(s'.checked, s.seqno);
    assert Unchecked(s'.checked, s.seqno) == Unchecked(s.checked, s.seqno) - {gn};
  }

  lemma LiveAfterChildren(g: Graph, m: seq<Made>, m1: seq<Made>, m2: seq<Made>, unmade: seq<int>,
                          checked: seq<nat>, seqno: nat, gn: nat)
    requires |m| == |m1| == |m2| == |unmade| == |checked| == |g| && gn < |g|
    requires Live(g, m, unmade, checked, seqno, DoneSet(m)) && CheckedOk(m, checked, seqno)
    requires m[gn].REQUESTED? && m1 == m[gn := DEFERRED] && Scheduled(g, m1, m2)
    requires checked[gn] != seqno && unmade[gn] != 0 && Scanned(g, Touched(m2), DoneSet(m2), gn)
    ensures Live(g, m2, unmade, checked[gn := seqno], seqno, DoneSet(m2))
    ensures CheckedOk(m2, checked[gn := seqno], seqno)
  {
    var c, D := checked[gn := seqno], DoneSet(m);
    ScheduledSets(g, m1, m2);
    assert DoneSet(m1) == D && Touched(m1) == Touched(m);
    forall n | 0 <= n < |g|
      ensures Settles(g, m2, unmade, c, seqno, D, n) && CheckedAt(m2, c, seqno, n)
    {
      assert Settles(g, m, unmade, checked, seqno, D, n) && CheckedAt(m, checked, seqno, n);
      assert MayBeScheduled(g, m1, m2, n);
      if n != gn && OrderReady(g, D, n) && IsDropped(m2, c, seqno, n) {
        ScannedMore(g, Touched(m), Touched(m2), D, n);
      }
    }
  }

  // A node without unmade children is started.
  lemma StartedStep(p: Problem, s: State)
    requires Inv(p, s) && s.toBeMade != [] && s.toBeMade[0] < |p.g| && s.unmade[s.toBeMade[0]] == 0
    ensures var gn := s.toBeMade[0];
            var s' := s.(made := s.made[gn := BEINGMADE], toBeMade := s.toBeMade[1..],
                         checked := s.checked[gn := s.seqno], history := s.history + [Start(gn)]);
            && Basic(p, s') && Counted(p, s', DoneSet(s'.made)) && !s'.made[p.main].UNMADE?
            && RunningOk(p.fate, s'.made[gn := REQUESTED], s'.running)
            && Unstarted(s'.made) < Unstarted(s.made)
  {
    var gn, D := s.toBeMade[0], DoneSet(s.made);
    var m, c := s.made[gn := BEINGMADE], s.checked[gn := s.seqno];
    QueueAfterDequeue(s.made, s.toBeMade, BEINGMADE);
    assert NodeOk(p.g, s.made, gn) && UnmadeIs(p.g, s.unmade, D, gn);
    NothingMissing(p.g, D, gn);
    StartStep(p, s, gn);
    assert m[gn := REQUESTED] == s.made;
    assert Unstarted(m) == Unstarted(s.made) - {gn} && gn in Unstarted(s.made);
    CountedAfterProgress(p, s, gn, BEINGMADE, c);
  }

  // A node that leaves the queue for good has nothing to wait for any more.
  lemma CountedAfterProgress(p: Problem, s: State, gn: nat, k: Made, c: seq<nat>)
    requires ValidProblem(p) && Sized(p.g, s) && gn < |p.g| && !s.made[gn].UNMADE? && (k.BEINGMADE? || IsDone(k))
    requires Counted(p, s, DoneSet(s.made)) && |c| == |p.g| && (c == s.checked || c == s.checked[gn := s.seqno])
    ensures var m := s.made[gn := k];
            && Attended(p.g, m, DoneSet(s.made)) && CheckedOk(m, c, s.seqno)
            && Live(p.g, m, s.unmade, c, s.seqno, DoneSet(s.made))
  {
    var m, D := s.made[gn := k], DoneSet(s.made);
    assert Touched(m) == Touched(s.made);
    forall n | 0 <= n < |p.g|
      ensures Attends(p.g, m, D, n) && CheckedAt(m, c, s.seqno, n) && Settles(p.g, m, s.unmade, c, s.seqno, D, n)
    {
      assert Attends(p.g, s.made, D, n) && CheckedAt(s.made, s.checked, s.seqno, n);
      assert Settles(p.g, s.made, s.unmade, s.checked, s.seqno, D, n);
    }
  }

  // A node being made is done; its parents are not told yet.
  lemma FinishedStep(p: Problem, s: State, gn: nat, k: Made, running: set<nat>)
    requires Basic(p, s) && gn < |p.g| && s.made[gn].BEINGMADE? && Succeeds(p.fate[gn]) && IsDone(k)
    requires Counted(p, s, DoneSet(s.made)) && !s.made[p.main].UNMADE?
    requires RunningOk(p.fate, s.made[gn := REQUESTED], running)
    ensures var s' := s.(made := s.made[gn := k], history := s.history + [Finish(gn)], running := running);
            && Basic(p, s') && Counted(p, s', DoneSet(s'.made) - {gn}) && ReadyBefore(p.g, s'.made, DoneSet(s'.made) - {gn})
            && RunningOk(p.fate, s'.made, running) && !s'.made[p.main].UNMADE?
            && Unstarted(s'.made) == Unstarted(s.made)
  {
    var m, D := s.made[gn := k], DoneSet(s.made);
    FinishStep(p, s, gn, k);
    CountedAfterProgress(p, s, gn, k, s.checked);
    assert DoneSet(m) - {gn} == D;
    assert Unstarted(m) == Unstarted(s.made);
    var m0 := s.made[gn := REQUESTED];
    forall n | 0 <= n < |p.g|
      ensures QueuedOnce(m, s.toBeMade, n) && JobOk(p.fate, m, running, n)
      ensures IsReady(m[n]) ==> OrderReady(p.g, D, n)
    {
      assert QueuedOnce(s.made, s.toBeMade, n) && JobOk(p.fate, m0, running, n) && NodeOk(p.g, s.made, n);
    }
  }

  // Forgetting a job whose node is not counted as being made any more.
  lemma WithoutJob(fate: seq<Fate>, made: seq<Made>, running: set<nat>, gn: nat)
    requires |fate| == |made| && gn < |made| && RunningOk(fate, made, running)
    ensures RunningOk(fate, made[gn := REQUESTED], running - {gn})
  {
    var m := made[gn := REQUESTED];
    forall n | 0 <= n < |m|
      ensures JobOk(fate, m, running - {gn}, n)
    {
      assert JobOk(fate, made, running, n);
    }
  }

  // The state of a node whose job runs, or has failed without one.
  lemma WithOrWithoutJob(fate: seq<Fate>, made: seq<Made>, running: set<nat>, gn: nat, running': set<nat>)
    requires |fate| == |made| && gn < |made| && made[gn].BEINGMADE?
    requires RunningOk(fate, made[gn := REQUESTED], running)
    requires (fate[gn].Shell? && running' == running + {gn}) || (!Succeeds(fate[gn]) && running' == running)
    ensures RunningOk(fate, made, running')
  {
    var m := made[gn := REQUESTED];
    forall n | 0 <= n < |made|
      ensures JobOk(fate, made, running', n)
    {
      assert JobOk(fate, m, running, n);
    }
  }

  // ---------------------------------------------------------------- the end of the build

  // With an empty queue and no job running, no rule is left to apply.
  lemma ExhaustedIsClosed(p: Problem, s: State)
    requires Inv(p, s) && s.toBeMade == [] && s.running == {}
    ensures Closed(p.g, p.main, p.fate, true, Touched(s.made), DoneSet(s.made))
  {
    var T, D := Touched(s.made), DoneSet(s.made);
    forall n: nat | n < |p.g| && n in T && OrderReady(p.g, D, n)
      ensures forall q :: q in p.g[n].cohorts ==> q in T
      ensures Scanned(p.g, T, D, n)
      ensures ChildrenDone(p.g, D, n) && Succeeds(p.fate[n]) ==> n in D
    {
      assert Attends(p.g, s.made, D, n) && QueuedOnce(s.made, s.toBeMade, n) && NodeOk(p.g, s.made, n);
      assert JobOk(p.fate, s.made, s.running, n) && UnmadeIs(p.g, s.unmade, D, n);
      assert Settles(p.g, s.made, s.unmade, s.checked, s.seqno, D, n);
      NothingMissing(p.g, D, n);
      if ChildrenDone(p.g, D, n) {
        assert forall i :: 0 <= i < |p.g[n].children| ==> AllDone(p.g, D, p.g[n].children[i]);
      }
    }
  }

  // What the build makes, in terms of the graph alone: between the least solutions with and
  // without `.WAIT`, and exactly the least solution in a graph without `.WAIT`.
  ghost predicate Outcome(p: Problem, done: set<nat>)
    requires |p.fate| == |p.g|
  {
    && Buildable(p.g, p.main, p.fate, true) <= done <= Buildable(p.g, p.main, p.fate, false)
    && ((forall n :: 0 <= n < |p.g| ==> !p.g[n].wait) ==> done == Buildable(p.g, p.main, p.fate, false))
  }

  lemma ExhaustedOutcome(p: Problem, s: State)
    requires Inv(p, s) && s.toBeMade == [] && s.running == {}
    ensures Outcome(p, DoneSet(s.made))
  {
    ExhaustedIsClosed(p, s);
    WaitOnlyDelays(p.g, p.main, p.fate);
    forall n | n in Buildable(p.g, p.main, p.fate, true)
      ensures n in DoneSet(s.made)
    {
      assert AlwaysMade(p.g, p.main, p.fate, true, n);
    }
  }

  // In an acyclic graph without effective .ORDER edges, with all jobs successful, the build
  // ends with every target made or up to date: no deferred node is forgotten.
  lemma AcyclicOutcome(p: Problem, s: State, rank: seq<nat>)
    requires Inv(p, s) && s.toBeMade == [] && s.running == {}
    requires Acyclic(p.g, rank) && NoOrder(p.g) && forall x :: 0 <= x < |p.g| ==> Succeeds(p.fate[x])
    ensures IsDone(s.made[p.main])
    ensures forall c :: c in p.g[p.main].children ==> AllDone(p.g, DoneSet(s.made), c)
  {
    ExhaustedOutcome(p, s);
    AcyclicBuildsMain(p.g, p.main, p.fate, rank);
    assert NodeOk(p.g, s.made, p.main);
  }

  // Without `.WAIT` a build ends with just those nodes made that can be numbered in order. It gets
  // through with everything that it looked at exactly if all that the main target depends on can.
  lemma OrderedOutcome(p: Problem, s: State, n: nat)
    requires Inv(p, s) && s.toBeMade == [] && s.running == {}
    requires forall x :: 0 <= x < |p.g| ==> !p.g[x].wait
    ensures n in DoneSet(s.made) <==>
            exists look, done :: BuildOrder.InOrder(p.g, p.main, p.fate, false, look, done) && n in done
    ensures Touched(s.made) <= DoneSet(s.made) <==>
            exists look, done :: BuildOrder.InOrder(p.g, p.main, p.fate, false, look, done) && BuildOrder.Complete(p.g, p.main, look, done)
  {
    ExhaustedOutcome(p, s);
    ExhaustedIsClosed(p, s);
    WaitOnlyDelays(p.g, p.main, p.fate);
    forall x | x in Needed(p.g, p.main, p.fate, true) ensures x in Touched(s.made) {
      assert AlwaysLookedAt(p.g, p.main, p.fate, true, x);
    }
    BuildOrder.NumberedExactly(p.g, p.main, p.fate, false, n);
    BuildOrder.AllMadeExactly(p.g, p.main, p.fate, false);
  }

  // Two builds of the same graph make the same nodes, whatever the order of the jobs.
  lemma OutcomeIsUnique(p: Problem, s1: State, s2: State)
    requires Inv(p, s1) && s1.toBeMade == [] && s1.running == {}
    requires Inv(p, s2) && s2.toBeMade == [] && s2.running == {}
    requires forall n :: 0 <= n < |p.g| ==> !p.g[n].wait
    ensures DoneSet(s1.made) == DoneSet(s2.made)
  {
    ExhaustedOutcome(p, s1);
    ExhaustedOutcome(p, s2);
  }

  // ---------------------------------------------------------------- what the invariant says

  // In every state of the build: a node is REQUESTED just when it is on the queue, once; it is
  // past REQUESTED only with all children done, and REQUESTED or beyond only with all `.ORDER`
  // predecessors done that are to be remade; and its counter is the number of child edges that
  // are not done with all their `::` instances.
  lemma StateOfNode(p: Problem, s: State, n: nat)
    requires Inv(p, s) && n < |p.g|
    ensures (s.made[n].REQUESTED? <==> n in s.toBeMade) && multiset(s.toBeMade)[n] <= 1
    ensures s.made[n].BEINGMADE? || IsDone(s.made[n]) ==> ChildrenDone(p.g, DoneSet(s.made), n)
    ensures forall o :: o in p.g[n].orderPred && o < |p.g| && p.g[o].remake && IsReady(s.made[n]) ==> IsDone(s.made[o])
    ensures p.g[n].remake ==> s.unmade[n] == Missing(AllDoneSet(p.g, DoneSet(s.made)), p.g[n].children)
    ensures s.unmadeCohorts[n] == Missing(DoneSet(s.made), p.g[n].cohorts)
  {
    assert QueuedOnce(s.made, s.toBeMade, n) && NodeOk(p.g, s.made, n);
    assert UnmadeIs(p.g, s.unmade, DoneSet(s.made), n) && UnmadeCohortsIs(p.g, s.unmadeCohorts, DoneSet(s.made), n);
  }

  // In every run: a node is started at most once, after all its children and their instances
  // have finished, and after its `.ORDER` predecessors that are to be remade.
  lemma StartedInOrder(p: Problem, s: State, i: nat, n: nat)
    requires Inv(p, s) && i < |s.history| && s.history[i] == Start(n)
    ensures n < |p.g| && forall j :: 0 <= j < i ==> s.history[j] != Start(n)
    ensures forall c :: c in p.g[n].children ==> Finish(c) in s.history[..i]
    ensures forall c, q :: c in p.g[n].children && c < |p.g| && q in p.g[c].cohorts ==> Finish(q) in s.history[..i]
    ensures forall o :: o in p.g[n].orderPred && Remade(p.g, o) ==> Finish(o) in s.history[..i]
  {
    assert EventOk(p.g, s.history[..i], s.history[i]);
    forall j | 0 <= j < i ensures s.history[j] != Start(n) {
      assert s.history[j] == s.history[..i][j];
    }
  }
}
