/**
The parallel build of make.c: the toBeMade queue, the counted dependencies and the
sequence number that keeps a node from being examined twice without progress.
*/
module Scheduler {
  import opened Wrappers
  import opened BuildGraph
  import opened BuildRules
  import opened ScheduleState
  import opened ScheduleSteps
  import opened ScanTrace

  class Build {
    const p: Problem
    const randomize: bool
    const maxJobs: nat
    var made: seq<Made>
    var unmade: seq<int>
    var unmadeCohorts: seq<int>
    var doneOrder: seq<bool>
    var checked: seq<nat>
    var seqno: nat
    var toBeMade: seq<nat>
    var running: set<nat>
    var tokensRunning: nat
    ghost var history: seq<Event>
    ghost var scans: seq<Scan>

    ghost function Now(): State
      reads this
    {
      State(made, unmade, unmadeCohorts, doneOrder, checked, seqno, toBeMade, running, history)
    }

    // Every node that was looked at or started was found by a scan.
    ghost predicate Traced()
      reads this
    {
      TraceOk(p.g, p.main, made, history, scans)
    }

    // Every running job has a token, and there is one more in hand if held; there are no more than
    // the make may have.
    ghost predicate TokensOk(held: bool)
      reads this
    {
      tokensRunning == |running| + (if held then 1 else 0) && tokensRunning <= maxJobs && maxJobs > 0
    }

    // Job_TokenWithdraw: a make that has no token always gets one.
    method TokenWithdraw() returns (ok: bool)
      requires TokensOk(false)
      modifies this`tokensRunning
      ensures TokensOk(ok) && (running == {} ==> ok)
    {
      if tokensRunning >= maxJobs {
        return false;
      }
      var empty: bool := *;
      if empty && tokensRunning != 0 {
        return false;
      }
      tokensRunning := tokensRunning + 1;
      return true;
    }

    method IsWaitingForOrder(gn: nat) returns (waiting: bool)
      requires WellFormed(p.g) && |made| == |p.g| && gn < |p.g|
      ensures waiting <==> !OrderReady(p.g, DoneSet(made), gn)
    {
      var preds := p.g[gn].orderPred;
      assert NodeWf(p.g, gn);
      for i := 0 to |preds|
        invariant forall j :: 0 <= j < i ==> preds[j] in DoneSet(made) || !Remade(p.g, preds[j])
      {
        var ogn := preds[i];
        assert ogn in preds;
        if IsDone(made[ogn]) || !p.g[ogn].remake {
          continue;
        }
        return true;
      }
      return false;
    }

    // Put a node on the queue, before the entry `next` or at a random place.
    method Request(cn: nat, next: Option<nat>, ghost back: seq<nat>)
      requires Basic(p, Now()) && cn < |p.g| && p.g[cn].remake && !IsReady(made[cn])
      requires OrderReady(p.g, DoneSet(made), cn) && cn in Needed(p.g, p.main, p.fate, false)
      requires next == FirstOf(back) && (!randomize ==> IsSuffix(back, toBeMade))
      modifies this`made, this`toBeMade
      ensures Basic(p, Now())
      ensures made == old(made)[cn := REQUESTED]
      ensures Scheduled(p.g, old(made), made)
      ensures DoneSet(made) == old(DoneSet(made)) && Touched(made) == old(Touched(made)) + {cn}
      ensures !randomize ==> toBeMade == InsertBefore(old(toBeMade), next, cn) && IsSuffix(back, toBeMade)
    {
      var queue;
      if randomize && !p.g[cn].wait {
        var pos :| 0 <= pos <= |toBeMade|;
        queue := toBeMade[..pos] + [cn] + toBeMade[pos..];
        InsertAtMultiset(toBeMade, pos, cn);
      } else {
        queue := InsertBefore(toBeMade, next, cn);
        InsertBeforeMultiset(toBeMade, next, cn);
        if !randomize {
          InsertKeepsSuffix(made, toBeMade, back, cn);
        }
      }
      ScheduleStep(p, Now(), cn, REQUESTED, queue);
      made := made[cn := REQUESTED];
      toBeMade := queue;
    }

    // Schedule a node unless it is ready already; stop tells the caller to leave the siblings
    // after a `.WAIT` alone.
    method MakeBuildChild(cn: nat, next: Option<nat>, ghost back: seq<nat>) returns (stop: bool)
      requires Basic(p, Now()) && CohortsOk(p.g, unmadeCohorts, DoneSet(made))
      requires cn < |p.g| && p.g[cn].remake && cn in Needed(p.g, p.main, p.fate, false)
      requires next == FirstOf(back) && (!randomize ==> IsSuffix(back, toBeMade))
      modifies this`made, this`toBeMade
      ensures Basic(p, Now())
      ensures Scheduled(p.g, old(made), made) && CohortsFollow(p.g, old(made), made)
      ensures !made[cn].UNMADE? && (made[cn].DEFERRED? ==> !OrderReady(p.g, DoneSet(made), cn))
      ensures stop <==> p.g[cn].wait && !IsReady(old(made)[cn]) && OrderReady(p.g, DoneSet(old(made)), cn) && unmade[cn] > 0
      ensures OnlyAround(p.g, old(made), made, cn)
      ensures IsReady(old(made)[cn]) ==> made == old(made)
      ensures !randomize ==> IsSuffix(back, toBeMade)
      decreases |p.g[cn].cohorts|, 1
    {
      if IsReady(made[cn]) {
        NothingScheduled(p.g, made);
        NothingAround(p.g, made, cn);
        return false;
      }
      var waiting := IsWaitingForOrder(cn);
      ghost var m0 := made;
      if waiting {
        ScheduleStep(p, Now(), cn, DEFERRED, toBeMade);
        made := made[cn := DEFERRED];
        DeferredAlone(p.g, m0, cn);
        NothingAround(p.g, made, cn);
        NodeAndInstances(p.g, m0, DEFERRED, made, cn);
        return false;
      }
      Request(cn, next, back);
      ghost var m1 := made;
      if unmadeCohorts[cn] != 0 {
        MakeBuildCohorts(cn, next, back);
      } else {
        assert UnmadeCohortsIs(p.g, unmadeCohorts, DoneSet(made), cn);
        MissingZero(DoneSet(made), p.g[cn].cohorts);
        NothingScheduled(p.g, made);
        NothingAround(p.g, made, cn);
      }
      NodeAndInstances(p.g, m0, REQUESTED, made, cn);
      RequestedWithCohorts(p.g, m0, m1, made, cn);
      return p.g[cn].wait && unmade[cn] > 0;
    }

    // The part of MakeBuildChild that schedules the `::` instances of a requested node.
    method MakeBuildCohorts(cn: nat, next: Option<nat>, ghost back: seq<nat>)
      requires Basic(p, Now()) && CohortsOk(p.g, unmadeCohorts, DoneSet(made))
      requires cn < |p.g| && made[cn].REQUESTED? && OrderReady(p.g, DoneSet(made), cn)
      requires next == FirstOf(back) && (!randomize ==> IsSuffix(back, toBeMade))
      modifies this`made, this`toBeMade
      ensures Basic(p, Now())
      ensures Scheduled(p.g, old(made), made) && CohortsFollow(p.g, old(made), made)
      ensures made[cn].REQUESTED? && CohortsTouched(p.g, made, cn) && OnlyAround(p.g, old(made), made, cn)
      ensures !randomize ==> IsSuffix(back, toBeMade)
      decreases |p.g[cn].cohorts|, 0
    {
      var cohorts := p.g[cn].cohorts;
      ghost var m1 := made;
      NeededNeighbours(p, made, cn);
      assert NodeWf(p.g, cn) && NodeOk(p.g, made, cn);
      NothingScheduled(p.g, made);
      NothingAround(p.g, made, cn);
      for i := 0 to |cohorts|
        invariant Basic(p, Now()) && DoneSet(made) == DoneSet(m1) && OnlyAround(p.g, m1, made, cn)
        invariant Scheduled(p.g, m1, made) && CohortsFollow(p.g, m1, made)
        invariant forall j :: 0 <= j < i ==> cohorts[j] in Touched(made)
        invariant !randomize ==> IsSuffix(back, toBeMade)
      {
        ghost var m2 := made;
        var q := cohorts[i];
        assert q in cohorts;
        var stop := MakeBuildChild(q, next, back);
        MoreScheduled(p.g, m1, m2, made);
        OneMoreInstance(p.g, m1, m2, made, cn, q);
        if stop {
          break;
        }
      }
      assert MayBeScheduled(p.g, m1, made, cn);
    }

    // Schedule the children of a node just before the current first entry of the queue. They are
    // looked at up to the first `.WAIT` that holds up the others, and no further.
    method MakeChildren(gn: nat)
      requires Basic(p, Now()) && CohortsOk(p.g, unmadeCohorts, DoneSet(made)) && UnmadeOk(p.g, unmade, DoneSet(made))
      requires gn < |p.g| && !made[gn].UNMADE? && OrderReady(p.g, DoneSet(made), gn)
      modifies this`made, this`toBeMade
      ensures Basic(p, Now())
      ensures Scheduled(p.g, old(made), made) && CohortsFollow(p.g, old(made), made)
      ensures Scanned(p.g, Touched(made), DoneSet(made), gn)
      ensures var list := p.g[gn].children; var k := ScanEnd(p.g, old(made), list, 0);
        LooksNoFurther(p.g, old(made), made, list, k) && forall j :: 0 <= j < k ==> list[j] in Touched(made)
      ensures !randomize ==> IsSuffix(old(toBeMade), toBeMade)
    {
      var next := FirstOf(toBeMade);
      var children := p.g[gn].children;
      ghost var back, m0 := toBeMade, made;
      NeededNeighbours(p, made, gn);
      assert NodeWf(p.g, gn) && NodeOk(p.g, made, gn);
      NothingScheduled(p.g, made);
      NoFurther(p.g, made, children);
      for i := 0 to |children|
        invariant Basic(p, Now()) && DoneSet(made) == DoneSet(m0)
        invariant Scheduled(p.g, m0, made) && CohortsFollow(p.g, m0, made)
        invariant forall j :: 0 <= j < i ==> children[j] in Touched(made) && !HoldsUp(p.g, m0, children[j])
        invariant LooksNoFurther(p.g, m0, made, children, i)
        invariant ScanEnd(p.g, m0, children, 0) == ScanEnd(p.g, m0, children, i)
        invariant !randomize ==> IsSuffix(back, toBeMade)
      {
        ghost var m1 := made;
        var cn := children[i];
        assert cn in children;
        HeldUpBefore(p.g, m0, m1, children, i);
        StopIsHoldingUp(p.g, m1, unmade, cn);
        var stop := MakeBuildChild(cn, next, back);
        MoreScheduled(p.g, m0, m1, made);
        OneFurther(p.g, m0, m1, made, children, i);
        if stop {
          StoppedScan(p.g, Touched(made), DoneSet(made), gn, i);
          return;
        }
      }
    }

    method ScheduleOrderSuccessors(gn: nat)
      requires Basic(p, Now()) && CohortsOk(p.g, unmadeCohorts, DoneSet(made))
      requires gn < |p.g|
      modifies this`made, this`toBeMade, this`doneOrder
      ensures Basic(p, Now())
      ensures Scheduled(p.g, old(made), made) && CohortsFollow(p.g, old(made), made)
      ensures forall n :: n in p.g[gn].orderSucc ==> n < |p.g| && !HeldBack(p.g, made, n)
      ensures InstancesOnly(p.g, old(made), made)
      ensures OrderNoted(p.g, old(made), unmade, old(doneOrder), doneOrder, p.g[gn].orderSucc)
    {
      var next := FirstOf(toBeMade);
      var succs := p.g[gn].orderSucc;
      ghost var done0 := doneOrder;
      NothingNoted(p.g, made, unmade, doneOrder);
      assert succs[..0] == [] && succs[..|succs|] == succs;
      ghost var back, m0 := toBeMade, made;
      assert NodeWf(p.g, gn);
      NothingScheduled(p.g, made);
      NothingNew(p.g, made, made);
      for i := 0 to |succs|
        invariant Basic(p, Now()) && DoneSet(made) == DoneSet(m0) && InstancesOnly(p.g, m0, made)
        invariant Scheduled(p.g, m0, made) && CohortsFollow(p.g, m0, made)
        invariant forall j :: 0 <= j < i ==> succs[j] < |p.g| && !HeldBack(p.g, made, succs[j])
        invariant OrderNoted(p.g, m0, unmade, done0, doneOrder, succs[..i]) && OthersKept(p.g, m0, made, succs[..i])
        invariant !randomize ==> IsSuffix(back, toBeMade)
      {
        ghost var m1, done1 := made, doneOrder;
        var succ := succs[i];
        assert succ in succs && NodeOk(p.g, made, succ);
        if made[succ].DEFERRED? {
          assert succ in Touched(made);
          var stop := MakeBuildChild(succ, next, back);
          MoreScheduled(p.g, m0, m1, made);
          InstancesOfOne(p.g, m0, m1, made, succ);
          if !stop {
            doneOrder := doneOrder[succ := true];
          }
        }
        assert succs[..i + 1] == succs[..i] + [succ];
        OneMoreNoted(p.g, m0, m1, made, unmade, done0, done1, doneOrder, succs[..i], succ);
      }
    }

    // Tell the parents of a finished node, through its first instance if it is a `::` one.
    method MakeUpdate(cgn: nat)
      requires Basic(p, Now()) && cgn < |p.g| && IsDone(made[cgn])
      requires Counted(p, Now(), DoneSet(made) - {cgn}) && ReadyBefore(p.g, made, DoneSet(made) - {cgn})
      requires RunningOk(p.fate, made, running) && !made[p.main].UNMADE?
      modifies this`made, this`toBeMade, this`doneOrder, this`unmade, this`unmadeCohorts, this`seqno
      ensures Inv(p, Now())
      ensures Scheduled(p.g, old(made), made) && seqno == old(seqno) + 1
      ensures InstancesOnly(p.g, old(made), made)
    {
      ghost var D0, m0 := DoneSet(made) - {cgn}, made;
      NewSequenceNumber(p.g, made, unmade, checked, seqno, D0);
      seqno := seqno + 1;
      var cent := CountInstance(cgn, D0);
      assert D0 + {cgn} == DoneSet(made);
      ScheduleOrderSuccessors(cent);
      AttendedAfterOrder(p.g, m0, made, D0, cgn);
      LiveAfterScheduling(p.g, m0, made, unmade, checked, seqno, D0);
      ScheduledSets(p.g, m0, made);
      ghost var s1 := Now();
      NotifyParents(cent, cgn, D0);
      UnmadeAfterUpdate(p.g, s1.unmade, unmade, D0, cgn);
      LiveAfterUpdate(p.g, s1.made, made, s1.unmade, unmade, checked, seqno, D0, cgn);
      ScheduledAgain(p.g, m0, s1.made, made);
      NothingNewAfter(p.g, m0, s1.made, made);
      RunningAfterScheduling(p.fate, p.g, m0, made, running);
      assert MayBeScheduled(p.g, m0, made, p.main);
    }

    // The part of Make_Update that finds the first instance and counts down its cohorts.
    method CountInstance(cgn: nat, ghost D0: set<nat>) returns (cent: nat)
      requires ValidProblem(p) && cgn < |p.g| && cgn !in D0
      requires |unmadeCohorts| == |p.g| && CohortsOk(p.g, unmadeCohorts, D0)
      modifies this`unmadeCohorts
      ensures cent == Centurion(p.g, cgn) && cent < |p.g|
      ensures |unmadeCohorts| == |p.g| && CohortsOk(p.g, unmadeCohorts, D0 + {cgn})
    {
      cent := cgn;
      assert NodeWf(p.g, cgn);
      if p.g[cgn].centurion.Some? {
        cent := p.g[cgn].centurion.value;
        assert NodeWf(p.g, cent) && UnmadeCohortsIs(p.g, unmadeCohorts, D0, cent);
        assert p.g[cgn].parents == [];  // so "cohort has parents" is never reported
        MissingAdd(D0, cgn, p.g[cent].cohorts);
        unmadeCohorts := unmadeCohorts[cent := unmadeCohorts[cent] - 1];
        assert unmadeCohorts[cent] >= 0;  // so "Graph cycles through centurion" is not either
      }
      CohortCountsAfterFinish(p.g, old(unmadeCohorts), unmadeCohorts, D0, cgn);
    }

    // The first i parents of a finished node have been told, since the state s1.
    ghost predicate Told(s1: State, cent: nat, i: nat)
      requires Sized(p.g, s1) && cent < |p.g| && i <= |p.g[cent].parents|
      reads this
    {
      var told, D := p.g[cent].parents[..i], DoneSet(s1.made);
      && Basic(p, Now()) && DoneSet(made) == D && Touched(made) == Touched(s1.made)
      && Attended(p.g, made, D) && CheckedOk(made, checked, seqno) && Scheduled(p.g, s1.made, made)
      && AllCountedDown(p.g, s1.unmade, unmade, told, AllDone(p.g, D, cent)) && AllNotified(p.g, made, unmade, cent, told)
    }

    // The loop of Make_Update over the parents.
    method NotifyParents(cent: nat, ghost cgn: nat, ghost D0: set<nat>)
      requires Basic(p, Now()) && cgn < |p.g| && cent == Centurion(p.g, cgn) && cent < |p.g|
      requires cgn !in D0 && DoneSet(made) == D0 + {cgn}
      requires UnmadeOk(p.g, unmade, D0) && CohortsOk(p.g, unmadeCohorts, DoneSet(made))
      requires Attended(p.g, made, DoneSet(made)) && CheckedOk(made, checked, seqno)
      modifies this`made, this`toBeMade, this`unmade
      ensures Basic(p, Now())
      ensures Attended(p.g, made, DoneSet(made)) && CheckedOk(made, checked, seqno)
      ensures Scheduled(p.g, old(made), made)
      ensures DoneSet(made) == old(DoneSet(made)) && Touched(made) == old(Touched(made))
      ensures AllCountedDown(p.g, old(unmade), unmade, p.g[cent].parents, AllDone(p.g, DoneSet(made), cent))
      ensures AllNotified(p.g, made, unmade, cent, p.g[cent].parents)
    {
      var parents := p.g[cent].parents;
      ghost var s1 := Now();
      NothingScheduled(p.g, made);
      NobodyTold(p.g, made, unmade, cent, AllDone(p.g, DoneSet(made), cent));
      assert parents[..0] == [] && parents[..|parents|] == parents;
      for i := 0 to |parents|
        invariant Told(s1, cent, i)
      {
        TellParent(cent, i, cgn, D0, s1);
      }
    }

    // One round of it.
    method TellParent(cent: nat, i: nat, ghost cgn: nat, ghost D0: set<nat>, ghost s1: State)
      requires Basic(p, s1) && cgn < |p.g| && cent == Centurion(p.g, cgn) && cent < |p.g| && i < |p.g[cent].parents|
      requires cgn !in D0 && DoneSet(s1.made) == D0 + {cgn} && UnmadeOk(p.g, s1.unmade, D0)
      requires Told(s1, cent, i) && CohortsOk(p.g, unmadeCohorts, DoneSet(made))
      modifies this`made, this`toBeMade, this`unmade
      ensures Told(s1, cent, i + 1)
    {
      ghost var s2, complete := Now(), AllDone(p.g, DoneSet(made), cent);
      MayBeTold(p.g, s1.unmade, unmade, D0, cgn, i, complete);
      NotifyParent(p.g[cent].parents[i], cent);
      OneMoreTold(p.g, s1.made, s2.made, made, s1.unmade, s2.unmade, unmade, cent, i, complete);
    }

    // What Make_Update does for one parent.
    method NotifyParent(pgn: nat, cent: nat)
      requires Basic(p, Now()) && cent < |p.g| && pgn < |p.g|
      requires CohortsOk(p.g, unmadeCohorts, DoneSet(made))
      requires Attended(p.g, made, DoneSet(made)) && CheckedOk(made, checked, seqno)
      requires p.g[pgn].remake && AllDone(p.g, DoneSet(made), cent) ==> unmade[pgn] >= 1
      modifies this`made, this`toBeMade, this`unmade
      ensures Basic(p, Now())
      ensures Attended(p.g, made, DoneSet(made)) && CheckedOk(made, checked, seqno)
      ensures Scheduled(p.g, old(made), made)
      ensures DoneSet(made) == old(DoneSet(made)) && Touched(made) == old(Touched(made))
      ensures unmade == if p.g[pgn].remake && AllDone(p.g, DoneSet(made), cent)
                        then old(unmade)[pgn := old(unmade)[pgn] - 1] else old(unmade)
      ensures Notified(p.g, made, unmade, cent, pgn)
      ensures Woken(p.g, old(Now()), Now(), cent, pgn)
      ensures forall n :: 0 <= n < |p.g| && n != pgn ==> made[n] == old(made)[n]
    {
      NothingScheduled(p.g, made);
      if !p.g[pgn].remake {
        return;
      }
      assert UnmadeCohortsIs(p.g, unmadeCohorts, DoneSet(made), cent);
      MissingZero(DoneSet(made), p.g[cent].cohorts);
      if unmadeCohorts[cent] != 0 || !IsDone(made[cent]) {
        return;
      }
      unmade := unmade[pgn := unmade[pgn] - 1];
      assert unmade[pgn] >= 0;  // so "Graph cycles through" is never reported
      if unmade[pgn] != 0 && !p.g[cent].wait && !doneOrder[cent] {
        return;
      }
      if !made[pgn].DEFERRED? {
        return;
      }
      var waiting := IsWaitingForOrder(pgn);
      if waiting {
        return;
      }
      RequestDeferred(p, Now(), pgn, DoneSet(made));
      made := made[pgn := REQUESTED];
      toBeMade := toBeMade + [pgn];
    }

    // Make_ProcessWait starts the build with the node .MAIN.
    constructor (problem: Problem, randomizeTargets: bool, maxJobs: nat)
      requires ValidProblem(problem) && maxJobs > 0
      ensures p == problem && randomize == randomizeTargets && this.maxJobs == maxJobs
      ensures Inv(p, Now()) && Traced() && TokensOk(false)
      ensures running == {} && history == [] && scans == []
    {
      p := problem;
      randomize, this.maxJobs, tokensRunning := randomizeTargets, maxJobs, 0;
      made := seq(|problem.g|, n => UNMADE);
      unmade := seq(|problem.g|, n requires 0 <= n < |problem.g| => |problem.g[n].children|);
      unmadeCohorts := seq(|problem.g|, n requires 0 <= n < |problem.g| => |problem.g[n].cohorts|);
      doneOrder := seq(|problem.g|, n => false);
      checked := seq(|problem.g|, n => 0);
      seqno := 1;
      toBeMade := [];
      running := {};
      history, scans := [], [];
      new;
      ScheduleMain();
    }

    method ScheduleMain()
      requires ValidProblem(p) && IsInitial(p, Now()) && scans == []
      modifies this`made, this`toBeMade
      ensures Inv(p, Now()) && Traced()
    {
      InitialState(p, Now());
      ghost var m0 := made;
      var stop := MakeBuildChild(p.main, None, []);
      ScheduledSets(p.g, m0, made);
      AttendedAfterScheduling(p.g, m0, made, {});
      LiveAfterScheduling(p.g, m0, made, unmade, checked, seqno, {});
      RunningAfterScheduling(p.fate, p.g, m0, made, running);
      TraceStart(p.g, p.main, m0, made);
    }

    // Take the first node off the queue and deal with it. The caller holds a job token; kept
    // tells whether it still does afterwards.
    method Examine() returns (kept: bool)
      requires Inv(p, Now()) && Traced() && TokensOk(true) && toBeMade != []
      modifies this
      ensures Inv(p, Now()) && Traced() && TokensOk(kept)
      ensures Progress(old(Now()), Now())
      ensures Unstarted(made) < old(Unstarted(made)) || running == old(running)
    {
      var gn := toBeMade[0];
      ghost var s0 := Now();
      QueueAfterDequeue(made, toBeMade, DEFERRED);
      assert made[gn].REQUESTED?;  // so the internal error is never reported
      toBeMade := toBeMade[1..];
      if checked[gn] == seqno {
        made := made[gn := DEFERRED];
        DropStep(p, s0);
        TraceMark(p.g, p.main, s0.made, gn, DEFERRED, history, scans);
        return true;
      }
      checked := checked[gn := seqno];
      if unmade[gn] != 0 {
        made := made[gn := DEFERRED];
        ScanNode(gn, s0);
        return true;
      }
      made := made[gn := BEINGMADE];
      history := history + [Start(gn)];
      StartedStep(p, s0);
      TraceMark(p.g, p.main, s0.made, gn, BEINGMADE, s0.history, scans);
      TraceEvent(p.g, p.main, made, s0.history, Start(gn), scans);
      kept := StartNode(gn);
    }

    // A node that was taken off the queue has unmade children: look at them, and note that.
    method ScanNode(gn: nat, ghost s0: State)
      requires Inv(p, s0) && TraceOk(p.g, p.main, s0.made, s0.history, scans)
      requires s0.toBeMade != [] && gn == s0.toBeMade[0] && gn < |p.g| && s0.made[gn].REQUESTED?
      requires s0.checked[gn] != s0.seqno && s0.unmade[gn] != 0
      requires Now() == s0.(made := s0.made[gn := DEFERRED], toBeMade := s0.toBeMade[1..], checked := s0.checked[gn := s0.seqno])
      modifies this`made, this`toBeMade, this`scans
      ensures Inv(p, Now()) && Traced() && Progress(s0, Now())
      ensures scans == old(scans) + [Scan(gn, old(made), |history|)]
    {
      DeferStep(p, s0, checked);
      TraceMark(p.g, p.main, s0.made, gn, DEFERRED, history, scans);
      ghost var m1 := made;
      MakeChildren(gn);
      AfterChildren(p, s0, m1, Now());
      TraceScan(p.g, p.main, m1, made, history, scans, gn);
      scans := scans + [Scan(gn, m1, |history|)];
    }

    // Make_Update for a node that was just marked as done.
    method UpdateFinished(gn: nat, ghost s0: State, ghost k: Made)
      requires gn < |s0.made| && !s0.made[gn].UNMADE? && IsDone(k) && TraceOk(p.g, p.main, s0.made, s0.history, scans)
      requires made == s0.made[gn := k] && history == s0.history + [Finish(gn)]
      requires Basic(p, Now()) && gn < |p.g|
      requires Counted(p, Now(), DoneSet(made) - {gn}) && ReadyBefore(p.g, made, DoneSet(made) - {gn})
      requires RunningOk(p.fate, made, running) && !made[p.main].UNMADE?
      modifies this`made, this`toBeMade, this`doneOrder, this`unmade, this`unmadeCohorts, this`seqno
      ensures Inv(p, Now()) && Traced() && Unstarted(made) == Unstarted(old(made))
    {
      TraceMark(p.g, p.main, s0.made, gn, k, s0.history, scans);
      TraceEvent(p.g, p.main, made, s0.history, Finish(gn), scans);
      ghost var m := made;
      MakeUpdate(gn);
      ScheduledSets(p.g, m, made);
      TraceInstances(p.g, p.main, m, made, history, scans);
    }

    // The job module decides what becomes of a node that is being made.
    method StartNode(gn: nat) returns (kept: bool)
      requires Basic(p, Now()) && gn < |p.g| && made[gn].BEINGMADE?
      requires Counted(p, Now(), DoneSet(made)) && !made[p.main].UNMADE?
      requires RunningOk(p.fate, made[gn := REQUESTED], running) && Traced() && TokensOk(true)
      modifies this
      ensures Inv(p, Now()) && Traced() && TokensOk(kept)
      ensures Unstarted(made) <= old(Unstarted(made))
    {
      ghost var s0 := Now();
      match p.fate[gn] {
        case UpToDate =>
          made := made[gn := UPTODATE];
          history := history + [Finish(gn)];
          FinishedStep(p, s0, gn, UPTODATE, running);
          UpdateFinished(gn, s0, UPTODATE);
          kept := true;
        case NoShell(ok) =>
          tokensRunning := tokensRunning - 1;
          if ok {
            made := made[gn := MADE];
            history := history + [Finish(gn)];
            FinishedStep(p, s0, gn, MADE, running);
            UpdateFinished(gn, s0, MADE);
          } else {
            WithOrWithoutJob(p.fate, made, running, gn, running);
          }
          kept := false;
        case Shell(ok) =>
          WithOrWithoutJob(p.fate, made, running, gn, running + {gn});
          assert gn !in running by {
            assert gn in running ==> JobOk(p.fate, made[gn := REQUESTED], running, gn);
          }
          running := running + {gn};
          kept := false;
      }
    }

    // A job has ended; with a status other than 0 its node stays as it is.
    method JobFinish(gn: nat)
      requires Inv(p, Now()) && Traced() && TokensOk(false) && gn in running
      modifies this
      ensures Inv(p, Now()) && Traced() && TokensOk(false)
      ensures running == old(running) - {gn} && Unstarted(made) == old(Unstarted(made))
    {
      ghost var s0 := Now();
      assert JobOk(p.fate, made, running, gn);
      WithoutJob(p.fate, made, running, gn);
      running := running - {gn};
      if p.fate[gn].ok {
        made := made[gn := MADE];
        history := history + [Finish(gn)];
        FinishedStep(p, s0, gn, MADE, running);
        UpdateFinished(gn, s0, MADE);
      } else {
        WithOrWithoutJob(p.fate, made, running, gn, running);
      }
      tokensRunning := tokensRunning - 1;
    }

    // Start as many jobs as the tokens allow. A make that runs no job always gets a token;
    // otherwise withdrawing one may fail at any time.
    method MakeStartJobs()
      requires Inv(p, Now()) && Traced() && TokensOk(false)
      modifies this
      ensures Inv(p, Now()) && Traced() && TokensOk(false)
      ensures || Unstarted(made) < old(Unstarted(made))
              || (Unstarted(made) == old(Unstarted(made)) && running == old(running)
                  && (running == {} ==> toBeMade == []))
    {
      var haveToken := false;
      while toBeMade != []
        invariant Inv(p, Now()) && Traced() && TokensOk(haveToken)
        invariant || Unstarted(made) < old(Unstarted(made))
                  || (Unstarted(made) == old(Unstarted(made)) && running == old(running))
        decreases Unstarted(made), Unchecked(checked, seqno), |toBeMade|
      {
        if !haveToken {
          haveToken := TokenWithdraw();
          if !haveToken {
            break;
          }
        }
        haveToken := Examine();
      }
      if haveToken {
        tokensRunning := tokensRunning - 1;
      }
    }

    // The main loop of Make_Run. Jobs end in any order, and up to `idle` times the loop goes
    // round without one having ended.
    method MakeRun(idle: nat)
      requires Inv(p, Now()) && Traced() && TokensOk(false)
      modifies this
      ensures Inv(p, Now()) && Traced() && TokensOk(false) && toBeMade == [] && running == {}
      ensures Outcome(p, DoneSet(made))
    {
      MakeStartJobs();
      var spare := idle;
      while toBeMade != [] || running != {}
        invariant Inv(p, Now()) && Traced() && TokensOk(false)
        decreases Unstarted(made), running, spare, |toBeMade|
      {
        if running != {} {
          var ended := *;
          if ended || spare == 0 {
            var gn :| gn in running;
            JobFinish(gn);
          } else {
            spare := spare - 1;
          }
        }
        MakeStartJobs();
      }
      ExhaustedOutcome(p, Now());
    }
  }
}
