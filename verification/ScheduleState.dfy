/**
The variable part of the scheduler's state as a value, the invariants that every step of
the build keeps, and what the single steps do to them.
*/
module ScheduleState {
  import opened Wrappers
  import opened BuildGraph
  import opened BuildRules

  datatype Event = Start(node: nat) | Finish(node: nat)

  // The variable fields of all nodes, by node index, and the global variables of make.c.
  datatype State = State(
    made: seq<Made>, unmade: seq<int>, unmadeCohorts: seq<int>, doneOrder: seq<bool>, checked: seq<nat>,
    seqno: nat, toBeMade: seq<nat>, running: set<nat>, history: seq<Event>)

  // What a run is given: the graph, its root `.MAIN` and the outcome of each node.
  datatype Problem = Problem(g: Graph, main: nat, fate: seq<Fate>)

  ghost predicate ValidProblem(p: Problem) {
    && WellFormed(p.g)
    && |p.fate| == |p.g|
    && p.main < |p.g|
    && p.g[p.main].remake
    && p.g[p.main].orderPred == []
  }

  // ---------------------------------------------------------------- the invariants

  ghost predicate Sized(g: Graph, s: State) {
    && |s.made| == |g|
    && |s.unmade| == |g|
    && |s.unmadeCohorts| == |g|
    && |s.doneOrder| == |g|
    && |s.checked| == |g|
  }

  ghost predicate QueuedOnce(made: seq<Made>, toBeMade: seq<nat>, n: nat)
    requires n < |made|
  {
    multiset(toBeMade)[n] == if made[n].REQUESTED? then 1 else 0
  }

  // A node is REQUESTED exactly when it is on the queue, and it is there once.
  ghost predicate QueueOk(made: seq<Made>, toBeMade: seq<nat>) {
    && (forall x :: x in toBeMade ==> x < |made|)
    && (forall n :: 0 <= n < |made| ==> QueuedOnce(made, toBeMade, n))
  }

  // What the state of node n implies about its neighbours.
  ghost predicate NodeOk(g: Graph, made: seq<Made>, n: nat)
    requires |made| == |g| && n < |g|
  {
    && (!made[n].UNMADE? ==> g[n].remake)
    && (IsReady(made[n]) ==> OrderReady(g, DoneSet(made), n))
    && (made[n].BEINGMADE? || IsDone(made[n]) ==> ChildrenDone(g, DoneSet(made), n))
  }

  ghost predicate NodesOk(g: Graph, made: seq<Made>) {
    |made| == |g| && forall n :: 0 <= n < |g| ==> NodeOk(g, made, n)
  }

  // A node being made without a job has failed.
  ghost predicate JobOk(fate: seq<Fate>, made: seq<Made>, running: set<nat>, n: nat)
    requires |fate| == |made| && n < |made|
  {
    && (n in running ==> made[n].BEINGMADE? && fate[n].Shell?)
    && (made[n].BEINGMADE? && n !in running ==> !Succeeds(fate[n]))
  }

  ghost predicate RunningOk(fate: seq<Fate>, made: seq<Made>, running: set<nat>)
    requires |fate| == |made|
  {
    && (forall n :: n in running ==> n < |made|)
    && (forall n :: 0 <= n < |made| ==> JobOk(fate, made, running, n))
  }

  // The child edges that a node to be remade still waits for.
  ghost predicate UnmadeIs(g: Graph, unmade: seq<int>, D: set<nat>, n: nat)
    requires |unmade| == |g| && n < |g|
  {
    g[n].remake ==> unmade[n] == Missing(AllDoneSet(g, D), g[n].children)
  }

  ghost predicate UnmadeOk(g: Graph, unmade: seq<int>, D: set<nat>)
    requires |unmade| == |g|
  {
    forall n :: 0 <= n < |g| ==> UnmadeIs(g, unmade, D, n)
  }

  ghost predicate UnmadeCohortsIs(g: Graph, unmadeCohorts: seq<int>, D: set<nat>, c: nat)
    requires |unmadeCohorts| == |g| && c < |g|
  {
    unmadeCohorts[c] == Missing(D, g[c].cohorts)
  }

  ghost predicate CohortsOk(g: Graph, unmadeCohorts: seq<int>, D: set<nat>)
    requires |unmadeCohorts| == |g|
  {
    forall c :: 0 <= c < |g| ==> UnmadeCohortsIs(g, unmadeCohorts, D, c)
  }

  // Everything looked at or done is so in the least solution of the rules.
  ghost predicate Within(p: Problem, made: seq<Made>)
    requires |p.fate| == |p.g|
  {
    && Touched(made) <= Needed(p.g, p.main, p.fate, false)
    && DoneSet(made) <= Buildable(p.g, p.main, p.fate, false)
  }

  // Before a node is started, everything it depends on or is ordered after has finished.
  ghost predicate EventOk(g: Graph, before: seq<Event>, e: Event) {
    && e.node < |g|
    && match e {
         case Start(n) =>
           && Start(n) !in before
           && (forall c :: c in g[n].children ==>
                 c < |g| && Finish(c) in before && forall q :: q in g[c].cohorts ==> Finish(q) in before)
           && (forall o :: o in g[n].orderPred && Remade(g, o) ==> Finish(o) in before)
         case Finish(n) =>
           Start(n) in before && Finish(n) !in before
       }
  }

  ghost predicate RunOk(g: Graph, history: seq<Event>) {
    forall i :: 0 <= i < |history| ==> EventOk(g, history[..i], history[i])
  }

  // The history records which nodes were started and finished.
  ghost predicate Recorded(made: seq<Made>, history: seq<Event>, n: nat)
    requires n < |made|
  {
    && (Start(n) in history <==> made[n].BEINGMADE? || IsDone(made[n]))
    && (Finish(n) in history <==> IsDone(made[n]))
  }

  ghost predicate HistoryOk(g: Graph, made: seq<Made>, history: seq<Event>) {
    RunOk(g, history) && forall n :: 0 <= n < |made| ==> Recorded(made, history, n)
  }

  // Once a node that has been looked at is past its .ORDER predecessors, so are its cohorts.
  ghost predicate Attends(g: Graph, made: seq<Made>, D: set<nat>, n: nat)
    requires |made| == |g| && n < |g|
  {
    !made[n].UNMADE? && OrderReady(g, D, n) ==> CohortsTouched(g, made, n)
  }

  ghost predicate CohortsTouched(g: Graph, made: seq<Made>, n: nat)
    requires n < |g|
  {
    forall q :: q in g[n].cohorts ==> q in Touched(made)
  }

  ghost predicate Attended(g: Graph, made: seq<Made>, D: set<nat>)
    requires |made| == |g|
  {
    forall n :: 0 <= n < |g| ==> Attends(g, made, D, n)
  }

  ghost predicate IsDropped(made: seq<Made>, checked: seq<nat>, seqno: nat, n: nat)
    requires n < |made| && n < |checked|
  {
    made[n].DEFERRED? || (made[n].REQUESTED? && checked[n] == seqno)
  }

  // A dropped node, or one that would be dropped unexamined, waits for children, and all
  // children it may look at have been looked at.
  ghost predicate Settles(g: Graph, made: seq<Made>, unmade: seq<int>, checked: seq<nat>, seqno: nat, D: set<nat>, n: nat)
    requires |made| == |unmade| == |checked| == |g| && n < |g|
  {
    OrderReady(g, D, n) && IsDropped(made, checked, seqno, n) ==>
      unmade[n] != 0 && Scanned(g, Touched(made), D, n)
  }

  ghost predicate Live(g: Graph, made: seq<Made>, unmade: seq<int>, checked: seq<nat>, seqno: nat, D: set<nat>)
    requires |made| == |unmade| == |checked| == |g|
  {
    forall n :: 0 <= n < |g| ==> Settles(g, made, unmade, checked, seqno, D, n)
  }

  ghost predicate CheckedAt(made: seq<Made>, checked: seq<nat>, seqno: nat, n: nat)
    requires n < |made| && n < |checked|
  {
    checked[n] <= seqno && (checked[n] == seqno ==> !made[n].UNMADE?)
  }

  ghost predicate CheckedOk(made: seq<Made>, checked: seq<nat>, seqno: nat)
    requires |checked| == |made|
  {
    forall n :: 0 <= n < |made| ==> CheckedAt(made, checked, seqno, n)
  }

  // The invariants that do not mention the counters.
  ghost predicate Basic(p: Problem, s: State) {
    && ValidProblem(p)
    && Sized(p.g, s)
    && QueueOk(s.made, s.toBeMade)
    && NodesOk(p.g, s.made)
    && Within(p, s.made)
    && HistoryOk(p.g, s.made, s.history)
  }

  // Counters and liveness, as of the done nodes D.
  ghost predicate Counted(p: Problem, s: State, D: set<nat>)
    requires ValidProblem(p) && Sized(p.g, s)
  {
    && UnmadeOk(p.g, s.unmade, D)
    && CohortsOk(p.g, s.unmadeCohorts, D)
    && Attended(p.g, s.made, D)
    && Live(p.g, s.made, s.unmade, s.checked, s.seqno, D)
    && CheckedOk(s.made, s.checked, s.seqno)
  }

  ghost predicate Inv(p: Problem, s: State) {
    && Basic(p, s)
    && Counted(p, s, DoneSet(s.made))
    && RunningOk(p.fate, s.made, s.running)
    && !s.made[p.main].UNMADE?
  }

  // ---------------------------------------------------------------- scheduling steps

  ghost function Unstarted(made: seq<Made>): set<nat> {
    set n: nat | n < |made| && !made[n].BEINGMADE? && !IsDone(made[n])
  }

  ghost function Unchecked(checked: seq<nat>, seqno: nat): set<nat> {
    set n: nat | n < |checked| && checked[n] != seqno
  }

  // A node that was not ready may have been requested, or deferred if .ORDER holds it back.
  ghost predicate MayBeScheduled(g: Graph, m: seq<Made>, m': seq<Made>, n: nat)
    requires |m| == |m'| == |g| && n < |g|
  {
    m'[n] == m[n] ||
    (!IsReady(m[n]) && m'[n] == if OrderReady(g, DoneSet(m), n) then REQUESTED else DEFERRED)
  }

  ghost predicate Scheduled(g: Graph, m: seq<Made>, m': seq<Made>)
    requires |m| == |g|
  {
    |m'| == |m| && forall n :: 0 <= n < |m| ==> MayBeScheduled(g, m, m', n)
  }

  // The cohorts of a newly requested node have been looked at.
  ghost predicate Follows(g: Graph, m: seq<Made>, m': seq<Made>, n: nat)
    requires |m| == |m'| == |g| && n < |g|
  {
    !IsReady(m[n]) && m'[n].REQUESTED? ==> CohortsTouched(g, m', n)
  }

  ghost predicate CohortsFollow(g: Graph, m: seq<Made>, m': seq<Made>)
    requires |m| == |m'| == |g|
  {
    forall n :: 0 <= n < |g| ==> Follows(g, m, m', n)
  }

  lemma ScheduledSets(g: Graph, m: seq<Made>, m': seq<Made>)
    requires |m| == |g| && Scheduled(g, m, m')
    ensures DoneSet(m') == DoneSet(m) && Touched(m) <= Touched(m') && Unstarted(m') == Unstarted(m)
  {
    assert forall n :: n in Unstarted(m) ==> MayBeScheduled(g, m, m', n);
    assert forall n :: n in Unstarted(m') ==> MayBeScheduled(g, m, m', n);
    assert forall n :: 0 <= n < |g| ==> MayBeScheduled(g, m, m', n);
    assert forall n :: n in Touched(m) ==> MayBeScheduled(g, m, m', n);
    assert forall n :: n in DoneSet(m) ==> MayBeScheduled(g, m, m', n);
    assert forall n :: n in DoneSet(m') ==> MayBeScheduled(g, m, m', n);
  }

  lemma ScheduledTwice(g: Graph, m: seq<Made>, m1: seq<Made>, m2: seq<Made>)
    requires |m| == |g| && Scheduled(g, m, m1) && Scheduled(g, m1, m2)
    requires CohortsFollow(g, m, m1) && CohortsFollow(g, m1, m2)
    ensures Scheduled(g, m, m2) && CohortsFollow(g, m, m2)
  {
    ScheduledSets(g, m, m1);
    ScheduledSets(g, m1, m2);
    forall n | 0 <= n < |g|
      ensures MayBeScheduled(g, m, m2, n) && Follows(g, m, m2, n)
    {
      assert MayBeScheduled(g, m, m1, n) && MayBeScheduled(g, m1, m2, n);
      assert Follows(g, m, m1, n) && Follows(g, m1, m2, n);
    }
  }

  // Setting one node that was not ready keeps the node invariants.
  lemma NodesAfterSchedule(g: Graph, m: seq<Made>, n: nat, k: Made)
    requires NodesOk(g, m) && n < |g| && g[n].remake && !IsReady(m[n])
    requires k == (if OrderReady(g, DoneSet(m), n) then REQUESTED else DEFERRED)
    ensures NodesOk(g, m[n := k]) && Scheduled(g, m, m[n := k])
    ensures DoneSet(m[n := k]) == DoneSet(m) && Touched(m[n := k]) == Touched(m) + {n}
  {
    var m' := m[n := k];
    assert DoneSet(m') == DoneSet(m);
    forall x | 0 <= x < |g|
      ensures NodeOk(g, m', x) && MayBeScheduled(g, m, m', x)
    {
      assert NodeOk(g, m, x);
    }
  }

  lemma WithinAfterSchedule(p: Problem, m: seq<Made>, n: nat, k: Made)
    requires |p.fate| == |p.g| && Within(p, m) && n < |m| && !IsReady(m[n]) && !IsDone(k)
    requires n in Needed(p.g, p.main, p.fate, false)
    ensures Within(p, m[n := k])
  {
    assert DoneSet(m[n := k]) == DoneSet(m);
  }

  lemma HistoryAfterSchedule(g: Graph, m: seq<Made>, n: nat, k: Made, history: seq<Event>)
    requires HistoryOk(g, m, history) && n < |m|
    requires !m[n].BEINGMADE? && !IsDone(m[n]) && !k.BEINGMADE? && !IsDone(k)
    ensures HistoryOk(g, m[n := k], history)
  {
    var m' := m[n := k];
    forall x | 0 <= x < |m'|
      ensures Recorded(m', history, x)
    {
      assert Recorded(m, history, x);
    }
  }

  lemma AttendedAfterScheduling(g: Graph, m: seq<Made>, m': seq<Made>, D: set<nat>)
    requires |m| == |g| && D <= DoneSet(m) && Attended(g, m, D)
    requires Scheduled(g, m, m') && CohortsFollow(g, m, m')
    ensures Attended(g, m', D)
  {
    ScheduledSets(g, m, m');
    forall n | 0 <= n < |g|
      ensures Attends(g, m', D, n)
    {
      assert Attends(g, m, D, n) && MayBeScheduled(g, m, m', n) && Follows(g, m, m', n);
      MoreDone(g, D, DoneSet(m), n);
    }
  }

  lemma ScannedMore(g: Graph, T: set<nat>, T': set<nat>, D: set<nat>, n: nat)
    requires n < |g| && T <= T' && Scanned(g, T, D, n)
    ensures Scanned(g, T', D, n)
  {}

  lemma LiveAfterScheduling(g: Graph, m: seq<Made>, m': seq<Made>, unmade: seq<int>, checked: seq<nat>, seqno: nat, D: set<nat>)
    requires |m| == |unmade| == |checked| == |g| && D <= DoneSet(m)
    requires Live(g, m, unmade, checked, seqno, D) && CheckedOk(m, checked, seqno)
    requires Scheduled(g, m, m')
    ensures Live(g, m', unmade, checked, seqno, D) && CheckedOk(m', checked, seqno)
  {
    ScheduledSets(g, m, m');
    forall n | 0 <= n < |g|
      ensures Settles(g, m', unmade, checked, seqno, D, n) && CheckedAt(m', checked, seqno, n)
    {
      assert Settles(g, m, unmade, checked, seqno, D, n) && CheckedAt(m, checked, seqno, n);
      assert MayBeScheduled(g, m, m', n);
      MoreDone(g, D, DoneSet(m), n);
      if OrderReady(g, D, n) && IsDropped(m', checked, seqno, n) {
        ScannedMore(g, Touched(m), Touched(m'), D, n);
      }
    }
  }

  // ---------------------------------------------------------------- the queue

  // Insert n before the entry `next`, or at the end if there is none.
  function InsertBefore(queue: seq<nat>, next: Option<nat>, n: nat): seq<nat> {
    if queue == [] || next == Some(queue[0]) then [n] + queue
    else [queue[0]] + InsertBefore(queue[1..], next, n)
  }

  lemma {:induction false} InsertBeforeSplit(front: seq<nat>, back: seq<nat>, next: Option<nat>, n: nat)
    requires next.Some? ==> next.value !in front
    requires next == if back == [] then None else Some(back[0])
    ensures InsertBefore(front + back, next, n) == front + [n] + back
  {
    if front == [] {
      assert front + back == back;
    } else {
      InsertBeforeSplit(front[1..], back, next, n);
      assert (front + back)[1..] == front[1..] + back;
    }
  }

  lemma {:induction false} InsertBeforeMultiset(queue: seq<nat>, next: Option<nat>, n: nat)
    ensures multiset(InsertBefore(queue, next, n)) == multiset(queue) + multiset{n}
  {
    if queue == [] || next == Some(queue[0]) {
    } else {
      InsertBeforeMultiset(queue[1..], next, n);
      assert queue == [queue[0]] + queue[1..];
    }
  }

  lemma QueueAfterRequest(made: seq<Made>, queue: seq<nat>, queue': seq<nat>, n: nat)
    requires QueueOk(made, queue) && n < |made| && !made[n].REQUESTED?
    requires multiset(queue') == multiset(queue) + multiset{n}
    ensures QueueOk(made[n := REQUESTED], queue')
  {
    forall x | x in queue'
      ensures x < |made|
    {
      assert x in multiset(queue');
      assert x == n || x in queue;
    }
    var made' := made[n := REQUESTED];
    forall x | 0 <= x < |made'|
      ensures QueuedOnce(made', queue', x)
    {
      assert QueuedOnce(made, queue, x);
    }
  }

  lemma QueueAfterDefer(made: seq<Made>, queue: seq<nat>, n: nat)
    requires QueueOk(made, queue) && n < |made| && !made[n].REQUESTED?
    ensures QueueOk(made[n := DEFERRED], queue)
  {
    var made' := made[n := DEFERRED];
    forall x | 0 <= x < |made'|
      ensures QueuedOnce(made', queue, x)
    {
      assert QueuedOnce(made, queue, x);
    }
  }

  lemma InsertAtMultiset(queue: seq<nat>, pos: nat, n: nat)
    requires pos <= |queue|
    ensures multiset(queue[..pos] + [n] + queue[pos..]) == multiset(queue) + multiset{n}
  {
    assert queue == queue[..pos] + queue[pos..];
  }

  lemma QueueAfterDequeue(made: seq<Made>, queue: seq<nat>, k: Made)
    requires QueueOk(made, queue) && queue != [] && !k.REQUESTED?
    ensures queue[0] < |made| && made[queue[0]].REQUESTED?
    ensures QueueOk(made[queue[0] := k], queue[1..])
  {
    assert queue[0] in queue;
    assert queue == [queue[0]] + queue[1..];
    assert multiset(queue) == multiset{queue[0]} + multiset(queue[1..]);
    assert forall x :: x in queue[1..] ==> x in queue;
    assert QueuedOnce(made, queue, queue[0]);
    var made' := made[queue[0] := k];
    forall x | 0 <= x < |made'|
      ensures QueuedOnce(made', queue[1..], x)
    {
      assert QueuedOnce(made, queue, x);
    }
  }

  // Requesting or deferring a node that is not ready yet.
  lemma ScheduleStep(p: Problem, s: State, n: nat, k: Made, queue: seq<nat>)
    requires Basic(p, s) && n < |p.g| && p.g[n].remake && !IsReady(s.made[n])
    requires n in Needed(p.g, p.main, p.fate, false)
    requires k == (if OrderReady(p.g, DoneSet(s.made), n) then REQUESTED else DEFERRED)
    requires if k.REQUESTED? then multiset(queue) == multiset(s.toBeMade) + multiset{n} else queue == s.toBeMade
    ensures Basic(p, s.(made := s.made[n := k], toBeMade := queue))
    ensures Scheduled(p.g, s.made, s.made[n := k])
    ensures DoneSet(s.made[n := k]) == DoneSet(s.made)
    ensures Touched(s.made[n := k]) == Touched(s.made) + {n}
  {
    NodesAfterSchedule(p.g, s.made, n, k);
    WithinAfterSchedule(p, s.made, n, k);
    HistoryAfterSchedule(p.g, s.made, n, k, s.history);
    if k.REQUESTED? {
      QueueAfterRequest(s.made, s.toBeMade, queue, n);
    } else {
      QueueAfterDefer(s.made, queue, n);
    }
  }

  // ---------------------------------------------------------------- starting and finishing

  // Appending an event that is in order keeps a run in order.
  lemma RunAppend(g: Graph, history: seq<Event>, e: Event)
    requires RunOk(g, history) && EventOk(g, history, e)
    ensures RunOk(g, history + [e])
  {
    var h := history + [e];
    forall i | 0 <= i < |h|
      ensures EventOk(g, h[..i], h[i])
    {
      assert h[..i] == history[..i];
      assert i == |history| ==> history[..i] == history;
    }
  }

  lemma HistoryAfterStart(g: Graph, m: seq<Made>, history: seq<Event>, n: nat)
    requires |m| == |g| && HistoryOk(g, m, history) && n < |g| && m[n].REQUESTED?
    requires ChildrenDone(g, DoneSet(m), n) && OrderReady(g, DoneSet(m), n)
    ensures HistoryOk(g, m[n := BEINGMADE], history + [Start(n)])
  {
    assert Recorded(m, history, n);
    forall x | x in DoneSet(m)
      ensures Finish(x) in history
    {
      assert Recorded(m, history, x);
    }
    assert EventOk(g, history, Start(n));
    RunAppend(g, history, Start(n));
    var m' := m[n := BEINGMADE];
    forall x | 0 <= x < |m'|
      ensures Recorded(m', history + [Start(n)], x)
    {
      assert Recorded(m, history, x);
    }
  }

  lemma HistoryAfterFinish(g: Graph, m: seq<Made>, history: seq<Event>, n: nat, k: Made)
    requires |m| == |g| && HistoryOk(g, m, history) && n < |g| && m[n].BEINGMADE? && IsDone(k)
    ensures HistoryOk(g, m[n := k], history + [Finish(n)])
  {
    assert Recorded(m, history, n);
    assert EventOk(g, history, Finish(n));
    RunAppend(g, history, Finish(n));
    var m' := m[n := k];
    forall x | 0 <= x < |m'|
      ensures Recorded(m', history + [Finish(n)], x)
    {
      assert Recorded(m, history, x);
    }
  }

  // Starting a node and finishing one keep the node invariants; finishing adds to the done
  // nodes, and more done nodes satisfy every requirement that fewer did.
  lemma NodesAfterProgress(g: Graph, m: seq<Made>, n: nat, k: Made)
    requires NodesOk(g, m) && n < |g| && IsReady(m[n]) && !IsDone(m[n]) && (k.BEINGMADE? || IsDone(k))
    requires ChildrenDone(g, DoneSet(m), n)
    ensures NodesOk(g, m[n := k])
    ensures DoneSet(m[n := k]) == DoneSet(m) + if IsDone(k) then {n} else {}
    ensures Touched(m[n := k]) == Touched(m)
  {
    var m' := m[n := k];
    assert DoneSet(m') == DoneSet(m) + if IsDone(k) then {n} else {};
    forall x | 0 <= x < |g|
      ensures NodeOk(g, m', x)
    {
      assert NodeOk(g, m, x);
      MoreDone(g, DoneSet(m), DoneSet(m'), x);
    }
  }

  lemma MoreDone(g: Graph, D: set<nat>, D': set<nat>, n: nat)
    requires n < |g| && D <= D'
    ensures OrderReady(g, D, n) ==> OrderReady(g, D', n)
    ensures ChildrenDone(g, D, n) ==> ChildrenDone(g, D', n)
  {}

  // A node without unmade children that is past .ORDER may be started.
  lemma StartStep(p: Problem, s: State, n: nat)
    requires Basic(p, s) && n < |p.g| && s.made[n].REQUESTED?
    requires ChildrenDone(p.g, DoneSet(s.made), n)
    ensures NodesOk(p.g, s.made[n := BEINGMADE])
    ensures HistoryOk(p.g, s.made[n := BEINGMADE], s.history + [Start(n)])
    ensures Within(p, s.made[n := BEINGMADE])
    ensures DoneSet(s.made[n := BEINGMADE]) == DoneSet(s.made)
    ensures Touched(s.made[n := BEINGMADE]) == Touched(s.made)
  {
    assert NodeOk(p.g, s.made, n);
    NodesAfterProgress(p.g, s.made, n, BEINGMADE);
    HistoryAfterStart(p.g, s.made, s.history, n);
  }

  // A started node that succeeds may be marked done.
  lemma FinishStep(p: Problem, s: State, n: nat, k: Made)
    requires Basic(p, s) && n < |p.g| && s.made[n].BEINGMADE? && Succeeds(p.fate[n]) && IsDone(k)
    ensures NodesOk(p.g, s.made[n := k])
    ensures HistoryOk(p.g, s.made[n := k], s.history + [Finish(n)])
    ensures Within(p, s.made[n := k])
    ensures DoneSet(s.made[n := k]) == DoneSet(s.made) + {n}
    ensures Touched(s.made[n := k]) == Touched(s.made)
  {
    assert NodeOk(p.g, s.made, n);
    NodesAfterProgress(p.g, s.made, n, k);
    HistoryAfterFinish(p.g, s.made, s.history, n, k);
    FinishWithin(p, s.made, n);
  }

  // The rules also make a node whose children are made.
  lemma FinishWithin(p: Problem, m: seq<Made>, n: nat)
    requires ValidProblem(p) && |m| == |p.g| && Within(p, m) && n < |m| && !m[n].UNMADE?
    requires OrderReady(p.g, DoneSet(m), n) && ChildrenDone(p.g, DoneSet(m), n) && Succeeds(p.fate[n])
    ensures n in Buildable(p.g, p.main, p.fate, false)
  {
    var T, D := Needed(p.g, p.main, p.fate, false), Buildable(p.g, p.main, p.fate, false);
    LeastIsClosed(p.g, p.main, p.fate, false);
    assert n in T;
    assert OrderReady(p.g, D, n) && ChildrenDone(p.g, D, n);
  }

  // The rules also look at the children and cohorts of a node past its .ORDER predecessors.
  lemma NeededNeighbours(p: Problem, m: seq<Made>, n: nat)
    requires ValidProblem(p) && |m| == |p.g| && Within(p, m) && n < |m|
    requires n in Needed(p.g, p.main, p.fate, false) && OrderReady(p.g, DoneSet(m), n)
    ensures forall c :: c in p.g[n].children ==> c in Needed(p.g, p.main, p.fate, false)
    ensures forall q :: q in p.g[n].cohorts ==> q in Needed(p.g, p.main, p.fate, false)
  {
    LeastIsClosed(p.g, p.main, p.fate, false);
    assert OrderReady(p.g, Buildable(p.g, p.main, p.fate, false), n);
  }

  // Nodes past .ORDER before a step are still so after more nodes are done.
  lemma ScannedAfterFinish(g: Graph, T: set<nat>, T': set<nat>, D: set<nat>, c: nat, n: nat)
    requires n < |g| && T <= T' && Scanned(g, T, D, n)
    requires c !in g[n].children || !IsWait(g, c)
    ensures Scanned(g, T', D + {c}, n)
  {
    forall i | 0 <= i < |g[n].children| && WaitsPassed(g, D + {c}, n, i)
      ensures g[n].children[i] in T'
    {
      assert WaitsPassed(g, D, n, i);
    }
  }
}
