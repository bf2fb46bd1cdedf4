/**
The job-token protocol of job.c: any number of make processes share one pipe of tokens.
Reading a token, writing one back and flushing the pipe are separate steps, and the steps of
all processes interleave freely.
*/
module JobTokens {
  import opened Wrappers

  // ---------------------------------------------------------------- totals over processes

  // The sum of f over all processes.
  ghost function Total<T>(procs: seq<T>, f: T -> int): int {
    if procs == [] then 0 else Total(procs[..|procs| - 1], f) + f(procs[|procs| - 1])
  }

  // Changing one process changes the sum by the difference.
  lemma {:induction false} TotalUpdate<T>(procs: seq<T>, f: T -> int, k: nat, v: T)
    requires k < |procs|
    ensures Total(procs[k := v], f) == Total(procs, f) - f(procs[k]) + f(v)
  {
    var n := |procs| - 1;
    if k == n {
      assert procs[k := v][..n] == procs[..n];
    } else {
      TotalUpdate(procs[..n], f, k, v);
      assert procs[k := v][..n] == procs[..n][k := v];
    }
  }

  lemma TotalAppend<T>(procs: seq<T>, f: T -> int, v: T)
    ensures Total(procs + [v], f) == Total(procs, f) + f(v)
  {
    assert (procs + [v])[..|procs|] == procs;
  }

  lemma {:induction false} TotalMonotone<T>(procs: seq<T>, f: T -> int, h: T -> int)
    requires forall k :: 0 <= k < |procs| ==> f(procs[k]) <= h(procs[k])
    ensures Total(procs, f) <= Total(procs, h)
  {
    if procs != [] {
      TotalMonotone(procs[..|procs| - 1], f, h);
    }
  }

  // ---------------------------------------------------------------- the state

  // JOB_TOKENS is "+EI+": the token to requeue for each abort state.
  datatype Token = Plus | Error | Interrupt

  datatype Abort = ABORT_NONE | ABORT_ERROR | ABORT_INTERRUPT | ABORT_WAIT

  function JobToken(a: Abort): Token {
    match a
    case ABORT_NONE => Plus
    case ABORT_ERROR => Error
    case ABORT_INTERRUPT => Interrupt
    case ABORT_WAIT => Plus
  }

  // Where a process is between two steps.
  datatype Point =
    | Outside                // not inside any of the token functions
    | GivingBack             // has read a token that it does not need
    | Depositing             // about to write a '+'
    | Draining(tok: Token)   // flushing the pipe before writing tok
    | Stopping(tok: Token)   // the pipe was empty, about to write tok
    | Exited

  datatype Process = Process(
    parent: Option<nat>,
    maxJobs: nat,
    running: int,         // jobTokensRunning
    held: bool,           // the token that MakeStartJobs holds between two jobs
    leaves: nat,          // running jobs that are not themselves makes
    subs: set<nat>,       // running jobs that are makes, by process
    aborting: Abort,
    doomed: bool,         // has read an abort token
    at: Point)

  // aborted and stopped record whether any process has begun to abort, and whether any has
  // deposited an abort token.
  datatype System = System(pipe: seq<Token>, procs: seq<Process>, aborted: bool, stopped: bool)

  // ---------------------------------------------------------------- the steps

  datatype Step =
    | Withdraw(p: nat)                    // Job_TokenWithdraw up to and including its read
    | GiveBack(p: nat)                    // its write of a token it did not want
    | StartJob(p: nat)                    // the held token becomes a running job
    | ReturnHeld(p: nat)                  // Job_TokenReturn for the held token
    | EndJob(p: nat, abort: Abort)        // JobFinish for a job that is not a make
    | Deposit(p: nat)                     // JobTokenAdd writes '+'
    | Drain(p: nat)                       // one read of a flushing loop
    | Stop(p: nat)                        // the write after a flushing loop
    | Fork(p: nat, maxJobs: nat)          // a job of p turns into a make, the next process
    | Exit(q: nat)                        // a make ends; its own job is still to be reaped
    | Orphan(p: nat)                      // a job that an exited make left running ends
    | SetAbort(p: nat, abort: Abort)      // JobInterrupt, Job_AbortAll, and Job_Wait from Fatal

  predicate Idle(s: System, p: nat) { p < |s.procs| && s.procs[p].at.Outside? }

  // A make ends when it has no jobs. One that has read an abort token, or was interrupted, may
  // also end at once and leave its jobs running.
  predicate MayExit(r: Process) {
    (r.leaves == 0 && r.subs == {} && !r.held) || r.doomed || r.aborting.ABORT_INTERRUPT?
  }

  predicate Enabled(s: System, a: Step) {
    match a
    case Withdraw(p) =>
      && Idle(s, p) && !s.procs[p].held && !s.procs[p].doomed
      && s.procs[p].aborting.ABORT_NONE? && s.procs[p].running < s.procs[p].maxJobs
      && (s.pipe != [] || s.procs[p].running == 0)
    case GiveBack(p) => p < |s.procs| && s.procs[p].at.GivingBack?
    case StartJob(p) => Idle(s, p) && s.procs[p].held
    case ReturnHeld(p) => Idle(s, p) && s.procs[p].held
    case EndJob(p, abort) =>
      && Idle(s, p) && s.procs[p].leaves > 0
      && (abort == s.procs[p].aborting || abort.ABORT_ERROR?)
    case Deposit(p) => p < |s.procs| && s.procs[p].at.Depositing?
    case Drain(p) => p < |s.procs| && s.procs[p].at.Draining?
    case Stop(p) => p < |s.procs| && s.procs[p].at.Stopping?
    case Fork(p, _) => p < |s.procs| && s.procs[p].leaves > 0
    case Exit(q) =>
      && Idle(s, q) && MayExit(s.procs[q])
      && (s.procs[q].parent.Some? ==> s.procs[q].parent.value < |s.procs| && s.procs[q].parent.value != q)
    case Orphan(p) => p < |s.procs| && s.procs[p].at.Exited? && s.procs[p].leaves > 0
    case SetAbort(p, _) => p < |s.procs| && !s.procs[p].at.Exited?
  }

  // Job_TokenReturn: the last token of a process is its own, so it is not put back, unless
  // it is an abort token. Putting one back flushes the pipe first if it is an abort token.
  function Returned(r: Process): Process {
    var left := r.running - 1;
    var tok := JobToken(r.aborting);
    r.(running := left,
       at := if left == 0 && tok.Plus? then Outside else if tok.Plus? then Depositing else Draining(tok))
  }

  function Withdrawn(s: System, p: nat): System
    requires p < |s.procs|
  {
    var r := s.procs[p];
    if s.pipe == [] then
      s.(procs := s.procs[p := r.(running := r.running + 1, held := true)])
    else if !s.pipe[0].Plus? then
      s.(pipe := s.pipe[1..], procs := s.procs[p := r.(at := Draining(s.pipe[0]), doomed := true)])
    else if r.running == 0 then
      s.(pipe := s.pipe[1..], procs := s.procs[p := r.(at := GivingBack)])
    else
      s.(pipe := s.pipe[1..], procs := s.procs[p := r.(running := r.running + 1, held := true)])
  }

  // What remains of a make that ends, and of the job that it sat in.
  function Ended(r: Process): Process { r.(at := Exited, running := 0, held := false) }

  function Vacated(r: Process, q: nat): Process {
    r.(leaves := if r.at.Exited? then r.leaves else r.leaves + 1, subs := r.subs - {q})
  }

  function Do(s: System, a: Step): System
    requires Enabled(s, a)
  {
    match a
    case Withdraw(p) => Withdrawn(s, p)
    case GiveBack(p) =>
      var r := s.procs[p];
      s.(pipe := s.pipe + [Plus], procs := s.procs[p := r.(at := Outside, running := r.running + 1, held := true)])
    case StartJob(p) =>
      var r := s.procs[p];
      s.(procs := s.procs[p := r.(held := false, leaves := r.leaves + 1)])
    case ReturnHeld(p) =>
      s.(procs := s.procs[p := Returned(s.procs[p].(held := false))])
    case EndJob(p, abort) =>
      var r := s.procs[p];
      s.(procs := s.procs[p := Returned(r.(leaves := r.leaves - 1, aborting := abort))],
         aborted := s.aborted || !JobToken(abort).Plus?)
    case Deposit(p) =>
      s.(pipe := s.pipe + [Plus], procs := s.procs[p := s.procs[p].(at := Outside)])
    case Drain(p) =>
      if s.pipe != [] then s.(pipe := s.pipe[1..])
      else s.(procs := s.procs[p := s.procs[p].(at := Stopping(s.procs[p].at.tok))])
    case Stop(p) =>
      var r := s.procs[p];
      s.(pipe := s.pipe + [r.at.tok], procs := s.procs[p := r.(at := Outside)],
         stopped := true)
    case Fork(p, maxJobs) =>
      var r := s.procs[p];
      s.(procs := s.procs[p := r.(leaves := r.leaves - 1, subs := r.subs + {|s.procs|})]
                  + [Process(Some(p), maxJobs, 0, false, 0, {}, ABORT_NONE, false, Outside)])
    case Exit(q) =>
      if s.procs[q].parent.None? then s.(procs := s.procs[q := Ended(s.procs[q])])
      else
        var p := s.procs[q].parent.value;
        s.(procs := s.procs[q := Ended(s.procs[q])][p := Vacated(s.procs[p], q)])
    case Orphan(p) =>
      var r := s.procs[p];
      s.(procs := s.procs[p := r.(leaves := r.leaves - 1)])
    case SetAbort(p, abort) =>
      s.(procs := s.procs[p := s.procs[p].(aborting := abort)], aborted := s.aborted || !JobToken(abort).Plus?)
  }

  // Job_ServerStart in the root make: one token per job, save one for the root itself.
  function Init(tokens: nat, maxJobs: nat): System
    requires tokens >= 1
  {
    System(seq(tokens - 1, _ => Plus),
           [Process(None, maxJobs, 0, false, 0, {}, ABORT_NONE, false, Outside)], false, false)
  }

  ghost predicate Next(s: System, s': System) {
    exists a :: Enabled(s, a) && s' == Do(s, a)
  }

  // Every interleaving of the steps of all processes.
  ghost predicate IsRun(tokens: nat, maxJobs: nat, run: seq<System>)
    requires tokens >= 1
  {
    && run != []
    && run[0] == Init(tokens, maxJobs)
    && forall i :: 0 <= i < |run| - 1 ==> Next(run[i], run[i + 1])
  }

  // ---------------------------------------------------------------- the invariant

  function InHand(r: Process): int { if r.held then 1 else 0 }

  // The tokens of the pipe that a process accounts for: those in flight and all that it has
  // withdrawn beyond its own first one.
  function Holds(r: Process): int {
    (if r.at.GivingBack? || r.at.Depositing? then 1 else 0) + (if r.running > 1 then r.running - 1 else 0)
  }

  function SubMakes(r: Process): int { |r.subs| }

  function Leaves(r: Process): int { r.leaves }

  function Living(r: Process): int { if r.at.Exited? then 0 else 1 }

  // The jobs that an exited make has left running.
  function Orphans(r: Process): int { if r.at.Exited? then r.leaves + |r.subs| else 0 }

  ghost predicate ProcessOk(r: Process, aborted: bool) {
    && 0 <= r.running <= r.maxJobs
    && (if r.at.Exited? then r.running == 0 && !r.held else r.leaves + |r.subs| + InHand(r) == r.running)
    && (r.at.GivingBack? ==> r.running == 0 && r.maxJobs > 0 && !r.doomed)
    && (r.doomed ==> !r.held)
    && (r.at.Draining? || r.at.Stopping? ==> !r.at.tok.Plus?)
    && (!aborted ==> JobToken(r.aborting).Plus? && !r.doomed && Orphans(r) == 0 && !Flushing(r))
  }

  // The makes among the jobs of p have p as their parent, and p sits in a job of its parent.
  ghost predicate Seated(procs: seq<Process>, p: nat)
    requires p < |procs|
  {
    && (forall q :: q in procs[p].subs ==> q < |procs| && q != p && procs[q].parent == Some(p) && !procs[q].at.Exited?)
    && (procs[p].parent.Some? ==> procs[p].parent.value < |procs|)
    && (procs[p].parent.Some? && !procs[p].at.Exited? ==> p in procs[procs[p].parent.value].subs)
  }

  // The processes form a tree: each but the root sits in its own job of its parent, which may
  // have exited.
  ghost predicate TreeOk(procs: seq<Process>) {
    && (forall p :: 0 <= p < |procs| ==> Seated(procs, p))
    && Total(procs, SubMakes) >= Total(procs, Living) - 1
  }

  ghost function Tokens(s: System): int { multiset(s.pipe)[Plus] + Total(s.procs, Holds) }

  ghost predicate Conserved(tokens: nat, s: System) {
    && Tokens(s) <= tokens - 1
    && (!s.aborted ==> Tokens(s) == tokens - 1 && forall t :: t in s.pipe ==> t.Plus?)
  }

  predicate Flushing(r: Process) { r.at.Draining? || r.at.Stopping? }

  // Once an abort token was deposited, one is in the pipe or on its way back into it.
  ghost predicate StopKept(s: System) {
    s.stopped ==>
      || (exists t :: t in s.pipe && !t.Plus?)
      || (exists p :: 0 <= p < |s.procs| && Flushing(s.procs[p]))
  }

  ghost predicate ProcessesOk(procs: seq<Process>, aborted: bool) {
    forall p :: 0 <= p < |procs| ==> ProcessOk(procs[p], aborted)
  }

  ghost predicate Inv(tokens: nat, s: System) {
    && ProcessesOk(s.procs, s.aborted)
    && TreeOk(s.procs)
    && Conserved(tokens, s)
    && StopKept(s)
  }

  lemma InitInv(tokens: nat, maxJobs: nat)
    requires tokens >= 1
    ensures Inv(tokens, Init(tokens, maxJobs))
  {
    var s := Init(tokens, maxJobs);
    assert s.procs == [] + [s.procs[0]];
    TotalAppend([], SubMakes, s.procs[0]);
    TotalAppend([], Living, s.procs[0]);
    TotalAppend([], Holds, s.procs[0]);
    AllPlus(tokens - 1);
  }

  lemma {:induction false} AllPlus(n: nat)
    ensures multiset(seq(n, _ => Plus))[Plus] == n
  {
    if n > 0 {
      AllPlus(n - 1);
      assert seq(n, _ => Plus) == seq(n - 1, _ => Plus) + [Plus];
    }
  }

  lemma LocalTree(procs: seq<Process>, p: nat, r: Process)
    requires TreeOk(procs) && p < |procs| && r.parent == procs[p].parent && r.subs == procs[p].subs
    requires r.at.Exited? == procs[p].at.Exited?
    ensures TreeOk(procs[p := r])
  {
    TotalUpdate(procs, SubMakes, p, r);
    TotalUpdate(procs, Living, p, r);
    var after := procs[p := r];
    forall k | 0 <= k < |after|
      ensures Seated(after, k)
    {
      assert Seated(procs, k);
    }
  }

  // A step of one process that neither starts nor ends a process.
  lemma LocalStep(tokens: nat, s: System, s': System, p: nat)
    requires Inv(tokens, s) && p < |s.procs| == |s'.procs|
    requires s'.procs == s.procs[p := s'.procs[p]]
    requires s'.procs[p].parent == s.procs[p].parent && s'.procs[p].subs == s.procs[p].subs
    requires s'.procs[p].at.Exited? == s.procs[p].at.Exited?
    requires ProcessOk(s'.procs[p], s'.aborted) && (s.aborted ==> s'.aborted)
    requires multiset(s'.pipe)[Plus] + Holds(s'.procs[p]) <= multiset(s.pipe)[Plus] + Holds(s.procs[p])
    requires !s'.aborted ==>
               && multiset(s'.pipe)[Plus] + Holds(s'.procs[p]) == multiset(s.pipe)[Plus] + Holds(s.procs[p])
               && forall t :: t in s'.pipe ==> t.Plus?
    requires StopKept(s')
    ensures Inv(tokens, s')
  {
    LocalTree(s.procs, p, s'.procs[p]);
    TotalUpdate(s.procs, Holds, p, s'.procs[p]);
    forall k | 0 <= k < |s'.procs|
      ensures ProcessOk(s'.procs[k], s'.aborted)
    {
      assert ProcessOk(s.procs[k], s.aborted);
    }
  }

  lemma PipeHead(pipe: seq<Token>)
    requires pipe != []
    ensures multiset(pipe) == multiset{pipe[0]} + multiset(pipe[1..])
    ensures forall t :: t in pipe <==> t == pipe[0] || t in pipe[1..]
  {
    assert pipe == [pipe[0]] + pipe[1..];
  }

  // No process left a flushing loop, and no abort token left the pipe.
  lemma StopStays(s: System, s': System)
    requires StopKept(s) && s'.stopped == s.stopped && |s.procs| <= |s'.procs|
    requires forall t :: t in s.pipe && !t.Plus? ==> t in s'.pipe
    requires forall k :: 0 <= k < |s.procs| && Flushing(s.procs[k]) ==> Flushing(s'.procs[k])
    ensures StopKept(s')
  {
    if s'.stopped && !exists t :: t in s'.pipe && !t.Plus? {
      var k :| 0 <= k < |s.procs| && Flushing(s.procs[k]);
      assert Flushing(s'.procs[k]);
    }
  }

  lemma WithdrawStep(tokens: nat, s: System, p: nat)
    requires Inv(tokens, s) && Enabled(s, Withdraw(p))
    ensures Inv(tokens, Do(s, Withdraw(p)))
  {
    var s' := Do(s, Withdraw(p));
    assert ProcessOk(s.procs[p], s.aborted);
    if s.pipe != [] {
      PipeHead(s.pipe);
    }
    if s.pipe != [] && !s.pipe[0].Plus? {
      assert Flushing(s'.procs[p]);
    } else {
      StopStays(s, s');
    }
    LocalStep(tokens, s, s', p);
  }

  // Steps of a process outside a flushing loop that take nothing from the pipe.
  lemma QuietStep(tokens: nat, s: System, a: Step)
    requires Inv(tokens, s) && Enabled(s, a)
    requires a.GiveBack? || a.StartJob? || a.ReturnHeld? || a.EndJob? || a.Deposit? || a.Orphan? || a.SetAbort?
    ensures Inv(tokens, Do(s, a))
  {
    var s' := Do(s, a);
    var p := a.p;
    assert ProcessOk(s.procs[p], s.aborted);
    assert multiset(s.pipe + [Plus]) == multiset(s.pipe) + multiset{Plus};
    StopStays(s, s');
    LocalStep(tokens, s, s', p);
  }

  lemma DrainStep(tokens: nat, s: System, p: nat)
    requires Inv(tokens, s) && Enabled(s, Drain(p))
    ensures Inv(tokens, Do(s, Drain(p)))
  {
    var s' := Do(s, Drain(p));
    assert ProcessOk(s.procs[p], s.aborted);
    assert Flushing(s'.procs[p]);
    if s.pipe != [] {
      PipeHead(s.pipe);
    }
    LocalStep(tokens, s, s', p);
  }

  lemma StopStep(tokens: nat, s: System, p: nat)
    requires Inv(tokens, s) && Enabled(s, Stop(p))
    ensures Inv(tokens, Do(s, Stop(p)))
  {
    var s' := Do(s, Stop(p));
    assert ProcessOk(s.procs[p], s.aborted);
    assert s.procs[p].at.tok in s'.pipe;
    assert multiset(s'.pipe) == multiset(s.pipe) + multiset{s.procs[p].at.tok};
    LocalStep(tokens, s, s', p);
  }

  lemma ForkTree(procs: seq<Process>, p: nat, r: Process, n: Process)
    requires TreeOk(procs) && p < |procs| && r.at.Exited? == procs[p].at.Exited?
    requires r.parent == procs[p].parent && r.subs == procs[p].subs + {|procs|}
    requires n.parent == Some(p) && n.subs == {} && !n.at.Exited?
    ensures TreeOk(procs[p := r] + [n])
  {
    var mid := procs[p := r];
    var after := mid + [n];
    assert Seated(procs, p);
    assert |procs| !in procs[p].subs;
    TotalUpdate(procs, SubMakes, p, r);
    TotalUpdate(procs, Living, p, r);
    TotalAppend(mid, SubMakes, n);
    TotalAppend(mid, Living, n);
    forall k | 0 <= k < |after|
      ensures Seated(after, k)
    {
      assert k < |procs| ==> Seated(procs, k);
    }
  }

  lemma ForkProcesses(procs: seq<Process>, aborted: bool, p: nat, r: Process, n: Process)
    requires ProcessesOk(procs, aborted)
    requires p < |procs| && ProcessOk(r, aborted) && ProcessOk(n, aborted)
    requires Holds(r) == Holds(procs[p]) && Holds(n) == 0
    ensures ProcessesOk(procs[p := r] + [n], aborted)
    ensures Total(procs[p := r] + [n], Holds) == Total(procs, Holds)
  {
    TotalUpdate(procs, Holds, p, r);
    TotalAppend(procs[p := r], Holds, n);
    var after := procs[p := r] + [n];
    forall k | 0 <= k < |after|
      ensures ProcessOk(after[k], aborted)
    {
      assert k < |procs| ==> ProcessOk(procs[k], aborted);
    }
  }

  lemma ForkStep(tokens: nat, s: System, p: nat, maxJobs: nat)
    requires Inv(tokens, s) && Enabled(s, Fork(p, maxJobs))
    ensures Inv(tokens, Do(s, Fork(p, maxJobs)))
  {
    var s' := Do(s, Fork(p, maxJobs));
    var r, n := s'.procs[p], s'.procs[|s.procs|];
    assert ProcessOk(s.procs[p], s.aborted) && Seated(s.procs, p);
    assert |s.procs| !in s.procs[p].subs;
    assert ProcessOk(r, s.aborted) && ProcessOk(n, s.aborted);
    ForkTree(s.procs, p, r, n);
    ForkProcesses(s.procs, s.aborted, p, r, n);
    assert s'.procs == s.procs[p := r] + [n];
    StopStays(s, s');
  }

  // The root ends.
  lemma RootExitTree(procs: seq<Process>, q: nat)
    requires TreeOk(procs) && q < |procs| && procs[q].parent.None? && !procs[q].at.Exited?
    ensures TreeOk(procs[q := Ended(procs[q])])
  {
    var after := procs[q := Ended(procs[q])];
    TotalUpdate(procs, SubMakes, q, Ended(procs[q]));
    TotalUpdate(procs, Living, q, Ended(procs[q]));
    forall k | 0 <= k < |after|
      ensures Seated(after, k)
    {
      assert Seated(procs, k) && Seated(procs, q);
    }
  }

  lemma ExitTree(procs: seq<Process>, p: nat, q: nat)
    requires TreeOk(procs) && p < |procs| && q < |procs| && p != q && q in procs[p].subs && !procs[q].at.Exited?
    requires procs[q].parent == Some(p)
    ensures TreeOk(procs[q := Ended(procs[q])][p := Vacated(procs[p], q)])
  {
    var r, n := Vacated(procs[p], q), Ended(procs[q]);
    var mid := procs[q := n];
    var after := mid[p := r];
    TotalUpdate(procs, SubMakes, q, n);
    TotalUpdate(procs, Living, q, n);
    TotalUpdate(mid, SubMakes, p, r);
    TotalUpdate(mid, Living, p, r);
    assert |procs[p].subs| == |r.subs| + 1;
    forall k | 0 <= k < |after|
      ensures Seated(after, k)
    {
      assert Seated(procs, k) && Seated(procs, p) && Seated(procs, q);
    }
  }

  lemma ExitProcesses(procs: seq<Process>, aborted: bool, p: nat, q: nat, r: Process, n: Process)
    requires ProcessesOk(procs, aborted)
    requires p < |procs| && q < |procs| && p != q && ProcessOk(r, aborted) && ProcessOk(n, aborted)
    ensures ProcessesOk(procs[q := n][p := r], aborted)
    ensures Total(procs[q := n][p := r], Holds) ==
            Total(procs, Holds) - Holds(procs[q]) + Holds(n) - Holds(procs[p]) + Holds(r)
  {
    TotalUpdate(procs, Holds, q, n);
    TotalUpdate(procs[q := n], Holds, p, r);
  }

  lemma EndedOk(r: Process, aborted: bool)
    requires ProcessOk(r, aborted) && r.at.Outside? && MayExit(r)
    ensures ProcessOk(Ended(r), aborted) && Holds(Ended(r)) == 0 <= Holds(r)
    ensures !aborted ==> Holds(r) == 0
  {
  }

  lemma VacatedOk(r: Process, aborted: bool, q: nat)
    requires ProcessOk(r, aborted) && q in r.subs
    ensures ProcessOk(Vacated(r, q), aborted) && Holds(Vacated(r, q)) == Holds(r)
  {
    assert |r.subs| == |r.subs - {q}| + 1;
  }

  lemma ExitStep(tokens: nat, s: System, q: nat)
    requires Inv(tokens, s) && Enabled(s, Exit(q)) && s.procs[q].parent.Some?
    ensures Inv(tokens, Do(s, Exit(q)))
  {
    var s' := Do(s, Exit(q));
    var p := s.procs[q].parent.value;
    assert Seated(s.procs, q) && q in s.procs[p].subs;
    assert ProcessOk(s.procs[p], s.aborted) && ProcessOk(s.procs[q], s.aborted);
    var r, n := Vacated(s.procs[p], q), Ended(s.procs[q]);
    EndedOk(s.procs[q], s.aborted);
    VacatedOk(s.procs[p], s.aborted, q);
    ExitTree(s.procs, p, q);
    ExitProcesses(s.procs, s.aborted, p, q, r, n);
    assert s'.procs == s.procs[q := n][p := r];
    StopStays(s, s');
  }

  lemma RootExitStep(tokens: nat, s: System, q: nat)
    requires Inv(tokens, s) && Enabled(s, Exit(q)) && s.procs[q].parent.None?
    ensures Inv(tokens, Do(s, Exit(q)))
  {
    var s' := Do(s, Exit(q));
    assert ProcessOk(s.procs[q], s.aborted);
    EndedOk(s.procs[q], s.aborted);
    RootExitTree(s.procs, q);
    TotalUpdate(s.procs, Holds, q, Ended(s.procs[q]));
    assert s'.procs == s.procs[q := Ended(s.procs[q])];
    StopStays(s, s');
  }

  lemma StepInv(tokens: nat, s: System, a: Step)
    requires Inv(tokens, s) && Enabled(s, a)
    ensures Inv(tokens, Do(s, a))
  {
    match a
    case Withdraw(p) => WithdrawStep(tokens, s, p);
    case Drain(p) => DrainStep(tokens, s, p);
    case Stop(p) => StopStep(tokens, s, p);
    case Fork(p, maxJobs) => ForkStep(tokens, s, p, maxJobs);
    case Exit(q) => if s.procs[q].parent.Some? { ExitStep(tokens, s, q); } else { RootExitStep(tokens, s, q); }
    case _ => QuietStep(tokens, s, a);
  }

  lemma {:induction false} RunInv(tokens: nat, maxJobs: nat, run: seq<System>, i: nat)
    requires tokens >= 1 && IsRun(tokens, maxJobs, run) && i < |run|
    ensures Inv(tokens, run[i])
  {
    if i == 0 {
      InitInv(tokens, maxJobs);
    } else {
      RunInv(tokens, maxJobs, run, i - 1);
      assert Next(run[i - 1], run[i - 1 + 1]);
      var a :| Enabled(run[i - 1], a) && run[i] == Do(run[i - 1], a);
      StepInv(tokens, run[i - 1], a);
    }
  }

  // ---------------------------------------------------------------- the theorems

  // The tokens in the pipe, those in flight and those withdrawn add up to one less than the
  // job limit, as long as no process aborts.
  lemma TokensAreConserved(tokens: nat, maxJobs: nat, run: seq<System>, i: nat)
    requires tokens >= 1 && IsRun(tokens, maxJobs, run) && i < |run| && !run[i].aborted
    ensures |run[i].pipe| + Total(run[i].procs, Holds) == tokens - 1
  {
    RunInv(tokens, maxJobs, run, i);
    PlusOnly(run[i].pipe);
  }

  lemma {:induction false} PlusOnly(pipe: seq<Token>)
    requires forall t :: t in pipe ==> t.Plus?
    ensures multiset(pipe)[Plus] == |pipe|
  {
    if pipe != [] {
      assert pipe[0] in pipe;
      PipeHead(pipe);
      PlusOnly(pipe[1..]);
    }
  }

  // At most as many jobs run at once, over all processes, as the root make was given tokens,
  // not counting what exited makes have left running. While no process aborts, no make leaves
  // anything running.
  lemma JobLimit(tokens: nat, maxJobs: nat, run: seq<System>, i: nat)
    requires tokens >= 1 && IsRun(tokens, maxJobs, run) && i < |run|
    ensures Total(run[i].procs, Leaves) <= tokens + Total(run[i].procs, Orphans)
    ensures !run[i].aborted ==> Total(run[i].procs, Orphans) == 0 && Total(run[i].procs, Leaves) <= tokens
  {
    RunInv(tokens, maxJobs, run, i);
    var s := run[i];
    forall k | 0 <= k < |s.procs|
      ensures Leaves(s.procs[k]) <= Bound(s.procs[k]) && (!s.aborted ==> Orphans(s.procs[k]) == 0)
    {
      assert ProcessOk(s.procs[k], s.aborted);
    }
    TotalMonotone(s.procs, Leaves, Bound);
    TotalBound(s.procs);
    if !s.aborted {
      TotalZero(s.procs, Orphans);
    }
  }

  lemma {:induction false} TotalZero<T>(procs: seq<T>, f: T -> int)
    requires forall k :: 0 <= k < |procs| ==> f(procs[k]) == 0
    ensures Total(procs, f) == 0
  {
    if procs != [] {
      TotalZero(procs[..|procs| - 1], f);
    }
  }

  // A process runs at most its own job and one per withdrawn token, some of which are makes.
  function Bound(r: Process): int { Holds(r) + Living(r) + Orphans(r) - SubMakes(r) }

  lemma {:induction false} TotalBound(procs: seq<Process>)
    ensures Total(procs, Bound) ==
            Total(procs, Holds) + Total(procs, Living) + Total(procs, Orphans) - Total(procs, SubMakes)
  {
    if procs != [] {
      TotalBound(procs[..|procs| - 1]);
    }
  }

  // jobTokensRunning is the number of running jobs plus the token in hand. It never falls
  // below zero, so there is no "token botch", and whenever a job is to be started one of the
  // maxJobs slots of the job table is vacant.
  lemma JobAccounting(tokens: nat, maxJobs: nat, run: seq<System>, i: nat, p: nat)
    requires tokens >= 1 && IsRun(tokens, maxJobs, run) && i < |run| && p < |run[i].procs|
    ensures var r := run[i].procs[p];
            && 0 <= r.running
            && (!r.at.Exited? ==> r.running == r.leaves + |r.subs| + InHand(r))
            && (Enabled(run[i], StartJob(p)) ==> r.leaves + |r.subs| < r.maxJobs)
  {
    RunInv(tokens, maxJobs, run, i);
    assert ProcessOk(run[i].procs[p], run[i].aborted);
  }

  // Once an abort token was deposited, in every later state the pipe holds one or some process
  // is between flushing the pipe and writing one.
  lemma {:induction false} AbortTokenStays(tokens: nat, maxJobs: nat, run: seq<System>, i: nat, j: nat)
    requires tokens >= 1 && IsRun(tokens, maxJobs, run) && i <= j < |run| && run[i].stopped
    ensures run[j].stopped
    ensures || (exists t :: t in run[j].pipe && !t.Plus?)
            || (exists p :: 0 <= p < |run[j].procs| && Flushing(run[j].procs[p]) && !run[j].procs[p].at.tok.Plus?)
  {
    RunInv(tokens, maxJobs, run, j);
    StoppedStays(tokens, maxJobs, run, i, j);
    if !exists t :: t in run[j].pipe && !t.Plus? {
      var p :| 0 <= p < |run[j].procs| && Flushing(run[j].procs[p]);
      assert ProcessOk(run[j].procs[p], run[j].aborted);
    }
  }

  lemma {:induction false} StoppedStays(tokens: nat, maxJobs: nat, run: seq<System>, i: nat, j: nat)
    requires tokens >= 1 && IsRun(tokens, maxJobs, run) && i <= j < |run| && run[i].stopped
    ensures run[j].stopped
    decreases j - i
  {
    if i < j {
      assert Next(run[i], run[i + 1]);
      StoppedStays(tokens, maxJobs, run, i + 1, j);
    }
  }

  // A process that has read an abort token, or has ended.
  predicate Doomed(r: Process) { r.doomed || r.at.Exited? }

  function Jobs(r: Process): int { r.leaves + |r.subs| }

  lemma DoomedExit(tokens: nat, s: System, q: nat, p: nat)
    requires Inv(tokens, s) && Enabled(s, Exit(q)) && p < |s.procs| && Doomed(s.procs[p])
    ensures var r := Do(s, Exit(q)).procs[p]; Doomed(r) && Jobs(r) <= Jobs(s.procs[p])
  {
    assert Seated(s.procs, q);
    if s.procs[q].parent == Some(p) {
      assert |s.procs[p].subs| == |s.procs[p].subs - {q}| + 1;
    }
  }

  lemma DoomedFork(tokens: nat, s: System, a: Step, p: nat)
    requires Inv(tokens, s) && a.Fork? && Enabled(s, a) && p < |s.procs| && Doomed(s.procs[p])
    ensures var r := Do(s, a).procs[p]; Doomed(r) && Jobs(r) <= Jobs(s.procs[p])
  {
    assert Seated(s.procs, p);
    assert |s.procs| !in s.procs[p].subs;
  }

  lemma DoomedStep(tokens: nat, s: System, a: Step, p: nat)
    requires Inv(tokens, s) && Enabled(s, a) && p < |s.procs| && Doomed(s.procs[p])
    ensures p < |Do(s, a).procs| && Doomed(Do(s, a).procs[p])
    ensures Jobs(Do(s, a).procs[p]) <= Jobs(s.procs[p])
  {
    match a
    case Fork(_, _) => DoomedFork(tokens, s, a, p);
    case Exit(q) => DoomedExit(tokens, s, q, p);
    case _ =>
  }

  // Such a process starts no further job: from then on its jobs only become fewer.
  lemma {:induction false} DoomedStartsNothing(tokens: nat, maxJobs: nat, run: seq<System>, i: nat, j: nat, p: nat)
    requires tokens >= 1 && IsRun(tokens, maxJobs, run) && i <= j < |run|
    requires p < |run[i].procs| && Doomed(run[i].procs[p])
    ensures p < |run[j].procs| && Doomed(run[j].procs[p]) && !Enabled(run[j], StartJob(p))
    ensures Jobs(run[j].procs[p]) <= Jobs(run[i].procs[p])
    decreases j - i
  {
    RunInv(tokens, maxJobs, run, i);
    assert ProcessOk(run[i].procs[p], run[i].aborted);
    if i < j {
      assert Next(run[i], run[i + 1]);
      var a :| Enabled(run[i], a) && run[i + 1] == Do(run[i], a);
      DoomedStep(tokens, run[i], a, p);
      DoomedStartsNothing(tokens, maxJobs, run, i + 1, j, p);
    }
  }

  // A make that runs no job obtains a token whatever the pipe holds, unless the next token
  // tells it to abort, and the pipe then holds as many tokens as before.
  lemma IdleMakeObtainsToken(s: System, p: nat)
    requires Idle(s, p) && !s.procs[p].held && !s.procs[p].doomed && s.procs[p].running == 0
    requires s.procs[p].aborting.ABORT_NONE? && s.procs[p].maxJobs > 0
    requires s.pipe != [] ==> s.pipe[0].Plus?
    ensures Enabled(s, Withdraw(p))
    ensures var s1 := Do(s, Withdraw(p));
            if s.pipe == [] then s1.procs[p].held && s1.procs[p].running == 1 && s1.pipe == []
            else
              && Enabled(s1, GiveBack(p))
              && var s2 := Do(s1, GiveBack(p));
              && s2.procs[p].held && s2.procs[p].running == 1 && multiset(s2.pipe) == multiset(s.pipe)
  {
    if s.pipe != [] {
      PipeHead(s.pipe);
    }
  }

  // Whether JobFinish gives back a token, from the kind of job, its exit status and the abort
  // state: every job but the special ones gives back the one token it was started with.
  function ReturnsToken(special: bool, failed: bool, aborting: Abort): (returned: bool)
    ensures returned <==> !special
  {
    var stopping := aborting.ABORT_ERROR? || aborting.ABORT_INTERRUPT?;
    var early := !special && (failed || stopping);
    if !stopping && !failed then early || !special else early
  }

  // ---------------------------------------------------------------- as many jobs as allowed

  ghost predicate Reachable(tokens: nat, maxJobs: nat, s: System)
    requires tokens >= 1
  {
    exists run :: IsRun(tokens, maxJobs, run) && run[|run| - 1] == s
  }

  lemma Go(tokens: nat, maxJobs: nat, s: System, a: Step, s': System)
    requires tokens >= 1 && Reachable(tokens, maxJobs, s) && Enabled(s, a) && Do(s, a) == s'
    ensures Reachable(tokens, maxJobs, s')
  {
    var run :| IsRun(tokens, maxJobs, run) && run[|run| - 1] == s;
    var more := run + [s'];
    forall i | 0 <= i < |more| - 1
      ensures Next(more[i], more[i + 1])
    {
      if i < |run| - 1 {
        assert Next(run[i], run[i + 1]);
      }
    }
    assert IsRun(tokens, maxJobs, more) && more[|more| - 1] == s';
  }

  // The root make alone, with k jobs.
  function RootWith(tokens: nat, maxJobs: nat, k: nat): System
    requires k <= tokens
  {
    System(seq(tokens - k, _ => Plus), [Process(None, maxJobs, k, false, k, {}, ABORT_NONE, false, Outside)], false, false)
  }

  // The limit is met: as many jobs run at once as there are tokens, and as the make may start.
  lemma {:induction false} LimitIsReached(tokens: nat, maxJobs: nat, k: nat)
    requires 1 <= k <= tokens && k <= maxJobs
    ensures Reachable(tokens, maxJobs, RootWith(tokens, maxJobs, k)) && Total(RootWith(tokens, maxJobs, k).procs, Leaves) == k
  {
    var s := RootWith(tokens, maxJobs, k);
    assert s.procs == [] + [s.procs[0]];
    TotalAppend([], Leaves, s.procs[0]);
    if k == 1 {
      FirstJob(tokens, maxJobs);
    } else {
      LimitIsReached(tokens, maxJobs, k - 1);
      var s0 := RootWith(tokens, maxJobs, k - 1);
      var s1 := System(s.pipe, [Process(None, maxJobs, k, true, k - 1, {}, ABORT_NONE, false, Outside)], false, false);
      assert s0.pipe[1..] == s.pipe;
      Go(tokens, maxJobs, s0, Withdraw(0), s1);
      Go(tokens, maxJobs, s1, StartJob(0), s);
    }
  }

  // The first job takes no token from the pipe: one that was read is written back.
  lemma FirstJob(tokens: nat, maxJobs: nat)
    requires tokens >= 1 && maxJobs >= 1
    ensures Reachable(tokens, maxJobs, RootWith(tokens, maxJobs, 1))
  {
    var s0 := Init(tokens, maxJobs);
    assert IsRun(tokens, maxJobs, [s0]) && [s0][|[s0]| - 1] == s0;
    var s2 := System(s0.pipe, [Process(None, maxJobs, 1, true, 0, {}, ABORT_NONE, false, Outside)], false, false);
    if tokens == 1 {
      Go(tokens, maxJobs, s0, Withdraw(0), s2);
    } else {
      var s1 := System(s0.pipe[1..], [Process(None, maxJobs, 0, false, 0, {}, ABORT_NONE, false, GivingBack)], false, false);
      Go(tokens, maxJobs, s0, Withdraw(0), s1);
      assert s0.pipe[1..] + [Plus] == s0.pipe;
      Go(tokens, maxJobs, s1, GiveBack(0), s2);
    }
    Go(tokens, maxJobs, s2, StartJob(0), RootWith(tokens, maxJobs, 1));
  }

  // ---------------------------------------------------------------- one job too many

  // The root make, and a make in one of its jobs, with at most three jobs each.
  function Root(running: int, held: bool, leaves: nat, subs: set<nat>, at: Point): Process {
    Process(None, 3, running, held, leaves, subs, ABORT_NONE, false, at)
  }

  function Sub(running: int, held: bool, leaves: nat, aborting: Abort, doomed: bool, at: Point): Process {
    Process(Some(0), 3, running, held, leaves, {}, aborting, doomed, at)
  }

  function Ready(): Process { Sub(0, false, 0, ABORT_NONE, false, Outside) }

  function Holding(): Process { Sub(1, true, 0, ABORT_NONE, false, Outside) }

  function Busy(): Process { Sub(1, false, 1, ABORT_NONE, false, Outside) }

  function Calm(pipe: seq<Token>, procs: seq<Process>): System { System(pipe, procs, false, false) }

  lemma FirstSubMake()
    ensures Reachable(3, 3, Calm([Plus, Plus], [Root(1, false, 0, {1}, Outside), Ready()]))
  {
    var s0 := Init(3, 3);
    assert s0 == Calm([Plus, Plus], [Root(0, false, 0, {}, Outside)]);
    assert IsRun(3, 3, [s0]) && [s0][|[s0]| - 1] == s0;
    var s1 := Calm([Plus], [Root(0, false, 0, {}, GivingBack)]);
    Go(3, 3, s0, Withdraw(0), s1);
    var s2 := Calm([Plus, Plus], [Root(1, true, 0, {}, Outside)]);
    Go(3, 3, s1, GiveBack(0), s2);
    StartSub([Plus, Plus], 1, [], {}, {1});
  }

  // The root turns the token in its hand into a job that is a make.
  lemma StartSub(pipe: seq<Token>, running: nat, subs: seq<Process>, before: set<nat>, after: set<nat>)
    requires Reachable(3, 3, Calm(pipe, [Root(running, true, 0, before, Outside)] + subs))
    requires after == before + {|subs| + 1}
    ensures Reachable(3, 3, Calm(pipe, [Root(running, false, 0, after, Outside)] + (subs + [Ready()])))
  {
    var s0 := Calm(pipe, [Root(running, true, 0, before, Outside)] + subs);
    var s1 := Calm(pipe, [Root(running, false, 1, before, Outside)] + subs);
    assert s1.procs == s0.procs[0 := s1.procs[0]];
    Go(3, 3, s0, StartJob(0), s1);
    var s2 := Calm(pipe, [Root(running, false, 0, after, Outside)] + (subs + [Ready()]));
    assert s2.procs == s1.procs[0 := s2.procs[0]] + [Ready()];
    Go(3, 3, s1, Fork(0, 3), s2);
  }

  // An idle make takes its own token and starts a job.
  lemma StartLeaf(procs: seq<Process>, k: nat)
    requires k < |procs| && procs[k] == Ready() && Reachable(3, 3, Calm([], procs))
    ensures Reachable(3, 3, Calm([], procs[k := Busy()]))
  {
    var s0, s1 := Calm([], procs), Calm([], procs[k := Holding()]);
    Go(3, 3, s0, Withdraw(k), s1);
    assert procs[k := Holding()][k := Busy()] == procs[k := Busy()];
    Go(3, 3, s1, StartJob(k), Calm([], procs[k := Busy()]));
  }

  lemma ThreeSubMakes()
    ensures Reachable(3, 3, Calm([], [Root(3, false, 0, {1, 2, 3}, Outside), Ready(), Ready(), Ready()]))
  {
    FirstSubMake();
    var s4 := Calm([Plus, Plus], [Root(1, false, 0, {1}, Outside), Ready()]);
    var s5 := Calm([Plus], [Root(2, true, 0, {1}, Outside)] + [Ready()]);
    Go(3, 3, s4, Withdraw(0), s5);
    StartSub([Plus], 2, [Ready()], {1}, {1, 2});
    var s6 := Calm([Plus], [Root(2, false, 0, {1, 2}, Outside)] + ([Ready()] + [Ready()]));
    var s7 := Calm([], [Root(3, true, 0, {1, 2}, Outside)] + [Ready(), Ready()]);
    Go(3, 3, s6, Withdraw(0), s7);
    StartSub([], 3, [Ready(), Ready()], {1, 2}, {1, 2, 3});
    assert [Root(3, false, 0, {1, 2, 3}, Outside)] + ([Ready(), Ready()] + [Ready()])
        == [Root(3, false, 0, {1, 2, 3}, Outside), Ready(), Ready(), Ready()];
  }

  lemma ThreeJobs()
    ensures Reachable(3, 3, Calm([], [Root(3, false, 0, {1, 2, 3}, Outside), Busy(), Busy(), Busy()]))
  {
    ThreeSubMakes();
    var r := Root(3, false, 0, {1, 2, 3}, Outside);
    StartLeaf([r, Ready(), Ready(), Ready()], 1);
    assert [r, Ready(), Ready(), Ready()][1 := Busy()] == [r, Busy(), Ready(), Ready()];
    StartLeaf([r, Busy(), Ready(), Ready()], 2);
    assert [r, Busy(), Ready(), Ready()][2 := Busy()] == [r, Busy(), Busy(), Ready()];
    StartLeaf([r, Busy(), Busy(), Ready()], 3);
    assert [r, Busy(), Busy(), Ready()][3 := Busy()] == [r, Busy(), Busy(), Busy()];
  }

  function Aborting(pipe: seq<Token>, procs: seq<Process>): System { System(pipe, procs, true, true) }

  // A make that is about to write an abort token into the empty pipe does so.
  lemma WriteStopper(procs: seq<Process>, k: nat, stopped: bool)
    requires k < |procs| && procs[k].at == Draining(Error) && Reachable(3, 3, System([], procs, true, stopped))
    ensures Reachable(3, 3, Aborting([Error], procs[k := procs[k].(at := Outside)]))
  {
    var r := procs[k];
    var s0, s1 := System([], procs, true, stopped), System([], procs[k := r.(at := Stopping(Error))], true, stopped);
    Go(3, 3, s0, Drain(k), s1);
    var s2 := Aborting([Error], procs[k := r.(at := Outside)]);
    assert s1.procs[k := r.(at := Outside)] == s2.procs && [] + [Error] == [Error];
    Go(3, 3, s1, Stop(k), s2);
  }

  // A sub-make of the root ends.
  lemma SubExits(pipe: seq<Token>, procs: seq<Process>, k: nat, root: Process)
    requires 0 < k < |procs| && procs[k].parent == Some(0) && procs[k].at.Outside? && MayExit(procs[k])
    requires Reachable(3, 3, Aborting(pipe, procs)) && root == Vacated(procs[0], k)
    ensures Reachable(3, 3, Aborting(pipe, procs[k := Ended(procs[k])][0 := root]))
  {
    Go(3, 3, Aborting(pipe, procs), Exit(k), Aborting(pipe, procs[k := Ended(procs[k])][0 := root]));
  }

  function Failed(): Process { Sub(0, false, 0, ABORT_ERROR, false, Exited) }

  function Left(): Process { Sub(0, false, 1, ABORT_NONE, true, Exited) }

  function Reading(): Process { Sub(1, false, 1, ABORT_NONE, true, Draining(Error)) }

  // The second sub-make fails, deposits an abort token and ends.
  lemma SecondFails()
    ensures Reachable(3, 3, Aborting([Error], [Root(3, false, 1, {1, 3}, Outside), Busy(), Failed(), Busy()]))
  {
    ThreeJobs();
    var r, f := Root(3, false, 0, {1, 2, 3}, Outside), Sub(0, false, 0, ABORT_ERROR, false, Draining(Error));
    var s0 := Calm([], [r, Busy(), Busy(), Busy()]);
    var procs := [r, Busy(), f, Busy()];
    assert s0.procs[2 := f] == procs;
    Go(3, 3, s0, EndJob(2, ABORT_ERROR), System([], procs, true, false));
    WriteStopper(procs, 2, false);
    var after := procs[2 := f.(at := Outside)];
    assert {1, 2, 3} - {2} == {1, 3};
    SubExits([Error], after, 2, Root(3, false, 1, {1, 3}, Outside));
    assert after[2 := Failed()][0 := Root(3, false, 1, {1, 3}, Outside)]
        == [Root(3, false, 1, {1, 3}, Outside), Busy(), Failed(), Busy()];
  }

  // The first reads it, puts it back and ends at once; its job goes on.
  lemma FirstLeaves()
    ensures Reachable(3, 3, Aborting([Error], [Root(3, false, 2, {3}, Outside), Left(), Failed(), Busy()]))
  {
    SecondFails();
    var r := Root(3, false, 1, {1, 3}, Outside);
    var s0 := Aborting([Error], [r, Busy(), Failed(), Busy()]);
    var procs := [r, Reading(), Failed(), Busy()];
    assert s0.procs[1 := Reading()] == procs;
    Go(3, 3, s0, Withdraw(1), Aborting([], procs));
    WriteStopper(procs, 1, true);
    var after := procs[1 := Reading().(at := Outside)];
    assert {1, 3} - {1} == {3};
    SubExits([Error], after, 1, Root(3, false, 2, {3}, Outside));
    assert after[1 := Left()][0 := Root(3, false, 2, {3}, Outside)]
        == [Root(3, false, 2, {3}, Outside), Left(), Failed(), Busy()];
  }

  // The root reaps a sub-make and returns its token.
  lemma RootReaps(pipe: seq<Token>, running: nat, leaves: nat, rest: seq<Process>)
    requires running > 1 && leaves > 0
    requires Reachable(3, 3, Aborting(pipe, [Root(running, false, leaves, {3}, Outside)] + rest))
    ensures Reachable(3, 3, Aborting(pipe + [Plus], [Root(running - 1, false, leaves - 1, {3}, Outside)] + rest))
  {
    var s0 := Aborting(pipe, [Root(running, false, leaves, {3}, Outside)] + rest);
    var s1 := Aborting(pipe, [Root(running - 1, false, leaves - 1, {3}, Depositing)] + rest);
    assert s1.procs == s0.procs[0 := s1.procs[0]];
    Go(3, 3, s0, EndJob(0, ABORT_NONE), s1);
    var s2 := Aborting(pipe + [Plus], [Root(running - 1, false, leaves - 1, {3}, Outside)] + rest);
    assert s2.procs == s1.procs[0 := s2.procs[0]];
    Go(3, 3, s1, Deposit(0), s2);
  }

  // The root withdraws a token and starts a job.
  lemma RootStarts(pipe: seq<Token>, running: nat, leaves: nat, rest: seq<Process>)
    requires 0 < running < 3
    requires Reachable(3, 3, Aborting([Plus] + pipe, [Root(running, false, leaves, {3}, Outside)] + rest))
    ensures Reachable(3, 3, Aborting(pipe, [Root(running + 1, false, leaves + 1, {3}, Outside)] + rest))
  {
    var s0 := Aborting([Plus] + pipe, [Root(running, false, leaves, {3}, Outside)] + rest);
    var s1 := Aborting(pipe, [Root(running + 1, true, leaves, {3}, Outside)] + rest);
    assert s1.procs == s0.procs[0 := s1.procs[0]] && s0.pipe[1..] == pipe;
    Go(3, 3, s0, Withdraw(0), s1);
    var s2 := Aborting(pipe, [Root(running + 1, false, leaves + 1, {3}, Outside)] + rest);
    assert s2.procs == s1.procs[0 := s2.procs[0]];
    Go(3, 3, s1, StartJob(0), s2);
  }

  // While the third has read the abort token and not yet put it back, the root, which goes on
  // after failures, reuses the two seats: four jobs run, with three tokens.
  lemma OneJobTooMany()
    ensures exists s :: Reachable(3, 3, s) && Total(s.procs, Leaves) == 4
  {
    FirstLeaves();
    var rest := [Left(), Failed(), Reading()];
    var s0 := Aborting([Error], [Root(3, false, 2, {3}, Outside), Left(), Failed(), Busy()]);
    var s1 := Aborting([], [Root(3, false, 2, {3}, Outside)] + rest);
    assert s1.procs == s0.procs[3 := Reading()];
    Go(3, 3, s0, Withdraw(3), s1);
    RootReaps([], 3, 2, rest);
    RootReaps([] + [Plus], 2, 1, rest);
    assert [] + [Plus] + [Plus] == [Plus] + [Plus];
    RootStarts([Plus], 1, 0, rest);
    assert [Plus] == [Plus] + [];
    RootStarts([], 2, 1, rest);
    var s := Aborting([], [Root(3, false, 2, {3}, Outside)] + rest);
    FourLeaves(Root(3, false, 2, {3}, Outside));
    assert s.procs == [Root(3, false, 2, {3}, Outside), Left(), Failed(), Reading()];
  }

  lemma FourLeaves(r: Process)
    requires r.leaves == 2
    ensures Total([r, Left(), Failed(), Reading()], Leaves) == 4
  {
    var none: seq<Process> := [];
    TotalAppend(none, Leaves, r);
    TotalAppend(none + [r], Leaves, Left());
    TotalAppend(none + [r] + [Left()], Leaves, Failed());
    TotalAppend(none + [r] + [Left()] + [Failed()], Leaves, Reading());
    assert [r, Left(), Failed(), Reading()] == none + [r] + [Left()] + [Failed()] + [Reading()];
  }
}
