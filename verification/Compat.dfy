/**
The compat-mode build of compat.c: the recursion that makes one target after the other,
marking the nodes of the graph as it goes.
*/
module Compat {
  import opened Wrappers
  import opened CompatState

  class CompatBuild {
    const g: Graph
    const opts: Options
    var made: seq<Made>
    var remake: seq<bool>
    var runs: seq<nat>      // the nodes whose commands have been run, in order
    var exited: bool        // whether the process has given up
    ghost var start: seq<nat>
    ghost var finish: seq<nat>
    ghost var clock: nat
    ghost var looped: set<nat>

    constructor (g: Graph, opts: Options, ghost reach: set<nat>)
      requires WellFormed(g) && ClosedSet(g, reach)
      ensures this.g == g && this.opts == opts
      ensures Valid(reach, []) && Sound() && !exited && runs == [] && forall n :: 0 <= n < |g| ==> made[n] == UNMADE
    {
      this.g, this.opts, exited, runs := g, opts, false, [];
      made, remake := seq(|g|, i => UNMADE), seq(|g|, i => false);
      start, finish, clock, looped := seq(|g|, i => 0), seq(|g|, i => 0), 0, {};
    }

    ghost function Now(): State
      reads this
    {
      State(made, remake, runs, start, finish, clock, looped)
    }

    ghost predicate Valid(reach: set<nat>, path: seq<nat>)
      reads this
    {
      Inv(g, reach, Now(), path) && ClosedSet(g, reach) && FlagsOk(opts, made, runs, path)
    }

    // What holds also after the process has given up: no commands were run before their time or
    // against the flags, and there was a reason.
    ghost predicate Sound()
      reads this
    {
      Safe(g, made, runs) && Allowed(opts, runs) && (exited ==> HasReason(opts, made))
    }

    // What a call leaves behind for its caller.
    twostate predicate Proceeds(reach: set<nat>, path: seq<nat>)
      reads this
    {
      && Sound()
      && Unmade(made) <= Unmade(old(made))
      && (!exited ==> Valid(reach, path) && Extends(g, old(Now()), Now(), path))
    }

    method RunCommands(gn: nat)
      requires gn < |g| && |made| == |g|
      requires !g[gn].isMade ==> DepsSettled(g, made, gn)
      modifies this`runs
      ensures runs == old(runs) + [gn]
    {
      runs := runs + [gn];
    }

    // What becomes of a node when everything it depends on has been made: whether it is out of
    // date, and whether its commands are missing, run or replaced by a touch. With -q, an
    // out-of-date node ends the process.
    method Examine(gn: nat) returns (m: Made, ran: bool, quit: bool)
      requires gn < |g| && |made| == |g|
      requires !g[gn].isMade ==> DepsSettled(g, made, gn)
      modifies this`runs
      ensures quit == Quits(opts, gn) && ran == Runs(opts, gn) && (!quit ==> m == MadeAs(opts, gn))
      ensures runs == if ran then old(runs) + [gn] else old(runs)
    {
      m, ran, quit := MADE, false, false;
      var fate := opts.fate(gn);
      if !fate.outOfDate {
        m := UPTODATE;
        return;
      }
      if opts.query && gn != opts.endNode {
        quit := true;
        return;
      }
      if fate.hasCommands {
        if !opts.touch || gn in opts.recursive {
          ran := true;
          RunCommands(gn);
          if !fate.succeeds {
            m := ERROR;
          }
        }
      } else {
        m := ERROR;
      }
    }

    // The middle of MakeUnmade, after the children: a node that was told so is given up, any
    // other is examined.
    method Decide(gn: nat, pgn: nat, ghost reach: set<nat>, ghost path: seq<nat>) returns (m: Made, ran: bool)
      requires !exited && Sound() && Valid(reach, path + [gn]) && gn < |g| && pgn < |g|
      requires path != [] ==> pgn == path[|path| - 1]
      requires !g[gn].isMade ==> forall d: nat :: d < |g| && IsDep(g, gn, d) ==> Seen(g, Now(), path + [gn], d)
      modifies this`runs, this`exited
      ensures Allowed(opts, runs) && (exited ==> Sound() && Quits(opts, gn))
      ensures !exited ==>
                && LeavePre(g, reach, old(Now()), path, gn, m, pgn) && (ran ==> m == MADE || m == ERROR)
                && runs == (if ran then old(runs) + [gn] else old(runs))
                && (if m == ABORTED then !ran else m == MadeAs(opts, gn) && !Quits(opts, gn) && ran == Runs(opts, gn))
    {
      m, ran := ABORTED, false;
      if remake[gn] {
        if !g[gn].isMade {
          ReadyToRun(g, reach, Now(), path, gn);
        }
        var quit;
        m, ran, quit := Examine(gn);
        if ran {
          AllowedMore(opts, old(runs), gn);
        }
        if quit {
          InvIsSafe(g, reach, old(Now()), path + [gn]);
          TopIsBeingMade(g, reach, old(Now()), path, gn);
          exited := true;
        }
      }
    }

    // The end of MakeUnmade. Without -k, a failure ends the process.
    method FinishNode(gn: nat, pgn: nat, ghost reach: set<nat>, ghost path: seq<nat>)
      requires !exited && Sound() && Valid(reach, path + [gn]) && gn < |g| && pgn < |g|
      requires path != [] ==> pgn == path[|path| - 1]
      requires !g[gn].isMade ==> forall d: nat :: d < |g| && IsDep(g, gn, d) ==> Seen(g, Now(), path + [gn], d)
      modifies this
      ensures Sound() && Unmade(made) <= Unmade(old(made))
      ensures exited ==> Quits(opts, gn) || (!opts.keepgoing && made[gn].ERROR?)
      ensures !exited ==>
                && Valid(reach, path) && !made[gn].UNMADE?
                && (path != [] ==> Seen(g, Now(), path, gn))
                && exists m: Made, ran: bool :: !m.UNMADE? && Now() == Done(old(Now()), gn, m, pgn, ran)
    {
      ghost var st := Now();
      var m, ran := Decide(gn, pgn, reach, path);
      if exited {
        return;
      }
      DoneStep(g, reach, st, path, gn, m, pgn, ran);
      TopNotBelow(g, reach, st, path, gn);
      FlagsLeave(opts, st.made, st.runs, path, gn, m, ran);
      made, finish, clock := made[gn := m], finish[gn := clock], clock + 1;
      if m == ERROR && !opts.keepgoing {
        exited := true;
        return;
      }
      if m == ERROR || m == ABORTED {
        remake := remake[pgn := false];
      }
      assert Now() == Done(st, gn, m, pgn, ran);
    }

    method MakeUnmade(gn: nat, pgn: nat, ghost reach: set<nat>, ghost path: seq<nat>)
      requires !exited && Sound() && Valid(reach, path) && Asks(g, reach, path, pgn, gn) && made[gn].UNMADE?
      modifies this
      ensures Proceeds(reach, path)
      ensures !exited ==> !made[gn].UNMADE? && (path != [] ==> Seen(g, Now(), path, gn))
      decreases |Unmade(made)|, 0, 0
    {
      ghost var st0 := Now();
      EnterStep(g, reach, st0, path, gn);
      remake, made := remake[gn := true], made[gn := BEINGMADE];
      start, clock := start[gn := clock], clock + 1;
      assert Now() == Enter(st0, gn);
      UnmadeLess(st0.made, made, gn);
      FlagsEnter(opts, st0.made, runs, path, gn);
      InvIsSafe(g, reach, Now(), path + [gn]);
      AsksChildren(g, reach, path, gn);

      MakeNodes(g[gn].children, gn, reach, path + [gn]);
      if exited {
        return;
      }
      ghost var st1 := Now();
      ExtendsBelow(g, reach, st0, path, gn, st1);
      if !g[gn].isMade {
        AllDepsSeen(g, st1, path + [gn], gn);
      }
      FinishNode(gn, pgn, reach, path);
      if !exited {
        ghost var m: Made, ran: bool :| !m.UNMADE? && Now() == Done(st1, gn, m, pgn, ran);
        NotOnPath(g, reach, st0, path, gn);
        AroundNode(g, st0, st1, path, gn, m, pgn, ran);
      }
    }

    method MakeNodes(gnodes: seq<nat>, pgn: nat, ghost reach: set<nat>, ghost path: seq<nat>)
      requires !exited && Sound() && Valid(reach, path) && AsksAll(g, reach, path, pgn, gnodes)
      modifies this
      ensures Proceeds(reach, path)
      ensures !exited && path != [] && !g[pgn].isMade ==> SeenAll(g, Now(), path, gnodes)
      decreases |Unmade(made)|, ListLevel(g, gnodes), |gnodes|
    {
      InvIsSafe(g, reach, Now(), path);
      var i := 0;
      while i < |gnodes|
        invariant i <= |gnodes| && !exited
        invariant Proceeds(reach, path)
        invariant path != [] && !g[pgn].isMade ==> SeenAll(g, Now(), path, gnodes[..i])
      {
        ghost var st := Now();
        FewerUnmade(made, old(made));
        assert gnodes[i] in gnodes;
        CompatMake(gnodes[i], pgn, reach, path);
        if exited {
          return;
        }
        ExtendsTrans(g, old(Now()), st, Now(), path);
        if path != [] && !g[pgn].isMade {
          SeenAllKept(g, st, Now(), path, gnodes[..i]);
          SeenAllMore(g, Now(), path, gnodes, i);
        }
        i := i + 1;
      }
      assert gnodes[..i] == gnodes;
    }

    method MakeOther(gn: nat, pgn: nat, ghost reach: set<nat>, ghost path: seq<nat>)
      requires !exited && Sound() && Valid(reach, path) && Asks(g, reach, path, pgn, gn) && !made[gn].ERROR?
      modifies this
      ensures Proceeds(reach, path) && exited == old(exited) && made[gn].UNMADE? == old(made[gn].UNMADE?)
      ensures path != [] && !made[gn].UNMADE? ==> Seen(g, Now(), path, gn)
    {
      ghost var st := Now();
      InvIsSafe(g, reach, st, path);
      if made[gn] == BEINGMADE {
        ghost var i := PlaceOnPath(g, reach, st, path, gn);
        ReenterStep(g, reach, st, path, i);
        FlagsReenter(opts, made, runs, path, gn);
        made := made[gn := ERROR];
        remake := remake[pgn := false];
        looped := looped + (set x | x in path[i..]);
        assert Now() == Reentering(st, path, i);
        InvIsSafe(g, reach, Now(), path);
      } else if path != [] && made[gn] != UNMADE {
        MeetLeft(g, reach, st, path, gn);
      }
    }

    // The first half of Compat_Make: the node itself.
    method MakeNode(gn: nat, pgn: nat, ghost reach: set<nat>, ghost path: seq<nat>)
      requires !exited && Sound() && Valid(reach, path) && Asks(g, reach, path, pgn, gn)
      modifies this
      ensures Proceeds(reach, path)
      ensures !exited && (gn == pgn || !g[pgn].isMade) ==> !made[gn].UNMADE?
      ensures !exited && path != [] && !g[pgn].isMade ==> Seen(g, Now(), path, gn)
      decreases |Unmade(made)|, 0, 1
    {
      ghost var st := Now();
      if made[gn] == UNMADE && (gn == pgn || !g[pgn].isMade) {
        MakeUnmade(gn, pgn, reach, path);
      } else if made[gn] == ERROR {
        TellEither(g, reach, st, path, pgn, gn);
        remake := remake[pgn := false];
        InvIsSafe(g, reach, Now(), path);
      } else {
        MakeOther(gn, pgn, reach, path);
      }
    }

    method CompatMake(gn: nat, pgn: nat, ghost reach: set<nat>, ghost path: seq<nat>)
      requires !exited && Sound() && Valid(reach, path) && Asks(g, reach, path, pgn, gn)
      modifies this
      ensures Proceeds(reach, path)
      ensures !exited && (gn == pgn || !g[pgn].isMade) ==> !made[gn].UNMADE?
      ensures !exited && path != [] && !g[pgn].isMade ==> SeenAll(g, Now(), path, [gn])
      decreases |Unmade(made)|, NodeLevel(g, gn), 0
    {
      ghost var st := Now();
      MakeNode(gn, pgn, reach, path);
      if exited {
        return;
      }
      ghost var st1 := Now();
      FewerUnmade(made, old(made));
      AsksCohorts(g, reach, path, pgn, gn);
      MakeNodes(g[gn].cohorts, pgn, reach, path);
      if exited {
        return;
      }
      ExtendsTrans(g, st, st1, Now(), path);
      assert Kept(g, st1, Now(), path, gn);
      if path != [] && !g[pgn].isMade {
        SeenKept(g, st1, Now(), path, gn);
      }
    }

    predicate IsError(n: nat)
      requires n < |made|
      reads this
    {
      made[n] == ERROR || made[n] == ABORTED
    }

    predicate IsFailed(n: nat)
      reads this
    {
      n < |made| && IsError(n)
    }

    // The targets in order, after the .BEGIN node.
    method MakeTargets(begin: Option<nat>, targs: seq<nat>, ghost reach: set<nat>) returns (errorNode: Option<nat>)
      requires !exited && Sound() && Valid(reach, [])
      requires forall t :: t in targs ==> t < |g| && t in reach
      requires begin.Some? ==> begin.value < |g| && begin.value in reach
      modifies this
      ensures Safe(g, made, runs) && Allowed(opts, runs)
      ensures exited ==> HasReason(opts, made) || (begin.Some? && !opts.query && IsFailed(begin.value))
      ensures !exited && begin.Some? && !opts.query ==> !made[begin.value].UNMADE? && !IsError(begin.value)
      ensures !exited ==> Sound() && Valid(reach, []) && errorNode == FirstFailed(made, targs)
      ensures !exited ==> forall t :: t in targs ==> !made[t].UNMADE?
    {
      errorNode := None;
      if begin.Some? && !opts.query {
        CompatMake(begin.value, begin.value, reach, []);
        if exited {
          return;
        }
        if IsError(begin.value) {
          exited := true;
          return;
        }
      }
      var i := 0;
      while i < |targs|
        invariant i <= |targs| && !exited && Valid(reach, []) && Sound()
        invariant begin.Some? && !opts.query ==> !made[begin.value].UNMADE? && !IsError(begin.value)
        invariant forall t :: t in targs[..i] ==> t < |g| && !made[t].UNMADE?
        invariant errorNode == FirstFailed(made, targs[..i])
      {
        ghost var st := Now();
        var gn := targs[i];
        assert gn in targs;
        CompatMake(gn, gn, reach, []);
        if exited {
          return;
        }
        LeftStays(g, reach, st, Now(), targs[..i]);
        if begin.Some? && !opts.query {
          LeftStays(g, reach, st, Now(), [begin.value]);
        }
        FirstFailedSame(st.made, made, targs[..i]);
        assert targs[..i + 1] == targs[..i] + [gn];
        FirstFailedSnoc(made, targs[..i], gn);
        if IsError(gn) && errorNode.None? {
          errorNode := Some(gn);
        }
        i := i + 1;
      }
      assert targs[..i] == targs;
    }

    // Compat_MakeAll: the targets in order, then the .END node if none of them failed. Only what
    // the targets and .BEGIN lead to is entered; for .END, if it comes to that, also what it leads to.
    method CompatMakeAll(begin: Option<nat>, targs: seq<nat>, ghost reach: set<nat>, ghost more: set<nat>)
      returns (errorNode: Option<nat>)
      requires !exited && Sound() && Valid(reach, [])
      requires forall t :: t in targs ==> t < |g| && t in reach
      requires begin.Some? ==> begin.value < |g| && begin.value in reach
      requires opts.endNode < |g| && opts.endNode in more && ClosedSet(g, more) && reach <= more
      modifies this
      ensures Safe(g, made, runs) && Allowed(opts, runs)
      ensures exited ==> HasReason(opts, made) || (begin.Some? && !opts.query && IsFailed(begin.value))
      ensures !exited && begin.Some? && !opts.query ==> !made[begin.value].UNMADE? && !IsError(begin.value)
      ensures !exited ==> Outcome(g, more, Now()) && forall n :: 0 <= n < |g| ==> EndsAt(opts, made, runs, n)
      ensures !exited && FirstFailed(made, targs).Some? ==> Outcome(g, reach, Now())
      ensures !exited ==> errorNode == FirstFailed(made, targs + [opts.endNode])
      ensures !exited ==> forall t :: t in targs ==> !made[t].UNMADE?
      ensures !exited && errorNode.None? ==> forall t :: t in targs + [opts.endNode] ==> made[t].MADE? || made[t].UPTODATE?
    {
      errorNode := MakeTargets(begin, targs, reach);
      if exited {
        return;
      }
      FirstFailedSnoc(made, targs, opts.endNode);
      MoreReached(g, reach, more, Now());
      if errorNode.None? {
        ghost var st := Now();
        CompatMake(opts.endNode, opts.endNode, more, []);
        if exited {
          return;
        }
        LeftStays(g, more, st, Now(), targs);
        if begin.Some? && !opts.query {
          LeftStays(g, more, st, Now(), [begin.value]);
        }
        FirstFailedSame(st.made, made, targs);
        FirstFailedSnoc(made, targs, opts.endNode);
        if IsError(opts.endNode) {
          errorNode := Some(opts.endNode);
        }
        NoneFailedOutcome(g, more, Now(), targs + [opts.endNode]);
      } else {
        InvOutcome(g, reach, Now());
      }
      InvOutcome(g, more, Now());
      FlagsAtEnd(g, more, opts, Now());
    }
  }
}
