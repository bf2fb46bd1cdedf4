/**
The reader of parse.c as it works: nested loops that move through the lines of one file and
update the stack of conditionals and the guard state on the way. It computes what the stack
machine of Conditionals and the guard states of Guards say.
*/
module MakefileReader {
  import opened Wrappers
  import opened Conditionals
  import opened Guards

  lemma RunSnoc(e: Oracle, s: Reader, lines: seq<Line>, pos: nat)
    requires ReaderOk(s) && pos < |lines|
    ensures Run(e, s, lines[..pos + 1]) == Step(e, Run(e, s, lines[..pos]), lines[pos])
    ensures GuardRun(e, s, GS_START, lines[..pos + 1]) ==
            GuardStep(e, Run(e, s, lines[..pos]), GuardRun(e, s, GS_START, lines[..pos]), lines[pos])
  {
    assert lines[..pos + 1] == lines[..pos] + [lines[pos]];
    RunAppend(e, s, lines[..pos], [lines[pos]]);
    RunOne(e, Run(e, s, lines[..pos]), lines[pos]);
    GuardRunAppend(e, s, GS_START, lines[..pos], [lines[pos]]);
    GuardRunOne(e, Run(e, s, lines[..pos]), GuardRun(e, s, GS_START, lines[..pos]), lines[pos]);
  }

  lemma GuardRunOne(e: Oracle, s: Reader, g: GuardState, line: Line)
    requires ReaderOk(s)
    ensures GuardRun(e, s, g, [line]) == GuardStep(e, s, g, line)
  {
    assert [line][1..] == [];
  }

  lemma OuterStaysActive(e: Oracle, s: Reader, lines: seq<Line>)
    requires AtStart(s)
    ensures Run(e, s, lines).min == s.min && Run(e, s, lines).states[s.min].active
  {
    OuterConditionalsKept(e, s, lines);
    assert s.states[..s.min + 1][s.min] == s.states[s.min];
    assert Run(e, s, lines).states[..s.min + 1][s.min] == Run(e, s, lines).states[s.min];
  }

  // In an irrelevant branch, CR_TRUE means that the branch is over.
  lemma SkipResult(e: Oracle, s: Reader, line: Line)
    requires ReaderOk(s) && s.states[s.min].active && !Top(s).active
    ensures EvalLine(e, s, line).0.CR_TRUE? <==> Top(EvalLine(e, s, line).1).active
  {}

  // In a relevant one, CR_FALSE means that an irrelevant one begins.
  lemma ReadResult(e: Oracle, s: Reader, line: Line)
    requires ReaderOk(s) && Top(s).active
    ensures EvalLine(e, s, line).0.CR_FALSE? <==> !Top(EvalLine(e, s, line).1).active
  {}

  datatype Next = Deliver | Continue | Eof

  // The one goes on from the other without a line being delivered.
  ghost predicate Silent(was: seq<Event>, now: seq<Event>) {
    was <= now && forall i :: |was| <= i < |now| ==> !now[i].Delivered?
  }

  lemma SilentAgain(a: seq<Event>, b: seq<Event>, c: seq<Event>)
    requires Silent(a, b) && Silent(b, c)
    ensures Silent(a, c)
  {
  }

  // One line was delivered, as the last event.
  ghost predicate DeliveredLast(was: seq<Event>, now: seq<Event>, line: Line) {
    now != [] && now[|now| - 1] == Delivered(line) && Silent(was, now[..|now| - 1])
  }

  lemma LastDelivered(was: seq<Event>, now: seq<Event>, line: Line)
    requires Silent(was, now)
    ensures DeliveredLast(was, now + [Delivered(line)], line)
  {
    assert (now + [Delivered(line)])[..|now|] == now;
  }

  lemma SilentEvent(was: seq<Event>, e: Event)
    requires !e.Delivered?
    ensures Silent(was, was + [e])
  {
  }

  lemma EvalIsSilent(e: Oracle, s: Reader, was: seq<Event>, line: Line)
    requires ReaderOk(s) && Silent(was, s.trace)
    ensures Silent(was, EvalLine(e, s, line).1.trace)
  {
  }

  // An IncludedFile together with the conditional state shared by all files.
  class IncludedFile {
    const eval: Oracle
    const lines: seq<Line>
    const condMinDepth: nat
    ghost const start: Reader
    var pos: nat
    var condStates: seq<IfState>
    var guardState: GuardState
    var trace: seq<Event>

    // The reader outside a loop.
    ghost function Now(): Reader
      reads this
    {
      Reader(condStates, condMinDepth, 0, "", [], trace)
    }

    // All lines before pos have been dealt with.
    ghost predicate Valid()
      reads this
    {
      && AtStart(start) && pos <= |lines| && condMinDepth == start.min
      && Now() == Run(eval, start, lines[..pos])
      && guardState == GuardRun(eval, start, GS_START, lines[..pos])
    }

    // Parse_PushInput
    constructor (e: Oracle, text: seq<Line>, states: seq<IfState>, history: seq<Event>)
      requires states != [] && states[|states| - 1].active
      ensures Valid() && eval == e && lines == text && pos == 0
      ensures start == Reader(states, |states| - 1, 0, "", [], history)
    {
      eval, lines, condMinDepth := e, text, |states| - 1;
      start := Reader(states, |states| - 1, 0, "", [], history);
      pos, condStates, guardState, trace := 0, states, GS_START, history;
      new;
      assert text[..0] == [];
    }

    method EvalCondition(c: Cond) returns (res: CondResult)
      requires ReaderOk(Now())
      modifies this`condStates, this`trace
      ensures (res, Now()) == EvalCond(eval, old(Now()), c)
    {
      var r := eval(trace, c);
      trace := trace + [Evaluated(c)];
      if r == CR_ERROR {
        condStates := condStates[|condStates| - 1 := IFS_WAS_ACTIVE];
        return CR_FALSE;
      }
      condStates := condStates[|condStates| - 1 := if r == CR_TRUE then IFS_ACTIVE else IFS_INITIAL];
      return r;
    }

    method ParseGuardElse()
      requires ReaderOk(Now())
      modifies this`guardState
      ensures guardState == if |condStates| - 1 == condMinDepth + 1 then GS_NO else old(guardState)
    {
      if |condStates| - 1 == condMinDepth + 1 {
        guardState := GS_NO;
      }
    }

    method ParseGuardEndif()
      requires ReaderOk(Now())
      modifies this`guardState
      ensures guardState == if |condStates| - 1 == condMinDepth && old(guardState).GS_COND?
                            then GS_DONE(old(guardState).name) else old(guardState)
    {
      if |condStates| - 1 == condMinDepth && guardState.GS_COND? {
        guardState := GS_DONE(guardState.name);
      }
    }

    method CondEvalLine(line: Line) returns (res: CondResult)
      requires ReaderOk(Now())
      modifies this`condStates, this`guardState, this`trace
      ensures (res, Now()) == EvalLine(eval, old(Now()), line)
      ensures guardState == GuardAfter(old(Now()), old(guardState), line)
    {
      var depth := |condStates| - 1;
      if line.Endif? {
        if depth == condMinDepth {
          return CR_TRUE;
        }
        condStates := condStates[..depth];
        ParseGuardEndif();
        return if condStates[depth - 1].active then CR_TRUE else CR_FALSE;
      }
      if line.Else? {
        if depth == condMinDepth {
          return CR_TRUE;
        }
        ParseGuardElse();
        var state := condStates[depth];
        if state == IFS_INITIAL {
          state := IfState(true, true, false);
        } else {
          state := IfState(false, true, true);
        }
        condStates := condStates[depth := state];
        return if state.active then CR_TRUE else CR_FALSE;
      }
      if !line.If? && !line.Elif? {
        return CR_ERROR;
      }
      if line.Elif? {
        if depth == condMinDepth {
          return CR_TRUE;
        }
        ParseGuardElse();
        var state := condStates[depth];
        if state.seenElse {
          condStates := condStates[depth := IfState(false, true, true)];
          return CR_FALSE;
        }
        if state != IFS_INITIAL {
          condStates := condStates[depth := IFS_WAS_ACTIVE];
          return CR_FALSE;
        }
      } else {
        var state := condStates[depth];
        if !state.active {
          condStates := condStates + [IFS_WAS_ACTIVE];
          return CR_FALSE;
        }
        condStates := condStates + [IFS_INITIAL];
      }
      res := EvalCondition(line.cond);
    }

    // The end of the file is reached; a loop without an end has been run.
    ghost predicate Finished()
      reads this
    {
      && AtStart(start) && condMinDepth == start.min && pos == |lines|
      && Now() == EndLoop(Run(eval, start, lines))
      && guardState == GuardRun(eval, start, GS_START, lines)
    }

    method SkipIrrelevantBranches() returns (found: bool)
      requires Valid() && !Top(Now()).active
      modifies this`pos, this`condStates, this`guardState, this`trace
      ensures pos >= old(pos) && Silent(old(trace), trace)
      ensures if found then Valid() && Top(Now()).active else Finished()
    {
      while pos < |lines|
        invariant Valid() && !Top(Now()).active && pos >= old(pos) && Silent(old(trace), trace)
        decreases |lines| - pos
      {
        var line := lines[pos];
        RunSnoc(eval, start, lines, pos);
        pos := pos + 1;
        if line.Text? {
          continue;
        }
        OuterStaysActive(eval, start, lines[..pos - 1]);
        SkipResult(eval, Now(), line);
        EvalIsSilent(eval, Now(), old(trace), line);
        var res := CondEvalLine(line);
        if res == CR_TRUE {
          return true;
        }
      }
      assert lines[..pos] == lines;
      return false;
    }

    // Collect the body of a loop and run it. The line before pos is its head.
    method ParseForLoop(head: string)
      requires 0 < pos <= |lines| && AtStart(start) && condMinDepth == start.min
      requires Now().(level := 1, head := head) == Run(eval, start, lines[..pos])
      requires guardState == GuardRun(eval, start, GS_START, lines[..pos])
      requires Top(Now()).active
      modifies this`pos, this`trace
      ensures pos >= old(pos) && Silent(old(trace), trace)
      ensures (Valid() && Top(Now()).active) || Finished()
    {
      var level: nat := 1;
      var body: seq<Line> := [];
      while pos < |lines|
        invariant old(pos) <= pos <= |lines| && level > 0 && trace == old(trace)
        invariant Now().(level := level, head := head, body := body) == Run(eval, start, lines[..pos])
        invariant guardState == GuardRun(eval, start, GS_START, lines[..pos])
        decreases |lines| - pos
      {
        var line := lines[pos];
        RunSnoc(eval, start, lines, pos);
        pos := pos + 1;
        if line.Endfor? {
          level := level - 1;
          if level == 0 {
            trace := trace + [Looped(head, body)];
            SilentEvent(old(trace), Looped(head, body));
            return;
          }
        } else if line.For? {
          level := level + 1;
        }
        body := body + [line];
      }
      assert lines[..pos] == lines;
      trace := trace + [Looped(head, body)];
      SilentEvent(old(trace), Looped(head, body));
    }

    method DecideGuard(line: Line, condResult: CondResult)
      modifies this`guardState
      ensures guardState == GuardDecided(old(guardState), condResult, line)
    {
      if guardState.GS_START? {
        var guard := ExtractGuard(line);
        if condResult != CR_ERROR && guard.Some? {
          guardState := GS_COND(guard.value);
        } else {
          guardState := GS_NO;
        }
      }
    }

    // The line before pos starts with a dot and is read in a relevant branch; s and g are what
    // went before. Deal with it, or return Deliver if it is for ParseLine.
    method HandleDirective(line: Line, ghost s: Reader, ghost g: GuardState) returns (next: Next)
      requires 0 < pos <= |lines| && AtStart(start) && condMinDepth == start.min && !line.Text?
      requires ReaderOk(s) && Now() == s && Top(s).active && guardState == if g.GS_DONE? then GS_NO else g
      requires Run(eval, start, lines[..pos]) == Step(eval, s, line)
      requires GuardRun(eval, start, GS_START, lines[..pos]) == GuardStep(eval, s, g, line)
      modifies this`pos, this`condStates, this`guardState, this`trace
      ensures pos >= old(pos)
      ensures match next
              case Deliver => Valid() && Top(Now()).active && trace == s.trace + [Delivered(line)]
              case Continue => Valid() && Top(Now()).active && Silent(s.trace, trace)
              case Eof => Finished() && Silent(s.trace, trace)
    {
      ReadResult(eval, s, line);
      EvalIsSilent(eval, s, s.trace, line);
      var condResult := CondEvalLine(line);
      DecideGuard(line, condResult);
      assert guardState == GuardStep(eval, s, g, line);
      match condResult {
        case CR_FALSE =>
          ghost var tr := trace;
          var found := SkipIrrelevantBranches();
          SilentAgain(s.trace, tr, trace);
          return if found then Continue else Eof;
        case CR_TRUE =>
          return Continue;
        case CR_ERROR =>
          if line.For? {
            ghost var tr := trace;
            ParseForLoop(line.head);
            SilentAgain(s.trace, tr, trace);
            assert lines[..|lines|] == lines;
            return if pos == |lines| then Eof else Continue;
          }
          if line.Endfor? {
            return Continue;
          }
          trace := trace + [Delivered(line)];
          return Deliver;
      }
    }

    // One line of the file in a relevant branch.
    method ReadLine() returns (line: Line, next: Next)
      requires Valid() && Top(Now()).active && pos < |lines|
      modifies this`pos, this`condStates, this`guardState, this`trace
      ensures pos > old(pos)
      ensures match next
              case Deliver => Valid() && Top(Now()).active && trace == old(trace) + [Delivered(line)]
              case Continue => Valid() && Top(Now()).active && Silent(old(trace), trace)
              case Eof => Finished() && Silent(old(trace), trace)
    {
      ghost var s, g := Now(), guardState;
      line := lines[pos];
      RunSnoc(eval, start, lines, pos);
      pos := pos + 1;
      if guardState != GS_NO && ((guardState.GS_START? && line.Text?) || guardState.GS_DONE?) {
        guardState := GS_NO;
      }
      if line.Text? {
        trace := trace + [Delivered(line)];
        return line, Deliver;
      }
      next := HandleDirective(line, s, g);
    }

    // Return the next line that is not dealt with here, or None at the end of the file.
    method ReadHighLevelLine() returns (r: Option<Line>)
      requires Valid() && Top(Now()).active
      modifies this`pos, this`condStates, this`guardState, this`trace
      ensures r.Some? ==> Valid() && Top(Now()).active && pos > old(pos) && DeliveredLast(old(trace), trace, r.value)
      ensures r.None? ==> Finished() && Silent(old(trace), trace)
    {
      while pos < |lines|
        invariant Valid() && Top(Now()).active && pos >= old(pos) && Silent(old(trace), trace)
        decreases |lines| - pos
      {
        ghost var before := trace;
        var line, next := ReadLine();
        if next == Deliver {
          LastDelivered(old(trace), before, line);
          return Some(line);
        }
        SilentAgain(old(trace), before, trace);
        if next == Eof {
          return None;
        }
      }
      assert lines[..pos] == lines;
      return None;
    }

    // The loop of Parse_File over one file, and ParseEOF.
    method ReadFile()
      requires Valid() && pos == 0
      modifies this
      ensures Now() == EndFile(Run(eval, start, lines))
      ensures guardState == GuardRun(eval, start, GS_START, lines)
    {
      assert lines[..0] == [];
      var line := ReadHighLevelLine();
      while line.Some?
        invariant if line.Some? then Valid() && Top(Now()).active else Finished()
        decreases |lines| - pos, line.Some?
      {
        line := ReadHighLevelLine();
      }
      condStates := condStates[..condMinDepth + 1];
    }
  }

  // The state shared by all files of a run, and the guards found so far.
  class Parser {
    const eval: Oracle
    const defined: (seq<Event>, string) -> bool
    const files: map<string, seq<Line>>
    var condStates: seq<IfState>
    var trace: seq<Event>
    var guards: map<string, string>

    // A reader at the start of an included file.
    ghost function Entering(): Reader
      reads this
      requires condStates != []
    {
      Reader(condStates, |condStates| - 1, 0, "", [], trace)
    }

    // Every recorded guard is the first line of the file it is recorded for.
    ghost predicate Valid()
      reads this
    {
      && condStates != [] && AtStart(Entering())
      && TestsGuards(eval, defined)
      && forall name :: name in guards ==> name in files && StartsWithGuard(files[name], guards[name])
    }

    // Whether SkipGuarded leaves the file out.
    predicate Skips(name: string)
      reads this
    {
      name in guards && defined(trace, guards[name])
    }

    // The file is read, and its guard remembered if it has one.
    method ReadIncluded(name: string)
      requires Valid() && name in files
      modifies this
      ensures Valid()
      ensures var whole := EndFile(Run(eval, old(Entering()), files[name]));
        condStates == old(condStates) == whole.states && trace == whole.trace
      ensures guards == match GuardRun(eval, old(Entering()), GS_START, files[name])
                        case GS_DONE(n) => old(guards)[name := n]
                        case _ => old(guards)
    {
      assert condStates[..|condStates| - 1 + 1] == condStates;
      ghost var s := Entering();
      OuterConditionalsKept(eval, s, files[name]);
      var file := new IncludedFile(eval, files[name], condStates, trace);
      file.ReadFile();
      condStates, trace := file.condStates, file.trace;
      if file.guardState.GS_DONE? {
        GuardIsFirst(eval, s, GS_START, files[name], file.guardState.name);
        guards := guards[name := file.guardState.name];
      }
    }

    // IncludeFile with SkipGuarded, and ParseEOF at the end of the file. A file that is read has
    // the effect of reading it. One that is left out has none, which is the effect of reading
    // it, but for the evaluation of its guard, if and only if its text skips quietly.
    method IncludeFile(name: string)
      requires Valid()
      modifies this
      ensures Valid() && condStates == old(condStates)
      ensures name !in files || old(Skips(name)) ==> trace == old(trace) && guards == old(guards)
      ensures name in files && !old(Skips(name)) ==>
                && trace == EndFile(Run(eval, old(Entering()), files[name])).trace
                && Remembered(eval, old(Entering()), files[name], name, old(guards), guards)
                && guards == match GuardRun(eval, old(Entering()), GS_START, files[name])
                             case GS_DONE(n) => old(guards)[name := n]
                             case _ => old(guards)
      ensures name in files && old(Skips(name)) ==>
                && files[name] != [] && files[name][0].If?
                && (EndFile(Run(eval, old(Entering()), files[name]))
                      == old(Entering()).(trace := trace + [Evaluated(files[name][0].cond)])
                    <==> SkipsQuietly(files[name]))
    {
      if name !in files {
        return;
      }
      if name in guards && defined(trace, guards[name]) {
        ReadingIsQuiet(eval, Entering(), files[name]);
        return;
      }
      RememberedExactly(eval, Entering(), files[name], name, guards);
      ReadIncluded(name);
    }
  }

  // The guard of a file is remembered just when the file is guarded and its loops are closed.
  ghost predicate Remembered(e: Oracle, s: Reader, lines: seq<Line>, name: string, was: map<string, string>, now: map<string, string>) {
    AtStart(s) && LoopsBalanced(e, s, lines) ==>
      && (forall n :: Recognizable(e, s, lines, n) ==> now == was[name := n])
      && ((forall n :: !Recognizable(e, s, lines, n)) ==> now == was)
  }

  lemma RememberedExactly(e: Oracle, s: Reader, lines: seq<Line>, name: string, was: map<string, string>)
    requires AtStart(s)
    ensures Remembered(e, s, lines, name, was, match GuardRun(e, s, GS_START, lines)
              case GS_DONE(n) => was[name := n]
              case _ => was)
  {
    if LoopsBalanced(e, s, lines) {
      forall n ensures GuardRun(e, s, GS_START, lines) == GS_DONE(n) <==> Recognizable(e, s, lines, n) {
        RecognizedExactly(e, s, lines, n);
      }
    }
  }

  ghost predicate StartsWithGuard(lines: seq<Line>, name: string) {
    lines != [] && lines[0].If? && lines[0].cond.guard == Some(name)
  }
}
