/**
Multiple-inclusion guards: how the reader finds out that a whole makefile is enclosed in
'.if !defined(V)' or '.ifndef V', and why leaving the file out while V is defined is the same
as reading it.
*/
module Guards {
  import opened Wrappers
  import opened Conditionals

  datatype GuardState = GS_START | GS_COND(name: string) | GS_DONE(name: string) | GS_NO

  // Cond_ExtractGuard for a variable guard.
  function ExtractGuard(line: Line): Option<string> {
    if line.If? then line.cond.guard else None
  }

  // Parse_GuardElse and Parse_GuardEndif, as called from Cond_EvalLine.
  function GuardAfter(s: Reader, g: GuardState, line: Line): GuardState
    requires ReaderOk(s)
  {
    if (line.Else? || line.Elif?) && Depth(s) == s.min + 1 then GS_NO
    else if line.Endif? && Depth(s) == s.min + 1 && g.GS_COND? then GS_DONE(g.name)
    else g
  }

  // The start of a file is its guard or nothing is.
  function GuardDecided(g: GuardState, res: CondResult, line: Line): GuardState {
    if !g.GS_START? then g
    else if res != CR_ERROR && ExtractGuard(line).Some? then GS_COND(ExtractGuard(line).value)
    else GS_NO
  }

  // What one line does to the guard state of the file.
  function GuardStep(e: Oracle, s: Reader, g: GuardState, line: Line): GuardState
    requires ReaderOk(s)
  {
    if s.level > 0 then g
    else
      if !Top(s).active then GuardAfter(s, g, line)
      else
        var g1 := if g.GS_DONE? || (g.GS_START? && line.Text?) then GS_NO else g;
        GuardDecided(GuardAfter(s, g1, line), EvalLine(e, s, line).0, line)
  }

  function GuardRun(e: Oracle, s: Reader, g: GuardState, lines: seq<Line>): GuardState
    requires ReaderOk(s)
    decreases lines
  {
    if lines == [] then g else GuardRun(e, Step(e, s, lines[0]), GuardStep(e, s, g, lines[0]), lines[1..])
  }

  lemma {:induction false} GuardRunAppend(e: Oracle, s: Reader, g: GuardState, a: seq<Line>, b: seq<Line>)
    requires ReaderOk(s)
    ensures GuardRun(e, s, g, a + b) == GuardRun(e, Run(e, s, a), GuardRun(e, s, g, a), b)
    decreases a
  {
    if a == [] {
      assert a + b == b;
    } else {
      GuardRunAppend(e, Step(e, s, a[0]), GuardStep(e, s, g, a[0]), a[1..], b);
      assert (a + b)[1..] == a[1..] + b;
    }
  }

  // ---------------------------------------------------------------- nesting by counting

  // The nesting depth after the lines, starting from depth d. None if a conditional that was
  // open at depth 0 is closed or gets another branch.
  function Scan(d: nat, lines: seq<Line>): Option<nat>
    decreases lines
  {
    if lines == [] then Some(d)
    else match lines[0] {
      case If(_) => Scan(d + 1, lines[1..])
      case Endif => if d == 0 then None else Scan(d - 1, lines[1..])
      case Elif(_) => if d == 0 then None else Scan(d, lines[1..])
      case Else => if d == 0 then None else Scan(d, lines[1..])
      case _ => Scan(d, lines[1..])
    }
  }

  predicate Balanced(lines: seq<Line>) { Scan(0, lines) == Some(0) }

  lemma {:induction false} ScanAppend(d: nat, a: seq<Line>, b: seq<Line>)
    ensures Scan(d, a + b) == match Scan(d, a) { case None => None case Some(k) => Scan(k, b) }
    decreases a
  {
    if a == [] {
      assert a + b == b;
    } else {
      assert (a + b)[1..] == a[1..] + b;
      match a[0]
      case If(_) => ScanAppend(d + 1, a[1..], b);
      case Endif => if d > 0 { ScanAppend(d - 1, a[1..], b); }
      case _ => ScanAppend(d, a[1..], b);
    }
  }

  // A balanced text is balanced at any depth.
  lemma {:induction false} ScanDeeper(d: nat, k: nat, lines: seq<Line>)
    requires Scan(d, lines).Some?
    ensures Scan(d + k, lines) == Some(Scan(d, lines).value + k)
    decreases lines
  {
    if lines != [] {
      match lines[0]
      case If(_) => ScanDeeper(d + 1, k, lines[1..]);
      case Endif => ScanDeeper(d - 1, k, lines[1..]);
      case _ => ScanDeeper(d, k, lines[1..]);
    }
  }

  lemma ScanOne(d: nat, line: Line)
    ensures Scan(d, [line]) == match line {
              case If(_) => Some(d + 1)
              case Endif => if d == 0 then None else Some(d - 1)
              case Elif(_) => if d == 0 then None else Some(d)
              case Else => if d == 0 then None else Some(d)
              case _ => Some(d)
            }
  {
    assert [line][1..] == [];
  }

  // ---------------------------------------------------------------- what a guard state says

  // Every loop that is run on the way has a body with balanced conditionals.
  ghost predicate LoopsBalanced(e: Oracle, s: Reader, lines: seq<Line>)
    requires ReaderOk(s)
    decreases lines
  {
    lines != [] ==>
      && (s.level == 1 && lines[0].Endfor? ==> Balanced(s.body))
      && LoopsBalanced(e, Step(e, s, lines[0]), lines[1..])
  }

  // The lines `mid` read so far inside the guard, as far as they are not being collected.
  ghost predicate Inside(s: Reader, mid: seq<Line>)
    requires ReaderOk(s)
  {
    && Depth(s) > s.min
    && |s.body| <= |mid|
    && (if s.level == 0 then Scan(0, mid) == Some(Depth(s) - s.min - 1)
        else
          && |s.body| < |mid| && mid[|mid| - |s.body| - 1].For?
          && mid[|mid| - |s.body|..] == s.body
          && Scan(0, mid[..|mid| - |s.body| - 1]) == Some(Depth(s) - s.min - 1))
  }

  // The text of a guarded file.
  ghost predicate Guarded(lines: seq<Line>, name: string) {
    && |lines| >= 2
    && lines[0].If? && lines[0].cond.guard == Some(name)
    && lines[|lines| - 1].Endif?
    && Scan(0, lines[1..|lines| - 1]) == Some(0)
  }

  ghost predicate Explains(g: GuardState, s: Reader, lines: seq<Line>)
    requires ReaderOk(s)
  {
    match g
    case GS_START => lines == [] && AtStart(s)
    case GS_COND(name) =>
      && lines != [] && lines[0].If? && lines[0].cond.guard == Some(name)
      && Inside(s, lines[1..])
    case GS_DONE(name) => Guarded(lines, name) && Depth(s) == s.min && s.level == 0
    case GS_NO => true
  }

  lemma ScanSnoc(lines: seq<Line>, line: Line)
    ensures Scan(0, lines + [line]) == match Scan(0, lines) { case None => None case Some(k) => Scan(k, [line]) }
  {
    ScanAppend(0, lines, [line]);
  }

  // The file around is active, and lines are collected only for a loop.
  ghost predicate Proper(s: Reader) {
    && ReaderOk(s) && s.states[s.min].active
    && (s.level == 0 ==> s.body == [])
  }

  lemma StepProper(e: Oracle, s: Reader, line: Line)
    requires Proper(s)
    ensures Proper(Step(e, s, line))
  {
    StepKeepsOuter(e, s, line);
    assert s.states[..s.min + 1][s.min] == s.states[s.min];
    assert Step(e, s, line).states[..s.min + 1][s.min] == Step(e, s, line).states[s.min];
  }

  lemma CollectedInside(s: Reader, s': Reader, mid: seq<Line>, line: Line)
    requires ReaderOk(s) && Inside(s, mid) && s.level > 0
    requires s'.states == s.states && s'.min == s.min
    requires if line.Endfor? && s.level == 1 then s'.level == 0 && s'.body == [] && Balanced(s.body)
             else s'.level > 0 && s'.body == s.body + [line]
    ensures Inside(s', mid + [line])
  {
    var n := |mid| - |s.body| - 1;
    var before, k := mid[..n], Depth(s) - s.min - 1;
    if s'.level == 0 {
      assert mid == before + [mid[n]] + s.body;
      ScanSnoc(before, mid[n]);
      ScanOne(k, mid[n]);
      ScanAppend(0, before + [mid[n]], s.body);
      ScanDeeper(0, k, s.body);
      ScanSnoc(mid, line);
      ScanOne(k, line);
    } else {
      assert (mid + [line])[..n] == before;
      assert (mid + [line])[n + 1..] == s.body + [line];
    }
  }

  lemma ReadInside(e: Oracle, s: Reader, mid: seq<Line>, line: Line)
    requires Proper(s) && Inside(s, mid) && s.level == 0
    requires Depth(s) == s.min + 1 ==> !line.Else? && !line.Elif? && !line.Endif?
    ensures Inside(Step(e, s, line), mid + [line])
  {
    ScanSnoc(mid, line);
    ScanOne(Depth(s) - s.min - 1, line);
    if line.For? {
      assert (mid + [line])[..|mid|] == mid;
    }
  }

  lemma StartExplained(e: Oracle, s: Reader, line: Line)
    requires AtStart(s)
    ensures Explains(GuardStep(e, s, GS_START, line), Step(e, s, line), [line])
  {
    assert [line][1..] == [];
  }

  lemma CondExplained(e: Oracle, s: Reader, name: string, lines: seq<Line>, line: Line)
    requires Proper(s) && Explains(GS_COND(name), s, lines)
    requires s.level == 1 && line.Endfor? ==> Balanced(s.body)
    ensures Explains(GuardStep(e, s, GS_COND(name), line), Step(e, s, line), lines + [line])
  {
    var mid := lines[1..];
    assert (lines + [line])[1..] == mid + [line];
    if s.level > 0 {
      CollectedInside(s, Step(e, s, line), mid, line);
    } else if Depth(s) == s.min + 1 && line.Endif? {
      assert (lines + [line])[1..|lines|] == mid;
    } else if Depth(s) != s.min + 1 || !(line.Else? || line.Elif?) {
      ReadInside(e, s, mid, line);
    }
  }

  lemma GuardStepExplained(e: Oracle, s: Reader, g: GuardState, lines: seq<Line>, line: Line)
    requires Proper(s) && Explains(g, s, lines)
    requires s.level == 1 && line.Endfor? ==> Balanced(s.body)
    ensures Explains(GuardStep(e, s, g, line), Step(e, s, line), lines + [line])
  {
    match g
    case GS_NO =>
    case GS_START =>
      StartExplained(e, s, line);
      assert lines + [line] == [line];
    case GS_DONE(name) =>
      assert Top(s).active;
    case GS_COND(name) =>
      CondExplained(e, s, name, lines, line);
  }

  // The guard state always describes the lines read so far.
  lemma {:induction false} GuardExplained(e: Oracle, s: Reader, g: GuardState, before: seq<Line>, lines: seq<Line>)
    requires Proper(s) && Explains(g, s, before) && LoopsBalanced(e, s, lines)
    ensures Explains(GuardRun(e, s, g, lines), Run(e, s, lines), before + lines)
    decreases lines
  {
    if lines == [] {
      assert before + lines == before;
    } else {
      GuardStepExplained(e, s, g, before, lines[0]);
      StepProper(e, s, lines[0]);
      GuardExplained(e, Step(e, s, lines[0]), GuardStep(e, s, g, lines[0]), before + [lines[0]], lines[1..]);
      assert before + [lines[0]] + lines[1..] == before + lines;
    }
  }

  // ---------------------------------------------------------------- skipping

  // The conditional at depth b is inactive, and so is everything inside it, for good.
  ghost predicate Dead(s: Reader, b: nat) {
    && s.min < b < |s.states| && s.level == 0 && !s.states[b].active
    && forall i :: b < i < |s.states| ==> !s.states[i].active && s.states[i].wasActive
  }

  lemma DeadStep(e: Oracle, s: Reader, b: nat, line: Line, k: nat)
    requires Dead(s, b) && Scan(|s.states| - 1 - b, [line]) == Some(k)
    ensures Dead(Step(e, s, line), b) && |Step(e, s, line).states| == b + 1 + k
    ensures Step(e, s, line).states[..b + 1] == s.states[..b + 1]
    ensures Step(e, s, line) == s.(states := Step(e, s, line).states)
  {
    ScanOne(|s.states| - 1 - b, line);
  }

  // Inside it, a text that neither closes it nor opens another branch of it does nothing.
  lemma {:induction false} DeadRun(e: Oracle, s: Reader, b: nat, lines: seq<Line>)
    requires Dead(s, b) && Scan(|s.states| - 1 - b, lines).Some?
    ensures Dead(Run(e, s, lines), b)
    ensures |Run(e, s, lines).states| == b + 1 + Scan(|s.states| - 1 - b, lines).value
    ensures Run(e, s, lines).states[..b + 1] == s.states[..b + 1]
    ensures Run(e, s, lines) == s.(states := Run(e, s, lines).states)
    decreases lines
  {
    if lines != [] {
      var d := |s.states| - 1 - b;
      assert lines == [lines[0]] + lines[1..];
      ScanAppend(d, [lines[0]], lines[1..]);
      DeadStep(e, s, b, lines[0], Scan(d, [lines[0]]).value);
      DeadRun(e, Step(e, s, lines[0]), b, lines[1..]);
    }
  }

  // A guarded text whose guard condition is false leaves no event but its evaluation.
  lemma GuardedTextIsSkipped(e: Oracle, s: Reader, lines: seq<Line>, name: string)
    requires AtStart(s) && Guarded(lines, name) && e(s.trace, lines[0].cond).CR_FALSE?
    ensures Run(e, s, lines) == s.(trace := s.trace + [Evaluated(lines[0].cond)])
  {
    var n := |lines| - 1;
    var mid := lines[1..n];
    var s1 := Step(e, s, lines[0]);
    assert s1 == s.(states := s.states + [IFS_INITIAL], trace := s.trace + [Evaluated(lines[0].cond)]);
    assert lines == [lines[0]] + (mid + [lines[n]]);
    RunCons(e, s, lines[0], mid + [lines[n]]);
    DeadRun(e, s1, s.min + 1, mid);
    var s2 := Run(e, s1, mid);
    RunAppend(e, s1, mid, [lines[n]]);
    RunOne(e, s2, lines[n]);
    assert s2.states == s2.states[..s.min + 2] == s1.states;
    assert s1.states[..|s1.states| - 1] == s.states;
  }

  // The guard conditions test whether their variable is defined.
  ghost predicate TestsGuards(e: Oracle, defined: (seq<Event>, string) -> bool) {
    forall tr, c: Cond :: c.guard.Some? ==> e(tr, c) == if defined(tr, c.guard.value) then CR_FALSE else CR_TRUE
  }

  // ---------------------------------------------------------------- when skipping is reading

  // What a line does to the conditionals of the file, of which open are still open, as long as
  // no condition has to be evaluated for it; None if the line has any other effect. Text alone
  // decides this.
  function QuietStep(open: seq<IfState>, line: Line): Option<seq<IfState>> {
    var active := open == [] || open[|open| - 1].active;
    match line
    case Text(_) => if active then None else Some(open)
    case Other(_) => if active then None else Some(open)
    case For(_) => if active then None else Some(open)
    case Endfor => Some(open)
    case If(_) => if active then None else Some(open + [IFS_WAS_ACTIVE])
    case Endif => Some(if open == [] then open else open[..|open| - 1])
    case Else =>
      if open == [] then Some(open)
      else if open[|open| - 1] == IFS_INITIAL then Some(open[|open| - 1 := IfState(true, true, false)])
      else Some(open[|open| - 1 := IfState(false, true, true)])
    case Elif(_) =>
      if open == [] then Some(open)
      else if open[|open| - 1].seenElse then Some(open[|open| - 1 := IfState(false, true, true)])
      else if open[|open| - 1] != IFS_INITIAL then Some(open[|open| - 1 := IFS_WAS_ACTIVE])
      else None
  }

  // Read with these conditionals open, loop bodies included, the lines have no effect at all:
  // no line is delivered, no loop run and no condition evaluated.
  predicate Quiet(open: seq<IfState>, lines: seq<Line>)
    decreases lines
  {
    lines == [] || (QuietStep(open, lines[0]).Some? && Quiet(QuietStep(open, lines[0]).value, lines[1..]))
  }

  // A reader outside any loop, with these conditionals of its file open.
  ghost predicate Reading(s: Reader, open: seq<IfState>) {
    && ReaderOk(s) && s.level == 0 && s.head == "" && s.body == []
    && s.states[s.min].active && s.states[s.min + 1..] == open
  }

  lemma QuietLine(e: Oracle, s: Reader, open: seq<IfState>, line: Line)
    requires Reading(s, open) && QuietStep(open, line).Some?
    ensures Reading(Step(e, s, line), QuietStep(open, line).value) && Step(e, s, line).trace == s.trace
    ensures Step(e, s, line).states[..s.min + 1] == s.states[..s.min + 1] && Step(e, s, line).min == s.min
  {
    StepKeepsOuter(e, s, line);
    TopOfOpen(s, open);
  }

  lemma TopOfOpen(s: Reader, open: seq<IfState>)
    requires Reading(s, open)
    ensures |s.states| == s.min + 1 + |open|
    ensures Top(s) == if open == [] then s.states[s.min] else open[|open| - 1]
  {
  }

  lemma LoudLine(e: Oracle, s: Reader, open: seq<IfState>, line: Line)
    requires Reading(s, open) && QuietStep(open, line).None?
    ensures Step(e, s, line).level > 0 || |Step(e, s, line).trace| > |s.trace|
  {
    TopOfOpen(s, open);
  }

  lemma {:induction false} QuietRun(e: Oracle, s: Reader, open: seq<IfState>, lines: seq<Line>)
    requires Reading(s, open) && Quiet(open, lines)
    ensures EndFile(Run(e, s, lines)) == s.(states := s.states[..s.min + 1])
    decreases lines
  {
    if lines != [] {
      QuietLine(e, s, open, lines[0]);
      QuietRun(e, Step(e, s, lines[0]), QuietStep(open, lines[0]).value, lines[1..]);
    }
  }

  // Nothing that has happened is forgotten, and a loop that was begun will be run.
  lemma {:induction false} TraceGrows(e: Oracle, s: Reader, lines: seq<Line>)
    requires ReaderOk(s)
    ensures |EndFile(Run(e, s, lines)).trace| >= |s.trace| + if s.level > 0 then 1 else 0
    decreases lines
  {
    if lines != [] {
      TraceGrows(e, Step(e, s, lines[0]), lines[1..]);
    }
  }

  lemma {:induction false} LoudRun(e: Oracle, s: Reader, open: seq<IfState>, lines: seq<Line>)
    requires Reading(s, open) && !Quiet(open, lines)
    ensures |EndFile(Run(e, s, lines)).trace| > |s.trace|
    decreases lines
  {
    var s1 := Step(e, s, lines[0]);
    if QuietStep(open, lines[0]).Some? {
      QuietLine(e, s, open, lines[0]);
      LoudRun(e, s1, QuietStep(open, lines[0]).value, lines[1..]);
    } else {
      LoudLine(e, s, open, lines[0]);
      TraceGrows(e, s1, lines[1..]);
    }
  }

  // The lines after a guard, read with the guard false, have no effect.
  predicate SkipsQuietly(lines: seq<Line>) { lines != [] && Quiet([IFS_INITIAL], lines[1..]) }

  // Reading a text whose first condition is false has no effect but its evaluation if and only
  // if that is so.
  lemma ReadingIsQuiet(e: Oracle, s: Reader, lines: seq<Line>)
    requires AtStart(s) && lines != [] && lines[0].If? && e(s.trace, lines[0].cond).CR_FALSE?
    ensures EndFile(Run(e, s, lines)) == s.(trace := s.trace + [Evaluated(lines[0].cond)]) <==> SkipsQuietly(lines)
  {
    var s1 := Step(e, s, lines[0]);
    assert s1 == s.(states := s.states + [IFS_INITIAL], trace := s.trace + [Evaluated(lines[0].cond)]);
    assert s1.states[s.min + 1..] == [IFS_INITIAL] && s1.states[..s.min + 1] == s.states;
    if SkipsQuietly(lines) {
      QuietRun(e, s1, [IFS_INITIAL], lines[1..]);
    } else {
      LoudRun(e, s1, [IFS_INITIAL], lines[1..]);
    }
  }

  // A file in which a guard was recognized begins with it.
  lemma {:induction false} GuardIsFirst(e: Oracle, s: Reader, g: GuardState, lines: seq<Line>, name: string)
    requires ReaderOk(s) && GuardRun(e, s, g, lines) == GS_DONE(name)
    requires g.GS_START? ==> AtStart(s)
    ensures match g
            case GS_START => lines != [] && lines[0].If? && lines[0].cond.guard == Some(name)
            case GS_COND(n) => n == name
            case GS_DONE(n) => n == name
            case GS_NO => false
    decreases lines
  {
    if lines != [] {
      var s1, g1 := Step(e, s, lines[0]), GuardStep(e, s, g, lines[0]);
      GuardIsFirst(e, s1, g1, lines[1..], name);
    }
  }

  // A file that was once read to the end with its guard recognized, by any reader, may be left
  // out while the guard variable is defined if and only if its text skips quietly: just then
  // reading it again would deliver no line, run no loop, evaluate nothing but the guard, and
  // leave the conditionals as they are.
  lemma SkippingIsReading(e0: Oracle, s0: Reader, e: Oracle, s: Reader, lines: seq<Line>, name: string,
                          defined: (seq<Event>, string) -> bool)
    requires AtStart(s0) && GuardRun(e0, s0, GS_START, lines) == GS_DONE(name)
    requires AtStart(s) && TestsGuards(e, defined) && defined(s.trace, name)
    ensures lines != [] && lines[0].If?
    ensures EndFile(Run(e, s, lines)) == s.(trace := s.trace + [Evaluated(lines[0].cond)]) <==> SkipsQuietly(lines)
  {
    GuardIsFirst(e0, s0, GS_START, lines, name);
    ReadingIsQuiet(e, s, lines);
  }

  // Every guarded file whose loops have balanced bodies does.
  lemma BalancedSkipsQuietly(e: Oracle, s: Reader, lines: seq<Line>, name: string)
    requires AtStart(s) && LoopsBalanced(e, s, lines) && GuardRun(e, s, GS_START, lines) == GS_DONE(name)
    ensures SkipsQuietly(lines)
  {
    DoneIsGuarded(e, s, lines, name);
    var never: Oracle := (tr: seq<Event>, c: Cond) => CR_FALSE;
    GuardedTextIsSkipped(never, s, lines, name);
    EndUntouched(s, s.trace + [Evaluated(lines[0].cond)]);
    ReadingIsQuiet(never, s, lines);
  }

  lemma DoneIsGuarded(e: Oracle, s: Reader, lines: seq<Line>, name: string)
    requires AtStart(s) && LoopsBalanced(e, s, lines) && GuardRun(e, s, GS_START, lines) == GS_DONE(name)
    ensures Guarded(lines, name)
  {
    GuardExplained(e, s, GS_START, [], lines);
    assert [] + lines == lines;
  }

  // ---------------------------------------------------------------- which files are recognized

  // Inside a guard, a line that keeps the text inside leaves the guard state alone.
  lemma StaysInside(e: Oracle, s: Reader, name: string, mid: seq<Line>, line: Line)
    requires Proper(s) && Inside(s, mid) && Scan(0, mid + [line]).Some?
    requires s.level == 1 && line.Endfor? ==> Balanced(s.body)
    ensures GuardStep(e, s, GS_COND(name), line) == GS_COND(name)
    ensures Inside(Step(e, s, line), mid + [line])
  {
    if s.level > 0 {
      CollectedInside(s, Step(e, s, line), mid, line);
    } else {
      ScanSnoc(mid, line);
      ScanOne(Depth(s) - s.min - 1, line);
      ReadInside(e, s, mid, line);
    }
  }

  // So does a whole text, and the `.endif` after it completes the guard, unless it stands in a loop.
  lemma {:induction false} InsideToEnd(e: Oracle, s: Reader, name: string, mid: seq<Line>, rest: seq<Line>, last: Line)
    requires Proper(s) && Inside(s, mid) && Scan(0, mid + rest) == Some(0) && last.Endif?
    requires LoopsBalanced(e, s, rest + [last])
    ensures GuardRun(e, s, GS_COND(name), rest + [last]) == if Run(e, s, rest + [last]).level == 0 then GS_DONE(name) else GS_COND(name)
    decreases rest
  {
    if rest == [] {
      assert rest + [last] == [last] && mid + rest == mid && [last][1..] == [];
      assert s.level == 0 ==> Depth(s) == s.min + 1;
    } else {
      var line := rest[0];
      assert mid + rest == (mid + [line]) + rest[1..];
      ScanAppend(0, mid + [line], rest[1..]);
      assert (rest + [last])[1..] == rest[1..] + [last];
      StaysInside(e, s, name, mid, line);
      StepProper(e, s, line);
      InsideToEnd(e, Step(e, s, line), name, mid + [line], rest[1..], last);
    }
  }

  // A guarded text whose loops are all closed.
  ghost predicate Recognizable(e: Oracle, s: Reader, lines: seq<Line>, name: string)
    requires AtStart(s)
  {
    Guarded(lines, name) && Run(e, s, lines).level == 0
  }

  lemma GuardedIsDone(e: Oracle, s: Reader, lines: seq<Line>, name: string)
    requires AtStart(s) && LoopsBalanced(e, s, lines) && Recognizable(e, s, lines, name)
    ensures GuardRun(e, s, GS_START, lines) == GS_DONE(name)
  {
    var n := |lines| - 1;
    var mid, s1, none: seq<Line> := lines[1..n], Step(e, s, lines[0]), [];
    assert lines[1..] == mid + [lines[n]] && none + mid == mid;
    assert GuardStep(e, s, GS_START, lines[0]) == GS_COND(name);
    StepProper(e, s, lines[0]);
    assert Inside(s1, none);
    InsideToEnd(e, s1, name, none, mid, lines[n]);
  }

  // A file is recognized as guarded if and only if it is: one conditional around all of its lines,
  // whatever stands inside.
  lemma RecognizedExactly(e: Oracle, s: Reader, lines: seq<Line>, name: string)
    requires AtStart(s) && LoopsBalanced(e, s, lines)
    ensures GuardRun(e, s, GS_START, lines) == GS_DONE(name) <==> Recognizable(e, s, lines, name)
  {
    if Recognizable(e, s, lines, name) {
      GuardedIsDone(e, s, lines, name);
    }
    if GuardRun(e, s, GS_START, lines) == GS_DONE(name) {
      GuardExplained(e, s, GS_START, [], lines);
      assert [] + lines == lines;
    }
  }

  // ---------------------------------------------------------------- unbalanced loops

  lemma BothCons(e: Oracle, s: Reader, g: GuardState, line: Line, rest: seq<Line>)
    requires ReaderOk(s)
    ensures Run(e, s, [line] + rest) == Run(e, Step(e, s, line), rest)
    ensures GuardRun(e, s, g, [line] + rest) == GuardRun(e, Step(e, s, line), GuardStep(e, s, g, line), rest)
  {
    assert ([line] + rest)[1..] == rest;
  }

  // A guarded file with a loop that closes the guard when the file is skipped.
  function UnbalancedLoop(guard: Cond, t: string): seq<Line> {
    [If(guard)] + ([For("i")] + ([Endif] + ([Endfor] + ([Text(t)] + ([Endif] + [])))))
  }

  // Not every file does: this one is recognized as guarded when it is read with its guard
  // undefined, but reading it again delivers a line.
  lemma UnbalancedLoopIsNotSkipped(e: Oracle, e': Oracle, s: Reader, guard: Cond, t: string)
    requires AtStart(s) && guard.guard.Some? && e(s.trace, guard).CR_TRUE? && e'(s.trace, guard).CR_FALSE?
    ensures GuardRun(e, s, GS_START, UnbalancedLoop(guard, t)) == GS_DONE(guard.guard.value)
    ensures Delivered(Text(t)) in Run(e', s, UnbalancedLoop(guard, t)).trace
  {
    UnbalancedFirst(e, s, guard, t);
    UnbalancedAgain(e', s, guard, t);
  }

  lemma UnbalancedFirst(e: Oracle, s: Reader, guard: Cond, t: string)
    requires AtStart(s) && guard.guard.Some? && e(s.trace, guard).CR_TRUE?
    ensures GuardRun(e, s, GS_START, UnbalancedLoop(guard, t)) == GS_DONE(guard.guard.value)
  {
    var g := GS_COND(guard.guard.value);
    var tail := [Text(t)] + ([Endif] + []);
    BothCons(e, s, GS_START, If(guard), [For("i")] + ([Endif] + ([Endfor] + tail)));
    var s1 := Step(e, s, If(guard));
    BothCons(e, s1, g, For("i"), [Endif] + ([Endfor] + tail));
    var s2 := s1.(level := 1, head := "i", body := []);
    BothCons(e, s2, g, Endif, [Endfor] + tail);
    var s3 := s2.(body := [] + [Endif]);
    BothCons(e, s3, g, Endfor, tail);
    var s4 := Step(e, s3, Endfor);
    BothCons(e, s4, g, Text(t), [Endif] + []);
    var s5 := Step(e, s4, Text(t));
    BothCons(e, s5, g, Endif, []);
  }

  lemma UnbalancedAgain(e: Oracle, s: Reader, guard: Cond, t: string)
    requires AtStart(s) && e(s.trace, guard).CR_FALSE?
    ensures Delivered(Text(t)) in Run(e, s, UnbalancedLoop(guard, t)).trace
  {
    var tail := [Text(t)] + ([Endif] + []);
    RunCons(e, s, If(guard), [For("i")] + ([Endif] + ([Endfor] + tail)));
    var s1 := Step(e, s, If(guard));
    RunCons(e, s1, For("i"), [Endif] + ([Endfor] + tail));
    RunCons(e, s1, Endif, [Endfor] + tail);
    var s2 := s1.(states := s1.states[..|s1.states| - 1]);
    assert s2.states == s.states;
    RunCons(e, s2, Endfor, tail);
    RunCons(e, s2, Text(t), [Endif] + []);
    var s3 := s2.(trace := s2.trace + [Delivered(Text(t))]);
    RunCons(e, s3, Endif, []);
  }
}
