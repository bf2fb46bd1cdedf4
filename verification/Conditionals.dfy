/**
The meaning of a makefile text with conditionals, twice: as the stack machine of cond.c and
parse.c that looks at one line after another, and as a tree of nested blocks. The lines of a
makefile are given by their kind; what a line does and what a condition evaluates to is left
to an oracle that sees everything that has happened before.
*/
module Conditionals {
  import opened Wrappers

  // A condition; the guard conditions '!defined(V)' and '.ifndef V' carry their variable.
  datatype Cond = Cond(text: string, guard: Option<string>)

  datatype Line =
    | Text(text: string)                 // does not start with a dot
    | Other(text: string)                // a directive that is neither a conditional nor a loop
    | If(cond: Cond)
    | Elif(cond: Cond)
    | Else
    | Endif
    | For(head: string)
    | Endfor

  datatype CondResult = CR_TRUE | CR_FALSE | CR_ERROR

  datatype Event =
    | Delivered(line: Line)                      // the line was returned to ParseLine
    | Looped(head: string, body: seq<Line>)      // the loop was handed to For_Run
    | Evaluated(cond: Cond)

  // What a condition evaluates to after the events so far; CR_ERROR is a malformed condition.
  type Oracle = (seq<Event>, Cond) -> CondResult

  // IFS_ACTIVE, IFS_SEEN_ELSE and IFS_WAS_ACTIVE.
  datatype IfState = IfState(active: bool, seenElse: bool, wasActive: bool)

  const IFS_INITIAL := IfState(false, false, false)
  const IFS_ACTIVE := IfState(true, false, false)
  const IFS_WAS_ACTIVE := IfState(false, false, true)

  // ---------------------------------------------------------------- the stack machine

  // states is cond_states[0..cond_depth], and min is the depth at the start of the file. While
  // the body of a loop is collected, loop is its head and body the lines collected so far.
  datatype Reader = Reader(
    states: seq<IfState>, min: nat, level: nat, head: string, body: seq<Line>, trace: seq<Event>)

  predicate ReaderOk(s: Reader) { s.min < |s.states| }

  function Depth(s: Reader): (d: nat)
    requires ReaderOk(s)
  {
    |s.states| - 1
  }

  function Top(s: Reader): IfState
    requires ReaderOk(s)
  {
    s.states[|s.states| - 1]
  }

  function SetTop(s: Reader, t: IfState): (s': Reader)
    requires ReaderOk(s)
    ensures ReaderOk(s') && |s'.states| == |s.states|
  {
    s.(states := s.states[|s.states| - 1 := t])
  }

  // The end of Cond_EvalLine: evaluate the condition of the current level.
  function EvalCond(e: Oracle, s: Reader, c: Cond): (r: (CondResult, Reader))
    requires ReaderOk(s)
    ensures ReaderOk(r.1)
  {
    var res := e(s.trace, c);
    var s1 := s.(trace := s.trace + [Evaluated(c)]);
    match res
    case CR_ERROR => (CR_FALSE, SetTop(s1, IFS_WAS_ACTIVE))
    case CR_TRUE => (CR_TRUE, SetTop(s1, IFS_ACTIVE))
    case CR_FALSE => (CR_FALSE, SetTop(s1, IFS_INITIAL))
  }

  function Truth(b: bool): CondResult { if b then CR_TRUE else CR_FALSE }

  // Cond_EvalLine. CR_ERROR means that the line is not a conditional.
  function EvalLine(e: Oracle, s: Reader, line: Line): (r: (CondResult, Reader))
    requires ReaderOk(s)
    ensures ReaderOk(r.1)
  {
    match line
    case Endif =>
      if Depth(s) == s.min then (CR_TRUE, s)
      else
        var s1 := s.(states := s.states[..|s.states| - 1]);
        (Truth(Top(s1).active), s1)
    case Else =>
      if Depth(s) == s.min then (CR_TRUE, s)
      else if Top(s) == IFS_INITIAL then (CR_TRUE, SetTop(s, IfState(true, true, false)))
      else (CR_FALSE, SetTop(s, IfState(false, true, true)))
    case Elif(c) =>
      if Depth(s) == s.min then (CR_TRUE, s)
      else if Top(s).seenElse then (CR_FALSE, SetTop(s, IfState(false, true, true)))
      else if Top(s) != IFS_INITIAL then (CR_FALSE, SetTop(s, IFS_WAS_ACTIVE))
      else EvalCond(e, s, c)
    case If(c) =>
      if !Top(s).active then (CR_FALSE, s.(states := s.states + [IFS_WAS_ACTIVE]))
      else EvalCond(e, s.(states := s.states + [IFS_INITIAL]), c)
    case _ => (CR_ERROR, s)
  }

  // One line, wherever the reader is: collecting the body of a loop (ParseForLoop), looking
  // for the end of an irrelevant branch (SkipIrrelevantBranches) or reading normally
  // (ReadHighLevelLine).
  function Step(e: Oracle, s: Reader, line: Line): (s': Reader)
    requires ReaderOk(s)
    ensures ReaderOk(s')
  {
    if s.level > 0 then
      if line.Endfor? && s.level == 1 then
        s.(level := 0, head := "", body := [], trace := s.trace + [Looped(s.head, s.body)])
      else
        s.(level := if line.Endfor? then s.level - 1 else if line.For? then s.level + 1 else s.level,
           body := s.body + [line])
    else
      var (res, s1) := EvalLine(e, s, line);
      if res != CR_ERROR || !Top(s).active then s1
      else if line.For? then s.(level := 1, head := line.head, body := [])
      else if line.Endfor? then s
      else s.(trace := s.trace + [Delivered(line)])
  }

  function Run(e: Oracle, s: Reader, lines: seq<Line>): (s': Reader)
    requires ReaderOk(s)
    ensures ReaderOk(s')
    decreases lines
  {
    if lines == [] then s else Run(e, Step(e, s, lines[0]), lines[1..])
  }

  // A loop whose end is missing is run all the same at the end of the file.
  function EndLoop(s: Reader): Reader {
    if s.level > 0 then s.(level := 0, head := "", body := [], trace := s.trace + [Looped(s.head, s.body)]) else s
  }

  // Cond_EndFile closes the conditionals that are still open at the end of the file.
  function EndFile(s: Reader): Reader
    requires ReaderOk(s)
  {
    EndLoop(s).(states := s.states[..s.min + 1])
  }

  // A file is only read while all conditionals around it are active.
  ghost predicate AtStart(s: Reader) {
    && |s.states| == s.min + 1 && Top(s).active
    && s.level == 0 && s.head == "" && s.body == []
  }

  lemma {:induction false} RunAppend(e: Oracle, s: Reader, a: seq<Line>, b: seq<Line>)
    requires ReaderOk(s)
    ensures Run(e, s, a + b) == Run(e, Run(e, s, a), b)
    decreases a
  {
    if a == [] {
      assert a + b == b;
    } else {
      RunAppend(e, Step(e, s, a[0]), a[1..], b);
      assert (a + b)[1..] == a[1..] + b;
    }
  }

  lemma RunCons(e: Oracle, s: Reader, line: Line, rest: seq<Line>)
    requires ReaderOk(s)
    ensures Run(e, s, [line] + rest) == Run(e, Step(e, s, line), rest)
  {
    assert ([line] + rest)[1..] == rest;
  }

  lemma RunOne(e: Oracle, s: Reader, line: Line)
    requires ReaderOk(s)
    ensures Run(e, s, [line]) == Step(e, s, line)
  {
    assert [line][1..] == [];
  }

  lemma StepKeepsOuter(e: Oracle, s: Reader, line: Line)
    requires ReaderOk(s)
    ensures Step(e, s, line).min == s.min && Step(e, s, line).states[..s.min + 1] == s.states[..s.min + 1]
  {}

  // For any text whatsoever: the conditionals around the file are never touched, and they are
  // exactly what is left at its end.
  lemma {:induction false} OuterConditionalsKept(e: Oracle, s: Reader, lines: seq<Line>)
    requires ReaderOk(s)
    ensures Run(e, s, lines).min == s.min && Run(e, s, lines).states[..s.min + 1] == s.states[..s.min + 1]
    ensures EndFile(Run(e, s, lines)).states == s.states[..s.min + 1]
    decreases lines
  {
    if lines != [] {
      StepKeepsOuter(e, s, lines[0]);
      OuterConditionalsKept(e, Step(e, s, lines[0]), lines[1..]);
    }
  }

  // ---------------------------------------------------------------- the tree

  datatype Block = Nil | Cons(first: Stmt, rest: Block)

  datatype Stmt =
    | Plain(line: Line)
    | Loop(head: string, body: Block)
    | Chain(cond: Cond, block: Block, rest: Branches)

  // What follows the first branch of a conditional. Any number of `.else` and `.elif` in any
  // order is accepted.
  datatype Branches =
    | End
    | ElifBranch(cond: Cond, block: Block, rest: Branches)
    | ElseBranch(block: Block, rest: Branches)

  predicate IsPlain(line: Line) { line.Text? || line.Other? }

  // Only lines without a meaning of their own for the nesting are plain.
  ghost predicate BlockOk(b: Block) {
    match b
    case Nil => true
    case Cons(s, rest) => StmtOk(s) && BlockOk(rest)
  }

  ghost predicate StmtOk(s: Stmt) {
    match s
    case Plain(line) => IsPlain(line)
    case Loop(_, body) => BlockOk(body)
    case Chain(_, b, rest) => BlockOk(b) && BranchesOk(rest)
  }

  ghost predicate BranchesOk(t: Branches) {
    match t
    case End => true
    case ElifBranch(_, b, rest) => BlockOk(b) && BranchesOk(rest)
    case ElseBranch(b, rest) => BlockOk(b) && BranchesOk(rest)
  }

  function Flatten(b: Block): seq<Line> {
    match b
    case Nil => []
    case Cons(s, rest) => FlattenStmt(s) + Flatten(rest)
  }

  function FlattenStmt(s: Stmt): seq<Line> {
    match s
    case Plain(line) => [line]
    case Loop(h, body) => [For(h)] + (Flatten(body) + [Endfor])
    case Chain(c, b, rest) => [If(c)] + (Flatten(b) + FlattenBranches(rest))
  }

  function FlattenBranches(t: Branches): seq<Line> {
    match t
    case End => [Endif]
    case ElifBranch(c, b, rest) => [Elif(c)] + (Flatten(b) + FlattenBranches(rest))
    case ElseBranch(b, rest) => [Else] + (Flatten(b) + FlattenBranches(rest))
  }

  // What happens when a block is read, after the events tr.
  function Meaning(e: Oracle, b: Block, tr: seq<Event>): seq<Event> {
    match b
    case Nil => tr
    case Cons(s, rest) => Meaning(e, rest, StmtMeaning(e, s, tr))
  }

  // The first branch whose condition holds is read, and nothing of the others. A malformed
  // condition ends the search.
  function StmtMeaning(e: Oracle, s: Stmt, tr: seq<Event>): seq<Event> {
    match s
    case Plain(line) => tr + [Delivered(line)]
    case Loop(h, body) => tr + [Looped(h, Flatten(body))]
    case Chain(c, b, rest) =>
      var tr1 := tr + [Evaluated(c)];
      match e(tr, c)
      case CR_TRUE => Meaning(e, b, tr1)
      case CR_FALSE => BranchesMeaning(e, rest, tr1)
      case CR_ERROR => tr1
  }

  function BranchesMeaning(e: Oracle, t: Branches, tr: seq<Event>): seq<Event> {
    match t
    case End => tr
    case ElifBranch(c, b, rest) =>
      var tr1 := tr + [Evaluated(c)];
      (match e(tr, c)
       case CR_TRUE => Meaning(e, b, tr1)
       case CR_FALSE => BranchesMeaning(e, rest, tr1)
       case CR_ERROR => tr1)
    case ElseBranch(b, _) => Meaning(e, b, tr)
  }

  // ---------------------------------------------------------------- the two agree

  // A reader that collects lines, after some more of them.
  function Collecting(s: Reader, lines: seq<Line>): (s': Reader)
    requires ReaderOk(s)
    ensures ReaderOk(s')
  {
    s.(body := s.body + lines)
  }

  lemma CollectMore(e: Oracle, s: Reader, a: seq<Line>, b: seq<Line>)
    requires ReaderOk(s)
    requires Run(e, s, a) == Collecting(s, a) && Run(e, Collecting(s, a), b) == Collecting(Collecting(s, a), b)
    ensures Run(e, s, a + b) == Collecting(s, a + b)
  {
    CollectAgain(s, a, b);
    calc {
      Run(e, s, a + b);
    == { RunAppend(e, s, a, b); }
      Run(e, Run(e, s, a), b);
    ==
      Run(e, Collecting(s, a), b);
    ==
      Collecting(Collecting(s, a), b);
    }
  }

  lemma CollectAgain(s: Reader, a: seq<Line>, b: seq<Line>)
    requires ReaderOk(s)
    ensures Collecting(Collecting(s, a), b) == Collecting(s, a + b)
  {
    assert s.body + a + b == s.body + (a + b);
  }

  lemma CollectOne(e: Oracle, s: Reader, line: Line)
    requires ReaderOk(s) && s.level > 0 && !line.For? && !line.Endfor?
    ensures Run(e, s, [line]) == Collecting(s, [line])
  {
    RunOne(e, s, line);
  }

  // While the body of a loop is collected, a whole block is just collected.
  lemma {:induction false} CollectBlock(e: Oracle, b: Block, s: Reader)
    requires ReaderOk(s) && s.level > 0 && BlockOk(b)
    ensures Run(e, s, Flatten(b)) == Collecting(s, Flatten(b))
    decreases b
  {
    match b
    case Nil =>
      assert s.body + [] == s.body;
    case Cons(st, rest) =>
      CollectStmt(e, st, s);
      CollectBlock(e, rest, Collecting(s, FlattenStmt(st)));
      CollectMore(e, s, FlattenStmt(st), Flatten(rest));
  }

  lemma {:induction false} CollectStmt(e: Oracle, st: Stmt, s: Reader)
    requires ReaderOk(s) && s.level > 0 && StmtOk(st)
    ensures Run(e, s, FlattenStmt(st)) == Collecting(s, FlattenStmt(st))
    decreases st
  {
    match st
    case Plain(line) =>
      CollectOne(e, s, line);
    case Loop(h, body) =>
      var s1 := Collecting(s, [For(h)]).(level := s.level + 1);
      RunCons(e, s, For(h), Flatten(body) + [Endfor]);
      CollectBlock(e, body, s1);
      RunAppend(e, s1, Flatten(body), [Endfor]);
      RunOne(e, Collecting(s1, Flatten(body)), Endfor);
      assert s.body + [For(h)] + Flatten(body) + [Endfor] == s.body + ([For(h)] + (Flatten(body) + [Endfor]));
    case Chain(c, b, rest) =>
      CollectOne(e, s, If(c));
      var s1 := Collecting(s, [If(c)]);
      CollectBlock(e, b, s1);
      CollectBranches(e, rest, Collecting(s1, Flatten(b)));
      CollectMore(e, s1, Flatten(b), FlattenBranches(rest));
      CollectMore(e, s, [If(c)], Flatten(b) + FlattenBranches(rest));
  }

  lemma {:induction false} CollectBranches(e: Oracle, t: Branches, s: Reader)
    requires ReaderOk(s) && s.level > 0 && BranchesOk(t)
    ensures Run(e, s, FlattenBranches(t)) == Collecting(s, FlattenBranches(t))
    decreases t
  {
    if t.End? {
      CollectOne(e, s, Endif);
    } else {
      var line := if t.ElifBranch? then Elif(t.cond) else Else;
      CollectOne(e, s, line);
      var s1 := Collecting(s, [line]);
      CollectBlock(e, t.block, s1);
      CollectBranches(e, t.rest, Collecting(s1, Flatten(t.block)));
      CollectMore(e, s1, Flatten(t.block), FlattenBranches(t.rest));
      CollectMore(e, s, [line], Flatten(t.block) + FlattenBranches(t.rest));
    }
  }

  // In an irrelevant branch, a whole block changes nothing: no line of it is delivered and no
  // condition of it is evaluated.
  lemma {:induction false} SkipBlock(e: Oracle, b: Block, s: Reader)
    requires ReaderOk(s) && s.level == 0 && !Top(s).active && BlockOk(b)
    ensures Run(e, s, Flatten(b)) == s
    decreases b
  {
    match b
    case Nil =>
    case Cons(st, rest) =>
      RunAppend(e, s, FlattenStmt(st), Flatten(rest));
      SkipStmt(e, st, s);
      SkipBlock(e, rest, s);
  }

  lemma {:induction false} SkipStmt(e: Oracle, st: Stmt, s: Reader)
    requires ReaderOk(s) && s.level == 0 && !Top(s).active && StmtOk(st)
    ensures Run(e, s, FlattenStmt(st)) == s
    decreases st
  {
    match st
    case Plain(line) =>
      RunOne(e, s, line);
    case Loop(h, body) =>
      RunCons(e, s, For(h), Flatten(body) + [Endfor]);
      RunAppend(e, s, Flatten(body), [Endfor]);
      SkipBlock(e, body, s);
      RunOne(e, s, Endfor);
    case Chain(c, b, rest) =>
      var s1 := s.(states := s.states + [IFS_WAS_ACTIVE]);
      RunCons(e, s, If(c), Flatten(b) + FlattenBranches(rest));
      RunAppend(e, s1, Flatten(b), FlattenBranches(rest));
      SkipBlock(e, b, s1);
      DeadBranches(e, rest, s1);
      assert s1.states[..|s1.states| - 1] == s.states;
  }

  // Once a branch was taken, or none can be, the rest of the conditional changes nothing.
  lemma {:induction false} DeadBranches(e: Oracle, t: Branches, s: Reader)
    requires ReaderOk(s) && s.level == 0 && Depth(s) > s.min && Top(s) != IFS_INITIAL && BranchesOk(t)
    ensures Run(e, s, FlattenBranches(t)) == s.(states := s.states[..|s.states| - 1])
    decreases t
  {
    if t.End? {
      RunOne(e, s, Endif);
    } else {
      var line := if t.ElifBranch? then Elif(t.cond) else Else;
      var s1 := Step(e, s, line);
      RunCons(e, s, line, Flatten(t.block) + FlattenBranches(t.rest));
      RunAppend(e, s1, Flatten(t.block), FlattenBranches(t.rest));
      SkipBlock(e, t.block, s1);
      DeadBranches(e, t.rest, s1);
      assert s1.states[..|s1.states| - 1] == s.states[..|s.states| - 1];
    }
  }

  ghost function BlockSize(b: Block): nat {
    match b
    case Nil => 0
    case Cons(s, rest) => 1 + StmtSize(s) + BlockSize(rest)
  }

  ghost function StmtSize(s: Stmt): nat {
    match s
    case Plain(_) => 0
    case Loop(_, body) => 1 + BlockSize(body)
    case Chain(_, b, rest) => 2 + BlockSize(b) + BranchesSize(rest)
  }

  ghost function BranchesSize(t: Branches): nat {
    match t
    case End => 0
    case ElifBranch(_, b, rest) => 2 + BlockSize(b) + BranchesSize(rest)
    case ElseBranch(b, rest) => 1 + BlockSize(b) + BranchesSize(rest)
  }

  // The reader delivers what the tree says, for every block.
  lemma {:induction false} ReadBlock(e: Oracle, b: Block, s: Reader)
    requires ReaderOk(s) && s.level == 0 && Top(s).active && BlockOk(b) && s.head == "" && s.body == []
    ensures Run(e, s, Flatten(b)) == s.(trace := Meaning(e, b, s.trace))
    decreases BlockSize(b)
  {
    match b
    case Nil =>
    case Cons(st, rest) =>
      var tr1 := StmtMeaning(e, st, s.trace);
      var s1 := s.(trace := tr1);
      ReadStmt(e, st, s);
      ReadBlock(e, rest, s1);
      RunAppend(e, s, FlattenStmt(st), Flatten(rest));
      assert Meaning(e, b, s.trace) == Meaning(e, rest, tr1);
  }

  lemma {:induction false} ReadStmt(e: Oracle, st: Stmt, s: Reader)
    requires ReaderOk(s) && s.level == 0 && Top(s).active && StmtOk(st) && s.head == "" && s.body == []
    ensures Run(e, s, FlattenStmt(st)) == s.(trace := StmtMeaning(e, st, s.trace))
    decreases StmtSize(st)
  {
    match st
    case Plain(line) =>
      RunOne(e, s, line);
    case Loop(h, body) =>
      var s1 := s.(level := 1, head := h, body := []);
      RunCons(e, s, For(h), Flatten(body) + [Endfor]);
      RunAppend(e, s1, Flatten(body), [Endfor]);
      CollectBlock(e, body, s1);
      RunOne(e, Collecting(s1, Flatten(body)), Endfor);
      assert [] + Flatten(body) == Flatten(body);
    case Chain(c, b, rest) =>
      var s0 := s.(states := s.states + [IFS_INITIAL]);
      RunCons(e, s, If(c), Flatten(b) + FlattenBranches(rest));
      ReadBranch(e, c, b, rest, s0);
      assert s0.states[..|s0.states| - 1] == s.states;
  }

  // A branch whose condition is evaluated, and what follows it.
  lemma {:induction false} ReadBranch(e: Oracle, c: Cond, b: Block, t: Branches, s: Reader)
    requires ReaderOk(s) && s.level == 0 && Depth(s) > s.min && Top(s) == IFS_INITIAL
    requires BlockOk(b) && BranchesOk(t) && s.head == "" && s.body == []
    ensures Run(e, EvalCond(e, s, c).1, Flatten(b) + FlattenBranches(t)) ==
            var tr1 := s.trace + [Evaluated(c)];
            s.(states := s.states[..|s.states| - 1],
               trace := match e(s.trace, c)
                        case CR_TRUE => Meaning(e, b, tr1)
                        case CR_FALSE => BranchesMeaning(e, t, tr1)
                        case CR_ERROR => tr1)
    decreases 1 + BlockSize(b) + BranchesSize(t)
  {
    var s1 := EvalCond(e, s, c).1;
    RunAppend(e, s1, Flatten(b), FlattenBranches(t));
    assert s1.states[..|s1.states| - 1] == s.states[..|s.states| - 1];
    match e(s.trace, c)
    case CR_TRUE =>
      ReadBlock(e, b, s1);
      DeadBranches(e, t, s1.(trace := Meaning(e, b, s1.trace)));
    case CR_FALSE =>
      SkipBlock(e, b, s1);
      ReadBranches(e, t, s1);
    case CR_ERROR =>
      SkipBlock(e, b, s1);
      DeadBranches(e, t, s1);
  }

  // The branches after one whose condition was false.
  lemma {:induction false} ReadBranches(e: Oracle, t: Branches, s: Reader)
    requires ReaderOk(s) && s.level == 0 && Depth(s) > s.min && Top(s) == IFS_INITIAL && BranchesOk(t)
    requires s.head == "" && s.body == []
    ensures Run(e, s, FlattenBranches(t)) ==
            s.(states := s.states[..|s.states| - 1], trace := BranchesMeaning(e, t, s.trace))
    decreases BranchesSize(t)
  {
    match t
    case End =>
      RunOne(e, s, Endif);
    case ElifBranch(c, b, rest) =>
      RunCons(e, s, Elif(c), Flatten(b) + FlattenBranches(rest));
      ReadBranch(e, c, b, rest, s);
    case ElseBranch(b, rest) =>
      var s1 := Step(e, s, Else);
      RunCons(e, s, Else, Flatten(b) + FlattenBranches(rest));
      RunAppend(e, s1, Flatten(b), FlattenBranches(rest));
      ReadBlock(e, b, s1);
      DeadBranches(e, rest, s1.(trace := Meaning(e, b, s1.trace)));
      assert s1.states[..|s1.states| - 1] == s.states[..|s.states| - 1];
  }

  // For every properly nested text, reading it to the end of the file gives exactly the events
  // of its tree and leaves everything else as it was.
  lemma FileMeaning(e: Oracle, b: Block, s: Reader)
    requires AtStart(s) && BlockOk(b)
    ensures EndFile(Run(e, s, Flatten(b))) == s.(trace := Meaning(e, b, s.trace))
  {
    ReadBlock(e, b, s);
    EndUntouched(s, Meaning(e, b, s.trace));
  }

  lemma EndUntouched(s: Reader, tr: seq<Event>)
    requires AtStart(s)
    ensures EndFile(s.(trace := tr)) == s.(trace := tr)
  {
    assert s.states[..s.min + 1] == s.states;
  }

  // ---------------------------------------------------------------- any text

  // The text has the `.endif` of a conditional inside which d others are open.
  predicate Closes(d: nat, lines: seq<Line>)
    decreases lines
  {
    lines != [] && match lines[0] {
      case If(_) => Closes(d + 1, lines[1..])
      case Endif => d == 0 || Closes(d - 1, lines[1..])
      case _ => Closes(d, lines[1..])
    }
  }

  // A branch of the conditional at depth b was taken before, and nothing in it is relevant now.
  ghost predicate Spent(s: Reader, b: nat) {
    && s.min < b < |s.states| && s.level == 0
    && forall i :: b <= i < |s.states| ==> !s.states[i].active && s.states[i].wasActive
  }

  lemma SpentStep(e: Oracle, s: Reader, b: nat, line: Line)
    requires Spent(s, b) && (line.Endif? ==> |s.states| > b + 1)
    ensures Spent(Step(e, s, line), b) && Step(e, s, line).trace == s.trace
    ensures |Step(e, s, line).states| == |s.states| + (if line.If? then 1 else if line.Endif? then -1 else 0)
  {
  }

  lemma {:induction false} SpentRun(e: Oracle, s: Reader, b: nat, lines: seq<Line>)
    requires Spent(s, b) && !Closes(|s.states| - 1 - b, lines)
    ensures Spent(Run(e, s, lines), b) && Run(e, s, lines).trace == s.trace
    decreases lines
  {
    if lines != [] {
      SpentStep(e, s, b, lines[0]);
      SpentRun(e, Step(e, s, lines[0]), b, lines[1..]);
    }
  }

  // In any text, nested or not and with any number of `.else`: after the branch that was taken,
  // nothing is delivered, run or evaluated up to the `.endif` of the conditional.
  lemma OneBranchOnly(e: Oracle, s: Reader, line: Line, lines: seq<Line>)
    requires ReaderOk(s) && Depth(s) > s.min && s.level == 0 && Top(s).active
    requires (line.Else? || line.Elif?) && !Closes(0, lines)
    ensures Run(e, s, [line] + lines).trace == s.trace
  {
    RunCons(e, s, line, lines);
    SpentRun(e, Step(e, s, line), Depth(s), lines);
  }
}
