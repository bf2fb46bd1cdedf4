/**
CollectOutput of job.c: the fixed buffer of a job, filled by reads of any size, and the loops
over it.
*/
module JobOutput {
  import opened Output

  // The string that a NUL ends.
  function CString(s: string): string {
    if s == "" || s[0] == '\0' then "" else [s[0]] + CString(s[1..])
  }

  lemma {:induction false} CStringEnds(s: string, i: nat)
    requires i < |s| && s[i] == '\0' && NoNul(s[..i])
    ensures CString(s) == s[..i]
  {
    if i > 0 {
      assert s[..i][0] != '\0';
      assert s[1..][..i - 1] == s[..i][1..];
      CStringEnds(s[1..], i - 1);
      assert s[..i] == [s[0]] + s[1..][..i - 1];
    }
  }

  // What is known of the text when all of it has come through the buffer so far. The buffer
  // holds the end of the text, with no newline in it.
  ghost predicate TextOk(received: string, printed: string, buffered: string, flushed: bool) {
    && BufferOk(received, buffered)
    && Visible(printed) + Visible(buffered) == Visible(Spaced(received))
    && (!flushed ==> AtLineStart(printed) && Squeezed(printed + buffered) == Squeezed(Spaced(received)))
    && (flushed ==> LongLine(received))
  }

  ghost predicate LineAt(s: string, k: nat) {
    k + JOB_BUFSIZE <= |s| && forall j :: k <= j < k + JOB_BUFSIZE ==> s[j] != '\n'
  }

  // Some line is as long as the buffer.
  ghost predicate LongLine(s: string) {
    exists k: nat :: LineAt(s, k)
  }

  lemma LongLineGrows(s: string, t: string)
    requires LongLine(s)
    ensures LongLine(s + t)
  {
    var k: nat :| LineAt(s, k);
    assert LineAt(s + t, k);
  }

  // The buffer, once it is full, holds a long line.
  lemma FullBuffer(s: string, data: string)
    requires |data| == JOB_BUFSIZE <= |s| && NoNewline(data) && data == Spaced(s)[|s| - |data|..]
    ensures LongLine(s)
  {
    var k := |s| - JOB_BUFSIZE;
    forall j | k <= j < k + JOB_BUFSIZE ensures s[j] != '\n' {
      assert data[j - k] == Spaced(s)[j];
    }
    assert LineAt(s, k);
  }

  lemma SpacedAppend(a: string, b: string)
    ensures Spaced(a + b) == Spaced(a) + Spaced(b)
  {
  }

  // The data in the buffer after a read is the end of what was received.
  lemma DataIsSuffix(received: string, buffered: string, chunk: string)
    requires |buffered| <= |received| && buffered == Spaced(received)[|received| - |buffered|..]
    ensures buffered + Spaced(chunk) == Spaced(received + chunk)[|received| - |buffered|..]
  {
    SpacedAppend(received, chunk);
  }

  // What stays in the buffer.
  ghost predicate BufferOk(received: string, buffered: string) {
    && |buffered| < JOB_BUFSIZE && NoNul(buffered) && NoNewline(buffered)
    && |buffered| <= |received| && buffered == Spaced(received)[|received| - |buffered|..]
  }

  lemma LineBuffer(all: string, data: string, i: nat)
    requires |data| <= JOB_BUFSIZE && NoNul(data) && |data| <= |all| && data == Spaced(all)[|all| - |data|..]
    requires i < |data| && forall k :: i < k < |data| ==> data[k] != '\n'
    ensures BufferOk(all, PrintLine(data, i).rest)
  {
    var rest := data[i + 1..];
    assert rest == Spaced(all)[|all| - |rest|..];
  }

  lemma DispatchBuffer(all: string, buffered: string, data: string)
    requires |data| <= JOB_BUFSIZE && NoNul(data) && |data| <= |all| && data == Spaced(all)[|all| - |data|..]
    requires NoNewline(buffered) && buffered <= data
    ensures BufferOk(all, Dispatch(data, |buffered|).rest)
    ensures LastNewline(data, |buffered|) < 0 && |data| == JOB_BUFSIZE ==> LongLine(all)
  {
    var i := LastNewline(data, |buffered|);
    LastNewlineIsLast(data, |buffered|);
    if i >= 0 {
      LineBuffer(all, data, i);
    } else {
      NoLine(all, buffered, data);
    }
  }

  lemma CollectBuffer(received: string, buffered: string, chunk: string)
    requires BufferOk(received, buffered) && |buffered| + |chunk| <= JOB_BUFSIZE
    ensures BufferOk(received + chunk, Collect(buffered, chunk).rest)
    ensures Overflows(buffered, chunk) ==> LongLine(received + chunk)
  {
    DataIsSuffix(received, buffered, chunk);
    DispatchBuffer(received + chunk, buffered, buffered + Spaced(chunk));
  }

  lemma NoLine(all: string, buffered: string, data: string)
    requires |data| <= JOB_BUFSIZE && NoNul(data) && |data| <= |all| && data == Spaced(all)[|all| - |data|..]
    requires NoNewline(buffered) && buffered <= data && forall k :: |buffered| <= k < |data| ==> data[k] != '\n'
    ensures NoNewline(data)
    ensures if |data| == JOB_BUFSIZE then LongLine(all) && BufferOk(all, "") else BufferOk(all, data)
  {
    if |data| == JOB_BUFSIZE {
      FullBuffer(all, data);
    }
  }

  lemma TextStep(received: string, printed: string, buffered: string, flushed: bool, chunk: string)
    requires TextOk(received, printed, buffered, flushed) && |buffered| + |chunk| <= JOB_BUFSIZE
    ensures var s := Collect(buffered, chunk);
      TextOk(received + chunk, printed + s.out, s.rest, flushed || Overflows(buffered, chunk))
  {
    CollectBuffer(received, buffered, chunk);
    TextVisible(received, printed, buffered, chunk);
    if flushed {
      LongLineGrows(received, chunk);
    } else if !Overflows(buffered, chunk) {
      TextSqueezed(received, printed, buffered, chunk);
    }
  }

  lemma TextVisible(received: string, printed: string, buffered: string, chunk: string)
    requires Visible(printed) + Visible(buffered) == Visible(Spaced(received))
    ensures var s := Collect(buffered, chunk); Visible(printed + s.out) + Visible(s.rest) == Visible(Spaced(received + chunk))
  {
    var s := Collect(buffered, chunk);
    SpacedAppend(received, chunk);
    CollectVisible(buffered, chunk);
    VisibleChain(printed, buffered, Spaced(received), Spaced(chunk), s.out, s.rest);
  }

  lemma VisibleChain(printed: string, buffered: string, received: string, chunk: string, out: string, rest: string)
    requires Visible(printed) + Visible(buffered) == Visible(received)
    requires Visible(out) + Visible(rest) == Visible(buffered + chunk)
    ensures Visible(printed + out) + Visible(rest) == Visible(received + chunk)
  {
    VisibleAppend(received, chunk);
    VisibleAppend(buffered, chunk);
    VisibleAppend(printed, out);
    Regroup(Visible(printed), Visible(buffered), Visible(chunk), Visible(out), Visible(rest));
  }

  lemma Regroup(a: string, b: string, c: string, out: string, rest: string)
    requires out + rest == b + c
    ensures (a + out) + rest == (a + b) + c
  {
    assert (a + out) + rest == a + (out + rest);
    assert (a + b) + c == a + (b + c);
  }

  lemma TextSqueezed(received: string, printed: string, buffered: string, chunk: string)
    requires AtLineStart(printed) && Squeezed(printed + buffered) == Squeezed(Spaced(received))
    requires !Overflows(buffered, chunk)
    ensures var s := Collect(buffered, chunk);
      AtLineStart(printed + s.out) && Squeezed(printed + s.out + s.rest) == Squeezed(Spaced(received + chunk))
  {
    SpacedAppend(received, chunk);
    SqueezedAppend(printed + buffered, Spaced(received), Spaced(chunk));
    assert printed + buffered + Spaced(chunk) == printed + (buffered + Spaced(chunk));
    CollectSqueezed(printed, buffered, chunk);
  }

  // ---------------------------------------------------------------- any number of reads

  // A row of reads; the end of file counts as a newline if there is something in the buffer.
  datatype History = Start | Then(before: History, chunk: string)

  datatype Text = Text(printed: string, buffered: string)

  // What comes of a row of reads.
  function Run(h: History): Text {
    if h.Start? then Text("", "") else
      var t := Run(h.before);
      var s := Collect(t.buffered, h.chunk);
      Text(t.printed + s.out, s.rest)
  }

  // Every read asks for as much as there is room for.
  predicate Fits(h: History) {
    h.Then? ==> Fits(h.before) && |Run(h.before).buffered| + |h.chunk| <= JOB_BUFSIZE
  }

  predicate Flushed(h: History) {
    h.Then? && (Flushed(h.before) || Overflows(Run(h.before).buffered, h.chunk))
  }

  function Received(h: History): string {
    if h.Start? then "" else Received(h.before) + h.chunk
  }

  lemma {:induction false} RunIsOk(h: History)
    requires Fits(h)
    ensures TextOk(Received(h), Run(h).printed, Run(h).buffered, Flushed(h))
  {
    if h.Then? {
      var t := Run(h.before);
      RunIsOk(h.before);
      TextStep(Received(h.before), t.printed, t.buffered, Flushed(h.before), h.chunk);
    }
  }

  lemma BufferHasNoNul(h: History)
    requires Fits(h)
    ensures NoNul(Run(h).buffered)
  {
    RunIsOk(h);
  }

  // However the output of the child is split into reads: nothing but newlines is added or lost,
  // and as long as every line is shorter than the buffer, the non-empty lines are the same.
  lemma OutputIsKept(h: History)
    requires Fits(h)
    ensures Visible(Run(h).printed) + Visible(Run(h).buffered) == Visible(Spaced(Received(h)))
    ensures |Run(h).buffered| < JOB_BUFSIZE
    ensures !LongLine(Received(h)) ==> Squeezed(Run(h).printed + Run(h).buffered) == Squeezed(Spaced(Received(h)))
  {
    RunIsOk(h);
  }

  // The text received, with spaces for NULs and without the newlines that were dropped.
  function Shown(h: History): string {
    if h.Start? then "" else Shown(h.before) + Shows(Run(h.before).buffered, h.chunk)
  }

  // How many of them there were.
  function Drops(h: History): nat {
    if h.Start? then 0 else Drops(h.before) + if DropsNewline(Run(h.before).buffered, h.chunk) then 1 else 0
  }

  // What is printed, with what is in the buffer, is that text, character by character. Nothing is
  // left in the buffer that is a line, and nothing is printed that is not, unless a line was as
  // long as the buffer.
  lemma OutputExactly(h: History)
    requires Fits(h)
    ensures Run(h).printed + Run(h).buffered == Shown(h)
    ensures NoNewline(Run(h).buffered) && (!LongLine(Received(h)) ==> AtLineStart(Run(h).printed))
  {
    RunIsOk(h);
    RunIsShown(h);
  }

  lemma {:induction false} RunIsShown(h: History)
    ensures Run(h).printed + Run(h).buffered == Shown(h)
  {
    if h.Then? {
      var t := Run(h.before);
      var s, shows := Collect(t.buffered, h.chunk), Shows(t.buffered, h.chunk);
      RunIsShown(h.before);
      CollectExactly(t.buffered, h.chunk);
      Regroup(t.printed, t.buffered, shows, s.out, s.rest);
    }
  }

  // If no read drops a newline, the text comes through unchanged.
  lemma {:induction false} NothingDropped(h: History)
    requires Drops(h) == 0
    ensures Shown(h) == Spaced(Received(h))
  {
    if h.Then? {
      NothingDropped(h.before);
      SpacedAppend(Received(h.before), h.chunk);
    }
  }

  // In general, exactly the dropped newlines are missing.
  lemma {:induction false} NewlinesCounted(h: History)
    requires Fits(h)
    ensures Newlines(Run(h).printed) + Drops(h) == Newlines(Received(h))
    ensures |Run(h).printed + Run(h).buffered| + Drops(h) == |Received(h)|
  {
    OutputExactly(h);
    ShownCounted(h);
    NewlinesAppend(Run(h).printed, Run(h).buffered);
    NewlinesNone(Run(h).buffered);
  }

  lemma {:induction false} ShownCounted(h: History)
    ensures Newlines(Shown(h)) + Drops(h) == Newlines(Received(h)) && |Shown(h)| + Drops(h) == |Received(h)|
  {
    if h.Then? {
      ShownCounted(h.before);
      var text := Spaced(h.chunk);
      NewlinesSpaced(h.chunk);
      NewlinesAppend(Received(h.before), h.chunk);
      if DropsNewline(Run(h.before).buffered, h.chunk) {
        NewlinesAppend(Shown(h.before), text[1..]);
        assert text == "\n" + text[1..] && Newlines("\n") == 1;
        NewlinesAppend("\n", text[1..]);
      } else {
        NewlinesAppend(Shown(h.before), text);
      }
    }
  }

  lemma {:induction false} NewlinesSpaced(s: string)
    ensures Newlines(Spaced(s)) == Newlines(s)
  {
    if s != "" {
      assert Spaced(s)[..|s| - 1] == Spaced(s[..|s| - 1]);
      NewlinesSpaced(s[..|s| - 1]);
    }
  }

  // Whether some read of the row loses a newline.
  predicate LosesAny(h: History) {
    h.Then? && (LosesAny(h.before) || LosesNewline(Run(h.before).printed, Run(h.before).buffered, h.chunk))
  }

  // Also with overlong lines, the non-empty lines are the same as long as no read loses a
  // newline; a read that does changes them.
  lemma {:induction false} LinesAreKept(h: History)
    requires !LosesAny(h)
    ensures Squeezed(Run(h).printed + Run(h).buffered) == Squeezed(Spaced(Received(h)))
  {
    if h.Then? {
      var t := Run(h.before);
      LinesAreKept(h.before);
      ReadKeepsLines(t.printed, t.buffered, h.chunk);
      KeptAgain(Received(h.before), t.printed, t.buffered, h.chunk);
    }
  }

  lemma KeptAgain(received: string, printed: string, buffered: string, chunk: string)
    requires Squeezed(printed + buffered) == Squeezed(Spaced(received))
    ensures Squeezed(printed + (buffered + Spaced(chunk))) == Squeezed(Spaced(received + chunk))
  {
    SpacedAppend(received, chunk);
    SqueezedAppend(printed + buffered, Spaced(received), Spaced(chunk));
    assert printed + buffered + Spaced(chunk) == printed + (buffered + Spaced(chunk));
  }

  // A line that fills the buffer exactly loses its newline, if that comes with the next read:
  // the line is printed, and what comes next follows it on the same line.
  lemma LineEndIsLost(h: History, line: string)
    requires Fits(h) && Run(h).buffered == "" && |line| == JOB_BUFSIZE && NoNewline(line) && NoNul(line)
    ensures var more := Then(Then(h, line), "\n");
      Fits(more) && Run(more) == Text(Run(h).printed + line, "") && Received(more) == Received(h) + line + "\n"
    ensures Squeezed(Spaced(line + "\n")) == Squeezed(line) + "\n"
  {
    FullLine(line);
    NewlineAlone();
    var printed := Run(h).printed;
    assert Run(Then(h, line)) == Text(printed + line, "");
    assert printed + line + "" == printed + line;
    SqueezedLine(line);
  }

  lemma SqueezedLine(line: string)
    requires line != "" && NoNewline(line) && NoNul(line)
    ensures Squeezed(Spaced(line + "\n")) == Squeezed(line) + "\n"
  {
    assert Spaced(line + "\n") == line + "\n" && (line + "\n")[..|line|] == line;
    assert line[|line| - 1] != '\n';
  }

  lemma FullLine(line: string)
    requires |line| == JOB_BUFSIZE && NoNewline(line) && NoNul(line)
    ensures Collect("", line) == Step(line, "")
  {
    assert "" + Spaced(line) == line;
    LastNewlineIsLast(line, 0);
  }

  lemma NewlineAlone()
    ensures Collect("", "\n") == Step("", "")
  {
    assert "" + Spaced("\n") == "\n";
  }

  class Job {
    const outBuf: array<char>
    var curPos: nat
    var printed: string                // what make has written for this job
    var pipe: string                   // what the child has written and make has not read
    ghost var history: History

    ghost predicate Valid()
      reads this, outBuf
    {
      && outBuf.Length == JOB_BUFSIZE + 1 && curPos < JOB_BUFSIZE
      && Fits(history) && Run(history) == Text(printed, outBuf[..curPos])
    }

    constructor (pipe: string)
      ensures Valid() && fresh(outBuf) && curPos == 0 && printed == "" && this.pipe == pipe && history == Start
    {
      outBuf := new char[JOB_BUFSIZE + 1];
      curPos, printed, this.pipe, history := 0, "", pipe, Start;
    }

    // read(2): some of what is in the pipe, as long as it fits. Zero stands for the end of file,
    // or for an error; again says that the child has not written anything yet.
    method Read() returns (nr: nat, again: bool)
      requires outBuf.Length == JOB_BUFSIZE + 1 && curPos < JOB_BUFSIZE
      modifies this`pipe, outBuf
      ensures nr <= |old(pipe)| && curPos + nr <= JOB_BUFSIZE && pipe == old(pipe)[nr..]
      ensures outBuf[..curPos + nr] == old(outBuf[..curPos]) + old(pipe)[..nr]
      ensures again ==> nr == 0
    {
      nr, again := *, *;
      if again || nr > |pipe| || curPos + nr > JOB_BUFSIZE {
        nr := 0;
      }
      var k := 0;
      while k < nr
        invariant k <= nr && outBuf[..curPos + k] == old(outBuf[..curPos]) + pipe[..k]
        modifies outBuf
      {
        outBuf[curPos + k] := pipe[k];
        k := k + 1;
      }
      pipe := pipe[nr..];
    }

    // The bytes just read, with spaces for NULs.
    method ReplaceNuls(max: nat)
      requires curPos <= max <= JOB_BUFSIZE < outBuf.Length
      modifies outBuf
      ensures outBuf[..max] == old(outBuf[..curPos]) + Spaced(old(outBuf[curPos..max]))
    {
      var i := curPos;
      while i < max
        invariant curPos <= i <= max
        invariant forall k :: 0 <= k < outBuf.Length ==>
                    outBuf[k] == if curPos <= k < i then Space(old(outBuf[k])) else old(outBuf[k])
      {
        if outBuf[i] == '\0' {
          outBuf[i] := ' ';
        }
        i := i + 1;
      }
    }

    method FindNewline(max: nat) returns (i: int)
      requires curPos <= max <= outBuf.Length
      ensures i == LastNewline(outBuf[..max], curPos)
    {
      i := max - 1;
      while i >= curPos && outBuf[i] != '\n'
        invariant curPos - 1 <= i < max
        invariant LastNewline(outBuf[..max], curPos) == LastNewline(outBuf[..i + 1], curPos)
      {
        assert outBuf[..i + 1][..i] == outBuf[..i];
        i := i - 1;
      }
      if i < curPos {
        i := -1;
      }
    }

    // memmove of what follows the printed text.
    method MoveDown(from: nat, max: nat)
      requires from <= max <= outBuf.Length
      modifies outBuf
      ensures outBuf[..max - from] == old(outBuf[from..max])
    {
      var k := 0;
      while k < max - from
        invariant k <= max - from
        invariant forall j :: 0 <= j < k ==> outBuf[j] == old(outBuf[from + j])
        invariant forall j :: k <= j < outBuf.Length ==> outBuf[j] == old(outBuf[j])
      {
        outBuf[k] := outBuf[from + k];
        k := k + 1;
      }
    }

    // Print the buffer up to i, where a newline was or where the data ends, and keep the rest.
    method Print(i: nat, max: nat, gotNL: bool) returns (ghost out: string)
      requires outBuf.Length == JOB_BUFSIZE + 1 && max <= JOB_BUFSIZE && NoNul(outBuf[..max])
      requires if gotNL then i < max else i == max > 0
      modifies this`curPos, this`printed, outBuf
      ensures printed == old(printed) + out && curPos <= max && (max > 0 ==> curPos < max)
      ensures var data := old(outBuf[..max]);
        Step(out, outBuf[..curPos]) == if gotNL then PrintLine(data, i) else Step(data, "")
    {
      ghost var data := outBuf[..max];
      outBuf[i] := '\0';
      assert outBuf[..i] == data[..i];
      CStringEnds(outBuf[..], i);
      var p := CString(outBuf[..]);
      out := "";
      if p != "" {
        out := p + if gotNL then "\n" else "";
        printed := printed + (p + if gotNL then "\n" else "");
      }
      if i < max {
        assert outBuf[i + 1..max] == data[i + 1..];
        MoveDown(i + 1, max);
        curPos := max - (i + 1);
      } else {
        curPos := 0;
      }
    }

    // The end of CollectOutput, with nr new bytes in the buffer: print what is complete.
    method PrintComplete(nr: nat) returns (ghost out: string)
      requires outBuf.Length == JOB_BUFSIZE + 1 && curPos < JOB_BUFSIZE && curPos + nr <= JOB_BUFSIZE
      requires NoNul(outBuf[..curPos + nr])
      modifies this`curPos, this`printed, outBuf
      ensures curPos < JOB_BUFSIZE && printed == old(printed) + out
      ensures Step(out, outBuf[..curPos]) == Dispatch(old(outBuf[..curPos + nr]), old(curPos))
    {
      var max := curPos + nr;
      var i := FindNewline(max);
      out := "";
      if i >= 0 {
        out := Print(i, max, true);
      } else {
        curPos := curPos + nr;
        if curPos == JOB_BUFSIZE {
          out := Print(curPos, max, false);
        }
      }
    }

    // The part of CollectOutput after the read.
    method Process(nr: nat, ghost buffered: string, ghost chunk: string) returns (ghost out: string)
      requires outBuf.Length == JOB_BUFSIZE + 1 && curPos < JOB_BUFSIZE && NoNul(buffered)
      requires curPos + nr <= JOB_BUFSIZE && outBuf[..curPos] == buffered && outBuf[curPos..curPos + nr] == chunk
      modifies this`curPos, this`printed, outBuf
      ensures curPos < JOB_BUFSIZE && printed == old(printed) + out
      ensures Step(out, outBuf[..curPos]) == Collect(buffered, chunk)
    {
      ReplaceNuls(curPos + nr);
      assert outBuf[..curPos + nr] == buffered + Spaced(chunk);
      SpacedNoNul(buffered, chunk);
      out := PrintComplete(nr);
    }

    // One read, with a newline for the end of file if there is something left in the buffer.
    method ReadChunk() returns (nr: nat, eof: bool, again: bool, ghost chunk: string)
      requires outBuf.Length == JOB_BUFSIZE + 1 && curPos < JOB_BUFSIZE
      modifies this`pipe, outBuf
      ensures curPos + nr <= JOB_BUFSIZE && !(eof && again) && |chunk| == nr
      ensures outBuf[..curPos + nr] == old(outBuf[..curPos]) + chunk
      ensures if eof then chunk == (if curPos == 0 then "" else "\n") && pipe == old(pipe) else old(pipe) == chunk + pipe
      ensures again ==> nr == 0
      ensures !eof && !again ==> nr > 0
    {
      nr, again := Read();
      chunk := old(pipe)[..nr];
      eof := nr == 0 && !again;
      if eof && curPos != 0 {
        outBuf[curPos] := '\n';
        nr, chunk := 1, "\n";
        assert outBuf[..curPos + 1] == outBuf[..curPos] + "\n";
      }
    }

    // The part of CollectOutput after the read, with the read entered into the history.
    method Absorb(nr: nat, ghost buffered: string, ghost chunk: string)
      requires outBuf.Length == JOB_BUFSIZE + 1 && curPos < JOB_BUFSIZE
      requires Fits(history) && Run(history) == Text(printed, buffered)
      requires curPos + nr <= JOB_BUFSIZE && outBuf[..curPos] == buffered && outBuf[curPos..curPos + nr] == chunk
      modifies this`curPos, this`printed, this`history, outBuf
      ensures Valid() && history == Then(old(history), chunk)
      ensures chunk == (if buffered == "" then "" else "\n") ==> curPos == 0
    {
      BufferHasNoNul(history);
      EndOfFile(buffered, chunk);
      ghost var out := Process(nr, buffered, chunk);
      history := Then(history, chunk);
    }

    // One round of CollectOutput.
    method CollectOnce() returns (eof: bool, again: bool, ghost chunk: string)
      requires Valid()
      modifies this, outBuf
      ensures Valid() && !(eof && again) && history == if again then old(history) else Then(old(history), chunk)
      ensures eof ==> (chunk == "" || chunk == "\n") && pipe == old(pipe) && curPos == 0
      ensures !eof ==> old(pipe) == chunk + pipe && (again <==> chunk == "")
    {
      ghost var buffered := outBuf[..curPos];
      var nr;
      nr, eof, again, chunk := ReadChunk();
      assert outBuf[..curPos] == buffered && outBuf[curPos..curPos + nr] == chunk;
      if !again {
        Absorb(nr, buffered, chunk);
      }
    }

    // CollectOutput: with finish, read until the end of file, when everything has been printed.
    method CollectOutput(finish: bool) returns (eof: bool, again: bool, ghost bytes: string)
      requires Valid()
      modifies this, outBuf
      ensures Valid() && old(pipe) == bytes + pipe
      ensures finish ==> eof || again
      ensures eof ==> curPos == 0
      ensures Took(Received(old(history)), bytes, Received(history), eof)
    {
      eof, again, bytes := false, false, "";
      var loop := true;
      while loop
        invariant Valid() && old(pipe) == bytes + pipe && (eof ==> curPos == 0)
        invariant loop ==> !eof && !again
        invariant !loop && finish ==> eof || again
        invariant Took(Received(old(history)), bytes, Received(history), eof)
        decreases loop, |pipe|
      {
        ghost var before, rest, chunk := Received(history), pipe, "";
        eof, again, chunk := CollectOnce();
        assert Received(history) == before + chunk;
        TookMore(Received(old(history)), bytes, before, chunk, Received(history), eof);
        if !eof {
          PipeMore(old(pipe), bytes, rest, chunk, pipe);
          bytes := bytes + chunk;
        }
        loop := finish && !eof && !again;
      }
    }
  }

  // The bytes read, and perhaps a newline for the end of file, were received.
  ghost predicate Took(before: string, bytes: string, now: string, eof: bool) {
    now == before + bytes || (eof && now == before + bytes + "\n")
  }

  lemma TookMore(before: string, bytes: string, mid: string, chunk: string, now: string, eof: bool)
    requires Took(before, bytes, mid, false) && now == mid + chunk && (eof ==> chunk == "" || chunk == "\n")
    ensures Took(before, if eof then bytes else bytes + chunk, now, eof)
  {
    if eof {
      if chunk == "" {
        assert mid + chunk == mid;
      }
    } else {
      assert (before + bytes) + chunk == before + (bytes + chunk);
    }
  }

  lemma PipeMore(all: string, bytes: string, rest: string, chunk: string, left: string)
    requires all == bytes + rest && rest == chunk + left
    ensures all == (bytes + chunk) + left
  {
  }

  lemma SpacedNoNul(buffered: string, chunk: string)
    requires NoNul(buffered)
    ensures NoNul(buffered + Spaced(chunk))
  {
  }

  // The newline that the end of file is taken for empties the buffer.
  lemma EndOfFile(buffered: string, chunk: string)
    ensures chunk == (if buffered == "" then "" else "\n") ==> Collect(buffered, chunk).rest == ""
  {
    var data := buffered + Spaced(chunk);
    if chunk == "\n" {
      assert data[|data| - 1] == '\n';
    }
  }
}
