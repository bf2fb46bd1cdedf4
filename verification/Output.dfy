/**
How make collects the output of a child process: a small buffer per job, from which whole
lines are printed as they become complete. What is read is compared with what is printed.
*/
module Output {
  const JOB_BUFSIZE: nat := 1024

  // ---------------------------------------------------------------- text

  function Space(c: char): char { if c == '\0' then ' ' else c }

  // NUL bytes become spaces.
  function Spaced(s: string): (r: string)
    ensures |r| == |s| && forall k :: 0 <= k < |s| ==> r[k] == Space(s[k])
  {
    seq(|s|, k requires 0 <= k < |s| => Space(s[k]))
  }

  // The text without its newlines.
  function Visible(s: string): string {
    if s == "" then "" else
      var c := s[|s| - 1];
      Visible(s[..|s| - 1]) + if c == '\n' then "" else [c]
  }

  // The text with its empty lines left out.
  function Squeezed(s: string): string {
    if s == "" then "" else
      var before, c := Squeezed(s[..|s| - 1]), s[|s| - 1];
      if c == '\n' && AtLineStart(before) then before else before + [c]
  }

  predicate AtLineStart(s: string) { s == "" || s[|s| - 1] == '\n' }

  predicate NoNewline(s: string) { forall k :: 0 <= k < |s| ==> s[k] != '\n' }

  predicate NoNul(s: string) { forall k :: 0 <= k < |s| ==> s[k] != '\0' }

  lemma {:induction false} VisibleAppend(a: string, b: string)
    ensures Visible(a + b) == Visible(a) + Visible(b)
  {
    if b == "" {
      assert a + b == a;
    } else {
      assert (a + b)[..|a + b| - 1] == a + b[..|b| - 1];
      VisibleAppend(a, b[..|b| - 1]);
    }
  }

  lemma {:induction false} SqueezedAppend(a: string, b: string, c: string)
    requires Squeezed(a) == Squeezed(b)
    ensures Squeezed(a + c) == Squeezed(b + c)
  {
    if c == "" {
      assert a + c == a && b + c == b;
    } else {
      assert (a + c)[..|a + c| - 1] == a + c[..|c| - 1];
      assert (b + c)[..|b + c| - 1] == b + c[..|c| - 1];
      SqueezedAppend(a, b, c[..|c| - 1]);
    }
  }

  function Newlines(s: string): nat {
    if s == "" then 0 else Newlines(s[..|s| - 1]) + if s[|s| - 1] == '\n' then 1 else 0
  }

  lemma {:induction false} NewlinesAppend(a: string, b: string)
    ensures Newlines(a + b) == Newlines(a) + Newlines(b)
  {
    if b == "" {
      assert a + b == a;
    } else {
      assert (a + b)[..|a + b| - 1] == a + b[..|b| - 1];
      NewlinesAppend(a, b[..|b| - 1]);
    }
  }

  lemma {:induction false} NewlinesNone(s: string)
    requires NoNewline(s)
    ensures Newlines(s) == 0
  {
    if s != "" {
      NewlinesNone(s[..|s| - 1]);
    }
  }

  lemma SqueezedNewline(a: string)
    requires AtLineStart(a)
    ensures Squeezed(a + "\n") == Squeezed(a)
  {
    assert (a + "\n")[..|a|] == a;
  }

  // ---------------------------------------------------------------- one read

  // What one read makes of the buffer: what is printed, and what stays.
  datatype Step = Step(out: string, rest: string)

  // The last newline in s at or after from, or -1.
  function LastNewline(s: string, from: nat): (i: int)
    requires from <= |s|
    ensures i == -1 || from <= i < |s|
    decreases |s|
  {
    if |s| == from then -1 else if s[|s| - 1] == '\n' then |s| - 1 else LastNewline(s[..|s| - 1], from)
  }

  lemma {:induction false} LastNewlineIsLast(s: string, from: nat)
    requires from <= |s|
    ensures var i := LastNewline(s, from);
      && (i == -1 ==> forall k :: from <= k < |s| ==> s[k] != '\n')
      && (i != -1 ==> s[i] == '\n' && forall k :: i < k < |s| ==> s[k] != '\n')
    decreases |s|
  {
    if |s| > from && s[|s| - 1] != '\n' {
      LastNewlineIsLast(s[..|s| - 1], from);
    }
  }

  // A complete line is in the data, up to the newline at i.
  function PrintLine(data: string, i: nat): Step
    requires i < |data|
  {
    Step(if i == 0 then "" else data[..i] + "\n", data[i + 1..])
  }

  // The data in the buffer, of which what follows from is new.
  function Dispatch(data: string, from: nat): Step
    requires from <= |data|
  {
    var i := LastNewline(data, from);
    if i >= 0 then PrintLine(data, i)
    else if |data| == JOB_BUFSIZE then Step(data, "")
    else Step("", data)
  }

  function Collect(buffered: string, chunk: string): Step {
    Dispatch(buffered + Spaced(chunk), |buffered|)
  }

  // Whether the buffer is full without a line being complete.
  predicate Overflows(buffered: string, chunk: string) {
    var data := buffered + Spaced(chunk);
    LastNewline(data, |buffered|) < 0 && |data| == JOB_BUFSIZE
  }

  // The only newline of the text comes first.
  predicate OnlyFirst(s: string) { s != "" && s[0] == '\n' && forall k :: 1 <= k < |s| ==> s[k] != '\n' }

  // A read that finds nothing in the buffer and brings one newline, as its first byte.
  predicate DropsNewline(buffered: string, chunk: string) { buffered == "" && OnlyFirst(chunk) }

  // The text of a read that is not dropped.
  function Shows(buffered: string, chunk: string): string {
    if DropsNewline(buffered, chunk) then Spaced(chunk)[1..] else Spaced(chunk)
  }

  lemma DispatchExactly(data: string, from: nat)
    requires from <= |data|
    ensures var s := Dispatch(data, from); s.out + s.rest == if from == 0 && OnlyFirst(data) then data[1..] else data
  {
    var i := LastNewline(data, from);
    LastNewlineIsLast(data, from);
    if i > 0 {
      assert data[i] == '\n' && data == (data[..i] + "\n") + data[i + 1..];
    } else if i == 0 {
      assert OnlyFirst(data);
    }
  }

  lemma OnlyFirstSpaced(s: string)
    ensures OnlyFirst(Spaced(s)) <==> OnlyFirst(s)
  {
    var t := Spaced(s);
    assert forall k :: 0 <= k < |s| ==> t[k] == Space(s[k]);
  }

  // One read adds nothing to the text and drops nothing but such a newline.
  lemma CollectExactly(buffered: string, chunk: string)
    ensures var s := Collect(buffered, chunk); s.out + s.rest == buffered + Shows(buffered, chunk)
  {
    var data := buffered + Spaced(chunk);
    DispatchExactly(data, |buffered|);
    if buffered == "" {
      EmptyFirst(buffered, chunk);
    }
  }

  lemma EmptyFirst(buffered: string, chunk: string)
    requires buffered == ""
    ensures var data := buffered + Spaced(chunk);
      (if OnlyFirst(data) then data[1..] else data) == buffered + Shows(buffered, chunk)
  {
    var data, shows := buffered + Spaced(chunk), Shows(buffered, chunk);
    OnlyFirstSpaced(chunk);
    assert data == Spaced(chunk) && buffered + shows == shows;
  }

  lemma LineVisible(data: string, i: nat)
    requires i < |data| && data[i] == '\n'
    ensures var s := PrintLine(data, i); Visible(s.out) + Visible(s.rest) == Visible(data)
  {
    assert data == (data[..i] + "\n") + data[i + 1..];
    VisibleAppend(data[..i] + "\n", data[i + 1..]);
    if i == 0 {
      assert data[..i] + "\n" == "\n" && Visible("\n") == "";
    }
  }

  lemma CollectVisible(buffered: string, chunk: string)
    ensures var s := Collect(buffered, chunk); Visible(s.out) + Visible(s.rest) == Visible(buffered + Spaced(chunk))
  {
    var data := buffered + Spaced(chunk);
    var i := LastNewline(data, |buffered|);
    LastNewlineIsLast(data, |buffered|);
    if i >= 0 {
      LineVisible(data, i);
    } else {
      assert Visible("") == "";
    }
  }

  lemma LineSqueezed(printed: string, data: string, i: nat)
    requires AtLineStart(printed) && i < |data| && data[i] == '\n'
    ensures var s := PrintLine(data, i);
      Squeezed(printed + s.out + s.rest) == Squeezed(printed + data) && AtLineStart(printed + s.out)
  {
    if i > 0 {
      assert printed + (data[..i] + "\n") + data[i + 1..] == printed + data;
    } else {
      SqueezedNewline(printed);
      SqueezedAppend(printed + "\n", printed, data[1..]);
      assert (printed + "\n") + data[1..] == printed + data;
      assert printed + "" == printed;
    }
  }

  lemma CollectSqueezed(printed: string, buffered: string, chunk: string)
    requires AtLineStart(printed) && !Overflows(buffered, chunk)
    ensures var s := Collect(buffered, chunk);
      && Squeezed(printed + s.out + s.rest) == Squeezed(printed + (buffered + Spaced(chunk)))
      && AtLineStart(printed + s.out)
  {
    var data := buffered + Spaced(chunk);
    var i := LastNewline(data, |buffered|);
    LastNewlineIsLast(data, |buffered|);
    if i >= 0 {
      LineSqueezed(printed, data, i);
    } else {
      assert printed + "" == printed;
    }
  }

  // A read whose only newline comes first, with nothing in the buffer and in the middle of a
  // line of output: that newline is not printed.
  predicate LosesNewline(printed: string, buffered: string, chunk: string) {
    LastNewline(buffered + Spaced(chunk), |buffered|) == 0 && !AtLineStart(printed)
  }

  lemma SqueezedEnd(s: string)
    ensures AtLineStart(Squeezed(s)) <==> AtLineStart(s)
    ensures Squeezed(s + "\n") == if AtLineStart(s) then Squeezed(s) else Squeezed(s) + "\n"
  {
    assert (s + "\n")[..|s|] == s;
  }

  lemma {:induction false} SqueezedPlain(a: string, b: string)
    requires NoNewline(b)
    ensures Squeezed(a + b) == Squeezed(a) + b
  {
    if b == "" {
      assert a + b == a;
    } else {
      assert (a + b)[..|a + b| - 1] == a + b[..|b| - 1];
      SqueezedPlain(a, b[..|b| - 1]);
      assert b == b[..|b| - 1] + [b[|b| - 1]];
    }
  }

  // Losing the newline does change the lines.
  lemma LostNewline(printed: string, rest: string)
    requires !AtLineStart(printed) && NoNewline(rest)
    ensures Squeezed(printed + rest) != Squeezed(printed + "\n" + rest)
  {
    SqueezedPlain(printed, rest);
    SqueezedPlain(printed + "\n", rest);
    SqueezedEnd(printed);
  }

  // One read keeps the non-empty lines if and only if it does not lose a newline that way.
  lemma ReadKeepsLines(printed: string, buffered: string, chunk: string)
    ensures var s, data := Collect(buffered, chunk), buffered + Spaced(chunk);
      Squeezed(printed + s.out + s.rest) == Squeezed(printed + data) <==> !LosesNewline(printed, buffered, chunk)
  {
    var data := buffered + Spaced(chunk);
    var i := LastNewline(data, |buffered|);
    LastNewlineIsLast(data, |buffered|);
    if i < 0 {
      assert printed + "" == printed && printed + data + "" == printed + data;
    } else {
      LineKeepsLines(printed, data, i);
    }
  }

  lemma LineKeepsLines(printed: string, data: string, i: nat)
    requires i < |data| && data[i] == '\n' && forall k :: i < k < |data| ==> data[k] != '\n'
    ensures var s := PrintLine(data, i);
      Squeezed(printed + s.out + s.rest) == Squeezed(printed + data) <==> !(i == 0 && !AtLineStart(printed))
  {
    var rest := data[i + 1..];
    if i > 0 {
      assert printed + (data[..i] + "\n") + rest == printed + data;
    } else {
      assert printed + "" == printed && printed + "\n" + rest == printed + data;
      if AtLineStart(printed) {
        SqueezedNewline(printed);
        SqueezedAppend(printed + "\n", printed, rest);
      } else {
        LostNewline(printed, rest);
      }
    }
  }
}
