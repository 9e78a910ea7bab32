/** The block rewriter: a two-state machine over one file's lines that
    copies everything outside a ```python block, buffers the interior, and
    on the closing fence emits the re-indented formatter output. The
    formatter (`black -` followed by `splitlines(True)`) is a parameter. */
module Rewriter {
  import opened Wrappers
  import opened Text
  import opened Indentation

  const OpenFence := "```python"
  const CloseFence := "```"

  /** `line.strip() == "```python"`, stated as padding (see FenceTests). */
  ghost predicate IsOpen(line: string) { Padded(line, OpenFence) }

  /** `line.strip() == "```"`. */
  ghost predicate IsClose(line: string) { Padded(line, CloseFence) }

  /** The loop's tests on `strip()` are the fence predicates. */
  lemma FenceTests(line: string)
    ensures Strip(line) == OpenFence <==> IsOpen(line)
    ensures Strip(line) == CloseFence <==> IsClose(line)
  {
    StripMatches(line, OpenFence);
    StripMatches(line, CloseFence);
  }

  /** An opening fence never closes a block, so inside a block a nested
      ```python line is buffered like any other. */
  lemma OpenIsNotClose(line: string)
    requires IsOpen(line)
    ensures !IsClose(line)
  {
    FenceTests(line);
  }

  /** Formatter input text to its output lines. */
  type Formatter = string -> seq<string>

  /** `buf is None` versus `buf` a list; `start` is the 1-based line number
      of the opening fence. */
  datatype State = Outside | Inside(start: nat, buf: seq<string>)

  /** What a run produced: the lines written and the state reached, or the
      lines written before the exchange raised. */
  datatype Outcome = Done(out: seq<string>, state: State) | Raised(out: seq<string>)

  /** The three decisions the loop delegates: whether a line opens a block,
      whether it closes one, and what a closed block's interior becomes
      (None when that raises). */
  datatype Rules = Rules(isOpen: string -> bool, isClose: string -> bool,
                         exchange: seq<string> -> Option<seq<string>>)

  /** The formatting exchange for a closed block: guess the indent, dedent,
      format the joined text, re-indent; None when guess_indent raises. */
  function FormatBlock(buf: seq<string>, fmt: Formatter): Option<seq<string>> {
    match GuessIndent(buf)
    case None => None
    case Some(p) => Some(Indent(fmt(Join(Dedent(buf, p))), p))
  }

  /** A blank line inside an indented block never reaches the formatter:
      dedent cuts "\n" down to "", so the joined text is the same as if the
      line were not there. */
  lemma BlankLineVanishes(lines: seq<string>, prefix: string, i: nat)
    requires prefix != "" && i < |lines| && lines[i] == "\n"
    ensures Join(Dedent(lines, prefix)) == Join(Dedent(lines[..i] + lines[i + 1..], prefix))
  {
    var left, right := lines[..i], lines[i + 1..];
    assert lines == left + ([lines[i]] + right);
    DedentAppend(left, [lines[i]] + right, prefix);
    DedentAppend([lines[i]], right, prefix);
    DedentAppend(left, right, prefix);
    assert Dedent([lines[i]], prefix) == [""];
    JoinSkipsEmpty(Dedent(left, prefix), Dedent(right, prefix));
  }

  /** The rules of black_markdown for a given formatter. */
  ghost function ToolRules(fmt: Formatter): Rules {
    Rules(line => IsOpen(line), line => IsClose(line), buf => FormatBlock(buf, fmt))
  }

  /** One line of the loop, numbered `lineno`. */
  ghost function Step(rules: Rules, st: State, lineno: nat, line: string): Outcome {
    match st
    case Outside =>
      if rules.isOpen(line) then Done([line], Inside(lineno, [])) else Done([line], Outside)
    case Inside(start, buf) =>
      if rules.isClose(line) then
        match rules.exchange(buf)
        case None => Raised([])
        case Some(block) => Done(block + [line], Outside)
      else Done([], Inside(start, buf + [line]))
  }

  /** Lines `w` were written before the run `r`. */
  function Prepend(w: seq<string>, r: Outcome): Outcome {
    match r
    case Done(o, st) => Done(w + o, st)
    case Raised(o) => Raised(w + o)
  }

  /** The loop from state `st` over `lines`, the first numbered `first`. */
  ghost function Run(rules: Rules, st: State, lines: seq<string>, first: nat): Outcome
    decreases |lines|
  {
    if lines == [] then Done([], st)
    else
      match Step(rules, st, first, lines[0])
      case Raised(o) => Raised(o)
      case Done(o, next) => Prepend(o, Run(rules, next, lines[1..], first + 1))
  }

  /** Continue a finished run over `rest`. */
  ghost function Then(rules: Rules, r: Outcome, rest: seq<string>, first: nat): Outcome {
    match r
    case Raised(o) => Raised(o)
    case Done(o, st) => Prepend(o, Run(rules, st, rest, first))
  }

  lemma PrependAssoc(a: seq<string>, b: seq<string>, r: Outcome)
    ensures Prepend(a, Prepend(b, r)) == Prepend(a + b, r)
  {
    match r
    case Done(o, _) => assert a + (b + o) == (a + b) + o;
    case Raised(o) => assert a + (b + o) == (a + b) + o;
  }

  lemma ThenPrepend(rules: Rules, w: seq<string>, r: Outcome, rest: seq<string>, first: nat)
    ensures Then(rules, Prepend(w, r), rest, first) == Prepend(w, Then(rules, r, rest, first))
  {
    if r.Done? {
      PrependAssoc(w, r.out, Run(rules, r.state, rest, first));
    }
  }

  /** A run begins with one step. */
  lemma RunFirst(rules: Rules, st: State, lines: seq<string>, first: nat)
    requires lines != []
    ensures Run(rules, st, lines, first) == Then(rules, Step(rules, st, first, lines[0]), lines[1..], first + 1)
  {
  }

  /** Running over `a + b` is running over `a`, then over `b` from where
      `a` left off. */
  lemma {:induction false} RunAppend(rules: Rules, st: State, a: seq<string>, b: seq<string>, first: nat)
    ensures Run(rules, st, a + b, first) == Then(rules, Run(rules, st, a, first), b, first + |a|)
    decreases |a|
  {
    if a == [] {
      assert a + b == b;
      var r := Run(rules, st, b, first);
      assert [] + r.out == r.out;
    } else {
      var s := Step(rules, st, first, a[0]);
      assert (a + b)[0] == a[0];
      assert (a + b)[1..] == a[1..] + b;
      if s.Done? {
        RunAppend(rules, s.state, a[1..], b, first + 1);
        ThenPrepend(rules, s.out, Run(rules, s.state, a[1..], first + 1), b, first + |a|);
      }
    }
  }

  /** Outside a block, lines that open none are written unchanged and in
      order: every line the loop reads is written back as it was read. */
  lemma {:induction false} OutsideCopies(rules: Rules, lines: seq<string>, first: nat)
    requires forall i :: 0 <= i < |lines| ==> !rules.isOpen(lines[i])
    ensures Run(rules, Outside, lines, first) == Done(lines, Outside)
    decreases |lines|
  {
    if lines != [] {
      RunFirst(rules, Outside, lines, first);
      OutsideCopies(rules, lines[1..], first + 1);
      assert [lines[0]] + lines[1..] == lines;
    }
  }

  /** Inside a block, lines that close none are only buffered, an opening
      fence included; nothing is written. */
  lemma {:induction false} InsideBuffers(rules: Rules, start: nat, buf: seq<string>, lines: seq<string>, first: nat)
    requires forall i :: 0 <= i < |lines| ==> !rules.isClose(lines[i])
    ensures Run(rules, Inside(start, buf), lines, first) == Done([], Inside(start, buf + lines))
    decreases |lines|
  {
    if lines == [] {
      assert buf + lines == buf;
    } else {
      RunFirst(rules, Inside(start, buf), lines, first);
      InsideBuffers(rules, start, buf + [lines[0]], lines[1..], first + 1);
      assert buf + [lines[0]] + lines[1..] == buf + lines;
    }
  }

  /** Up to the end of a block: the lines before it and its opening fence
      are copied, the interior is buffered, with the fence's line number. */
  lemma OpenBlock(rules: Rules, pre: seq<string>, open: string, body: seq<string>, first: nat)
    requires forall i :: 0 <= i < |pre| ==> !rules.isOpen(pre[i])
    requires rules.isOpen(open)
    requires forall i :: 0 <= i < |body| ==> !rules.isClose(body[i])
    ensures Run(rules, Outside, pre + [open] + body, first)
         == Done(pre + [open], Inside(first + |pre|, body))
  {
    var n := first + |pre|;
    RunAppend(rules, Outside, pre, [open] + body, first);
    OutsideCopies(rules, pre, first);
    assert pre + [open] + body == pre + ([open] + body);
    RunFirst(rules, Outside, [open] + body, n);
    assert ([open] + body)[0] == open && ([open] + body)[1..] == body;
    InsideBuffers(rules, n, [], body, n + 1);
    assert [] + body == body;
    PrependAssoc(pre, [open], Done([], Inside(n, body)));
  }

  /** A block still open when the file ends, wherever it starts: after a
      run over `pre` that wrote `o` and ended outside, the opening fence is
      written and the interior is only buffered, never written. */
  lemma UnterminatedDropped(rules: Rules, pre: seq<string>, o: seq<string>, open: string,
                            body: seq<string>, first: nat)
    requires Run(rules, Outside, pre, first) == Done(o, Outside)
    requires rules.isOpen(open)
    requires forall i :: 0 <= i < |body| ==> !rules.isClose(body[i])
    ensures Run(rules, Outside, pre + [open] + body, first)
         == Done(o + [open], Inside(first + |pre|, body))
  {
    RunAppend(rules, Outside, pre, [open] + body, first);
    assert pre + [open] + body == pre + ([open] + body);
    OpenBlock(rules, [], open, body, first + |pre|);
    assert [] + [open] + body == [open] + body && [] + [open] == [open];
  }

  /** The closing fence: the exchanged interior and the fence are written,
      and the run carries on outside. */
  lemma CloseRun(rules: Rules, start: nat, body: seq<string>, close: string, post: seq<string>,
                 n: nat, block: seq<string>)
    requires rules.isClose(close)
    requires rules.exchange(body) == Some(block)
    ensures Run(rules, Inside(start, body), [close] + post, n)
         == Prepend(block + [close], Run(rules, Outside, post, n + 1))
  {
    RunFirst(rules, Inside(start, body), [close] + post, n);
    assert ([close] + post)[0] == close && ([close] + post)[1..] == post;
  }

  /** A closed block: the fences are written unchanged and between them goes
      the exchanged interior, never the interior itself; the run then
      carries on outside. */
  lemma BlockReplaced(rules: Rules, pre: seq<string>, open: string, body: seq<string>, close: string,
                      post: seq<string>, first: nat, block: seq<string>)
    requires forall i :: 0 <= i < |pre| ==> !rules.isOpen(pre[i])
    requires rules.isOpen(open)
    requires forall i :: 0 <= i < |body| ==> !rules.isClose(body[i])
    requires rules.isClose(close)
    requires rules.exchange(body) == Some(block)
    ensures Run(rules, Outside, pre + [open] + body + [close] + post, first)
         == Prepend(pre + [open] + block + [close], Run(rules, Outside, post, first + |pre| + |body| + 2))
  {
    var head := pre + [open] + body;
    var n := first + |head|;
    var rest := Run(rules, Outside, post, n + 1);
    OpenBlock(rules, pre, open, body, first);
    RunAppend(rules, Outside, head, [close] + post, first);
    assert head + [close] + post == head + ([close] + post);
    CloseRun(rules, first + |pre|, body, close, post, n, block);
    PrependAssoc(pre + [open], block + [close], rest);
    assert pre + [open] + (block + [close]) == pre + [open] + block + [close];
  }

  /** A closed block whose exchange raises aborts the run right after the
      opening fence. */
  lemma BlockRaises(rules: Rules, pre: seq<string>, open: string, body: seq<string>, close: string,
                    post: seq<string>, first: nat)
    requires forall i :: 0 <= i < |pre| ==> !rules.isOpen(pre[i])
    requires rules.isOpen(open)
    requires forall i :: 0 <= i < |body| ==> !rules.isClose(body[i])
    requires rules.isClose(close)
    requires rules.exchange(body) == None
    ensures Run(rules, Outside, pre + [open] + body + [close] + post, first) == Raised(pre + [open])
  {
    var head := pre + [open] + body;
    var n := first + |head|;
    OpenBlock(rules, pre, open, body, first);
    RunAppend(rules, Outside, head, [close] + post, first);
    assert head + [close] + post == head + ([close] + post);
    RunFirst(rules, Inside(first + |pre|, body), [close] + post, n);
    assert ([close] + post)[0] == close;
    assert pre + [open] + [] == pre + [open];
  }

  /** No line of `xs` closes a block. */
  ghost predicate NoClose(rules: Rules, xs: seq<string>) {
    forall i :: 0 <= i < |xs| ==> !rules.isClose(xs[i])
  }

  /** `s` is the open state left by an opening fence among `lines` (numbered
      from `first`): the lines after the fence make up the buffer and none of
      them closes the block. */
  ghost predicate OpenedAt(rules: Rules, lines: seq<string>, first: nat, s: State) {
    s.Inside? && first <= s.start < first + |lines| && rules.isOpen(lines[s.start - first])
    && s.buf == lines[s.start - first + 1..] && NoClose(rules, s.buf)
  }

  /** `s` is the open state `st` with all of `lines` added to its buffer. */
  ghost predicate Extended(rules: Rules, st: State, lines: seq<string>, s: State) {
    st.Inside? && s == Inside(st.start, st.buf + lines) && NoClose(rules, lines)
  }

  lemma OpenedShift(rules: Rules, lines: seq<string>, first: nat, s: State)
    requires lines != [] && OpenedAt(rules, lines[1..], first + 1, s)
    ensures OpenedAt(rules, lines, first, s)
  {
    assert lines[s.start - first] == lines[1..][s.start - (first + 1)];
    assert lines[s.start - first + 1..] == lines[1..][s.start - (first + 1) + 1..];
  }

  /** The open state always describes the fence that opened the block
      still open: its line number points at an opening fence and the buffer
      is exactly the lines after it, none of them a closing fence; or no
      fence was met and the lines were added to the buffer the run started
      with. */
  lemma {:induction false} InsideTail(rules: Rules, st: State, lines: seq<string>, first: nat)
    requires Run(rules, st, lines, first).Done?
    requires Run(rules, st, lines, first).state.Inside?
    ensures Extended(rules, st, lines, Run(rules, st, lines, first).state)
         || OpenedAt(rules, lines, first, Run(rules, st, lines, first).state)
    decreases |lines|
  {
    if lines == [] {
      assert st.buf + lines == st.buf;
    } else {
      RunFirst(rules, st, lines, first);
      var next := Step(rules, st, first, lines[0]).state;
      var s := Run(rules, next, lines[1..], first + 1).state;
      assert Run(rules, st, lines, first).state == s;
      InsideTail(rules, next, lines[1..], first + 1);
      if OpenedAt(rules, lines[1..], first + 1, s) {
        OpenedShift(rules, lines, first, s);
      } else if st.Outside? {
        assert lines[1..] == lines[first - first + 1..];
      } else {
        assert st.buf + [lines[0]] + lines[1..] == st.buf + lines;
        assert forall i :: 1 <= i < |lines| ==> lines[i] == lines[1..][i - 1];
      }
    }
  }

  /** A closed block under rules that exchange it by formatting, as
      black_markdown's do: between the fences goes the formatter's output on
      the dedented interior, re-indented with the guessed prefix. */
  lemma BlockFormatted(rules: Rules, pre: seq<string>, open: string, body: seq<string>, close: string,
                       post: seq<string>, first: nat, fmt: Formatter, p: string)
    requires forall i :: 0 <= i < |pre| ==> !rules.isOpen(pre[i])
    requires rules.isOpen(open)
    requires forall i :: 0 <= i < |body| ==> !rules.isClose(body[i])
    requires rules.isClose(close)
    requires rules.exchange(body) == FormatBlock(body, fmt)
    requires GuessIndent(body) == Some(p)
    ensures Run(rules, Outside, pre + [open] + body + [close] + post, first)
         == Prepend(pre + [open] + Indent(fmt(Join(Dedent(body, p))), p) + [close],
                    Run(rules, Outside, post, first + |pre| + |body| + 2))
  {
    BlockReplaced(rules, pre, open, body, close, post, first, Indent(fmt(Join(Dedent(body, p))), p));
  }

  /** With black_markdown's rules, when no line of a file opens a block,
      every line the loop reads is written back unchanged. */
  lemma NoFenceUnchanged(lines: seq<string>, fmt: Formatter)
    requires forall i :: 0 <= i < |lines| ==> !IsOpen(lines[i])
    ensures Run(ToolRules(fmt), Outside, lines, 1) == Done(lines, Outside)
  {
    OutsideCopies(ToolRules(fmt), lines, 1);
  }

  /** With black_markdown's rules, an empty ```python block, or one of "\n"
      lines only, aborts the run right after its opening fence, wherever the
      block starts: guess_indent has no line to take the minimum over. */
  lemma EmptyBlockRaises(pre: seq<string>, o: seq<string>, open: string, body: seq<string>,
                         close: string, post: seq<string>, fmt: Formatter)
    requires Run(ToolRules(fmt), Outside, pre, 1) == Done(o, Outside)
    requires IsOpen(open)
    requires forall i :: 0 <= i < |body| ==> body[i] == "\n"
    requires IsClose(close)
    ensures Run(ToolRules(fmt), Outside, pre + [open] + body + [close] + post, 1) == Raised(o + [open])
  {
    var rules := ToolRules(fmt);
    var rest := [open] + body + [close] + post;
    BlankBlockRaises(body);
    forall i | 0 <= i < |body| ensures !IsClose(body[i]) {
      FenceTests(body[i]);
      assert Strip(body[i]) == [];
    }
    BlockRaises(rules, [], open, body, close, post, 1 + |pre|);
    assert [] + [open] + body + [close] + post == rest && [] + [open] == [open];
    RunAppend(rules, Outside, pre, rest, 1);
    assert pre + [open] + body + [close] + post == pre + rest;
  }

  /** `buf` and `start` as black_markdown keeps them, read as a State. */
  function Current(buf: Option<seq<string>>, start: nat): State {
    if buf.None? then Outside else Inside(start, buf.value)
  }

  /** The loop's invariant after `i` lines: what was written, `out`,
      followed by the run from state `st` over the remaining lines, is the
      run over the whole file. */
  ghost predicate Inv(rules: Rules, lines: seq<string>, out: seq<string>, st: State, i: nat) {
    i <= |lines| && Run(rules, Outside, lines, 1) == Prepend(out, Run(rules, st, lines[i..], i + 1))
  }

  /** The loop invariant carries over a step that writes `o`. */
  lemma Advance(rules: Rules, lines: seq<string>, out: seq<string>, st: State, i: nat, o: seq<string>, next: State)
    requires i < |lines| && Inv(rules, lines, out, st, i)
    requires Step(rules, st, i + 1, lines[i]) == Done(o, next)
    ensures Inv(rules, lines, out + o, next, i + 1)
  {
    RunFirst(rules, st, lines[i..], i + 1);
    assert lines[i..][0] == lines[i] && lines[i..][1..] == lines[i + 1..];
    PrependAssoc(out, o, Run(rules, next, lines[i + 1..], i + 2));
  }

  /** A step that raises ends the run with what was written before it. */
  lemma Abort(rules: Rules, lines: seq<string>, out: seq<string>, st: State, i: nat)
    requires i < |lines| && Inv(rules, lines, out, st, i)
    requires Step(rules, st, i + 1, lines[i]) == Raised([])
    ensures Run(rules, Outside, lines, 1) == Raised(out)
  {
    RunFirst(rules, st, lines[i..], i + 1);
    assert lines[i..][0] == lines[i];
    assert out + [] == out;
  }

  /** Before the first line the invariant holds with nothing written. */
  lemma Begin(rules: Rules, lines: seq<string>)
    ensures Inv(rules, lines, [], Outside, 0)
  {
    assert lines[0..] == lines;
    var r := Run(rules, Outside, lines, 1);
    assert [] + r.out == r.out;
  }

  /** After the last line the invariant gives the whole run. */
  lemma Finish(rules: Rules, lines: seq<string>, out: seq<string>, st: State)
    requires Inv(rules, lines, out, st, |lines|)
    ensures Run(rules, Outside, lines, 1) == Done(out, st)
  {
    assert lines[|lines|..] == [];
    assert out + [] == out;
  }

  /** The body of the loop for line number `lineno` of a file, on
      black_markdown's `buf` and `start`: returns the lines it writes and the
      new `buf` and `start`, or reports that guess_indent raised. */
  method Feed(buf: Option<seq<string>>, start: nat, lineno: nat, line: string, fmt: Formatter)
    returns (written: seq<string>, buf': Option<seq<string>>, start': nat, raised: bool)
    ensures raised ==> Step(ToolRules(fmt), Current(buf, start), lineno, line) == Raised([])
    ensures !raised ==> Step(ToolRules(fmt), Current(buf, start), lineno, line) == Done(written, Current(buf', start'))
  {
    FenceTests(line);
    written, buf', start', raised := [], buf, start, false;
    if buf.None? {
      if Strip(line) == OpenFence {
        start' := lineno;
        buf' := Some([]);
      }
      written := [line];
    } else if Strip(line) == CloseFence {
      var prefix := GuessIndent(buf.value);
      if prefix.None? {
        raised := true;
        return;
      }
      var formatted := fmt(Join(Dedent(buf.value, prefix.value)));
      written := Indent(formatted, prefix.value) + [line];
      buf' := None;
    } else {
      buf' := Some(buf.value + [line]);
    }
  }

  /** The loop over one file's lines. `carry` is the state the previous file
      left; it is discarded at this file's first line, so an empty file
      passes it on unchanged and any other file is rewritten from Outside. */
  method RewriteFile(carry: State, lines: seq<string>, fmt: Formatter) returns (r: Outcome)
    ensures |lines| == 0 ==> r == Done([], carry)
    ensures |lines| > 0 ==> r == Run(ToolRules(fmt), Outside, lines, 1)
  {
    var buf: Option<seq<string>> := if carry.Inside? then Some(carry.buf) else None;
    var start: nat := if carry.Inside? then carry.start else 0;
    var out: seq<string> := [];
    var i := 0;
    while i < |lines|
      invariant 0 <= i <= |lines|
      invariant i == 0 ==> out == [] && Current(buf, start) == carry
      invariant i > 0 ==> Inv(ToolRules(fmt), lines, out, Current(buf, start), i)
    {
      if i == 0 {
        // first line of a file: a block left open by the previous file is lost
        buf := None;
        Begin(ToolRules(fmt), lines);
      }
      var written, buf', start', raised := Feed(buf, start, i + 1, lines[i], fmt);
      if raised {
        Abort(ToolRules(fmt), lines, out, Current(buf, start), i);
        return Raised(out);
      }
      Advance(ToolRules(fmt), lines, out, Current(buf, start), i, written, Current(buf', start'));
      out, buf, start := out + written, buf', start';
      i := i + 1;
    }
    r := Done(out, Current(buf, start));
    if i > 0 {
      Finish(ToolRules(fmt), lines, out, r.state);
    }
  }

  /** The loop over all files named on the command line: each file's output
      is what the machine gives on that file alone, from Outside, whatever
      the files before it left open; the first file whose block cannot be
      guessed ends the run with its partial output. */
  method RewriteFiles(files: seq<seq<string>>, fmt: Formatter) returns (outs: seq<seq<string>>, raised: bool)
    ensures |outs| <= |files|
    ensures !raised ==> |outs| == |files|
    ensures raised ==> |outs| > 0 && Run(ToolRules(fmt), Outside, files[|outs| - 1], 1) == Raised(outs[|outs| - 1])
    ensures forall k :: 0 <= k < |outs| && !(raised && k == |outs| - 1) ==>
      Run(ToolRules(fmt), Outside, files[k], 1).Done? && Run(ToolRules(fmt), Outside, files[k], 1).out == outs[k]
  {
    var carry := Outside;
    outs := [];
    raised := false;
    var k := 0;
    while k < |files|
      invariant 0 <= k <= |files| && |outs| == k
      invariant forall j :: 0 <= j < k ==>
        Run(ToolRules(fmt), Outside, files[j], 1).Done? && Run(ToolRules(fmt), Outside, files[j], 1).out == outs[j]
    {
      var r := RewriteFile(carry, files[k], fmt);
      outs := outs + [r.out];
      if r.Raised? {
        raised := true;
        return;
      }
      carry := r.state;
      k := k + 1;
    }
  }
}
