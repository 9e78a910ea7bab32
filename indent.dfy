/** Indent detection over the buffered interior of a fenced block, and the
    two per-line transforms that strip the indent before formatting and put
    it back afterwards. */
module Indentation {
  import opened Wrappers

  /** Length of the run of `c` at the start of `s`. */
  function LeadingRun(s: string, c: char): (n: nat)
    ensures n <= |s|
    ensures forall i :: 0 <= i < n ==> s[i] == c
    ensures n < |s| ==> s[n] != c
  {
    if s == [] || s[0] != c then 0 else 1 + LeadingRun(s[1..], c)
  }

  /** `n` copies of `c` (Python's `c * n`). */
  function Repeat(c: char, n: nat): (s: string)
    ensures |s| == n
    ensures forall i :: 0 <= i < n ==> s[i] == c
  {
    if n == 0 then "" else [c] + Repeat(c, n - 1)
  }

  /** A line takes part in the guess for `c` when it is not exactly "\n"
      and some character other than `c` follows its leading run of `c`,
      i.e. the pattern `c*[^c]` matches at its start. */
  predicate Considered(line: string, c: char) {
    line != "\n" && LeadingRun(line, c) < |line|
  }

  /** The least leading run of `c` over the considered lines; None when no
      line is considered, where Python's `min` raises ValueError. */
  function MinRun(lines: seq<string>, c: char): (r: Option<nat>)
    ensures r.None? <==> forall i :: 0 <= i < |lines| ==> !Considered(lines[i], c)
    ensures r.Some? ==>
      forall i :: 0 <= i < |lines| && Considered(lines[i], c) ==> r.value <= LeadingRun(lines[i], c)
  {
    if lines == [] then None
    else
      var rest := MinRun(lines[1..], c);
      assert forall i :: 1 <= i < |lines| ==> lines[i] == lines[1..][i - 1];
      if !Considered(lines[0], c) then rest
      else
        var n := LeadingRun(lines[0], c);
        if rest.None? || n < rest.value then Some(n) else rest
  }

  /** The minimum is attained: some considered line has exactly that run. */
  lemma {:induction false} MinRunAttained(lines: seq<string>, c: char)
    requires MinRun(lines, c).Some?
    ensures exists i :: 0 <= i < |lines| && Considered(lines[i], c) && LeadingRun(lines[i], c) == MinRun(lines, c).value
  {
    var rest := MinRun(lines[1..], c);
    if Considered(lines[0], c) && (rest.None? || LeadingRun(lines[0], c) < rest.value) {
      assert Considered(lines[0], c) && LeadingRun(lines[0], c) == MinRun(lines, c).value;
    } else {
      MinRunAttained(lines[1..], c);
      var j :| 0 <= j < |lines[1..]| && Considered(lines[1..][j], c) && LeadingRun(lines[1..][j], c) == rest.value;
      assert lines[j + 1] == lines[1..][j];
    }
  }

  /** guess_indent: spaces first, then tabs, else the empty prefix; None
      stands for the ValueError raised when no line is considered for the
      character being tried. */
  function GuessIndent(lines: seq<string>): Option<string> {
    match MinRun(lines, ' ')
    case None => None
    case Some(n) =>
      if n > 0 then Some(Repeat(' ', n))
      else
        match MinRun(lines, '\t')
        case None => None
        case Some(m) => if m > 0 then Some(Repeat('\t', m)) else Some("")
  }

  ghost predicate NoneConsidered(lines: seq<string>, c: char) {
    forall i :: 0 <= i < |lines| ==> !Considered(lines[i], c)
  }

  /** Some considered line does not start with `c` at all. */
  ghost predicate SomeUnindented(lines: seq<string>, c: char) {
    exists i :: 0 <= i < |lines| && Considered(lines[i], c) && LeadingRun(lines[i], c) == 0
  }

  /** `n` is the least leading run of `c` over the considered lines. */
  ghost predicate LeastRun(lines: seq<string>, c: char, n: nat) {
    (forall i :: 0 <= i < |lines| && Considered(lines[i], c) ==> n <= LeadingRun(lines[i], c))
    && exists i :: 0 <= i < |lines| && Considered(lines[i], c) && LeadingRun(lines[i], c) == n
  }

  /** The guess is `n` spaces exactly when `n` is the least positive run of
      spaces over the considered lines. */
  lemma GuessSpaces(lines: seq<string>, n: nat)
    requires n > 0
    ensures GuessIndent(lines) == Some(Repeat(' ', n)) <==> LeastRun(lines, ' ', n)
  {
    if LeastRun(lines, ' ', n) {
      var i :| 0 <= i < |lines| && Considered(lines[i], ' ') && LeadingRun(lines[i], ' ') == n;
    }
    var ms := MinRun(lines, ' ');
    if ms.Some? {
      MinRunAttained(lines, ' ');
    }
    if ms.Some? && ms.value == 0 {
      var mt := MinRun(lines, '\t');
      if mt.Some? && mt.value > 0 {
        assert Repeat('\t', mt.value)[0] != Repeat(' ', n)[0];
      }
    }
  }

  /** Tabs are guessed only when some considered line has no leading space:
      a space-indented block never comes out as tab-indented. */
  lemma GuessTabs(lines: seq<string>, m: nat)
    requires m > 0
    ensures GuessIndent(lines) == Some(Repeat('\t', m))
        <==> SomeUnindented(lines, ' ') && LeastRun(lines, '\t', m)
  {
    var ms, mt := MinRun(lines, ' '), MinRun(lines, '\t');
    if ms.Some? && ms.value > 0 {
      assert Repeat(' ', ms.value)[0] != Repeat('\t', m)[0];
      assert forall i :: 0 <= i < |lines| && Considered(lines[i], ' ') ==> LeadingRun(lines[i], ' ') > 0;
    } else if ms.Some? {
      MinRunAttained(lines, ' ');
      if LeastRun(lines, '\t', m) {
        var i :| 0 <= i < |lines| && Considered(lines[i], '\t') && LeadingRun(lines[i], '\t') == m;
        MinRunAttained(lines, '\t');
        var j :| 0 <= j < |lines| && Considered(lines[j], '\t') && LeadingRun(lines[j], '\t') == mt.value;
      }
      if mt.Some? && mt.value > 0 && mt.value != m {
        assert |Repeat('\t', mt.value)| != |Repeat('\t', m)|;
      }
      if mt == Some(m) {
        MinRunAttained(lines, '\t');
      }
    }
  }

  /** The guess is empty exactly when both characters are absent from the
      start of some considered line. */
  lemma GuessEmpty(lines: seq<string>)
    ensures GuessIndent(lines) == Some("")
        <==> SomeUnindented(lines, ' ') && SomeUnindented(lines, '\t')
  {
    if SomeUnindented(lines, ' ') {
      var i :| 0 <= i < |lines| && Considered(lines[i], ' ') && LeadingRun(lines[i], ' ') == 0;
    }
    if SomeUnindented(lines, '\t') {
      var i :| 0 <= i < |lines| && Considered(lines[i], '\t') && LeadingRun(lines[i], '\t') == 0;
    }
    if MinRun(lines, ' ').Some? {
      MinRunAttained(lines, ' ');
    }
    if MinRun(lines, '\t').Some? {
      MinRunAttained(lines, '\t');
    }
  }

  /** The guess fails (Python raises) exactly when no line is considered for
      spaces, or the space stage yields zero and no line is considered for
      tabs. */
  lemma GuessRaises(lines: seq<string>)
    ensures GuessIndent(lines) == None
        <==> NoneConsidered(lines, ' ') || (SomeUnindented(lines, ' ') && NoneConsidered(lines, '\t'))
  {
    if SomeUnindented(lines, ' ') {
      var i :| 0 <= i < |lines| && Considered(lines[i], ' ') && LeadingRun(lines[i], ' ') == 0;
    }
    if MinRun(lines, ' ').Some? {
      MinRunAttained(lines, ' ');
    }
  }

  /** A case from the project's own tests: the "\n" line is skipped and
      the common single space is found. */
  lemma GuessSkipsNewline()
    ensures GuessIndent([" foo\n", "\n", " bar\n"]) == Some(" ")
  {
    var lines := [" foo\n", "\n", " bar\n"];
    assert LeadingRun(lines[0], ' ') == 1 by {
      assert lines[0][1..] == "foo\n";
    }
    assert LeadingRun(lines[2], ' ') == 1 by {
      assert lines[2][1..] == "bar\n";
    }
    GuessSpaces(lines, 1);
    assert Repeat(' ', 1) == " ";
  }

  /** A case from the project's own tests: one unindented line forces the
      empty guess even when the others start with a tab. */
  lemma GuessUnindentedWins()
    ensures GuessIndent(["\tfoo\n", "bar\n"]) == Some("")
  {
    var lines := ["\tfoo\n", "bar\n"];
    assert LeadingRun(lines[0], ' ') == 0 && Considered(lines[0], ' ');
    assert LeadingRun(lines[1], '\t') == 0 && Considered(lines[1], '\t');
    GuessEmpty(lines);
  }

  /** A block made only of "\n" lines (the empty block included) has no
      considered line, so the guess raises rather than returning "". */
  lemma BlankBlockRaises(lines: seq<string>)
    requires forall i :: 0 <= i < |lines| ==> lines[i] == "\n"
    ensures GuessIndent(lines) == None
  {
  }

  /** Every considered line has at least `n` copies of `c` in front. */
  /** The lines of a closed block all end in "\n", since only the last line
      of a file can lack it. For such lines the guess raises exactly when
      every line is "\n": any other line is considered for both characters. */
  lemma TerminatedBlockRaises(lines: seq<string>)
    requires forall i :: 0 <= i < |lines| ==> |lines[i]| > 0 && lines[i][|lines[i]| - 1] == '\n'
    ensures GuessIndent(lines) == None <==> forall i :: 0 <= i < |lines| ==> lines[i] == "\n"
  {
    GuessRaises(lines);
    if j :| 0 <= j < |lines| && lines[j] != "\n" {
      var line := lines[j];
      assert line[|line| - 1] == '\n';
      assert Considered(line, ' ') && Considered(line, '\t');
    } else {
      BlankBlockRaises(lines);
    }
  }

  lemma RunPrefix(s: string, c: char, n: nat)
    requires n <= LeadingRun(s, c)
    ensures Repeat(c, n) <= s
  {
    assert Repeat(c, n) == s[..n];
  }

  /** The guessed prefix begins every line considered for its character
      (every line, trivially, when it is empty), and it is made of a single
      repeated space or tab. */
  lemma GuessIsPrefix(lines: seq<string>, p: string)
    requires GuessIndent(lines) == Some(p)
    ensures p == Repeat(' ', |p|) || p == Repeat('\t', |p|)
    ensures forall i :: 0 <= i < |lines| && (p == "" || Considered(lines[i], p[0])) ==> p <= lines[i]
  {
    var n := MinRun(lines, ' ');
    if n.value > 0 {
      forall i | 0 <= i < |lines| && Considered(lines[i], ' ') ensures p <= lines[i] {
        RunPrefix(lines[i], ' ', n.value);
      }
    } else if p != "" {
      var m := MinRun(lines, '\t');
      forall i | 0 <= i < |lines| && Considered(lines[i], '\t') ensures p <= lines[i] {
        RunPrefix(lines[i], '\t', m.value);
      }
    }
  }

  /** Python's `line[k:]`. */
  function DropFirst(line: string, k: nat): string {
    if k <= |line| then line[k..] else ""
  }

  /** dedent: the first `|prefix|` characters of every line are cut off,
      whatever they are; a line shorter than that becomes "". */
  function Dedent(lines: seq<string>, prefix: string): (r: seq<string>)
    ensures |r| == |lines|
    ensures forall i :: 0 <= i < |lines| && |prefix| <= |lines[i]| ==>
      lines[i] == lines[i][..|prefix|] + r[i]
    ensures forall i :: 0 <= i < |lines| && |lines[i]| < |prefix| ==> r[i] == ""
  {
    if lines == [] then []
    else
      var r := [DropFirst(lines[0], |prefix|)] + Dedent(lines[1..], prefix);
      assert forall i :: 1 <= i < |lines| ==> lines[i] == lines[1..][i - 1];
      r
  }

  /** dedent works line by line. */
  lemma {:induction false} DedentAppend(a: seq<string>, b: seq<string>, prefix: string)
    ensures Dedent(a + b, prefix) == Dedent(a, prefix) + Dedent(b, prefix)
  {
    if a == [] {
      assert a + b == b;
    } else {
      assert (a + b)[0] == a[0];
      assert (a + b)[1..] == a[1..] + b;
      DedentAppend(a[1..], b, prefix);
    }
  }

  /** A line that `indent` leaves alone. */
  predicate Blank(line: string) {
    line == "" || line == "\n"
  }

  /** indent: `prefix` goes in front of every line except "" and "\n". */
  function Indent(lines: seq<string>, prefix: string): (r: seq<string>)
    ensures |r| == |lines|
    ensures forall i :: 0 <= i < |lines| && Blank(lines[i]) ==> r[i] == lines[i]
    ensures forall i :: 0 <= i < |lines| && !Blank(lines[i]) ==> r[i] == prefix + lines[i]
  {
    if lines == [] then []
    else
      var r := [if Blank(lines[0]) then lines[0] else prefix + lines[0]] + Indent(lines[1..], prefix);
      assert forall i :: 1 <= i < |lines| ==> lines[i] == lines[1..][i - 1];
      r
  }

  /** dedent never looks at the characters it removes: only the length of
      the prefix matters. */
  lemma DedentIgnoresPrefixText(lines: seq<string>, p: string, q: string)
    requires |p| == |q|
    ensures Dedent(lines, p) == Dedent(lines, q)
  {
    var a, b := Dedent(lines, p), Dedent(lines, q);
    forall i | 0 <= i < |lines| ensures a[i] == b[i] {
      if |p| <= |lines[i]| {
        assert a[i] == lines[i][|p|..];
        assert b[i] == lines[i][|q|..];
      }
    }
  }

  /** Round trip: lines that start with `p` and are not blank once `p` is
      removed come back unchanged after dedent then indent. */
  lemma IndentUndoesDedent(lines: seq<string>, p: string)
    requires forall i :: 0 <= i < |lines| ==> p <= lines[i] && !Blank(lines[i][|p|..])
    ensures Indent(Dedent(lines, p), p) == lines
  {
    var d := Dedent(lines, p);
    var r := Indent(d, p);
    forall i | 0 <= i < |lines| ensures r[i] == lines[i] {
      assert lines[i] == lines[i][..|p|] + d[i];
      assert lines[i][..|p|] == p;
      assert d[i] == lines[i][|p|..];
    }
  }

  /** The other way round: indent then dedent gives every line back except a
      "\n", which a non-empty prefix turns into "" (indent skipped it, dedent
      does not). */
  lemma DedentAfterIndent(lines: seq<string>, p: string)
    ensures |Dedent(Indent(lines, p), p)| == |lines|
    ensures forall i :: 0 <= i < |lines| ==>
      Dedent(Indent(lines, p), p)[i] == if lines[i] == "\n" && p != "" then "" else lines[i]
  {
    var d := Dedent(Indent(lines, p), p);
    forall i | 0 <= i < |lines|
      ensures d[i] == if lines[i] == "\n" && p != "" then "" else lines[i]
    {
      if !Blank(lines[i]) {
        assert (p + lines[i])[..|p|] == p;
      } else if lines[i] == "\n" && |p| == 1 {
        assert d[i] == lines[i][1..];
      } else if lines[i] == "\n" && p == "" {
        assert d[i] == lines[i][..0] + d[i];
      }
    }
  }

  /** With the guessed prefix, dedent removes exactly that prefix from every
      line considered for it: the stripped characters are the indent. */
  lemma DedentGuessed(lines: seq<string>, p: string)
    requires GuessIndent(lines) == Some(p)
    ensures forall i :: 0 <= i < |lines| && (p == "" || Considered(lines[i], p[0])) ==>
      lines[i] == p + Dedent(lines, p)[i]
  {
    GuessIsPrefix(lines, p);
  }
}
