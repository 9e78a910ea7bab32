# black_markdown, modelled in Dafny

black_markdown runs the `black` formatter over the ```` ```python ```` blocks
of Markdown files, in place. It handles files one line at a time:

- Outside a block, every line is copied.
- A line whose `strip()` is ```` ```python ```` opens a block.
- Inside a block, lines are buffered.
- A line whose `strip()` is ```` ``` ```` closes the block. The tool then
  guesses the block's indent (`guess_indent`) and cuts it off every buffered
  line (`dedent`). It pipes the joined text through `black -`, puts the indent
  back in front of black's output lines (`indent`), and writes them, followed
  by the closing fence.

The command line holds either a help flag alone, which ends the run with
status 0 whatever follows it, or black options up to `--` or up to the first
argument not starting with `-`, then the Markdown files.

The model has five modules:

- `Wrappers` (wrappers.dfy) holds `Option`. `None` stands for "Python raises here".
- `Text` (text.dfy) holds Python's `str.strip()`, with the full `str.isspace`
  character set, and `"".join`.
- `Indentation` (indent.dfy) holds `guess_indent`, `dedent` and `indent` as
  functions, with lemmas that characterise them.
- `Rewriter` (rewriter.dfy) holds the per-file line loop, as methods
  (`Feed` is one pass of the loop body, `RewriteFile` one file, and
  `RewriteFiles` the loop over all files). They are proved against a state
  machine written as functions.
  - The machine is `Step`/`Run` over a `State`: `Outside`, or `Inside(start,
    buf)`.
  - The machine is parametric in `Rules`: the open-fence test, the close-fence
    test, and the exchange of a closed block's interior for output lines.
  - The laws of the machine hold for any rules.
  - `ToolRules(fmt)` gives the tool's own rules: `IsOpen`, `IsClose`, and
    `FormatBlock(·, fmt)`.
  - The formatter `fmt: string -> seq<string>` stands for running black and
    splitting its output with `splitlines(True)`.
- `Cli` (cli.dfy) holds the argument split. `Parse` is the specification and
  `ParseArgs` is the loop.

Behaviour of the code that is easy to miss, which the model follows:

- Blank-only blocks raise. `guess_indent` takes `min()` over the considered
  lines, and that raises `ValueError` when no line is considered. An empty
  block, or one made only of `"\n"` lines, therefore aborts the run
  (`Indentation.BlankBlockRaises`, `Rewriter.EmptyBlockRaises`). It does not
  give the empty indent.
  - The same happens when the space stage finds a line with no leading space
    and the tab stage has no line to consider. Inside the tool this case never
    arises: only the last line of a file can lack its `"\n"`, so every line of
    a closed block ends in `"\n"`, and every such line other than `"\n"` is
    considered for both characters. A closed block raises exactly when it is
    empty or holds only `"\n"` lines (`Indentation.TerminatedBlockRaises`).
  - The model returns `None` for this case. The run then ends in
    `Raised(out)`, where `out` is what was written up to the opening fence of
    that block.
- Blank lines vanish from the formatter input. Only lines that are exactly
  `"\n"` are exempt from the guess. `dedent` still cuts them, so with a
  non-empty indent a `"\n"` line reaches black as `""`, which is nothing
  (`Rewriter.BlankLineVanishes`).
- Unterminated blocks are dropped. The interior of a block still open at the
  end of a file is never written (`Rewriter.UnterminatedDropped`). The warning
  about it, and the reset of the buffer, happen only at the first line of the
  next non-empty file, because `fileinput` reports no first line for an empty
  file. `Rewriter.RewriteFile` passes the open state on through an empty file
  for this reason. The last file gets no warning.
- Fences are matched after `strip()`, not exactly. Surrounding whitespace of
  any kind is allowed (`Rewriter.FenceTests`).

## Model

| member | source | states |
|---|---|---|
| Text.LeadingSpaces | black_markdown.py:118 | the leading whitespace run of `strip()`: all of it is `isspace`, and the character after it is not |
| Text.TrailingSpaces | black_markdown.py:118 | the trailing whitespace run of `strip()`, likewise from the right |
| Text.Strip | black_markdown.py:118 | `str.strip()`; no contract of its own, characterised by `LeadingSpaces`, `TrailingSpaces`, `StripPads` and `StripPadded` |
| Text.StripMatches | black_markdown.py:118 | `strip(line) == word` iff the line is `word` with whitespace on both sides, for a word that neither starts nor ends with whitespace |
| Text.StripPads | black_markdown.py:118 | every line is its stripped text padded with whitespace |
| Text.StripPadded | black_markdown.py:118 | stripping a word padded with whitespace gives the word back |
| Text.Join | black_markdown.py:129 | `"".join`; no contract of its own, characterised by `JoinAppend` and `JoinSkipsEmpty` |
| Text.JoinAppend | black_markdown.py:129 | `"".join` of a concatenation is the concatenation of the joins |
| Text.JoinSkipsEmpty | black_markdown.py:129 | an empty line adds nothing to the joined text |
| Indentation.LeadingRun | black_markdown.py:62 | the group `(?P<indent>c*)` of the pattern: the longest prefix made only of `c` |
| Indentation.Repeat | black_markdown.py:70 | `c * n` has length `n` and is made only of `c` |
| Indentation.MinRun | black_markdown.py:59-68 | `None` (min raises) iff no line is considered, that is, none is other than `"\n"` with a non-`c` character after its run; otherwise a lower bound of every considered run |
| Indentation.MinRunAttained | black_markdown.py:59-68 | the minimum is the run of some considered line |
| Indentation.GuessSpaces | black_markdown.py:58-70 | the guess is `n > 0` spaces iff `n` is the least space run over the considered lines |
| Indentation.GuessTabs | black_markdown.py:58-70 | the guess is `m > 0` tabs iff some considered line has no leading space and `m` is the least tab run: spaces take priority |
| Indentation.GuessEmpty | black_markdown.py:58-71 | the guess is `""` iff some considered line lacks a leading space and some lacks a leading tab |
| Indentation.GuessRaises | black_markdown.py:59-68 | the guess raises iff no line is considered for spaces, or the space stage gives 0 and no line is considered for tabs |
| Indentation.GuessSkipsNewline | test/test_black_markdown.py:17 | `[" foo\n", "\n", " bar\n"]` gives `" "` |
| Indentation.GuessUnindentedWins | test/test_black_markdown.py:22 | `["\tfoo\n", "bar\n"]` gives `""` |
| Indentation.BlankBlockRaises | black_markdown.py:59-68 | a block of only `"\n"` lines, the empty block included, makes the guess raise |
| Indentation.GuessIndent | black_markdown.py:52-71 | no contract of its own; characterised completely by `GuessSpaces`, `GuessTabs`, `GuessEmpty` and `GuessRaises` |
| Indentation.TerminatedBlockRaises | black_markdown.py:59-68 | for lines that all end in `"\n"`, as a closed block's do, the guess raises iff every line is `"\n"` |
| Indentation.GuessIsPrefix | black_markdown.py:52-71 | the guess is a run of one character, and a prefix of every line considered for that character |
| Indentation.Dedent | black_markdown.py:74-76 | same length; each line loses its first `len(prefix)` characters whatever they are, and shorter lines become `""` |
| Indentation.DropFirst | black_markdown.py:76 | the slice `line[len(prefix):]`; no contract of its own, characterised by `Dedent` |
| Indentation.DedentAppend | black_markdown.py:74-76 | dedent works line by line |
| Indentation.DedentIgnoresPrefixText | black_markdown.py:74-76 | only the length of the prefix matters to dedent |
| Indentation.Indent | black_markdown.py:79-81 | same length; `""` and `"\n"` unchanged, every other line gets the prefix in front, including a last line without terminator |
| Indentation.IndentUndoesDedent | black_markdown.py:74-81 | lines starting with the prefix that are not blank after it come back unchanged after dedent then indent |
| Indentation.DedentAfterIndent | black_markdown.py:74-81 | indent then dedent gives every line back, except `"\n"`, which a non-empty prefix turns into `""` |
| Indentation.DedentGuessed | black_markdown.py:126-129 | with the guessed prefix, dedent removes exactly that prefix from every considered line |
| Rewriter.FenceTests | black_markdown.py:118-124 | the loop's `strip()` comparisons are the fence predicates `IsOpen`/`IsClose` (fence text padded with whitespace) |
| Rewriter.OpenIsNotClose | black_markdown.py:118-124 | an opening fence is never a closing fence, so a nested ```` ```python ```` line inside a block is buffered |
| Rewriter.FormatBlock | black_markdown.py:126-133 | the exchange of a closed block; no contract of its own, characterised by `BlockFormatted`, `EmptyBlockRaises` and `BlankLineVanishes` |
| Rewriter.BlankLineVanishes | black_markdown.py:126-129 | with a non-empty prefix, the text given to black is the same as if a `"\n"` interior line were absent |
| Rewriter.Step | black_markdown.py:117-137 | one pass of the loop body; no contract of its own, characterised by `OutsideCopies`, `InsideBuffers`, `CloseRun` and `BlockRaises` |
| Rewriter.Run | black_markdown.py:117-137 | the loop over one file; no contract of its own, characterised by `RunAppend`, `OpenBlock`, `BlockReplaced` and `InsideTail` |
| Rewriter.RunAppend | black_markdown.py:105-137 | running over `a + b` is running over `a`, then over `b` from the state `a` left; an exception in `a` ends it |
| Rewriter.OutsideCopies | black_markdown.py:117-122 | outside a block, lines that open none are written unchanged and in order, and the state stays outside |
| Rewriter.NoFenceUnchanged | black_markdown.py:117-122 | with the tool's rules, when no line opens a block, every line the loop reads is written back unchanged |
| Rewriter.InsideBuffers | black_markdown.py:136-137 | inside a block, lines that close none are appended to the buffer and nothing is written |
| Rewriter.OpenBlock | black_markdown.py:117-122 | up to the end of an open block, the lines before it and its fence are written, and the state holds the fence's line number and exactly the interior |
| Rewriter.UnterminatedDropped | black_markdown.py:105-137 | wherever a block opens, a run that ends inside it has written what came before and the opening fence, and holds the interior only in the buffer: the interior is never written |
| Rewriter.CloseRun | black_markdown.py:124-135 | on a closing fence, the exchanged block and then the fence are written, and the run goes on outside |
| Rewriter.BlockReplaced | black_markdown.py:117-137 | a closed block: the text before, the opening fence, the exchanged interior (never the interior itself), the closing fence, then the rest of the run from outside |
| Rewriter.BlockRaises | black_markdown.py:124-126 | when the exchange raises, the run ends with the text up to and including the opening fence |
| Rewriter.BlockFormatted | black_markdown.py:124-135 | with the formatting exchange (that of `ToolRules(fmt)`), the interior is replaced by `indent(fmt(join(dedent(buf, p))), p)` for the guessed `p` |
| Rewriter.EmptyBlockRaises | black_markdown.py:117-126 | with the tool's rules, a closed block of only `"\n"` lines, wherever it starts, aborts the run right after its opening fence |
| Rewriter.InsideTail | black_markdown.py:117-137 | an open state always holds either the starting buffer extended by every line, or the line number of an opening fence with exactly the lines after it, none of them a closing fence |
| Rewriter.Feed | black_markdown.py:117-137 | one pass of the loop body on `buf`/`start` is one step of the machine: the same lines written and the same new state, or the same exception |
| Rewriter.RewriteFile | black_markdown.py:103-137 | on a non-empty file the loop gives the machine's run from outside, whatever the previous file left open; an empty file passes the state on |
| Rewriter.RewriteFiles | black_markdown.py:104-115 | each file's output is the machine's run on that file alone; the first exception ends the run with that file's partial output |
| Cli.OptionCount | black_markdown.py:94-98 | the options are the longest leading run of arguments that start with `-` and are not `--` |
| Cli.OptionCountAt | black_markdown.py:94-98 | that run ends at the first argument that is not an option, and only there |
| Cli.BlackCommand | black_markdown.py:102 | the command black is run with; no contract of its own, characterised by `ParseSplit` |
| Cli.FileArgs | black_markdown.py:94-98 | the files after the options; no contract of its own, characterised by `ParseSplit` |
| Cli.Parse | black_markdown.py:87-102 | main's decision on `argv`; no contract of its own, characterised by `ParseSplit`, `HelpFirstOnly` and `ParseArgs` |
| Cli.ParseArgs | black_markdown.py:87-102 | the argument loop gives `Parse(argv)` |
| Cli.ParseSplit | black_markdown.py:87-102 | for options, then `--` or an argument without a leading `-` or nothing, then files: black gets `["black"] + (options or ["--quiet"]) + ["-"]` and the files are the rest without the `--`; no files gives exit 1 |
| Cli.HelpFirstOnly | black_markdown.py:87-90 | exit 0 happens iff the first argument is `--help`, `-h` or `-?`; every early exit is 0 or 1 |
| Cli.SeparateValueIsFile | black_markdown.py:94-98 | `-l 79 a.md` hands black a bare `-l` and takes `79` for a file |
| Cli.LoneDashIsOption | black_markdown.py:95 | a lone `-` is a black option, so `bm -` exits with usage 1 |

## Left out

- Running black: `subprocess.run` (black_markdown.py:127-132) becomes the
  parameter `fmt`, which returns black's output already split into lines.
  Black's exit status is not checked by the tool, and there is nothing to
  model about it. Errors from starting the process, such as black not being
  installed, are not modelled.
- File I/O: `fileinput` with `inplace=True` (black_markdown.py:104) is not
  modelled.
  - `RewriteFiles` takes the files' lines and returns what is written for
    each.
  - What stays on disk when an exception ends the run is not modelled.
  - Missing or unreadable files are not modelled.
- Diagnostics on stderr are not modelled: the `# file:start` line for each
  block (black_markdown.py:125) and the lost-content warning
  (black_markdown.py:109-114). `start` is kept in the state, but nothing
  reads it.
- Usage text: `usage` (black_markdown.py:30-49) is reduced to its exit status
  (`Cli.Usage`).
- `str.splitlines(True)` and its full set of line boundaries are inside `fmt`.
- Newline translation: `fileinput` reads with universal newlines and writes
  with the platform's line separator (black_markdown.py:104). The lines
  modelled are those after `\r\n` and `\r` have become `\n`, so
  `NoFenceUnchanged` is about lines, not bytes: on POSIX a CRLF file comes
  back with LF endings.
- The `re` engine: the pattern on line 62 is modelled as `LeadingRun` plus the
  "a non-`c` character follows" test.
- Composition: the argument split and the file loop are modelled separately.
  No member feeds `ParseArgs`'s files into `RewriteFiles`, because reading the
  named files is I/O.
- The machine `Step`/`Run` is ghost. Its fence tests are the padded-word
  predicates, which are equivalent to `strip()` by `FenceTests`. The
  executable loop (`Feed`) uses `Strip`.
