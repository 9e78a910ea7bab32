/** The command line of black_markdown: a help flag, black options up to
    "--" or the first argument not starting with "-", then Markdown files. */
module Cli {
  /** Options black gets when none are given. */
  const DefaultOptions: seq<string> := ["--quiet"]

  /** Recognised as help only as the first argument. */
  const HelpFlags: seq<string> := ["--help", "-h", "-?"]

  /** What main decides before touching any file: exit through usage with a
      status, or run the given black command on each of the files. */
  datatype Command = Usage(status: int) | Format(black: seq<string>, files: seq<string>)

  /** Python's `arg.startswith("-")`. */
  predicate StartsWithDash(arg: string) {
    |arg| > 0 && arg[0] == '-'
  }

  /** An argument the option loop hands to black; "--" and any argument not
      starting with "-" end the options. A lone "-" is an option. */
  predicate IsOption(arg: string) {
    arg != "--" && StartsWithDash(arg)
  }

  /** The length of the run of options at the front of `args`. */
  function OptionCount(args: seq<string>): (n: nat)
    ensures n <= |args|
    ensures forall i :: 0 <= i < n ==> IsOption(args[i])
    ensures n < |args| ==> !IsOption(args[n])
  {
    if args == [] || !IsOption(args[0]) then 0 else 1 + OptionCount(args[1..])
  }

  /** The options run ends at the first argument that is not an option, and
      only there. */
  lemma OptionCountAt(args: seq<string>, k: nat)
    requires k <= |args|
    requires forall i :: 0 <= i < k ==> IsOption(args[i])
    requires k < |args| ==> !IsOption(args[k])
    ensures OptionCount(args) == k
  {
  }

  /** `["black"] + (options or ["--quiet"]) + ["-"]`: black reads the code
      from standard input. */
  function BlackCommand(options: seq<string>): seq<string> {
    ["black"] + (if options == [] then DefaultOptions else options) + ["-"]
  }

  /** The arguments after the options: after "--" when that ended them,
      else from the argument that ended them; none when every argument is
      an option. */
  function FileArgs(args: seq<string>, n: nat): seq<string>
    requires n <= |args|
  {
    if n == |args| then [] else if args[n] == "--" then args[n + 1..] else args[n..]
  }

  /** main's handling of `argv` (program name first), as a specification. */
  function Parse(argv: seq<string>): Command {
    if |argv| < 2 then Usage(1)
    else if argv[1] in HelpFlags then Usage(0)
    else
      var args := argv[1..];
      var n := OptionCount(args);
      var files := FileArgs(args, n);
      if files == [] then Usage(1) else Format(BlackCommand(args[..n]), files)
  }

  /** The option loop of main. */
  method ParseArgs(argv: seq<string>) returns (c: Command)
    ensures c == Parse(argv)
  {
    if |argv| < 2 {
      return Usage(1);
    }
    if argv[1] in HelpFlags {
      return Usage(0);
    }
    var args := argv[1..];
    var options: seq<string> := [];
    var files: seq<string> := [];
    var i := 0;
    while i < |args|
      invariant i <= |args|
      invariant options == args[..i]
      invariant forall k :: 0 <= k < i ==> IsOption(args[k])
      invariant files == []
    {
      var arg := args[i];
      if arg == "--" || !StartsWithDash(arg) {
        files := files + argv[i + 1 + (if arg == "--" then 1 else 0)..];
        assert argv[i + 1 + (if arg == "--" then 1 else 0)..] == args[i + (if arg == "--" then 1 else 0)..];
        break;
      }
      options := options + [arg];
      i := i + 1;
    }
    OptionCountAt(args, i);
    if files == [] {
      return Usage(1);
    }
    c := Format(BlackCommand(options), files);
  }

  /** Parse against a direct description of the command line: whenever the
      arguments are options, then "--" or an argument not starting with "-"
      (or nothing), then files, black gets exactly those options (or the
      default) and the rest are the files, with "--" itself dropped; no
      files means usage with status 1. */
  lemma ParseSplit(argv: seq<string>, options: seq<string>, dashdash: bool, files: seq<string>)
    requires |argv| >= 2 && argv[1] !in HelpFlags
    requires argv[1..] == options + (if dashdash then ["--"] else []) + files
    requires forall i :: 0 <= i < |options| ==> IsOption(options[i])
    requires !dashdash && files != [] ==> !StartsWithDash(files[0])
    ensures Parse(argv) == if files == [] then Usage(1) else Format(BlackCommand(options), files)
  {
    var args := argv[1..];
    var k := |options|;
    assert args[..k] == options;
    forall i | 0 <= i < k ensures IsOption(args[i]) {
      assert args[i] == options[i];
    }
    if dashdash {
      assert args[k] == "--";
      assert args[k + 1..] == files;
    } else if files != [] {
      assert args[k] == files[0];
      assert args[k..] == files;
    }
    OptionCountAt(args, k);
  }

  /** Status 0 comes only from a help flag, and only from one in first
      position; everything else that stops early exits with status 1. */
  lemma HelpFirstOnly(argv: seq<string>)
    ensures Parse(argv) == Usage(0) <==> |argv| >= 2 && argv[1] in HelpFlags
    ensures Parse(argv).Usage? ==> Parse(argv).status in {0, 1}
  {
  }

  /** An option whose value is a separate argument ends the options at the
      value: black gets the bare option and the value is taken for a file. */
  lemma SeparateValueIsFile()
    ensures Parse(["bm", "-l", "79", "a.md"]) == Format(["black", "-l", "-"], ["79", "a.md"])
  {
    ParseSplit(["bm", "-l", "79", "a.md"], ["-l"], false, ["79", "a.md"]);
  }

  /** A lone "-" does not name standard input: it is passed to black, and
      with no file after it the usage exit follows. */
  lemma LoneDashIsOption()
    ensures Parse(["bm", "-"]) == Usage(1)
  {
    ParseSplit(["bm", "-"], ["-"], false, []);
  }
}
