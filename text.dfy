/** The two pieces of Python string handling the filter relies on:
    `str.strip()` with no argument and `"".join(lines)`. */
module Text {

  /** Python's `str.isspace()` for one character: the ASCII controls
      TAB..CR and FS..US, SPACE, NEL, NO-BREAK SPACE and the Unicode
      space separators and line/paragraph separators. */
  predicate IsSpace(c: char) {
    ('\t' <= c <= '\r') || ('\U{1C}' <= c <= '\U{1F}') || c == ' '
    || c == '\U{85}' || c == '\U{A0}' || c == '\U{1680}'
    || ('\U{2000}' <= c <= '\U{200A}') || c == '\U{2028}' || c == '\U{2029}'
    || c == '\U{202F}' || c == '\U{205F}' || c == '\U{3000}'
  }

  predicate AllSpace(s: string) {
    forall i :: 0 <= i < |s| ==> IsSpace(s[i])
  }

  /** Number of whitespace characters at the start of `s`. */
  function LeadingSpaces(s: string): (n: nat)
    ensures n <= |s| && AllSpace(s[..n])
    ensures n < |s| ==> !IsSpace(s[n])
  {
    if s != [] && IsSpace(s[0]) then
      var n := 1 + LeadingSpaces(s[1..]);
      assert s[..n] == [s[0]] + s[1..][..n - 1];
      n
    else 0
  }

  /** Number of whitespace characters at the end of `s`. */
  function TrailingSpaces(s: string): (n: nat)
    ensures n <= |s| && AllSpace(s[|s| - n..])
    ensures n < |s| ==> !IsSpace(s[|s| - n - 1])
  {
    if s != [] && IsSpace(s[|s| - 1]) then
      var n := 1 + TrailingSpaces(s[..|s| - 1]);
      assert s[|s| - n..] == s[..|s| - 1][|s| - n..] + [s[|s| - 1]];
      n
    else 0
  }

  /** Python's `s.strip()`: `s` without leading and trailing whitespace. */
  function Strip(s: string): string {
    var t := s[LeadingSpaces(s)..];
    t[..|t| - TrailingSpaces(t)]
  }

  /** `line` is `word` with nothing but whitespace around it. */
  ghost predicate Padded(line: string, word: string) {
    exists i, j :: 0 <= i <= j <= |line| && line[i..j] == word && AllSpace(line[..i]) && AllSpace(line[j..])
  }

  /** For a word that neither starts nor ends with whitespace, `line.strip()`
      equals the word exactly when the line is that word padded with
      whitespace. */
  lemma StripMatches(line: string, word: string)
    requires word != [] && !IsSpace(word[0]) && !IsSpace(word[|word| - 1])
    ensures Strip(line) == word <==> Padded(line, word)
  {
    if Padded(line, word) {
      PaddedStrips(line, word);
    }
    if Strip(line) == word {
      StripPads(line);
    }
  }

  lemma PaddedStrips(line: string, word: string)
    requires word != [] && !IsSpace(word[0]) && !IsSpace(word[|word| - 1])
    requires Padded(line, word)
    ensures Strip(line) == word
  {
    var i, j :| 0 <= i <= j <= |line| && line[i..j] == word && AllSpace(line[..i]) && AllSpace(line[j..]);
    Split3(line, i, j);
    StripPadded(line[..i], word, line[j..]);
  }

  lemma Split3(s: string, i: nat, j: nat)
    requires i <= j <= |s|
    ensures s == s[..i] + s[i..j] + s[j..]
  {
    assert s[..i] + s[i..j] == s[..j];
  }

  /** Every line is its stripped text padded with whitespace. */
  lemma StripPads(line: string)
    ensures Padded(line, Strip(line))
  {
    var a := LeadingSpaces(line);
    var t := line[a..];
    var k := TrailingSpaces(t);
    var j := a + |t| - k;
    assert line[a..j] == t[..|t| - k];
    assert line[j..] == t[|t| - k..];
  }

  /** Stripping recovers a word from any whitespace padding around it: the
      inverse of padding, as long as the word itself neither starts nor ends
      with whitespace. */
  lemma StripPadded(left: string, word: string, right: string)
    requires AllSpace(left) && AllSpace(right)
    requires word != [] && !IsSpace(word[0]) && !IsSpace(word[|word| - 1])
    ensures Strip(left + word + right) == word
  {
    var s := left + word + right;
    LeadingPadded(left, word + right);
    assert s == left + (word + right);
    var t := s[LeadingSpaces(s)..];
    assert t == word + right;
    TrailingPadded(word, right);
  }

  lemma {:induction false} LeadingPadded(left: string, rest: string)
    requires AllSpace(left)
    requires rest != [] && !IsSpace(rest[0])
    ensures LeadingSpaces(left + rest) == |left|
  {
    if left != [] {
      assert (left + rest)[1..] == left[1..] + rest;
      LeadingPadded(left[1..], rest);
    } else {
      assert left + rest == rest;
    }
  }

  lemma {:induction false} TrailingPadded(rest: string, right: string)
    requires AllSpace(right)
    requires rest != [] && !IsSpace(rest[|rest| - 1])
    ensures TrailingSpaces(rest + right) == |right|
  {
    if right != [] {
      var s := rest + right;
      assert s[..|s| - 1] == rest + right[..|right| - 1];
      TrailingPadded(rest, right[..|right| - 1]);
    } else {
      assert rest + right == rest;
    }
  }

  /** Python's `"".join(lines)`. */
  function Join(lines: seq<string>): string {
    if lines == [] then [] else lines[0] + Join(lines[1..])
  }

  lemma {:induction false} JoinAppend(a: seq<string>, b: seq<string>)
    ensures Join(a + b) == Join(a) + Join(b)
  {
    if a == [] {
      assert a + b == b;
    } else {
      assert (a + b)[1..] == a[1..] + b;
      JoinAppend(a[1..], b);
    }
  }

  /** An empty line adds nothing to the joined text. */
  lemma JoinSkipsEmpty(a: seq<string>, b: seq<string>)
    ensures Join(a + ([""] + b)) == Join(a + b)
  {
    JoinAppend(a, [""] + b);
    JoinAppend(a, b);
    assert ([""] + b)[1..] == b;
  }
}
