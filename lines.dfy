/**
 * Python 2's `str.splitlines()` on a byte string, which the lint request
 * uses to cut the editor's buffer into lines: breaks are "\n", "\r" and
 * "\r\n", and a final break does not start a new line.
 */
module Lines {

  // ---------------------------------------------------------------------
  // Line breaks of a byte string: "\n" and "\r"

  predicate IsLineBreak(c: char) { c == '\n' || c == '\r' }

  /** A line as `splitlines` returns it: no break inside. */
  predicate NoLineBreak(line: string)
  {
    forall j :: 0 <= j < |line| ==> !IsLineBreak(line[j])
  }

  /** Length of the first line of `s`, up to its first line break. */
  function LineEnd(s: string): (n: nat)
    ensures n <= |s|
    ensures NoLineBreak(s[..n])
    ensures n < |s| ==> IsLineBreak(s[n])
  {
    if s == [] || IsLineBreak(s[0]) then 0
    else
      var n := LineEnd(s[1..]);
      assert s[..n + 1] == [s[0]] + s[1..][..n];
      n + 1
  }

  /** Where the line after the first one starts: past "\r\n" as one break, past any other break character alone. */
  function NextLine(s: string): (next: nat)
    requires s != []
    ensures LineEnd(s) < next <= |s| || next == LineEnd(s) == |s|
  {
    var n := LineEnd(s);
    if n == |s| then n
    else if s[n] == '\r' && n + 1 < |s| && s[n + 1] == '\n' then n + 2
    else n + 1
  }

  /** Python's `s.splitlines()`: the lines without their breaks; a final break does not start a new line. */
  function SplitLines(s: string): (lines: seq<string>)
    ensures |lines| == 0 <==> s == []
    decreases |s|
  {
    if s == [] then []
    else [s[..LineEnd(s)]] + SplitLines(s[NextLine(s)..])
  }

  /** No line that `SplitLines` returns contains a break. */
  lemma {:induction false} SplitLinesNoBreaks(s: string)
    ensures forall k :: 0 <= k < |SplitLines(s)| ==> NoLineBreak(SplitLines(s)[k])
    decreases |s|
  {
    if s != [] {
      var n := LineEnd(s);
      SplitLinesNoBreaks(s[NextLine(s)..]);
      assert NoLineBreak(s[..n]);
    }
  }

  /** Each line followed by a newline: the text `SplitLines` reads back for "\n"-terminated input. */
  function Unsplit(lines: seq<string>): string
  {
    if lines == [] then "" else lines[0] + "\n" + Unsplit(lines[1..])
  }

  /** A text whose first line, of length `n`, ends in a newline splits into that line and the lines after it. */
  lemma SplitLinesAtNewline(s: string, n: nat)
    requires n == LineEnd(s) < |s| && s[n] == '\n'
    ensures SplitLines(s) == [s[..n]] + SplitLines(s[n + 1..])
  {
    assert s[n] != '\r';
    assert NextLine(s) == n + 1;
  }

  /** Cutting a text without carriage returns at one of its newlines. */
  lemma NewlineAt(s: string, n: nat)
    requires '\r' !in s
    requires n < |s| && s[n] == '\n'
    ensures s == s[..n] + "\n" + s[n + 1..]
    ensures '\r' !in s[n + 1..]
  {
    assert s == s[..n] + [s[n]] + s[n + 1..];
    assert forall c :: c in s[n + 1..] ==> c in s;
  }

  /** The text with a newline added unless it is empty or already ends in one. */
  function Terminated(s: string): string
  {
    if s == [] || s[|s| - 1] == '\n' then s else s + "\n"
  }

  /** Terminating a text after its first newline terminates the whole text. */
  lemma TerminatedAfterNewline(line: string, rest: string)
    ensures Terminated(line + "\n" + rest) == line + "\n" + Terminated(rest)
  {
    var s := line + "\n" + rest;
    if rest != [] {
      assert s[|s| - 1] == rest[|rest| - 1];
    }
  }

  /** On text without carriage returns, splitting loses only a missing final newline. */
  lemma {:induction false} UnsplitSplitLines(s: string)
    requires '\r' !in s
    ensures Unsplit(SplitLines(s)) == Terminated(s)
    decreases |s|
  {
    if s != [] {
      var n := LineEnd(s);
      if n == |s| {
        assert SplitLines(s) == [s] by {
          assert s[n..] == [] && s[..n] == s;
        }
        assert Unsplit([s]) == s + "\n" by {
          assert [s][1..] == [];
        }
        assert !IsLineBreak(s[..n][|s| - 1]);
      } else {
        var line, rest := s[..n], s[n + 1..];
        assert s[n] == '\n';
        SplitLinesAtNewline(s, n);
        NewlineAt(s, n);
        assert Unsplit([line] + SplitLines(rest)) == line + "\n" + Unsplit(SplitLines(rest)) by {
          assert ([line] + SplitLines(rest))[1..] == SplitLines(rest);
        }
        UnsplitSplitLines(rest);
        TerminatedAfterNewline(line, rest);
      }
    }
  }
}
