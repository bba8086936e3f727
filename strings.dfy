/**
 * The few Python 2 string operations the linter adapter relies on, on
 * byte strings modelled as `seq<char>`: `str.split(sep)` and
 * `str.replace(old, "")`.
 */
module Strings {

  /** First index of `c` in `s`. */
  function IndexOf(s: string, c: char): (i: nat)
    requires c in s
    ensures i < |s| && s[i] == c
    ensures forall k :: 0 <= k < i ==> s[k] != c
  {
    if s[0] == c then 0 else 1 + IndexOf(s[1..], c)
  }

  // ---------------------------------------------------------------------
  // str.split(sep) with an explicit one-character separator

  /** Python's `s.split(sep)`: the pieces between separators, empty ones kept; `"".split(sep) == [""]`. */
  function Split(s: string, sep: char): (parts: seq<string>)
    ensures |parts| >= 1
    ensures forall k :: 0 <= k < |parts| ==> sep !in parts[k]
    decreases |s|
  {
    if sep !in s then [s]
    else
      var i := IndexOf(s, sep);
      [s[..i]] + Split(s[i + 1..], sep)
  }

  /** Python's `sep.join(parts)`, the inverse of `Split`. */
  function JoinWith(parts: seq<string>, sep: char): string
  {
    if |parts| == 0 then ""
    else if |parts| == 1 then parts[0]
    else parts[0] + [sep] + JoinWith(parts[1..], sep)
  }

  lemma {:induction false} JoinSplit(s: string, sep: char)
    ensures JoinWith(Split(s, sep), sep) == s
    decreases |s|
  {
    if sep in s {
      var i := IndexOf(s, sep);
      var head, tail := s[..i], s[i + 1..];
      assert s == head + [sep] + tail by {
        assert s == s[..i] + [s[i]] + s[i + 1..];
      }
      var parts := Split(tail, sep);
      assert Split(s, sep) == [head] + parts;
      assert ([head] + parts)[0] == head && ([head] + parts)[1..] == parts;
      JoinSplit(tail, sep);
    }
  }

  /** In `a + [sep] + b` with no separator in `a`, the first separator is the one after `a`. */
  lemma IndexOfAfter(a: string, sep: char, b: string)
    requires sep !in a
    ensures IndexOf(a + [sep] + b, sep) == |a|
  {
    var s := a + [sep] + b;
    assert s[|a|] == sep;
    assert forall k :: 0 <= k < |a| ==> s[k] == a[k];
  }

  lemma {:induction false} SplitJoin(parts: seq<string>, sep: char)
    requires |parts| >= 1
    requires forall k :: 0 <= k < |parts| ==> sep !in parts[k]
    ensures Split(JoinWith(parts, sep), sep) == parts
    decreases |parts|
  {
    if |parts| > 1 {
      var tail := JoinWith(parts[1..], sep);
      var s := parts[0] + [sep] + tail;
      assert JoinWith(parts, sep) == s;
      IndexOfAfter(parts[0], sep, tail);
      assert s[..|parts[0]|] == parts[0] && s[|parts[0]| + 1..] == tail;
      SplitJoin(parts[1..], sep);
      assert Split(s, sep) == [parts[0]] + Split(tail, sep);
    }
  }

  // ---------------------------------------------------------------------
  // str.replace(pat, "")

  /** `pat` occurs somewhere in `s`. */
  predicate Occurs(pat: string, s: string)
  {
    exists i :: 0 <= i <= |s| && pat <= s[i..]
  }

  /**
   * Python's `s.replace(pat, "")`: one left-to-right pass that deletes every
   * non-overlapping occurrence of `pat`; an empty `pat` leaves `s` as it is.
   */
  function RemoveAll(s: string, pat: string): (r: string)
    ensures |r| <= |s|
    decreases |s|
  {
    if pat == [] || |s| < |pat| then s
    else if pat <= s then RemoveAll(s[|pat|..], pat)
    else [s[0]] + RemoveAll(s[1..], pat)
  }

  /** Text in which `pat` does not occur is returned unchanged. */
  lemma {:induction false} RemoveAllAbsent(s: string, pat: string)
    requires pat != [] && !Occurs(pat, s)
    ensures RemoveAll(s, pat) == s
    decreases |s|
  {
    if |s| >= |pat| {
      assert s[0..] == s;
      assert !(pat <= s);
      forall i | 0 <= i <= |s[1..]|
        ensures !(pat <= s[1..][i..])
      {
        assert s[1..][i..] == s[i + 1..];
      }
      RemoveAllAbsent(s[1..], pat);
    }
  }

  /** Back-to-back copies of `pat` are removed entirely. */
  function Repeat(pat: string, n: nat): string
  {
    if n == 0 then "" else pat + Repeat(pat, n - 1)
  }

  lemma {:induction false} RemoveAllRepeat(pat: string, n: nat)
    requires pat != []
    ensures RemoveAll(Repeat(pat, n), pat) == ""
  {
    if n > 0 {
      var s := Repeat(pat, n);
      assert pat <= s;
      assert s[|pat|..] == Repeat(pat, n - 1);
      RemoveAllRepeat(pat, n - 1);
    }
  }

  /** One pass may leave an occurrence that a second pass removes: the deletion is not idempotent. */
  lemma RemoveAllNotIdempotent()
    ensures RemoveAll("aabb", "ab") == "ab"
    ensures RemoveAll(RemoveAll("aabb", "ab"), "ab") == ""
  {
    assert "aabb"[1] != "ab"[1];
    assert "aabb"[1..] == "abb";
    assert "ab" <= "abb";
    assert "abb"[2..] == "b";
    assert RemoveAll("b", "ab") == "b";
    assert "ab"[2..] == "";
  }
}
