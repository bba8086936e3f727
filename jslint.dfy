/**
 * Translation of coffeelint's jslint-style report into lint results: the
 * severity mapping, the split of a `reason` attribute into severity word
 * and message, the grooming of compiler-error messages, and the per-issue
 * and per-report translation done by the SAX content handler.
 */
module Jslint {
  import opened Wrappers
  import opened Strings

  datatype Severity = SevError | SevWarning | SevInfo

  /** One entry of the editor's result list: severity, 1-based line (0 or below means "no line"), description. */
  datatype LintResult = LintResult(severity: Severity, line: int, description: string)

  /** An `issue` element of the report, with its `reason`, `line` (already converted to an integer) and `evidence` attributes. */
  datatype Issue = Issue(reason: string, line: int, evidence: string)

  // ---------------------------------------------------------------------
  // Severity

  function JslintSeverity(word: string): (sev: Severity)
    ensures sev == SevError <==> word == "error"
    ensures sev == SevWarning <==> word == "warn"
    ensures sev == SevInfo <==> word != "error" && word != "warn"
  {
    if word == "error" then SevError
    else if word == "warn" then SevWarning
    else SevInfo
  }

  // ---------------------------------------------------------------------
  // The reason pattern ^\[(.*?)\]\s*(.*)  (Python 2, no flags)

  /** Python 2's `\s` without the UNICODE flag: space, tab, newline, carriage return, form feed, vertical tab. */
  predicate IsSpace(c: char)
  {
    c == ' ' || c == '\t' || c == '\n' || c == '\r' || c == '\U{000C}' || c == '\U{000B}'
  }

  /** The two groups of a matching reason: the severity word and the message. */
  datatype ReasonParts = ReasonParts(severity: string, message: string)

  /**
   * Where the lazy `(.*?)\]` stops: the first `]` of `s`, provided no newline
   * (which `.` does not match) comes before it.
   */
  function CloseBracket(s: string): (r: Option<nat>)
    ensures r.Some? ==> r.value < |s| && s[r.value] == ']' && ']' !in s[..r.value] && '\n' !in s[..r.value]
    ensures r.None? ==> forall j :: 0 <= j < |s| && s[j] == ']' ==> '\n' in s[..j]
  {
    if s == [] then None
    else if s[0] == ']' then Some(0)
    else if s[0] == '\n' then None
    else match CloseBracket(s[1..])
      case None =>
        assert forall j :: 1 <= j < |s| ==> s[1..][..j - 1] == s[1..j];
        None
      case Some(j) =>
        assert s[..j + 1] == [s[0]] + s[1..][..j];
        Some(j + 1)
  }

  /** Length of the run of `\s` characters that the greedy `\s*` consumes. */
  function SpaceRun(s: string): (n: nat)
    ensures n <= |s|
    ensures forall k :: 0 <= k < n ==> IsSpace(s[k])
    ensures n < |s| ==> !IsSpace(s[n])
  {
    if s == [] || !IsSpace(s[0]) then 0 else 1 + SpaceRun(s[1..])
  }

  /** Length of what the greedy `.*` consumes: everything up to the first newline. */
  function UpToNewline(s: string): (n: nat)
    ensures n <= |s|
    ensures '\n' !in s[..n]
    ensures n < |s| ==> s[n] == '\n'
  {
    if s == [] || s[0] == '\n' then 0
    else
      var n := UpToNewline(s[1..]);
      assert s[..n + 1] == [s[0]] + s[1..][..n];
      n + 1
  }

  /** `jslint_reason_re.match(reason)`: the two groups, or None when the pattern does not match. */
  function MatchReason(reason: string): (r: Option<ReasonParts>)
    ensures r.Some? <==>
      |reason| > 0 && reason[0] == '[' &&
      exists j :: 1 <= j < |reason| && reason[j] == ']' && '\n' !in reason[1..j]
    ensures r.Some? ==>
      var sev := r.value.severity;
      "[" + sev + "]" <= reason && ']' !in sev && '\n' !in sev && '\n' !in r.value.message
  {
    if |reason| == 0 || reason[0] != '[' then None
    else match CloseBracket(reason[1..])
      case None =>
        assert forall j :: 1 <= j < |reason| && reason[j] == ']' ==> '\n' in reason[1..j] by {
          forall j | 1 <= j < |reason| && reason[j] == ']'
            ensures '\n' in reason[1..j]
          {
            assert reason[1..][j - 1] == ']';
            assert reason[1..][..j - 1] == reason[1..j];
          }
        }
        None
      case Some(j) =>
        assert reason[1..][..j] == reason[1..j + 1];
        assert reason[j + 1] == ']';
        assert reason[..j + 2] == "[" + reason[1..j + 1] + "]";
        var rest := reason[j + 2..];
        var tail := rest[SpaceRun(rest)..];
        Some(ReasonParts(reason[1..j + 1], tail[..UpToNewline(tail)]))
  }

  /** A reason string as coffeelint's jslint reporter writes one: `[sev]`, blanks, the message, and whatever follows a newline. */
  function ReasonString(sev: string, blanks: string, message: string, rest: string): string
  {
    "[" + sev + "]" + blanks + message + rest
  }

  /** The pieces of `ReasonString` that the pattern gives back unchanged. */
  predicate WellFormedReason(sev: string, blanks: string, message: string, rest: string)
  {
    && ']' !in sev && '\n' !in sev
    && (forall k :: 0 <= k < |blanks| ==> IsSpace(blanks[k]))
    && (message + rest == [] || !IsSpace((message + rest)[0]))
    && '\n' !in message
    && (rest == [] || rest[0] == '\n')
  }

  /** The lazy group stops at the bracket that follows a severity word. */
  lemma CloseBracketAfter(sev: string, after: string)
    requires ']' !in sev && '\n' !in sev
    ensures CloseBracket(sev + "]" + after) == Some(|sev|)
  {
    var s := sev + "]" + after;
    assert s[..|sev|] == sev;
    assert s[|sev|] == ']';
    var c := CloseBracket(s);
    assert c.Some?;
    assert c.value <= |sev| by { assert s[..c.value] <= s; }
    assert c.value >= |sev| by { assert s[..|sev|] <= s; }
  }

  /** The greedy `\s*` takes exactly the blanks when no blank follows them. */
  lemma SpaceRunOf(blanks: string, tail: string)
    requires forall k :: 0 <= k < |blanks| ==> IsSpace(blanks[k])
    requires tail == [] || !IsSpace(tail[0])
    ensures SpaceRun(blanks + tail) == |blanks|
  {
    var s := blanks + tail;
    assert forall k :: 0 <= k < |blanks| ==> s[k] == blanks[k];
    assert |blanks| < |s| ==> s[|blanks|] == tail[0];
  }

  /** The greedy `.*` takes exactly a message that is followed by nothing or a newline. */
  lemma UpToNewlineOf(message: string, rest: string)
    requires '\n' !in message
    requires rest == [] || rest[0] == '\n'
    ensures UpToNewline(message + rest) == |message|
  {
    var s := message + rest;
    var m := UpToNewline(s);
    assert s[..|message|] == message;
    assert |message| < |s| ==> s[|message|] == '\n';
    assert m <= |message| by { assert s[..m] <= s; }
  }

  /** How a reason string lines up with the pattern's pieces. */
  lemma ReasonStringPieces(sev: string, blanks: string, message: string, rest: string)
    ensures var reason := ReasonString(sev, blanks, message, rest);
      && |reason| > 0 && reason[0] == '['
      && reason[1..] == sev + "]" + (blanks + (message + rest))
      && reason[1..|sev| + 1] == sev
      && reason[|sev| + 2..] == blanks + (message + rest)
      && (blanks + (message + rest))[|blanks|..] == message + rest
      && (message + rest)[..|message|] == message
  {
    var reason := ReasonString(sev, blanks, message, rest);
    assert reason == "[" + (sev + "]" + (blanks + (message + rest)));
  }

  /** Matching a well-formed reason string gives back its severity word and message. */
  lemma MatchReasonString(sev: string, blanks: string, message: string, rest: string)
    requires WellFormedReason(sev, blanks, message, rest)
    ensures MatchReason(ReasonString(sev, blanks, message, rest)) == Some(ReasonParts(sev, message))
  {
    ReasonStringPieces(sev, blanks, message, rest);
    CloseBracketAfter(sev, blanks + (message + rest));
    SpaceRunOf(blanks, message + rest);
    UpToNewlineOf(message, rest);
  }

  /** Every reason the pattern matches is a well-formed reason string built around the two groups. */
  lemma MatchReasonShape(reason: string)
    requires MatchReason(reason).Some?
    ensures var parts := MatchReason(reason).value;
      exists blanks, rest :: WellFormedReason(parts.severity, blanks, parts.message, rest)
                          && reason == ReasonString(parts.severity, blanks, parts.message, rest)
  {
    var j := MatchReasonGroups(reason);
    var sev, after := reason[1..j + 1], reason[j + 2..];
    var n := SpaceRun(after);
    var tail := after[n..];
    var m := UpToNewline(tail);
    var blanks, message, rest := after[..n], tail[..m], tail[m..];
    AfterBracketShape(after);
    ReasonStringAround(sev, blanks, message, rest, after);
    assert WellFormedReason(sev, blanks, message, rest);
  }

  /** Where a matching reason's groups come from: `j` is where the lazy group stops inside `reason[1..]`. */
  lemma MatchReasonGroups(reason: string) returns (j: nat)
    requires MatchReason(reason).Some?
    ensures j + 2 <= |reason|
    ensures ']' !in reason[1..j + 1] && '\n' !in reason[1..j + 1]
    ensures reason == "[" + reason[1..j + 1] + "]" + reason[j + 2..]
    ensures var after := reason[j + 2..];
      var tail := after[SpaceRun(after)..];
      MatchReason(reason).value == ReasonParts(reason[1..j + 1], tail[..UpToNewline(tail)])
  {
    j := CloseBracket(reason[1..]).value;
    MatchReasonAt(reason, j);
    BracketAt(reason, j);
  }

  /** The groups of a reason whose lazy group stops at index `j` of `reason[1..]`. */
  lemma MatchReasonAt(reason: string, j: nat)
    requires |reason| > 0 && reason[0] == '[' && CloseBracket(reason[1..]) == Some(j)
    ensures var after := reason[j + 2..];
      var tail := after[SpaceRun(after)..];
      MatchReason(reason) == Some(ReasonParts(reason[1..j + 1], tail[..UpToNewline(tail)]))
  {
  }

  /** A reason whose lazy group stops at index `j` of `reason[1..]` is "[", the severity word, "]" and the rest. */
  lemma BracketAt(reason: string, j: nat)
    requires |reason| > 0 && reason[0] == '[' && CloseBracket(reason[1..]) == Some(j)
    ensures j + 2 <= |reason|
    ensures ']' !in reason[1..j + 1] && '\n' !in reason[1..j + 1]
    ensures reason == "[" + reason[1..j + 1] + "]" + reason[j + 2..]
  {
    assert reason[1..][..j] == reason[1..j + 1];
    assert reason == reason[..1] + reason[1..j + 1] + reason[j + 1..j + 2] + reason[j + 2..];
  }

  /** What follows the "]" splits into the blank run, the message up to a newline, and the rest from that newline. */
  lemma AfterBracketShape(after: string)
    ensures var n := SpaceRun(after);
      var tail := after[n..];
      var m := UpToNewline(tail);
      && after == after[..n] + (tail[..m] + tail[m..])
      && (forall k :: 0 <= k < n ==> IsSpace(after[..n][k]))
      && (tail == [] || !IsSpace(tail[0]))
      && '\n' !in tail[..m]
      && (tail[m..] == [] || tail[m..][0] == '\n')
  {
    var n := SpaceRun(after);
    var tail := after[n..];
    var m := UpToNewline(tail);
    assert tail == tail[..m] + tail[m..];
    assert after == after[..n] + tail;
  }

  /** A reason string is "[sev]" followed by the blanks, the message and the rest. */
  lemma ReasonStringAround(sev: string, blanks: string, message: string, rest: string, after: string)
    requires after == blanks + (message + rest)
    ensures ReasonString(sev, blanks, message, rest) == "[" + sev + "]" + after
  {
  }

  // ---------------------------------------------------------------------
  // Descriptions

  /** The `evidence` value coffeelint writes when it has none. */
  const Undefined := "undefined"

  /** Every byte is below 0x80, so Python 2's default ASCII codec can decode the byte string. */
  predicate IsAscii(s: string)
  {
    forall k :: 0 <= k < |s| ==> s[k] < '\U{0080}'
  }

  /**
   * `jslint_description`. `errorPattern` is the compiler-error pattern's
   * first group, or None where that pattern does not match `msg`; the
   * group has every copy of the source line `line` removed, and real
   * evidence is appended after " : ". The group is a unicode string and
   * `line` a byte string, so the removal first decodes `line` as ASCII:
   * on a line with a byte of 0x80 or above it raises UnicodeDecodeError,
   * which is the None result.
   */
  function JslintDescription(msg: string, evidence: string, line: string,
                             errorPattern: string -> Option<string>): (d: Option<string>)
    ensures d.None? <==> errorPattern(msg).Some? && !IsAscii(line)
    ensures errorPattern(msg).None? && evidence == Undefined ==> d == Some(msg)
    ensures errorPattern(msg).None? && evidence != Undefined ==> d == Some(msg + " : " + evidence)
    ensures d.Some? && evidence != Undefined ==>
      |d.value| >= |evidence| + 3 && d.value[|d.value| - |evidence| - 3..] == " : " + evidence
    ensures d.Some? && errorPattern(msg).Some? ==>
      var group := errorPattern(msg).value;
      var body := if evidence == Undefined then d.value else d.value[..|d.value| - |evidence| - 3];
      |body| <= |group| && body == RemoveAll(group, line)
  {
    if errorPattern(msg).Some? && !IsAscii(line) then None
    else
      var groomed := match errorPattern(msg)
        case Some(group) => RemoveAll(group, line)
        case None => msg;
      Some(if evidence != Undefined then groomed + " : " + evidence else groomed)
  }

  // ---------------------------------------------------------------------
  // Issues

  /** The exceptions that handling one issue can raise; either one escapes the SAX parse. */
  datatype HandlerError = IndexError | UnicodeDecodeError

  /** What `translate_issue` does with one issue: nothing, one result, or an exception. */
  datatype Translation = Skipped | Emitted(result: LintResult) | Raised(error: HandlerError)

  /** The source line an issue's 1-based line number refers to, or "" for line numbers of 0 and below. */
  function LineText(textlines: seq<string>, line: int): (text: string)
    requires line <= |textlines|
    ensures line > 0 ==> text == textlines[line - 1]
    ensures line <= 0 ==> text == ""
  {
    if line > 0 then textlines[line - 1] else ""
  }

  /** `JslintXmlHandler.startElement` followed by `translate_issue`, for one `issue` element. */
  function TranslateIssue(textlines: seq<string>, issue: Issue,
                          errorPattern: string -> Option<string>): (t: Translation)
    ensures t.Skipped? <==> MatchReason(issue.reason).None?
    ensures t == Raised(IndexError) <==> MatchReason(issue.reason).Some? && issue.line > |textlines|
    ensures t == Raised(UnicodeDecodeError) <==>
      && MatchReason(issue.reason).Some? && issue.line <= |textlines|
      && errorPattern(MatchReason(issue.reason).value.message).Some?
      && !IsAscii(LineText(textlines, issue.line))
    ensures t.Emitted? ==>
      var parts := MatchReason(issue.reason).value;
      && issue.line <= |textlines|
      && t.result.line == issue.line
      && t.result.severity == JslintSeverity(parts.severity)
      && Some(t.result.description) ==
           JslintDescription(parts.message, issue.evidence, LineText(textlines, issue.line), errorPattern)
  {
    match MatchReason(issue.reason)
    case None => Skipped
    case Some(parts) =>
      if issue.line > |textlines| then Raised(IndexError)
      else match JslintDescription(parts.message, issue.evidence, LineText(textlines, issue.line), errorPattern)
        case None => Raised(UnicodeDecodeError)
        case Some(description) => Emitted(LintResult(JslintSeverity(parts.severity), issue.line, description))
  }

  /** An issue whose reason matches, whose line is within the text and whose description can be built yields one result. */
  lemma TranslateIssueEmitted(textlines: seq<string>, issue: Issue, errorPattern: string -> Option<string>,
                              parts: ReasonParts, description: string)
    requires MatchReason(issue.reason) == Some(parts) && issue.line <= |textlines|
    requires JslintDescription(parts.message, issue.evidence, LineText(textlines, issue.line), errorPattern) == Some(description)
    ensures TranslateIssue(textlines, issue, errorPattern) ==
      Emitted(LintResult(JslintSeverity(parts.severity), issue.line, description))
  {
  }

  /** The results of a run of issues, and whether an exception ended the run early. */
  datatype Translated = Translated(results: seq<LintResult>, aborted: bool)

  /** The state after one more issue: an aborted run stays as it is, otherwise the issue's outcome is added. */
  function Absorb(prev: Translated, t: Translation): (next: Translated)
    ensures prev.aborted ==> next == prev
    ensures next.aborted <==> prev.aborted || t.Raised?
    ensures prev.results <= next.results
    ensures |next.results| == |prev.results| + (if !prev.aborted && t.Emitted? then 1 else 0)
    ensures !prev.aborted && t.Emitted? ==> next.results[|prev.results|] == t.result
  {
    if prev.aborted then prev
    else match t
      case Skipped => prev
      case Emitted(r) => Translated(prev.results + [r], false)
      case Raised(_) => Translated(prev.results, true)
  }

  /** The outcomes of a run taken in order, from an empty, unaborted start. */
  function Accumulate(ts: seq<Translation>): (run: Translated)
    ensures |run.results| <= |ts|
    decreases |ts|
  {
    if ts == [] then Translated([], false)
    else Absorb(Accumulate(ts[..|ts| - 1]), ts[|ts| - 1])
  }

  /** Each issue's own outcome, in report order. */
  function Translations(textlines: seq<string>, issues: seq<Issue>,
                        errorPattern: string -> Option<string>): (ts: seq<Translation>)
    ensures |ts| == |issues|
    ensures forall i :: 0 <= i < |issues| ==> ts[i] == TranslateIssue(textlines, issues[i], errorPattern)
  {
    seq(|issues|, i requires 0 <= i < |issues| => TranslateIssue(textlines, issues[i], errorPattern))
  }

  /** The issues handled in report order; the first exception stops the handling, keeping what came before. */
  function TranslateIssues(textlines: seq<string>, issues: seq<Issue>,
                           errorPattern: string -> Option<string>): (t: Translated)
    ensures |t.results| <= |issues|
  {
    Accumulate(Translations(textlines, issues, errorPattern))
  }

  /** Number of outcomes that are not `Skipped`. */
  function CountHandled(ts: seq<Translation>): nat
    decreases |ts|
  {
    if ts == [] then 0
    else CountHandled(ts[..|ts| - 1]) + (if ts[|ts| - 1].Skipped? then 0 else 1)
  }

  /** Number of issues whose reason matches the bracket pattern. */
  function CountMatching(issues: seq<Issue>): nat
    decreases |issues|
  {
    if issues == [] then 0
    else CountMatching(issues[..|issues| - 1]) + (if MatchReason(issues[|issues| - 1].reason).Some? then 1 else 0)
  }

  // --- the fold over outcomes

  /** One result per handled outcome when nothing aborts, fewer otherwise. */
  lemma {:induction false} AccumulateCount(ts: seq<Translation>)
    ensures var t := Accumulate(ts);
      && (!t.aborted ==> |t.results| == CountHandled(ts))
      && (t.aborted ==> |t.results| < CountHandled(ts))
    decreases |ts|
  {
    if ts != [] {
      AccumulateCount(ts[..|ts| - 1]);
    }
  }

  /** The run aborts exactly when some outcome is an exception. */
  lemma {:induction false} AccumulateAborted(ts: seq<Translation>)
    ensures Accumulate(ts).aborted <==> exists i :: 0 <= i < |ts| && ts[i].Raised?
    decreases |ts|
  {
    if ts != [] {
      var front := ts[..|ts| - 1];
      AccumulateAborted(front);
      assert forall i :: 0 <= i < |front| ==> front[i] == ts[i];
      if exists i :: 0 <= i < |ts| && ts[i].Raised? {
        var i :| 0 <= i < |ts| && ts[i].Raised?;
        assert i < |front| ==> front[i].Raised?;
      }
    }
  }

  /** Every result of the run is the result of one of the outcomes. */
  lemma {:induction false} AccumulateResults(ts: seq<Translation>)
    ensures forall r :: r in Accumulate(ts).results ==> Emitted(r) in ts
    decreases |ts|
  {
    if ts != [] {
      var front := ts[..|ts| - 1];
      AccumulateResults(front);
      assert forall t :: t in front ==> t in ts;
    }
  }

  /** Taking one more outcome of a run. */
  lemma AccumulateNext(ts: seq<Translation>, i: nat)
    requires i < |ts|
    ensures Accumulate(ts[..i + 1]) == Absorb(Accumulate(ts[..i]), ts[i])
  {
    assert ts[..i + 1][..i] == ts[..i];
  }

  /** Once an exception has ended the run, later outcomes change nothing. */
  lemma {:induction false} AccumulateStaysAborted(ts: seq<Translation>, k: nat)
    requires k <= |ts|
    requires Accumulate(ts[..k]).aborted
    ensures Accumulate(ts) == Accumulate(ts[..k])
    decreases |ts|
  {
    if k < |ts| {
      assert ts[..|ts| - 1][..k] == ts[..k];
      AccumulateStaysAborted(ts[..|ts| - 1], k);
    } else {
      assert ts[..k] == ts;
    }
  }

  /** A longer run extends the results of a shorter one: report order is kept. */
  lemma {:induction false} AccumulatePrefix(ts: seq<Translation>, k: nat)
    requires k <= |ts|
    ensures Accumulate(ts[..k]).results <= Accumulate(ts).results
    decreases |ts|
  {
    if k < |ts| {
      assert ts[..|ts| - 1][..k] == ts[..k];
      AccumulatePrefix(ts[..|ts| - 1], k);
    } else {
      assert ts[..k] == ts;
    }
  }

  // --- the same facts about the issues of a report

  /** The outcomes of a prefix of the report are a prefix of the outcomes. */
  lemma TranslationsPrefix(textlines: seq<string>, issues: seq<Issue>, k: nat,
                           errorPattern: string -> Option<string>)
    requires k <= |issues|
    ensures Translations(textlines, issues[..k], errorPattern) == Translations(textlines, issues, errorPattern)[..k]
  {
  }

  /** An issue is handled (not skipped) exactly when its reason matches. */
  lemma {:induction false} CountHandledMatching(textlines: seq<string>, issues: seq<Issue>,
                                                errorPattern: string -> Option<string>)
    ensures CountHandled(Translations(textlines, issues, errorPattern)) == CountMatching(issues)
    decreases |issues|
  {
    if issues != [] {
      var ts := Translations(textlines, issues, errorPattern);
      TranslationsPrefix(textlines, issues, |issues| - 1, errorPattern);
      CountHandledMatching(textlines, issues[..|issues| - 1], errorPattern);
      assert ts[|ts| - 1].Skipped? <==> MatchReason(issues[|issues| - 1].reason).None?;
    }
  }

  /** A result for every matching issue when nothing aborts, fewer otherwise. */
  lemma TranslateIssuesCount(textlines: seq<string>, issues: seq<Issue>,
                             errorPattern: string -> Option<string>)
    ensures var t := TranslateIssues(textlines, issues, errorPattern);
      && (!t.aborted ==> |t.results| == CountMatching(issues))
      && (t.aborted ==> |t.results| < CountMatching(issues))
  {
    AccumulateCount(Translations(textlines, issues, errorPattern));
    CountHandledMatching(textlines, issues, errorPattern);
  }

  /**
   * A matching issue on which `translate_issue` raises: its line lies
   * beyond the last line of the text (IndexError), or its message is a
   * compiler error and its source line is not ASCII (UnicodeDecodeError).
   */
  predicate RaisesOn(textlines: seq<string>, issue: Issue, errorPattern: string -> Option<string>)
  {
    && MatchReason(issue.reason).Some?
    && (|| issue.line > |textlines|
        || (errorPattern(MatchReason(issue.reason).value.message).Some? && !IsAscii(LineText(textlines, issue.line))))
  }

  /** The handling aborts exactly when `translate_issue` raises on some matching issue. */
  lemma TranslateIssuesAborted(textlines: seq<string>, issues: seq<Issue>,
                               errorPattern: string -> Option<string>)
    ensures TranslateIssues(textlines, issues, errorPattern).aborted <==>
      exists i :: 0 <= i < |issues| && RaisesOn(textlines, issues[i], errorPattern)
  {
    var ts := Translations(textlines, issues, errorPattern);
    AccumulateAborted(ts);
    assert forall i :: 0 <= i < |issues| ==> (ts[i].Raised? <==> RaisesOn(textlines, issues[i], errorPattern));
  }

  /** Every emitted result carries the line of an issue that lies within the text. */
  lemma TranslateIssuesLines(textlines: seq<string>, issues: seq<Issue>,
                             errorPattern: string -> Option<string>)
    ensures forall r :: r in TranslateIssues(textlines, issues, errorPattern).results ==>
      r.line <= |textlines| && exists i :: 0 <= i < |issues| && issues[i].line == r.line
  {
    var ts := Translations(textlines, issues, errorPattern);
    AccumulateResults(ts);
    forall r | r in Accumulate(ts).results
      ensures r.line <= |textlines| && exists i :: 0 <= i < |issues| && issues[i].line == r.line
    {
      var i :| 0 <= i < |ts| && ts[i] == Emitted(r);
      assert issues[i].line == r.line;
    }
  }

  /** Handling one more issue: the run so far absorbs that issue's outcome. */
  lemma TranslateIssuesStep(textlines: seq<string>, issues: seq<Issue>, i: nat,
                            errorPattern: string -> Option<string>)
    requires i < |issues|
    ensures TranslateIssues(textlines, issues[..i + 1], errorPattern) ==
      Absorb(TranslateIssues(textlines, issues[..i], errorPattern), TranslateIssue(textlines, issues[i], errorPattern))
  {
    var ts := Translations(textlines, issues[..i + 1], errorPattern);
    TranslationsPrefix(textlines, issues[..i + 1], i, errorPattern);
    assert issues[..i + 1][..i] == issues[..i];
    assert ts[i] == TranslateIssue(textlines, issues[i], errorPattern);
  }

  /** Once an exception has ended the handling, later issues change nothing. */
  lemma TranslateIssuesStaysAborted(textlines: seq<string>, issues: seq<Issue>, k: nat,
                                    errorPattern: string -> Option<string>)
    requires k <= |issues|
    requires TranslateIssues(textlines, issues[..k], errorPattern).aborted
    ensures TranslateIssues(textlines, issues, errorPattern) == TranslateIssues(textlines, issues[..k], errorPattern)
  {
    TranslationsPrefix(textlines, issues, k, errorPattern);
    AccumulateStaysAborted(Translations(textlines, issues, errorPattern), k);
  }

  /** Handling a longer report extends the results of a shorter one: report order is kept. */
  lemma TranslateIssuesPrefix(textlines: seq<string>, issues: seq<Issue>, k: nat,
                              errorPattern: string -> Option<string>)
    requires k <= |issues|
    ensures TranslateIssues(textlines, issues[..k], errorPattern).results <=
            TranslateIssues(textlines, issues, errorPattern).results
  {
    TranslationsPrefix(textlines, issues, k, errorPattern);
    AccumulatePrefix(Translations(textlines, issues, errorPattern), k);
  }

  /**
   * A compiler error reported on a source line that is not ASCII ends the
   * handling: neither that issue nor any issue after it gives a result.
   */
  lemma CompilerErrorOnNonAsciiLine(textlines: seq<string>, issue: Issue, later: seq<Issue>,
                                    errorPattern: string -> Option<string>)
    requires MatchReason(issue.reason).Some? && 0 < issue.line <= |textlines|
    requires errorPattern(MatchReason(issue.reason).value.message).Some?
    requires !IsAscii(textlines[issue.line - 1])
    ensures TranslateIssues(textlines, [issue] + later, errorPattern) == Translated([], true)
  {
    var issues := [issue] + later;
    assert issues[..1] == [issue] && issues[..0] == [] && issues[0] == issue;
    TranslateIssuesStep(textlines, issues, 0, errorPattern);
    TranslateIssuesStaysAborted(textlines, issues, 1, errorPattern);
  }

  // ---------------------------------------------------------------------
  // End to end: a conventional reporter line

  /**
   * An issue whose reason is `[sev] message` and whose message is no
   * compiler error gives exactly one result: the mapped severity, the
   * issue's line, and the message with any real evidence after " : ".
   */
  lemma TranslateWellFormedIssue(textlines: seq<string>, sev: string, message: string, line: int,
                                 evidence: string, errorPattern: string -> Option<string>)
    requires WellFormedReason(sev, " ", message, "")
    requires line <= |textlines|
    requires errorPattern(message).None?
    ensures TranslateIssues(textlines, [Issue(ReasonString(sev, " ", message, ""), line, evidence)], errorPattern)
         == Translated([LintResult(JslintSeverity(sev), line,
                                   if evidence == Undefined then message else message + " : " + evidence)], false)
  {
    var issue := Issue(ReasonString(sev, " ", message, ""), line, evidence);
    MatchReasonString(sev, " ", message, "");
    var description := if evidence == Undefined then message else message + " : " + evidence;
    assert JslintDescription(message, evidence, LineText(textlines, line), errorPattern) == Some(description);
    TranslateIssueEmitted(textlines, issue, errorPattern, ReasonParts(sev, message), description);
    var t := TranslateIssue(textlines, issue, errorPattern);
    assert Translations(textlines, [issue], errorPattern) == [t];
    assert [t][..0] == [];
    assert Accumulate([t]) == Absorb(Translated([], false), t);
  }
}
