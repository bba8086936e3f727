/**
 * One lint request: `CoffeeLintRequest` from its construction (text lines,
 * validity, executable and configuration lookup) through `run` (command
 * line, tool outcome, report handling) to the results it hands back, and
 * the internal-error results anchored on the first non-empty line.
 */
module LintRequest {
  import opened Wrappers
  import opened Strings
  import opened Lines
  import opened Jslint
  import opened ConfigLocator
  import opened Environment

  const MsgNoCoffeelint := "coffeelint executable not found on the environment PATH. Is it installed correctly?"
  const MsgNoPath := "Cannot access environment PATH. Is the system configured correctly?"
  const MsgXmlException := "Error parsing coffeelint results. See Komodo log for details."

  /** A path written as an absolute file name: "/" for the root, "/a/b" for `["a", "b"]`. */
  function PathString(p: Path): (s: string)
    ensures |s| >= 1 && s[0] == '/'
    ensures p != [] ==> var last := p[|p| - 1];
      |s| >= |last| + 1 && s[|s| - |last| - 1..] == "/" + last
  {
    if p == [] then "/" else Segments(p)
  }

  /** Each segment preceded by "/". */
  function Segments(p: Path): (s: string)
    ensures |s| >= |p|
    ensures p != [] ==> s[0] == '/'
  {
    if p == [] then "" else Segments(p[..|p| - 1]) + "/" + p[|p| - 1]
  }

  /** The text around the `%s` of MSG_XML_PARSE_ERROR. */
  const XmlParseErrorHead := "Error parsing coffeelint results. Is "
  const XmlParseErrorTail := " a valid JSON file?"

  /** `str(configfile)`: the file's path, or "None" when no configuration file was found. */
  function ConfigfileText(configfile: Option<Path>): string
  {
    match configfile
    case Some(p) => PathString(p)
    case None => "None"
  }

  /** MSG_XML_PARSE_ERROR with `str(configfile)` in place of `%s`. */
  function XmlParseErrorMessage(configfile: Option<Path>): (m: string)
    ensures |m| == |XmlParseErrorHead| + |ConfigfileText(configfile)| + |XmlParseErrorTail|
    ensures m[..|XmlParseErrorHead|] == XmlParseErrorHead
    ensures m[|XmlParseErrorHead|..|m| - |XmlParseErrorTail|] == ConfigfileText(configfile)
    ensures m[|m| - |XmlParseErrorTail|..] == XmlParseErrorTail
  {
    XmlParseErrorHead + ConfigfileText(configfile) + XmlParseErrorTail
  }

  /** The text before the `%s` of MSG_RUN_EXCEPTION. */
  const RunExceptionHead := "Error running coffeelint: "

  /** MSG_RUN_EXCEPTION with the tool's failure text in place of `%s`. */
  function RunExceptionMessage(output: string): (m: string)
    ensures |m| == |RunExceptionHead| + |output|
    ensures m[..|RunExceptionHead|] == RunExceptionHead && m[|RunExceptionHead|..] == output
  {
    RunExceptionHead + output
  }

  // ---------------------------------------------------------------------
  // Text lines

  /** `text.splitlines()`, or a single empty line when there is no text. */
  function TextLines(text: string): (lines: seq<string>)
    ensures |lines| >= 1
    ensures text == "" ==> lines == [""]
  {
    if text != "" then SplitLines(text) else [""]
  }

  // ---------------------------------------------------------------------
  // Internal errors

  /** At most this many lines are searched for a line to anchor an internal error on. */
  const ScanLimit := 50

  /** The first non-empty line at index `from` or after, among the first `ScanLimit` lines. */
  function FirstNonEmpty(lines: seq<string>, from: nat): (r: Option<nat>)
    ensures r.Some? ==>
      && from <= r.value < |lines| && r.value < ScanLimit && lines[r.value] != ""
      && forall k :: from <= k < r.value ==> lines[k] == ""
    ensures r.None? ==> forall k :: from <= k < |lines| && k < ScanLimit ==> lines[k] == ""
    decreases ScanLimit - from
  {
    if from >= ScanLimit || from >= |lines| then None
    else if lines[from] != "" then Some(from)
    else FirstNonEmpty(lines, from + 1)
  }

  /** The 1-based line an internal error is reported on: the first non-empty line, or line 1 of a fake text. */
  function InternalErrorLine(textlines: seq<string>): (line: int)
    ensures 1 <= line <= ScanLimit
  {
    match FirstNonEmpty(textlines, 0)
    case Some(i) => i + 1
    case None => 1
  }

  /** The result `add_internal_error(desc)` appends. */
  function InternalError(textlines: seq<string>, desc: string): (e: LintResult)
    ensures e.severity == SevError && e.description == desc
    ensures e.line == InternalErrorLine(textlines) && 1 <= e.line <= ScanLimit
    ensures FirstNonEmpty(textlines, 0).Some? ==> e.line <= |textlines| && textlines[e.line - 1] != ""
  {
    LintResult(SevError, InternalErrorLine(textlines), desc)
  }

  /** The scan of `add_internal_error` for a line to report on. */
  method FindAnchor(textlines: seq<string>) returns (lineNo: nat, useFakeLines: bool)
    ensures useFakeLines <==> forall k :: 0 <= k < |textlines| && k < ScanLimit ==> textlines[k] == ""
    ensures !useFakeLines ==>
      && lineNo < ScanLimit && lineNo < |textlines| && textlines[lineNo] != ""
      && forall k :: 0 <= k < lineNo ==> textlines[k] == ""
    ensures (if useFakeLines then 1 else lineNo + 1) == InternalErrorLine(textlines)
  {
    lineNo := 0;
    useFakeLines := true;
    while lineNo < ScanLimit && lineNo < |textlines|
      invariant lineNo <= ScanLimit
      invariant forall k :: 0 <= k < lineNo && k < |textlines| ==> textlines[k] == ""
      invariant FirstNonEmpty(textlines, lineNo) == FirstNonEmpty(textlines, 0)
    {
      if |textlines[lineNo]| == 0 {
        lineNo := lineNo + 1;
      } else {
        useFakeLines := false;
        break;
      }
    }
  }

  // ---------------------------------------------------------------------
  // Running the tool

  /** The argument list `run_coffeelint` hands to the process, with `-f config` only when a configuration file was found. */
  function Command(exe: string, configfile: Option<Path>, tmpfile: string): (cmd: seq<string>)
    ensures |cmd| == if configfile.None? then 5 else 7
    ensures cmd[0] == exe && cmd[1] == "--color=never"
    ensures configfile.Some? ==> cmd[2] == "-f" && cmd[3] == PathString(configfile.value)
    ensures cmd[|cmd| - 3..] == ["--reporter", "jslint", tmpfile]
  {
    match configfile
    case None => [exe, "--color=never", "--reporter", "jslint", tmpfile]
    case Some(p) => [exe, "--color=never", "-f", PathString(p), "--reporter", "jslint", tmpfile]
  }

  /** With a configuration file the command is the plain one with "-f", the file inserted after "--color=never". */
  lemma ConfigFlagInserted(exe: string, config: Path, tmpfile: string)
    ensures var with := Command(exe, Some(config), tmpfile);
      with == Command(exe, None, tmpfile)[..2] + ["-f", PathString(config)] + Command(exe, None, tmpfile)[2..]
  {
  }

  /** What starting the tool gives: its captured stdout and stderr, or the text of the exception raised. */
  datatype ProcessOutcome = Exited(stdout: string, stderr: string) | Raised(exception: string)

  /** The `(success, stdin)` pair `run_coffeelint` returns. */
  datatype RunOutput = RunOutput(success: bool, output: string)

  /** Any stderr output or exception is a failure carrying that text; otherwise stdout is the report. */
  function Classify(outcome: ProcessOutcome): (r: RunOutput)
    ensures r.success <==> outcome.Exited? && outcome.stderr == ""
    ensures outcome.Exited? ==> r.output == if r.success then outcome.stdout else outcome.stderr
    ensures outcome.Raised? ==> r.output == outcome.exception
  {
    match outcome
    case Exited(stdout, stderr) => if |stderr| > 0 then RunOutput(false, stderr) else RunOutput(true, stdout)
    case Raised(e) => RunOutput(false, e)
  }

  // ---------------------------------------------------------------------
  // Handling the report

  /**
   * The tool's stdout as the XML parser delivers it: the `issue` elements of
   * a well-formed report, or those delivered before a fatal parse error
   * together with the number of times the parser reported that error to
   * the error handler. The SAX reader reports it for the chunk in which
   * it is found and again for each chunk fed after it, the final empty
   * one included, so the count depends on where the output goes wrong.
   */
  datatype XmlReport = Parsed(issues: seq<Issue>) | Malformed(issues: seq<Issue>, fatalErrors: nat)

  /** The results `ErrorXmlHandler.fatalError` appends when it is called `count` times. */
  function ParseErrors(textlines: seq<string>, configfile: Option<Path>, count: nat): (errs: seq<LintResult>)
    ensures |errs| == count
    ensures forall k :: 0 <= k < count ==> errs[k] == InternalError(textlines, XmlParseErrorMessage(configfile))
  {
    if count == 0 then []
    else ParseErrors(textlines, configfile, count - 1) + [InternalError(textlines, XmlParseErrorMessage(configfile))]
  }

  /**
   * What `parse_stdin` appends: the translated issues, then one internal
   * error if a translation raised (which ends the parse), or one error
   * naming the configuration file per report of a fatal parse error.
   */
  function StdoutResults(textlines: seq<string>, configfile: Option<Path>, report: XmlReport,
                         errorPattern: string -> Option<string>): (r: seq<LintResult>)
    ensures var t := TranslateIssues(textlines, report.issues, errorPattern);
      && t.results <= r
      && |r| == |t.results| + (if t.aborted then 1 else if report.Malformed? then report.fatalErrors else 0)
      && (report.Parsed? && !t.aborted ==> r == t.results && |r| == CountMatching(report.issues))
      && (t.aborted ==> r == t.results + [InternalError(textlines, MsgXmlException)])
      && (report.Malformed? && !t.aborted ==>
            r == t.results + ParseErrors(textlines, configfile, report.fatalErrors))
  {
    var t := TranslateIssues(textlines, report.issues, errorPattern);
    TranslateIssuesCount(textlines, report.issues, errorPattern);
    if t.aborted then t.results + [InternalError(textlines, MsgXmlException)]
    else if report.Malformed? then t.results + ParseErrors(textlines, configfile, report.fatalErrors)
    else t.results
  }

  /** Output in which the parser finds no issue before its fatal error gives one error per report of it, all alike. */
  lemma MalformedReportErrors(textlines: seq<string>, configfile: Option<Path>, fatalErrors: nat,
                              errorPattern: string -> Option<string>)
    ensures var r := StdoutResults(textlines, configfile, Malformed([], fatalErrors), errorPattern);
      && |r| == fatalErrors
      && forall k :: 0 <= k < |r| ==>
           r[k] == LintResult(SevError, InternalErrorLine(textlines), XmlParseErrorMessage(configfile))
  {
    assert Translations(textlines, [], errorPattern) == [];
  }

  /** What `run` appends once the tool has been started. */
  function RunResults(textlines: seq<string>, configfile: Option<Path>, outcome: ProcessOutcome,
                      parseXml: string -> XmlReport, errorPattern: string -> Option<string>): (r: seq<LintResult>)
    ensures outcome.Exited? && outcome.stderr != "" ==>
      r == [InternalError(textlines, RunExceptionMessage(outcome.stderr))]
    ensures outcome.Raised? ==>
      r == [InternalError(textlines, RunExceptionMessage(outcome.exception))]
    ensures outcome.Exited? && outcome.stderr == "" ==>
      r == StdoutResults(textlines, configfile, parseXml(outcome.stdout), errorPattern)
  {
    var run := Classify(outcome);
    if run.success then StdoutResults(textlines, configfile, parseXml(run.output), errorPattern)
    else [InternalError(textlines, RunExceptionMessage(run.output))]
  }

  // ---------------------------------------------------------------------
  // The request

  /** The part of the editor's request the linter reads: working directory and the "lint_coffee_script" preference. */
  datatype Request = Request(cwd: Path, lintCoffeeScript: bool)

  /** What the operating system and the tool answer during one lint call. */
  datatype Host = Host(
    userEnv: Option<map<string, string>>,
    pathsep: char,
    which: Option<string>,
    onWindows: bool,
    cmdVariantExists: bool,
    files: set<Path>,
    tmpfile: string,
    tool: seq<string> -> ProcessOutcome,
    parseXml: string -> XmlReport)

  /** A search path Python treats as true: present and not an empty list. */
  predicate PathGiven(userPath: Option<seq<string>>)
  {
    userPath.Some? && userPath.value != []
  }

  /** An executable path Python treats as true: present and not the empty string. */
  predicate ExeGiven(exe: Option<string>)
  {
    exe.Some? && exe.value != ""
  }

  /** The internal errors construction records, in order. */
  function InitialErrors(textlines: seq<string>, userPath: Option<seq<string>>, exe: Option<string>): (errs: seq<LintResult>)
    ensures |errs| == (if PathGiven(userPath) then 0 else 1) + (if ExeGiven(exe) then 0 else 1)
    ensures forall e :: e in errs ==> e.severity == SevError && e.line == InternalErrorLine(textlines)
    ensures !PathGiven(userPath) ==> errs[0].description == MsgNoPath
    ensures !ExeGiven(exe) ==> errs[|errs| - 1].description == MsgNoCoffeelint
    ensures PathGiven(userPath) && ExeGiven(exe) ==> errs == []
  {
    (if PathGiven(userPath) then [] else [InternalError(textlines, MsgNoPath)])
    + (if ExeGiven(exe) then [] else [InternalError(textlines, MsgNoCoffeelint)])
  }

  class CoffeeLintRequest {
    var valid: bool
    var results: seq<LintResult>
    const request: Request
    const text: string
    const textlines: seq<string>
    const userPath: Option<seq<string>>
    const coffeelintExe: Option<string>
    const configfile: Option<Path>

    /** The text lines come from the text, and the request is valid exactly when text, search path and executable are all there. */
    ghost predicate Valid()
      reads this
    {
      && textlines == TextLines(text)
      && (valid <==> text != "" && PathGiven(userPath) && ExeGiven(coffeelintExe))
    }

    /**
     * `__init__`. The lookups are done before the internal errors are
     * recorded; they touch only the complaints, not the results, so the
     * outcome is the same as in the source's interleaving.
     */
    constructor (complaints: Complaints, userPath: Option<seq<string>>, request: Request, text: string, host: Host)
      requires complaints.Valid()
      modifies complaints
      ensures Valid() && complaints.Valid()
      ensures this.request == request && this.text == text && this.userPath == userPath
      ensures coffeelintExe == ExecutableFor(host.which, host.onWindows, host.cmdVariantExists)
      ensures configfile == NearestConfig(host.files, request.cwd, ConfigFileName)
      ensures results == InitialErrors(textlines, userPath, coffeelintExe)
      ensures complaints.complained ==
        old(complaints.complained) + (if host.which.None? then {CoffeelintNotFound} else {})
      ensures complaints.logged ==
        old(complaints.logged)
        + (if host.which.None? && CoffeelintNotFound !in old(complaints.complained) then [CoffeelintNotFound] else [])
    {
      valid := true;
      results := [];
      this.request := request;
      this.text := text;
      if text != "" {
        textlines := SplitLines(text);
      } else {
        textlines := [""];
        valid := false;
      }
      this.userPath := userPath;
      if !PathGiven(userPath) {
        valid := false;
      }
      var exe := FindCoffeelint(complaints, host.which, host.onWindows, host.cmdVariantExists);
      coffeelintExe := exe;
      if !ExeGiven(exe) {
        valid := false;
      }
      var found := FindFilename(host.files, request.cwd, ConfigFileName);
      configfile := found;
      new;
      RecordInitialErrors();
    }

    /** The internal errors of `__init__`: a missing search path, then a missing executable. */
    method RecordInitialErrors()
      requires results == []
      modifies this`results
      ensures results == InitialErrors(textlines, userPath, coffeelintExe)
    {
      if !PathGiven(userPath) {
        AddInternalError(MsgNoPath);
      }
      if !ExeGiven(coffeelintExe) {
        AddInternalError(MsgNoCoffeelint);
      }
    }

    /** `run`: the tool is started only for a valid request whose preference asks for linting. */
    method Run(host: Host, errorPattern: string -> Option<string>)
      returns (invoked: Option<seq<string>>, lintResults: seq<LintResult>)
      requires Valid()
      modifies this`results
      ensures invoked.Some? <==> valid && request.lintCoffeeScript
      ensures invoked.Some? ==> invoked.value == Command(coffeelintExe.value, configfile, host.tmpfile)
      ensures invoked.None? ==> results == old(results)
      ensures invoked.Some? ==>
        results == old(results) + RunResults(textlines, configfile, host.tool(invoked.value), host.parseXml, errorPattern)
      ensures lintResults == results
    {
      invoked := None;
      if valid && request.lintCoffeeScript {
        var cmd, success, output := RunCoffeelint(host);
        invoked := Some(cmd);
        if success {
          ParseStdout(output, host.parseXml, errorPattern);
        } else {
          AddInternalError(RunExceptionMessage(output));
        }
      }
      lintResults := results;
    }

    /** `run_coffeelint`: build the command, start the tool, and classify what it left on stderr. */
    method RunCoffeelint(host: Host) returns (cmd: seq<string>, success: bool, output: string)
      requires Valid() && valid
      ensures coffeelintExe.Some?
      ensures cmd == Command(coffeelintExe.value, configfile, host.tmpfile)
      ensures RunOutput(success, output) == Classify(host.tool(cmd))
    {
      cmd := Command(coffeelintExe.value, configfile, host.tmpfile);
      match host.tool(cmd) {
        case Exited(stdout, stderr) =>
          if |stderr| > 0 {
            output := stderr;
            success := false;
          } else {
            success := true;
            output := stdout;
          }
        case Raised(e) =>
          output := e;
          success := false;
      }
    }

    /** `parse_stdin` with the content and error handlers. */
    method ParseStdout(stdout: string, parseXml: string -> XmlReport, errorPattern: string -> Option<string>)
      modifies this`results
      ensures results == old(results) + StdoutResults(textlines, configfile, parseXml(stdout), errorPattern)
    {
      var report := parseXml(stdout);
      var aborted := HandleIssues(report.issues, errorPattern);
      if aborted {
        AddInternalError(MsgXmlException);
      } else if report.Malformed? {
        ghost var before := results;
        var k := 0;
        while k < report.fatalErrors
          invariant k <= report.fatalErrors
          invariant results == before + ParseErrors(textlines, configfile, k)
        {
          FatalError();
          k := k + 1;
        }
      }
    }

    /** `ErrorXmlHandler.fatalError`: blame the configuration file. */
    method FatalError()
      modifies this`results
      ensures results == old(results) + [InternalError(textlines, XmlParseErrorMessage(configfile))]
    {
      AddInternalError(XmlParseErrorMessage(configfile));
    }

    /** `JslintXmlHandler.startElement` and `translate_issue` applied to each issue in turn, until one raises. */
    method HandleIssues(issues: seq<Issue>, errorPattern: string -> Option<string>) returns (aborted: bool)
      modifies this`results
      ensures aborted == TranslateIssues(textlines, issues, errorPattern).aborted
      ensures results == old(results) + TranslateIssues(textlines, issues, errorPattern).results
    {
      aborted := false;
      ghost var ts := Translations(textlines, issues, errorPattern);
      var i := 0;
      assert ts[..0] == [];
      while i < |issues| && !aborted
        invariant 0 <= i <= |issues|
        invariant aborted == Accumulate(ts[..i]).aborted
        invariant results == old(results) + Accumulate(ts[..i]).results
      {
        AccumulateNext(ts, i);
        var translation := StartElement(issues[i], errorPattern);
        aborted := translation.Raised?;
        i := i + 1;
      }
      if aborted {
        AccumulateStaysAborted(ts, i);
      } else {
        assert ts[..i] == ts;
      }
    }

    /** `startElement` for one `issue` element, with `translate_issue` when its reason matches. */
    method StartElement(issue: Issue, errorPattern: string -> Option<string>) returns (t: Translation)
      modifies this`results
      ensures t == TranslateIssue(textlines, issue, errorPattern)
      ensures results == old(results) + (if t.Emitted? then [t.result] else [])
    {
      var reasonMatch := MatchReason(issue.reason);
      if reasonMatch.None? {
        return Skipped;
      }
      if issue.line > |textlines| {
        return Translation.Raised(IndexError);
      }
      var line := LineText(textlines, issue.line);
      var description := JslintDescription(reasonMatch.value.message, issue.evidence, line, errorPattern);
      if description.None? {
        return Translation.Raised(UnicodeDecodeError);
      }
      var severity := JslintSeverity(reasonMatch.value.severity);
      TranslateIssueEmitted(textlines, issue, errorPattern, reasonMatch.value, description.value);
      AddResult(severity, issue.line, description.value);
      t := Emitted(LintResult(severity, issue.line, description.value));
    }

    /** `add_internal_error`: an error result on the first non-empty line among the first fifty, else on line 1. */
    method AddInternalError(desc: string)
      modifies this`results
      ensures results == old(results) + [InternalError(textlines, desc)]
    {
      var lineNo, useFakeLines := FindAnchor(textlines);
      if useFakeLines {
        AddResult(SevError, 1, desc);
      } else {
        AddResult(SevError, lineNo + 1, desc);
      }
    }

    /** `add_result`: append one result. */
    method AddResult(severity: Severity, lineNo: int, desc: string)
      modifies this`results
      ensures results == old(results) + [LintResult(severity, lineNo, desc)]
    {
      results := results + [LintResult(severity, lineNo, desc)];
    }
  }

  /**
   * `ElCoffeeScriptLinter.lint_with_text`: look up the user's search path,
   * build the request and run it. The tool runs exactly when there is text,
   * the environment has a PATH, the executable is found and the preference
   * is on; otherwise the only results are the construction's internal errors.
   */
  method LintWithText(complaints: Complaints, request: Request, text: string, host: Host,
                      errorPattern: string -> Option<string>)
    returns (invoked: Option<seq<string>>, results: seq<LintResult>)
    requires complaints.Valid()
    modifies complaints
    ensures complaints.Valid()
    ensures complaints.complained ==
      old(complaints.complained)
      + (if UserPath(host.userEnv, host.pathsep).None? then {NoUserPath} else {})
      + (if host.which.None? then {CoffeelintNotFound} else {})
    ensures complaints.logged ==
      old(complaints.logged)
      + (if UserPath(host.userEnv, host.pathsep).None? && NoUserPath !in old(complaints.complained)
         then [NoUserPath] else [])
      + (if host.which.None? && CoffeelintNotFound !in old(complaints.complained)
         then [CoffeelintNotFound] else [])
    ensures invoked.Some? <==>
      && text != "" && host.userEnv.Some? && "PATH" in host.userEnv.value
      && ExeGiven(ExecutableFor(host.which, host.onWindows, host.cmdVariantExists))
      && request.lintCoffeeScript
    ensures invoked.None? ==> |results| <= 2
    ensures invoked.None? ==>
      forall r :: r in results ==> r.severity == SevError && (r.description == MsgNoPath || r.description == MsgNoCoffeelint)
    ensures invoked.None? ==>
      results == InitialErrors(TextLines(text), UserPath(host.userEnv, host.pathsep),
                               ExecutableFor(host.which, host.onWindows, host.cmdVariantExists))
    ensures invoked.Some? ==>
      var configfile := NearestConfig(host.files, request.cwd, ConfigFileName);
      && invoked.value == Command(ExecutableFor(host.which, host.onWindows, host.cmdVariantExists).value,
                                  configfile, host.tmpfile)
      && results == RunResults(TextLines(text), configfile, host.tool(invoked.value), host.parseXml, errorPattern)
  {
    var userPath := FindUserPath(complaints, host.userEnv, host.pathsep);
    assert CoffeelintNotFound != NoUserPath by {
      assert |CoffeelintNotFound| != |NoUserPath|;
    }
    var lintRequest := new CoffeeLintRequest(complaints, userPath, request, text, host);
    invoked, results := lintRequest.Run(host, errorPattern);
  }
}
