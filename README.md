# koffeelint: a Dafny model of the CoffeeScript lint adapter

koffeelint connects the Komodo editor to the external `coffeelint` tool.
For one lint request it does the following:

- cuts the buffer into lines;
- finds the user's search path, the `coffeelint` executable and the
  nearest `coffeelint.json` at or above the working directory;
- runs the tool with the jslint reporter;
- turns each `issue` element of the XML report into a
  (severity, line, description) result.

Problems that leave no report are reported as "internal errors". Each one
is anchored on the first non-empty line among the first fifty.

This project models `components/elCoffeeScriptLinter.py`:

- `strings.dfy` (`Strings`) holds the Python 2 string operations the adapter relies on:
  - `str.split(sep)`;
  - `str.replace(old, "")`, which deletes every non-overlapping occurrence in one left-to-right pass.
- `lines.dfy` (`Lines`) is `str.splitlines()` on byte strings: "\n", "\r" and "\r\n" are breaks, and a final break does not start a new line.
- `jslint.dfy` (`Jslint`) covers the report translation:
  - the severity mapping;
  - an exact model of the reason pattern `^\[(.*?)\]\s*(.*)`;
  - the description grooming;
  - `startElement`/`translate_issue` for one issue;
  - the handling of a report's issues in order. The first exception stops it: an `IndexError` for a line past the text, or a `UnicodeDecodeError` when a compiler error's source line is not ASCII.
- `config_locator.dfy` (`ConfigLocator`) is `find_filename`:
  - A path is its list of directory segments, and the root is `[]`.
  - `dirname` drops the last segment, and the root is its own parent.
  - The file system is the set of paths of existing files.
- `environment.dfy` (`Environment`) is `find_coffeelint`, `find_user_path` and the `_complained` warn-once record. The record is a class holding the set of messages and the log they went to.
- `lint_request.dfy` (`LintRequest`) covers the request itself:
  - class `CoffeeLintRequest`, with its constructor, `run`, `run_coffeelint`, `parse_stdin`, the SAX content handler's loop, `add_internal_error` and `add_result`;
  - `lint_with_text`.
- `wrappers.dfy` holds `Option`.

The outside world comes in as parameters:

- the answers of `which.which`, `koprocessutils.getUserEnv()`, `sys.platform` and the `.cmd` existence test;
- the set of existing files;
- the temporary file name;
- the tool, a function from the argument list to its stdout and stderr or to the exception it raised;
- the XML parser, a function from the tool's stdout to the `issue` elements it delivers, marked as a well-formed report or as a malformed one together with the number of times the parser reported its fatal error;
- the compiler-error pattern at line 28, a function that gives back its captured group or None.

Three facts about the code that are easy to get wrong, and that the model follows:

- The compiler-error cleanup `msg.replace(line, "")` (line 235) is not idempotent. It removes the occurrences present in one pass, and the joins it creates can form new ones (`Strings.RemoveAllNotIdempotent`).
- With the preference off, `run` (lines 66-75) does not start the tool, but it still returns the internal errors that construction recorded, such as a missing PATH or executable.
- The error for a report that cannot be parsed is placed, like every internal error (lines 117-139), on the first non-empty line among the first fifty, and on line 1 only when there is none. The error handler does not stop the parse, so the parser may report its fatal error more than once; each report appends one such error.

## Model

| member | source | states |
|---|---|---|
| `Jslint.JslintSeverity` | components/elCoffeeScriptLinter.py:219-225 | "error" gives the error level, "warn" the warning level, every other word (the empty one included) the info level; each direction of each case |
| `Jslint.MatchReason` | components/elCoffeeScriptLinter.py:27 | the reason pattern matches exactly when the text starts with "[" and some "]" follows with no newline between; a match gives a severity word that sits between the leading "[" and that first "]", and a message with no newline |
| `Jslint.CloseBracket` | components/elCoffeeScriptLinter.py:27 | the lazy `(.*?)\]` stops at the first "]"; it fails exactly when a newline comes before every "]" |
| `Jslint.SpaceRun` | components/elCoffeeScriptLinter.py:27 | the greedy `\s*` takes every leading blank (space, tab, newline, carriage return, form feed, vertical tab) and stops at the first non-blank |
| `Jslint.UpToNewline` | components/elCoffeeScriptLinter.py:27 | the greedy `.*` takes everything up to, and not including, the first newline |
| `Jslint.CloseBracketAfter` | components/elCoffeeScriptLinter.py:27 | after a severity word with no "]" and no newline, the lazy group stops at the "]" that closes it |
| `Jslint.SpaceRunOf` | components/elCoffeeScriptLinter.py:27 | the blank run is exactly the blanks written before a non-blank |
| `Jslint.UpToNewlineOf` | components/elCoffeeScriptLinter.py:27 | the message group is exactly a newline-free message followed by nothing or a newline |
| `Jslint.MatchReasonString` | components/elCoffeeScriptLinter.py:27 | matching "[sev]", blanks, a message and an optional newline-led tail gives back exactly the severity word and the message |
| `Jslint.MatchReasonShape` | components/elCoffeeScriptLinter.py:27 | conversely, every reason the pattern matches is "[", the severity word, blanks, the message and a tail that is empty or starts with a newline, with the pieces well formed; with `MatchReasonString` the two groups are exactly the severity word and the text after the blanks up to the first newline |
| `Jslint.JslintDescription` | components/elCoffeeScriptLinter.py:227-240 | it raises UnicodeDecodeError (None) exactly when the compiler-error pattern matches and the source line is not ASCII; otherwise: with no match and "undefined" evidence the message is unchanged; other evidence, even empty, is appended after " : "; on a match the text before the evidence is the captured group with every occurrence of the source line removed, never longer than the group |
| `Jslint.TranslateIssue` | components/elCoffeeScriptLinter.py:255-272 | an issue is skipped exactly when its reason does not match; it raises IndexError exactly when it matches and its line lies past the last text line; it raises UnicodeDecodeError exactly when it matches, its line is within the text, its message is a compiler error and the line's text is not ASCII; otherwise it gives one result with the mapped severity, the issue's line, and the description built from the line's text ("" for lines of 0 or below) |
| `Jslint.TranslateIssueEmitted` | components/elCoffeeScriptLinter.py:262-272 | a matching issue whose line is within the text and whose description can be built gives exactly that one result |
| `Jslint.LineText` | components/elCoffeeScriptLinter.py:268-270 | the text of 1-based line `line`, and "" for line numbers of 0 and below |
| `Jslint.Absorb` | components/elCoffeeScriptLinter.py:255-260 | one more issue's outcome: an aborted run is left as it is; the run aborts once an outcome is an exception; the results only grow, by exactly the emitted result and only when the run had not aborted |
| `Jslint.Accumulate` | components/elCoffeeScriptLinter.py:255-260 | a run of outcomes never has more results than outcomes |
| `Jslint.AccumulateCount` | components/elCoffeeScriptLinter.py:255-260 | a run of outcomes gives one result per non-skipped outcome when nothing aborts, and strictly fewer when something does |
| `Jslint.AccumulateAborted` | components/elCoffeeScriptLinter.py:77-85 | a run aborts exactly when one of its outcomes is an exception |
| `Jslint.AccumulateResults` | components/elCoffeeScriptLinter.py:255-260 | every result of a run is the result of one of its outcomes |
| `Jslint.AccumulateNext` | components/elCoffeeScriptLinter.py:255-260 | one more outcome is absorbed into the run so far: an aborted run stays as it was, otherwise a result is appended or the run aborts |
| `Jslint.AccumulateStaysAborted` | components/elCoffeeScriptLinter.py:77-85 | once an exception has ended a run, later outcomes change nothing |
| `Jslint.AccumulatePrefix` | components/elCoffeeScriptLinter.py:255-260 | the results of a shorter run are a prefix of those of a longer one |
| `Jslint.TranslationsPrefix` | components/elCoffeeScriptLinter.py:255-260 | the outcomes of the first k issues are the first k outcomes |
| `Jslint.CountHandledMatching` | components/elCoffeeScriptLinter.py:255-260 | the issues that are not skipped are exactly the issues whose reason matches |
| `Jslint.TranslateIssues` | components/elCoffeeScriptLinter.py:77-85 | the issues of a report handled in order never give more results than there are issues |
| `Jslint.TranslateIssuesCount` | components/elCoffeeScriptLinter.py:255-272 | handling a report gives one result per matching issue when nothing aborts, and strictly fewer otherwise |
| `Jslint.TranslateIssuesAborted` | components/elCoffeeScriptLinter.py:77-85 | the handling of a report aborts exactly when `translate_issue` raises on some matching issue: its line points past the last line of the text, or it is a compiler error on a line that is not ASCII |
| `Jslint.TranslateIssuesLines` | components/elCoffeeScriptLinter.py:262-272 | every result carries the line of one of the issues, and that line is within the text |
| `Jslint.TranslateIssuesStep` | components/elCoffeeScriptLinter.py:255-260 | handling the first i+1 issues is handling the first i and then absorbing issue i's outcome |
| `Jslint.TranslateIssuesStaysAborted` | components/elCoffeeScriptLinter.py:77-85 | after an exception at issue k-1, the issues after it add nothing |
| `Jslint.TranslateIssuesPrefix` | components/elCoffeeScriptLinter.py:255-272 | results come out in report order: a longer report extends the results of its prefixes |
| `Jslint.CompilerErrorOnNonAsciiLine` | components/elCoffeeScriptLinter.py:229-235 | a compiler error reported on a source line that is not ASCII ends the handling: that issue and every issue after it give no result, and the parse aborts |
| `Jslint.TranslateWellFormedIssue` | components/elCoffeeScriptLinter.py:255-272 | a report with one issue "[sev] message", no compiler error and a line within the text gives exactly one result: the mapped severity, that line, and the message with any real evidence after " : " |
| `ConfigLocator.Dirname` | components/elCoffeeScriptLinter.py:204-205 | the parent is a prefix one segment shorter, and only the root is its own parent |
| `ConfigLocator.JoinDirname` | components/elCoffeeScriptLinter.py:198-204 | `os.path.join(dir, name)` ends in `name`, and its parent is `dir` |
| `ConfigLocator.NearestConfig` | components/elCoffeeScriptLinter.py:190-210 | a found path is `join(d, name)` for a directory d at or above the start, it exists, and no directory between the start and d holds the file; None exactly when no directory from the start up to the root holds it |
| `ConfigLocator.FindFilename` | components/elCoffeeScriptLinter.py:190-210 | the upward loop returns the nearest configuration file as `NearestConfig` defines it |
| `ConfigLocator.NearestAncestorExample` | components/elCoffeeScriptLinter.py:195-208 | starting in /a/b/c with the file only in /a, the search climbs two levels and returns /a/coffeelint.json |
| `Environment.Complaints.constructor` | components/elCoffeeScriptLinter.py:25 | the record starts empty, with nothing logged |
| `Environment.Complaints.Complain` | components/elCoffeeScriptLinter.py:169-173 | a message is logged exactly when it was not yet complained about; afterwards it is in the record, and the record still matches the log with no message logged twice |
| `Environment.ExecutableFor` | components/elCoffeeScriptLinter.py:162-168 | no executable exactly when the lookup fails; on Windows, when the ".cmd" variant exists, it is the found path plus ".cmd"; otherwise it is the found path |
| `Environment.FindCoffeelint` | components/elCoffeeScriptLinter.py:162-175 | returns that executable; a failed lookup records "coffeelint not found" and logs it only if it was not recorded before; a successful one leaves the record and the log alone |
| `Environment.UserPath` | components/elCoffeeScriptLinter.py:179 | a search path exactly when the environment has PATH; it has at least one entry, and joining its entries with the separator gives PATH back |
| `Environment.FindUserPath` | components/elCoffeeScriptLinter.py:177-185 | returns that search path; when there is none it records "can't get user path" and logs it only if it was not recorded before; otherwise the record and the log are left alone |
| `Environment.ComplainRepeatedly` | components/elCoffeeScriptLinter.py:22-25 | however often the same failure recurs, its message is logged at most once |
| `Strings.Split` | components/elCoffeeScriptLinter.py:179 | `str.split(sep)` gives at least one piece, and no piece contains the separator |
| `Strings.JoinSplit` | components/elCoffeeScriptLinter.py:179 | joining the pieces with the separator gives the text back |
| `Strings.SplitJoin` | components/elCoffeeScriptLinter.py:179 | splitting a join of separator-free pieces gives the pieces back |
| `Strings.RemoveAll` | components/elCoffeeScriptLinter.py:235 | deleting occurrences never lengthens the text |
| `Strings.RemoveAllAbsent` | components/elCoffeeScriptLinter.py:235 | text in which the source line does not occur is left unchanged |
| `Strings.RemoveAllRepeat` | components/elCoffeeScriptLinter.py:235 | back-to-back copies of the line are all removed |
| `Strings.RemoveAllNotIdempotent` | components/elCoffeeScriptLinter.py:235 | one pass over "aabb" removing "ab" leaves "ab", and a second pass leaves "", so the cleanup is not idempotent |
| `Lines.SplitLines` | components/elCoffeeScriptLinter.py:41 | `splitlines` gives no lines exactly for the empty text |
| `Lines.SplitLinesNoBreaks` | components/elCoffeeScriptLinter.py:41 | no line contains a line break |
| `Lines.UnsplitSplitLines` | components/elCoffeeScriptLinter.py:41 | on text without carriage returns, the lines each followed by "\n" give the text back, with a final newline added if it lacked one |
| `LintRequest.TextLines` | components/elCoffeeScriptLinter.py:40-44 | the text's lines, at least one; a single empty line when there is no text |
| `LintRequest.PathString` | components/elCoffeeScriptLinter.py:95 | a path is written starting with "/", and a non-root path ends in "/" and its last segment |
| `LintRequest.XmlParseErrorMessage` | components/elCoffeeScriptLinter.py:246-249 | MSG_XML_PARSE_ERROR with `str(configfile)`, the file's path or "None", in the place of `%s` |
| `LintRequest.RunExceptionMessage` | components/elCoffeeScriptLinter.py:21 | MSG_RUN_EXCEPTION with the tool's failure text in the place of `%s` |
| `LintRequest.FirstNonEmpty` | components/elCoffeeScriptLinter.py:126-133 | the first non-empty line at or after a start index among the first fifty, or None when all of those lines are empty |
| `LintRequest.InternalErrorLine` | components/elCoffeeScriptLinter.py:122-139 | an internal error is reported on a line between 1 and 50 |
| `LintRequest.InternalError` | components/elCoffeeScriptLinter.py:117-139 | an internal error is an error-severity result with the given description, on `InternalErrorLine`, which is a non-empty text line when one exists among the first fifty |
| `LintRequest.FindAnchor` | components/elCoffeeScriptLinter.py:122-134 | the scan falls back to the fake line exactly when the first fifty lines are all empty; otherwise it stops at the first non-empty one, and the line it reports is `InternalErrorLine` |
| `LintRequest.Command` | components/elCoffeeScriptLinter.py:92-95 | five arguments without a configuration file and seven with one; the executable and "--color=never" come first, "-f" and the file come next when there is a file, and "--reporter", "jslint" and the temporary file come last |
| `LintRequest.ConfigFlagInserted` | components/elCoffeeScriptLinter.py:92-95 | the command with a configuration file is the plain one with "-f" and the file inserted after "--color=never" |
| `LintRequest.Classify` | components/elCoffeeScriptLinter.py:99-111 | success exactly when the tool exited with empty stderr; the output is stdout on success, stderr when stderr is non-empty, and the exception's text when starting the tool raised |
| `LintRequest.StdoutResults` | components/elCoffeeScriptLinter.py:77-85 | the translated results come first; a well-formed report with no abort gives just those, one per matching issue; an abort adds the "see log" error; a malformed report adds one error naming the configuration file per report of its fatal error; the length is exactly that |
| `LintRequest.ParseErrors` | components/elCoffeeScriptLinter.py:246-249 | k calls of the error handler give k errors, each naming the configuration file on the anchor line |
| `LintRequest.MalformedReportErrors` | components/elCoffeeScriptLinter.py:242-249 | output in which the parser finds no issue before its fatal error gives one error per report of that error, each on the anchor line and naming the configuration file or "None" |
| `LintRequest.RunResults` | components/elCoffeeScriptLinter.py:66-75 | a started tool that failed (stderr or exception) gives exactly one "Error running coffeelint" error; otherwise its stdout is handled as a report |
| `LintRequest.InitialErrors` | components/elCoffeeScriptLinter.py:48-56 | construction records a missing-path error when the search path is missing or empty, then a missing-executable error when there is no executable, both errors on the anchor line, and nothing when both are there |
| `LintRequest.CoffeeLintRequest.constructor` | components/elCoffeeScriptLinter.py:33-64 | the request is valid exactly when there is text, a search path and an executable; the results are the missing-path then the missing-executable internal errors; the configuration file is the nearest one; a failed lookup records "coffeelint not found", logged only the first time, and the warn-once record is otherwise unchanged |
| `LintRequest.CoffeeLintRequest.RecordInitialErrors` | components/elCoffeeScriptLinter.py:48-56 | the internal errors of construction are appended to the empty results as `InitialErrors` |
| `LintRequest.CoffeeLintRequest.Run` | components/elCoffeeScriptLinter.py:66-75 | the tool is started, with the modelled command, exactly when the request is valid and the preference is on; then `RunResults` is appended, otherwise nothing; the results are returned |
| `LintRequest.CoffeeLintRequest.RunCoffeelint` | components/elCoffeeScriptLinter.py:87-115 | the command is `Command(...)` and the (success, output) pair is the classification of the tool's outcome |
| `LintRequest.CoffeeLintRequest.ParseStdout` | components/elCoffeeScriptLinter.py:77-85 | appends exactly `StdoutResults` for the parsed report |
| `LintRequest.CoffeeLintRequest.FatalError` | components/elCoffeeScriptLinter.py:246-249 | each call appends one error naming the configuration file, on the anchor line |
| `LintRequest.CoffeeLintRequest.HandleIssues` | components/elCoffeeScriptLinter.py:77-85 | handling the issues one by one appends the results of `TranslateIssues` and reports whether an exception ended the parse |
| `LintRequest.CoffeeLintRequest.StartElement` | components/elCoffeeScriptLinter.py:255-272 | one issue's outcome is `TranslateIssue`, and its result, if any, is appended |
| `LintRequest.CoffeeLintRequest.AddInternalError` | components/elCoffeeScriptLinter.py:117-139 | appends one error result on the anchor line |
| `LintRequest.CoffeeLintRequest.AddResult` | components/elCoffeeScriptLinter.py:141-142 | appends the one result given |
| `LintRequest.LintWithText` | components/elCoffeeScriptLinter.py:156-159 | the tool runs exactly when there is text, PATH, an executable and the preference; then the results are those of the run, otherwise exactly the construction errors; the warn-once record gains "can't get user path" when there is no PATH and "coffeelint not found" when the lookup fails, each logged only if it was new, and is otherwise unchanged |

## Left out

- XML parsing itself (`xml.sax.parseString`, expat) is a parameter. It gives the `issue` elements in document order, says whether a fatal error came after them, and says how many times the error handler was called for it. How the output is cut into chunks, which decides that count, is not modelled. Other elements are not modelled.
- A missing `reason`, `line` or `evidence` attribute, or a `line` that `int()` rejects, raises inside the handler. The model takes issues with the line already an integer, so these exceptions are not modelled.
- Process spawning, the temporary file (`create_tempfile`, `os.unlink`) and the working directory passed to the process are I/O. The tool is a function of its argument list, and the temporary file name is given.
- `Lines.UnsplitSplitLines` is stated for text without "\r". `splitlines` on "\r" and "\r\n" is modelled, but the round trip would not restore those breaks.
- The compiler-error pattern at line 28 is a parameter, because its lazy matching is not modelled. What is done with its group (the removal of the source line, the evidence suffix) is modelled exactly.
- Logging, the XPCOM registration and the encoding of the editor's content in `lint` (lines 144-154) are left out. `lint_with_text` receives the encoded text.
- `koLintResult.createAddResult` is not part of this model. Its filtering of results on empty lines, and the fake line that `add_internal_error` hands it, are not modelled. Results are appended as given.
- Paths are absolute and normalised: trailing slashes, relative paths and `..` are not modelled. The path is written as "/a/b" where it enters a message or the command.
- Tool output is a string, not bytes. A failure message is inserted as given; Python's `str()` of an exception is the exception's text here. The one mix of byte strings and unicode strings that can raise, the cleanup of a compiler error against a non-ASCII source line, is modelled (`Jslint.JslintDescription`, `Jslint.TranslateIssue`).

