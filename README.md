# gitlabci-gradle-analysis: the report-merging core in Dafny

The repository ships two command-line tools for GitLab CI builds of Gradle
projects. Both walk a project tree, pick out the XML reports Gradle left
behind, merge them into one list and render it as an HTML page. Each tool
exits with a verdict.

* **StaticAnalysisTool** reads Checkstyle, FindBugs and PMD reports. It
  selects the files `main.xml` and `test.xml` under a `/build/reports/`
  directory, and the name of the directory holding each report picks its
  dialect. It turns every reported problem into one `AnalysisMessage`. A
  FindBugs bug's line range starts at its class's `SourceLine` and is
  narrowed by the method's and then the bug's own `SourceLine`. The run
  passes only when no message was found.
* **JUnitAnalysisTool** reads `TEST-*.xml` files under
  `/build/test-results/`. Each file gives one `JUnitTestSuite` and one
  `JUnitTestCase` per `testcase` child. A `failure` child fills in the
  case's failure details. Suites and cases take their IDs from two static
  counters. The results are sorted: suites with failures first, then by
  name; within a suite, cases with a non-empty error first, then by name.
  The run fails when no result was found, or when the suites' declared
  failures and errors add up to more than zero.

## How the model is built

* **Input data.** An XML document is an element tree (`Xml.Element`: name,
  attributes, ordered children, text). The jOOX queries become functions
  on that tree:
  * `attr` gives `null` for an absent attribute;
  * `child` gives the first direct child of that name;
  * `children` gives the direct children of that name;
  * `find` gives all descendants of that name;
  * the XPath `//parent/child` is `Xml.SelectPath`.
* **The directory walk.** It is given as a sequence of `Paths.WalkEntry`:
  a path, whether it is a regular file, and the document the file holds
  (or none when it cannot be read).
* **Java semantics.** `null` strings are `Option<string>` and `int` is a
  32-bit subset type. `Integer.parseInt` is modelled exactly (sign, ASCII
  digits, range). Each exception that escapes and ends the run is a case
  of `JavaLang.Fatal`, returned as the failure of a `Result`. Where the
  Java code can throw at several points, the model reports the first one
  in Java's evaluation order.
* **Specification functions.** For every parser there is a pure function
  on the element tree that gives the findings a document contributes, or
  the first fatal error. Examples are `StaticAnalysisSpec.FindbugsFinding`,
  `StaticAnalysisSpec.CollectFindings`, `JUnitSpec.ParseResult` and
  `JUnitSpec.CollectResults`. The loops over a list, where the first
  exception ends the whole loop, are the two generic folds of `Folds`.
* **The mutable objects are classes:**
  * `Messages.AnalysisMessage`, with fluent setters that return `this`;
  * the shared messages list, `Messages.MessageList`;
  * `JUnitModel.JUnitTestSuite`, with `const` fields;
  * `JUnitModel.JUnitTestCase`, whose `Failure` sets three fields;
  * the results list, `JUnitAnalysisTool.ResultList`;
  * the two static counters, as `JUnitModel.IdSource` objects.
* **The imperative methods.** The parsing methods in `StaticAnalysisTool`
  and `JUnitAnalysisTool` mirror the Java loops. Each is proved to succeed
  exactly when its specification function does, to fail with the same
  error, and to leave the list as its old contents followed by the
  specification's findings.
* **Properties** are stated as lemmas about the specification functions,
  in `StaticAnalysisProps` and `JUnitProps`.

`StaticAnalysisMessage` is a field-for-field copy of `AnalysisMessage`,
and `Messages.AnalysisMessage` models both classes.

## Model

Source paths are under `src/main/java/net/ids/gitlabci/gradle/`.

| member | source | states |
|---|---|---|
| Messages.AnalysisMessage.constructor | src/main/java/net/ids/gitlabci/gradle/AnalysisMessage.java:27-30 | The new object has the given tool and file name, which are `const` afterwards. Every other field has its Java default: null, or 0 for the lines, columns and priority. |
| Messages.AnalysisMessage.Category | src/main/java/net/ids/gitlabci/gradle/AnalysisMessage.java:32-35 | Only `category` changes, to the argument; the same object is returned. |
| Messages.AnalysisMessage.InfoUrl | src/main/java/net/ids/gitlabci/gradle/AnalysisMessage.java:37-40 | Only `infoUrl` changes; the same object is returned. |
| Messages.AnalysisMessage.Line | src/main/java/net/ids/gitlabci/gradle/AnalysisMessage.java:42-46 | startLine = endLine = n; the columns and every other field stay as they were. |
| Messages.AnalysisMessage.LineAndColumnRange | src/main/java/net/ids/gitlabci/gradle/AnalysisMessage.java:48-54 | All four position fields are set; nothing else changes. |
| Messages.AnalysisMessage.LineRange | src/main/java/net/ids/gitlabci/gradle/AnalysisMessage.java:56-60 | Only startLine and endLine change, to the arguments. A later call therefore overrides an earlier one completely. |
| Messages.AnalysisMessage.Message | src/main/java/net/ids/gitlabci/gradle/AnalysisMessage.java:62-65 | Only `message` changes; the same object is returned. |
| Messages.AnalysisMessage.Method | src/main/java/net/ids/gitlabci/gradle/AnalysisMessage.java:67-70 | Only the method name changes; the same object is returned. |
| Messages.AnalysisMessage.Priority | src/main/java/net/ids/gitlabci/gradle/AnalysisMessage.java:72-75 | Only `priority` changes; the same object is returned. |
| Messages.AnalysisMessage.Rule | src/main/java/net/ids/gitlabci/gradle/AnalysisMessage.java:77-80 | Only `rule` changes; the same object is returned. |
| Messages.MessageList.Add | src/main/java/net/ids/gitlabci/gradle/StaticAnalysisTool.java:107 | The message is appended; the earlier entries are unchanged. |
| JavaLang.ParseIntAccepted | src/main/java/net/ids/gitlabci/gradle/StaticAnalysisTool.java:79 | A text `Integer.parseInt` accepts is an optional '+' or '-' followed by decimal digits. The result is the digits' value, negated after a '-'. |
| JavaLang.ParseIntToString | src/main/java/net/ids/gitlabci/gradle/JUnitAnalysisTool.java:47-50 | Every `int` written in decimal parses back to itself. |
| JavaLang.ToLowerCaseIdempotent | src/main/java/net/ids/gitlabci/gradle/StaticAnalysisTool.java:175 | A lower-cased string has no upper-case letter, and lower-casing it again changes nothing. |
| JavaLang.ReplaceAllFirstMatch | src/main/java/net/ids/gitlabci/gradle/StaticAnalysisTool.java:82 | `String.replace` substitutes the leftmost occurrence and then works on the rest of the string. |
| JavaLang.ReplaceAllAbsent | src/main/java/net/ids/gitlabci/gradle/StaticAnalysisTool.java:82 | A string that does not contain the target is left as it is. |
| Xml.ChildIff | src/main/java/net/ids/gitlabci/gradle/StaticAnalysisTool.java:129 | `child(name)` finds something exactly when a direct child of that name exists. What it finds is the first direct child of that name in document order. |
| Xml.ChildrenNamedMembers | src/main/java/net/ids/gitlabci/gradle/JUnitAnalysisTool.java:58 | Every child that `children(name)` selects is a direct child with that name, and every such child is selected. |
| Xml.ChildrenNamedAppend | src/main/java/net/ids/gitlabci/gradle/JUnitAnalysisTool.java:58 | The selection keeps document order and multiplicity: selecting from two runs of children in a row is selecting from the first, then from the second. |
| Paths.MarkerInPathString | src/main/java/net/ids/gitlabci/gradle/StaticAnalysisTool.java:201 | A path whose name elements contain a run of directories, with something on either side, contains "/" + that run + "/" as a string. |
| StaticAnalysisSpec.SeverityPriority | src/main/java/net/ids/gitlabci/gradle/StaticAnalysisTool.java:84-97 | A severity that maps gives a priority between 1 and 3. |
| StaticAnalysisSpec.SourceLineRange | src/main/java/net/ids/gitlabci/gradle/StaticAnalysisTool.java:131-133 | Reading a range needs a `SourceLine` match: on an empty match `attr` is null and `parseInt` throws. |
| StaticAnalysisProps.CheckstyleRoundTrip | src/main/java/net/ids/gitlabci/gradle/StaticAnalysisTool.java:79-107 | Any `error` element whose `line` is an integer, whose `severity` is known and which has a `source` gives exactly one finding, whatever other attributes (such as `column`) it carries. The finding's message is the `message` attribute, null when absent. It has tool checkstyle, the file's name, startLine = endLine = line, columns 0, the message, priority 1/2/3 for error/warning/info, rule = the raw source, category "style" and the rewritten documentation URL. |
| StaticAnalysisProps.CheckstyleFailures | src/main/java/net/ids/gitlabci/gradle/StaticAnalysisTool.java:79-97 | A non-integer line is a NumberFormatException and a missing source a NullPointerException. Otherwise the element converts exactly when its severity is error, warning or info. |
| StaticAnalysisProps.CheckstyleUrlShape | src/main/java/net/ids/gitlabci/gradle/StaticAnalysisTool.java:82-83 | For the check class `com.puppycrawl.tools.checkstyle.checks.<pkg>.<Name>Check`, the URL is `http://checkstyle.sourceforge.net/config_<pkg>.html#<Name>`. This is the three replacements applied in order, each to every occurrence. |
| StaticAnalysisProps.FindbugsPrecedence | src/main/java/net/ids/gitlabci/gradle/StaticAnalysisTool.java:129-159 | The range of a converted bug is that of its most specific `SourceLine`: the direct one, else the method's, else the class's. |
| StaticAnalysisProps.FindbugsNarrowing | src/main/java/net/ids/gitlabci/gradle/StaticAnalysisTool.java:131-159 | With class, method and direct ranges the direct one wins. Without the direct one the method's wins. With the class's only, the class's is used. |
| StaticAnalysisProps.FindbugsFields | src/main/java/net/ids/gitlabci/gradle/StaticAnalysisTool.java:123-153 | Each field of the finding, as listed below. |
| StaticAnalysisProps.PmdRoundTrip | src/main/java/net/ids/gitlabci/gradle/StaticAnalysisTool.java:170-187 | A violation with those attributes gives exactly one finding. Lines and columns are copied verbatim, with no narrowing. The method, rule, priority and `externalInfoUrl` are taken as given; a violation without a `method` attribute (a class-level one) gets a null method. The category is the lower-cased ruleset. |
| StaticAnalysisProps.ExtractAllSucceeds | src/main/java/net/ids/gitlabci/gradle/StaticAnalysisTool.java:78 | A list of report elements converts exactly when each of its elements does. |
| StaticAnalysisProps.ExtractAllOneEach | src/main/java/net/ids/gitlabci/gradle/StaticAnalysisTool.java:78-107 | A converted list has one finding per element, in document order, and each is that element's own finding. |
| StaticAnalysisProps.ExtractAllFirstFailure | src/main/java/net/ids/gitlabci/gradle/StaticAnalysisTool.java:78-107 | A failing list fails with the error of its first failing element, and every element before it converts. |
| StaticAnalysisProps.GradleReportSelected | src/main/java/net/ids/gitlabci/gradle/StaticAnalysisTool.java:47-63 | A `main.xml` or `test.xml` under `<project>/build/reports/<tool>/` is selected. Its parent directory name alone picks the dialect's findings; any other name is fatal. |
| StaticAnalysisProps.NonReportIgnored | src/main/java/net/ids/gitlabci/gradle/StaticAnalysisTool.java:201 | A walk entry that is not a regular file, or whose path lacks `/build/reports/`, is skipped. |
| StaticAnalysisProps.NoReportsPass | src/main/java/net/ids/gitlabci/gradle/StaticAnalysisTool.java:207-209 | A walk with no selected file collects nothing, passes and renders nothing. |
| StaticAnalysisProps.CollectAppendOnly | src/main/java/net/ids/gitlabci/gradle/StaticAnalysisTool.java:196-205 | The findings of any prefix of the walk are a prefix of the final findings: entries are only appended. |
| StaticAnalysisProps.RunVerdict | src/main/java/net/ids/gitlabci/gradle/StaticAnalysisTool.java:207-223 | The run completes exactly when collecting does. It passes exactly when no finding was collected, and it renders the findings exactly when it fails. |
| StaticAnalysisTool.NewCheckstyleMessage | src/main/java/net/ids/gitlabci/gradle/StaticAnalysisTool.java:100-106 | The builder chain gives a fresh message holding the line, message, priority, rule, "style" and URL. |
| StaticAnalysisTool.AddCheckstyleError | src/main/java/net/ids/gitlabci/gradle/StaticAnalysisTool.java:79-107 | It succeeds exactly when `CheckstyleFinding` does, and then appends that finding. On failure the error is the same and the list is unchanged. |
| StaticAnalysisTool.NewFindbugsMessage | src/main/java/net/ids/gitlabci/gradle/StaticAnalysisTool.java:136-141 | The builder chain gives a fresh message with the class's range, priority, rule, category and URL. |
| StaticAnalysisTool.NarrowFindbugsMessage | src/main/java/net/ids/gitlabci/gradle/StaticAnalysisTool.java:143-159 | The in-place `method`/`lineRange` updates leave the message with the narrowed range and the method name. They fail exactly when `FindbugsNarrowed` does. |
| StaticAnalysisTool.AddFindbugsBug | src/main/java/net/ids/gitlabci/gradle/StaticAnalysisTool.java:122-161 | It succeeds exactly when `FindbugsFinding` does, and then appends that finding. On failure the error is the same and the list is unchanged. |
| StaticAnalysisTool.NewPmdMessage | src/main/java/net/ids/gitlabci/gradle/StaticAnalysisTool.java:180-186 | The builder chain gives a fresh message with all the PMD fields. |
| StaticAnalysisTool.AddPmdViolation | src/main/java/net/ids/gitlabci/gradle/StaticAnalysisTool.java:170-187 | It succeeds exactly when `PmdFinding` does, and then appends that finding. On failure the error is the same and the list is unchanged. |
| StaticAnalysisTool.AddFileFindings | src/main/java/net/ids/gitlabci/gradle/StaticAnalysisTool.java:78-108 | The inner loop appends one finding per element, or stops with the first element's error. Earlier messages are kept. |
| StaticAnalysisTool.AddFiles | src/main/java/net/ids/gitlabci/gradle/StaticAnalysisTool.java:75-109 | The outer loop over `file` elements appends `FileFindings`, or stops with its first error. |
| StaticAnalysisTool.ParseCheckstyle | src/main/java/net/ids/gitlabci/gradle/StaticAnalysisTool.java:74-110 | It appends the findings of `//checkstyle/file` then `error`, or fails with the same error. |
| StaticAnalysisTool.ParseFindbugs | src/main/java/net/ids/gitlabci/gradle/StaticAnalysisTool.java:120-163 | It appends one finding per `//BugCollection/BugInstance`, or fails with the same error. |
| StaticAnalysisTool.ParsePmd | src/main/java/net/ids/gitlabci/gradle/StaticAnalysisTool.java:165-190 | It appends the findings of `//pmd/file` then `violation`, or fails with the same error. |
| StaticAnalysisTool.Parse | src/main/java/net/ids/gitlabci/gradle/StaticAnalysisTool.java:41-67 | The parent directory name dispatches to the dialect's parser. An unreadable file, a missing parent or an unknown name is fatal and adds nothing. |
| StaticAnalysisTool.Visit | src/main/java/net/ids/gitlabci/gradle/StaticAnalysisTool.java:197-205 | One walk entry: it is filtered, then parsed when selected, as `FindingsStep`. |
| StaticAnalysisTool.Run | src/main/java/net/ids/gitlabci/gradle/StaticAnalysisTool.java:192-224 | The imperative run (walk loop, status) equals `AnalysisRun`. |
| Ordering.StrLeTotal | src/main/java/net/ids/gitlabci/gradle/JUnitAnalysisTool.java:136 | The `compareTo` order on names is total. |
| Ordering.StrLeTrans | src/main/java/net/ids/gitlabci/gradle/JUnitAnalysisTool.java:136 | The `compareTo` order on names is transitive. |
| Ordering.StrLeAntisymmetric | src/main/java/net/ids/gitlabci/gradle/JUnitAnalysisTool.java:146 | Two names that each compare at most the other are equal. |
| Ordering.SortBy | src/main/java/net/ids/gitlabci/gradle/JUnitAnalysisTool.java:132-140 | `List.sort` with a comparator: the result is a permutation of the input, ordered by the comparator's key. |
| Ordering.SortIdempotent | src/main/java/net/ids/gitlabci/gradle/JUnitAnalysisTool.java:130-151 | Sorting a sorted list leaves it as it is. |
| JUnitModel.IdSource.constructor | src/main/java/net/ids/gitlabci/gradle/JUnitTestSuite.java:11 | The static counter starts at 0. |
| JUnitModel.JUnitTestSuite.constructor | src/main/java/net/ids/gitlabci/gradle/JUnitTestSuite.java:23-34 | The ID is the old counter value and the counter grows by exactly 1. Every field equals its argument; all fields are `const`. |
| JUnitModel.JUnitTestCase.constructor | src/main/java/net/ids/gitlabci/gradle/JUnitTestCase.java:21-27 | The ID comes from the case class's own counter, which grows by 1. Name, class name and time are set; message, type and error are null. |
| JUnitModel.JUnitTestCase.Failure | src/main/java/net/ids/gitlabci/gradle/JUnitTestCase.java:29-33 | Message, type and error are set together. ID, names and time are unchanged. |
| JUnitSpec.SortCasesIn | src/main/java/net/ids/gitlabci/gradle/JUnitAnalysisTool.java:143-150 | Each result keeps its suite. Its cases are a permutation of its own cases, ordered by the case comparator (non-empty error first, then by test name). |
| JUnitSpec.Wrap32 | src/main/java/net/ids/gitlabci/gradle/JUnitAnalysisTool.java:116 | Java `int` addition: the result is in the `int` range and congruent to the exact sum modulo 2^32. |
| JUnitAnalysisTool.ResultList.Add | src/main/java/net/ids/gitlabci/gradle/JUnitAnalysisTool.java:76 | The (suite, cases) pair is appended; earlier results are unchanged. |
| JUnitAnalysisTool.ResultList.Sort | src/main/java/net/ids/gitlabci/gradle/JUnitAnalysisTool.java:130-151 | The list becomes `SortResults` of what it held. |
| JUnitAnalysisTool.NewSuite | src/main/java/net/ids/gitlabci/gradle/JUnitAnalysisTool.java:46-54 | The suite is read as `SuiteOf` with the counter's value, and the counter grows by one. On failure the error is the same. |
| JUnitAnalysisTool.NewCase | src/main/java/net/ids/gitlabci/gradle/JUnitAnalysisTool.java:59-70 | The case is read as `CaseOf` with the counter's value, and the counter grows by one. On failure the error is the same and the counter is unchanged. |
| JUnitAnalysisTool.NewCases | src/main/java/net/ids/gitlabci/gradle/JUnitAnalysisTool.java:57-73 | The loop over `testcase` children builds `CasesOf`, numbered on from the counter, which grows by their number. |
| JUnitAnalysisTool.Parse | src/main/java/net/ids/gitlabci/gradle/JUnitAnalysisTool.java:42-80 | One file appends exactly one `ParseResult` pair and advances each counter by its suite and case count. Otherwise it fails with the same error. |
| JUnitAnalysisTool.FailCount | src/main/java/net/ids/gitlabci/gradle/JUnitAnalysisTool.java:113-117 | The loop sums every suite's declared errors and failures, exactly (the corrected count; see Findings). |
| JUnitAnalysisTool.Visit | src/main/java/net/ids/gitlabci/gradle/JUnitAnalysisTool.java:87-95 | One walk entry, as `ResultsStep`. The counters stay equal to the number of suites and cases collected. |
| JUnitAnalysisTool.Walk | src/main/java/net/ids/gitlabci/gradle/JUnitAnalysisTool.java:86-95 | The walk loop builds `CollectResults`, or fails with its error. |
| JUnitAnalysisTool.Run | src/main/java/net/ids/gitlabci/gradle/JUnitAnalysisTool.java:82-128 | The imperative run (walk, empty check, sort, count, verdict) equals `JUnitRun`. |
| JUnitProps.SuiteRoundTrip | src/main/java/net/ids/gitlabci/gradle/JUnitAnalysisTool.java:46-54 | A root element with integer counts and a time gives the suite with those counts, its name, and its `system-out`/`system-err` content. |
| JUnitProps.BadCountFatal | src/main/java/net/ids/gitlabci/gradle/JUnitAnalysisTool.java:47-50 | A selected file whose `tests`, `skipped`, `failures` or `errors` is not an integer makes the whole run fail with a NumberFormatException. |
| JUnitProps.CaseFailureIff | src/main/java/net/ids/gitlabci/gradle/JUnitAnalysisTool.java:58-70 | A case fails to read exactly when it has no time. A read case has the ID, name and class name given. It carries an error exactly when it has a `failure` child, and then that child's message, type and text together. |
| JUnitProps.EmptyFailureSortsAsPassing | src/main/java/net/ids/gitlabci/gradle/JUnitAnalysisTool.java:144 | A `failure` with empty text is recorded but sorts exactly like a passing case. |
| JUnitProps.CasesOfSucceeds | src/main/java/net/ids/gitlabci/gradle/JUnitAnalysisTool.java:58-73 | The cases of a file read exactly when every `testcase` child does. |
| JUnitProps.CasesOfOneEach | src/main/java/net/ids/gitlabci/gradle/JUnitAnalysisTool.java:58-73 | One case per `testcase` child, in document order, the i-th numbered first + i. |
| JUnitProps.ParseResultShape | src/main/java/net/ids/gitlabci/gradle/JUnitAnalysisTool.java:45-76 | One parsed file is one suite read from the root with the suite counter's ID. It has one case per direct `testcase` child, numbered on from the case counter. |
| JUnitProps.GradleTestResultSelected | src/main/java/net/ids/gitlabci/gradle/JUnitAnalysisTool.java:91 | A regular `TEST-*.xml` file anywhere under `<project>/build/test-results/` is selected. |
| JUnitProps.NonTestResultIgnored | src/main/java/net/ids/gitlabci/gradle/JUnitAnalysisTool.java:91 | An entry that fails the filter leaves the results unchanged. |
| JUnitProps.OneResultPerFile | src/main/java/net/ids/gitlabci/gradle/JUnitAnalysisTool.java:76 | A selected file appends exactly one (suite, cases) pair to the results before it. |
| JUnitProps.CollectAppendOnly | src/main/java/net/ids/gitlabci/gradle/JUnitAnalysisTool.java:86-95 | The results of any prefix of the walk are a prefix of the final results. |
| JUnitProps.CollectResultsNumbered | src/main/java/net/ids/gitlabci/gradle/JUnitTestSuite.java:24 | The i-th collected suite has ID i, and each case has as ID the number of cases created before it. |
| JUnitProps.IdsIncrease | src/main/java/net/ids/gitlabci/gradle/JUnitTestCase.java:22 | Numbered results have strictly increasing, hence distinct, suite IDs and case IDs, in creation order. |
| JUnitProps.SuitesOrdered | src/main/java/net/ids/gitlabci/gradle/JUnitAnalysisTool.java:132-140 | After sorting, every suite with failures precedes every suite without. Within each group the names ascend. |
| JUnitProps.CasesOrdered | src/main/java/net/ids/gitlabci/gradle/JUnitAnalysisTool.java:143-150 | After sorting, within each suite the cases with a non-empty error come first. Within each group the test names ascend. |
| JUnitProps.SortPermutes | src/main/java/net/ids/gitlabci/gradle/JUnitAnalysisTool.java:130-151 | Sorting permutes the suites. Each sorted entry is an input suite together with a permutation of that suite's own cases. |
| JUnitProps.SortResultsIdempotent | src/main/java/net/ids/gitlabci/gradle/JUnitAnalysisTool.java:130-151 | Sorting twice gives the order of sorting once. |
| JUnitProps.DeclaredFailuresSorted | src/main/java/net/ids/gitlabci/gradle/JUnitAnalysisTool.java:103-117 | Counting after the sort gives the same sum as counting before it. |
| JUnitProps.JUnitVerdict | src/main/java/net/ids/gitlabci/gradle/JUnitAnalysisTool.java:97-126 | The run passes exactly when some result was found and the declared failures and errors sum to zero or less. The declared counts decide, not the parsed cases. The sorted results are rendered exactly when some were found. |
| JUnitProps.NoTestResultsFail | src/main/java/net/ids/gitlabci/gradle/JUnitAnalysisTool.java:97-100 | A walk with no selected file fails and renders nothing. |
| JUnitProps.AnyDeclaredFailureFails | src/main/java/net/ids/gitlabci/gradle/JUnitAnalysisTool.java:116-120 | With non-negative counts, the sum is positive exactly when some suite has failures. |
| JUnitProps.WrittenMatchesWithoutOverflow | src/main/java/net/ids/gitlabci/gradle/JUnitAnalysisTool.java:114-117 | Where no partial sum leaves the `int` range, the wrapping `int` count equals the exact sum. |
| JUnitProps.FailCountOverflow | src/main/java/net/ids/gitlabci/gradle/JUnitAnalysisTool.java:114-120 | The counterexample of the finding below. |

`StaticAnalysisProps.FindbugsFields` states these fields of a converted bug:
* the tool is findbugs;
* the file name is the `Class`'s `classname`;
* the method name is the `Method`'s `name`, and null without a `Method`;
* the priority is the parsed `priority`;
* the rule is `type`;
* the URL is the FindBugs page + `type`;
* the category has the raw category's length, and each character is the raw one lower-cased, or a space where the raw one is '_';
* the columns are 0 and there is no message.

The constructor and setters of `StaticAnalysisMessage.java` sit on the same
lines as those of `AnalysisMessage.java` (27-80). The rows for
`Messages.AnalysisMessage` state them for both classes.

## Left out

- Files.walk, reading and parsing the XML files, and the SAX/IO exceptions: the walk is a given sequence of entries and each file a given element tree, or none when it cannot be read.
- Rendering the HTML report, writing the output file, logging and the `main` methods, along with their argument checks and `System.exit`: these are I/O. The model returns what would be rendered.
- The HTML report renderer, the XSLT report transform and the deliberately failing test fixture are not part of this model. They hold no merge or decision logic.
- `Float.parseFloat` of the `time` attributes: the value is carried as its text. A missing attribute is fatal, as `parseFloat(null)` is. Malformed float text is not rejected, and times are never compared.
- JavaLang.ToLowerCase and JavaLang.ParseInt cover ASCII only: other Unicode letters and digits are not treated specially.
- Ordering.StrLe only approximates `String.compareTo`. It is lexicographic order on Dafny characters, which are Unicode scalar values, not UTF-16 code units.
- Ordering.NameLe orders a null suite or test name first. In Java, `compareTo` throws on a null name, and whether it is reached depends on which pairs TimSort happens to compare.
- Ordering.SortBy is an insertion sort, where Java uses TimSort. Both are stable, but stability is not stated as a property: only order and permutation are.
- JUnitModel.HasFailures: the suite class as given has no `hasFailures` method, although the sort calls it. It is taken to be that declared failures plus errors exceed zero, the same quantity the verdict adds up. This is an assumption about code that is not shown.
- JUnitModel.IdSource: the static counters are unbounded. The 32-bit wrap after 2^31 instances is not modelled.
- JUnitAnalysisTool.ResultList: the results hold the suite and case values collected at parse time. Java holds references to the objects, but no case changes after it is added, so the two agree.
- JUnitAnalysisTool.ResultList.Sort: the in-place sort of the Java list is modelled as reassigning the sequence field with the sorted value.
- The static counters are shared across runs in Java. The model runs each tool once, with fresh counters starting at 0.

## Findings

| source | as written | input that shows it | evidently intended | confidence | as-written member | corrected member |
|---|---|---|---|---|---|---|
| src/main/java/net/ids/gitlabci/gradle/JUnitAnalysisTool.java:114-120 | `failCount` is an `int` and `errorCount + failureCount` is added with 32-bit wrap-around | one result file whose suite declares `failures="2147483647"` and `errors="1"`: the sum wraps to -2147483648, so the run reports 0 errors and passes | the run fails whenever the declared failures and errors add up to more than zero | not executed | JUnitSpec.WrittenFailCount, JUnitProps.FailCountOverflow | JUnitSpec.DeclaredFailures, JUnitAnalysisTool.FailCount, JUnitProps.AnyDeclaredFailureFails |

The run in the model (`JUnitSpec.JUnitRun`, `JUnitAnalysisTool.Run`)
uses the exact sum. `JUnitProps.WrittenMatchesWithoutOverflow` shows that
the two counts agree whenever no partial sum overflows.
