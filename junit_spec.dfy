/**
 * What the JUnit tool reads from each result file, how it orders the
 * results, and its verdict, as functions on the element tree. The tool's
 * methods in JUnitAnalysisTool are proved against these.
 */
module JUnitSpec {
  import opened Wrappers
  import opened JavaLang
  import opened Xml
  import opened Paths
  import opened Ordering
  import opened JUnitModel
  import opened Folds

  /** One parsed result file: the suite and its cases. */
  datatype ResultData = ResultData(suite: SuiteData, cases: seq<CaseData>)

  /** `Float.parseFloat` of an attribute: null throws; the float is carried as its text. */
  function FloatText(s: JString): Outcome<string> {
    if s.None? then Failure(NullPointer) else Success(s.value)
  }

  /** `child(name).content()`: the content of the first such child, or null when there is none. */
  function ChildContent(e: Element, name: string): JString {
    var c := Child(e, name);
    if c.None? then None else Some(c.value.content)
  }

  /** The suite read from the root element, numbered `uniqueId`. */
  function SuiteOf(suite: Element, uniqueId: int): Outcome<SuiteData> {
    var tests :- ParseIntOrFail(Attr(suite, "tests"));
    var skipped :- ParseIntOrFail(Attr(suite, "skipped"));
    var failures :- ParseIntOrFail(Attr(suite, "failures"));
    var errors :- ParseIntOrFail(Attr(suite, "errors"));
    var time :- FloatText(Attr(suite, "time"));
    Success(SuiteData(uniqueId, Attr(suite, "name"), tests, skipped, failures, errors, time,
                      ChildContent(suite, "system-out"), ChildContent(suite, "system-err")))
  }

  /** A `testcase` element, numbered `uniqueId`; a `failure` child supplies the failure details. */
  function CaseOf(testCase: Element, uniqueId: int): Outcome<CaseData> {
    var time :- FloatText(Attr(testCase, "time"));
    var failure := Child(testCase, "failure");
    if failure.None? then
      Success(CaseData(uniqueId, Attr(testCase, "name"), Attr(testCase, "classname"), time, None, None, None))
    else
      Success(CaseData(uniqueId, Attr(testCase, "name"), Attr(testCase, "classname"), time,
                       Attr(failure.value, "message"), Attr(failure.value, "type"), Some(failure.value.content)))
  }

  /** `CaseOf` as the per-element function of a fold: the element's index is its ID. */
  function CaseAt(): (int, Element) -> Outcome<CaseData> {
    (uniqueId: int, testCase: Element) => CaseOf(testCase, uniqueId)
  }

  /** The cases in document order, numbered from `firstId` on, or the first case's failure. */
  function CasesOf(testCases: seq<Element>, firstId: int): (r: Outcome<seq<CaseData>>)
    ensures r.Success? ==> |r.value| == |testCases|
  {
    MapAll(CaseAt(), firstId, testCases)
  }

  /** One result file, its suite numbered `suiteId` and its cases from `firstCaseId` on. */
  function ParseResult(document: Option<Element>, suiteId: int, firstCaseId: int): Outcome<ResultData> {
    if document.None? then Failure(Unreadable)
    else
      var suite :- SuiteOf(document.value, suiteId);
      var cases :- CasesOf(ChildrenNamed(document.value, "testcase"), firstCaseId);
      Success(ResultData(suite, cases))
  }

  /** The file filter applied to each walked path. */
  predicate IsTestResultFile(path: FsPath, isRegularFile: bool, fileName: string) {
    isRegularFile && Contains(PathString(path), "/build/test-results/")
    && StartsWith(fileName, "TEST-") && EndsWith(fileName, ".xml")
  }

  /** The filter on a walk entry; the file name of the root directory is null. */
  function TestResultSelected(entry: WalkEntry): Outcome<bool> {
    match FileName(entry.path)
    case None => Failure(NullPointer)
    case Some(name) => Success(IsTestResultFile(entry.path, entry.isRegularFile, name))
  }

  /** The number of cases in a list of results. */
  function CaseCount(rs: seq<ResultData>): nat {
    if rs == [] then 0 else CaseCount(rs[..|rs| - 1]) + |rs[|rs| - 1].cases|
  }

  /**
   * One walked entry: the results so far, with the entry's own appended when
   * it is a selected result file, its suite and cases numbered on from those
   * before it.
   */
  function ResultsStep(before: seq<ResultData>, entry: WalkEntry): Outcome<seq<ResultData>> {
    var selected :- TestResultSelected(entry);
    if !selected then Success(before)
    else
      var result :- ParseResult(entry.document, |before|, CaseCount(before));
      Success(before + [result])
  }

  /**
   * The results of every selected file, in walk order. Both counters start
   * at 0, so a suite's ID is the number of suites before it and a case's ID
   * the number of cases before it.
   */
  function CollectResults(walk: seq<WalkEntry>): Outcome<seq<ResultData>> {
    Accumulate(ResultsStep, [], walk)
  }

  // ---------------------------------------------------------------------
  // The order of the report

  /** Suites with failures first, then by suite name. */
  function SuiteKey(r: ResultData): SortKey {
    SortKey(!HasFailures(r.suite), r.suite.suiteName)
  }

  /** Cases with a non-empty error first, then by test name. */
  function CaseKey(c: CaseData): SortKey {
    SortKey(IsEmpty(c.error), c.testName)
  }

  function SortCases(cs: seq<CaseData>): seq<CaseData> {
    SortBy(cs, CaseKey)
  }

  /**
   * Each result with its case list sorted: every suite keeps its own cases,
   * rearranged into the case order.
   */
  function SortCasesIn(rs: seq<ResultData>): (r: seq<ResultData>)
    ensures |r| == |rs|
    ensures forall i :: 0 <= i < |rs| ==>
      && r[i].suite == rs[i].suite
      && SortedBy(r[i].cases, CaseKey)
      && multiset(r[i].cases) == multiset(rs[i].cases)
  {
    seq(|rs|, i requires 0 <= i < |rs| => ResultData(rs[i].suite, SortCases(rs[i].cases)))
  }

  /** The results sorted by suite, then each suite's cases sorted. */
  function SortResults(rs: seq<ResultData>): seq<ResultData> {
    SortCasesIn(SortBy(rs, SuiteKey))
  }

  // ---------------------------------------------------------------------
  // The verdict

  /** The sum of each suite's declared errors and failures, in unbounded integers. */
  function DeclaredFailures(rs: seq<ResultData>): int {
    if rs == [] then 0
    else DeclaredFailures(rs[..|rs| - 1]) + rs[|rs| - 1].suite.errorCount + rs[|rs| - 1].suite.failureCount
  }

  /** The outcome of a run: whether it passed, and the sorted results handed to the report renderer. */
  datatype JUnitReport = JUnitReport(passed: bool, rendered: Option<seq<ResultData>>)

  /** No result file fails the run; otherwise it passes when the declared failures add up to zero or less. */
  function JUnitRun(walk: seq<WalkEntry>): Outcome<JUnitReport> {
    var results :- CollectResults(walk);
    if results == [] then Success(JUnitReport(false, None))
    else
      var sorted := SortResults(results);
      Success(JUnitReport(!(DeclaredFailures(sorted) > 0), Some(sorted)))
  }

  // ---------------------------------------------------------------------
  // The count as the program writes it, in 32-bit arithmetic

  const TwoTo32: int := 0x1_0000_0000

  /** Java `int` addition: the sum taken modulo 2^32 into the `int` range. */
  function Wrap32(x: int): (r: Int32)
    ensures (r - x) % TwoTo32 == 0
  {
    var m := x % TwoTo32;
    if m > MaxInt then m - TwoTo32 else m
  }

  /** `failCount += errorCount + failureCount` over the results, every addition wrapping. */
  function WrittenFailCount(rs: seq<ResultData>): Int32 {
    if rs == [] then 0
    else
      var last := rs[|rs| - 1].suite;
      Wrap32(WrittenFailCount(rs[..|rs| - 1]) + Wrap32(last.errorCount + last.failureCount))
  }
}
