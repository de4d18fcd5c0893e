/**
 * The JUnit tool as the program runs it: each selected result file becomes
 * a suite object and its case objects, numbered from the two static
 * counters and appended as one pair to a shared list; the list is sorted in
 * place, the declared failures are added up, and the verdict returned.
 */
module JUnitAnalysisTool {
  import opened Wrappers
  import opened JavaLang
  import opened Xml
  import opened Paths
  import opened Ordering
  import opened JUnitModel
  import opened JUnitSpec
  import opened Folds

  /**
   * The `List<Pair<JUnitTestSuite, List<JUnitTestCase>>>` the tool fills.
   * Each pair is held as the values of its suite and cases: nothing changes
   * a suite or a case once its file is parsed.
   */
  class ResultList {
    var items: seq<ResultData>

    constructor()
      ensures items == []
    {
      items := [];
    }

    /** `results.add(Pair.of(suite, tests))`. */
    method Add(suite: JUnitTestSuite, tests: seq<JUnitTestCase>)
      modifies this
      ensures items == old(items) + [ResultData(suite.Data(), CasesData(tests))]
    {
      items := items + [ResultData(suite.Data(), CasesData(tests))];
    }

    /** The two-level sort: the pairs by suite, then each pair's case list. */
    method Sort()
      modifies this
      ensures items == SortResults(old(items))
    {
      var bySuite := SortBy(items, SuiteKey);
      items := SortCasesIn(bySuite);
    }
  }

  // ---------------------------------------------------------------------
  // How each case moves the fold over cases on, and how a failure ends it

  lemma CasesOfExtend(testCases: seq<Element>, firstId: int, i: nat, cs: seq<CaseData>, c: CaseData)
    requires i < |testCases|
    requires CasesOf(testCases[..i], firstId) == Success(cs)
    requires CaseOf(testCases[i], firstId + i) == Success(c)
    ensures CasesOf(testCases[..i + 1], firstId) == Success(cs + [c])
  {
    MapAllExtend(CaseAt(), firstId, testCases, i);
  }

  /** The first failing case ends the fold over cases with its error. */
  lemma CasesOfStops(testCases: seq<Element>, firstId: int, i: nat, e: Fatal)
    requires i < |testCases|
    requires CasesOf(testCases[..i], firstId).Success?
    requires CaseOf(testCases[i], firstId + i) == Failure(e)
    ensures CasesOf(testCases, firstId) == Failure(e)
  {
    MapAllStops(CaseAt(), firstId, testCases, i);
  }

  // ---------------------------------------------------------------------
  // How each walked entry moves the fold over the walk on

  lemma CollectResultsStep(walk: seq<WalkEntry>, i: nat, before: seq<ResultData>)
    requires i < |walk| && CollectResults(walk[..i]) == Success(before)
    ensures CollectResults(walk[..i + 1]) == ResultsStep(before, walk[i])
  {
    AccumulateStep(ResultsStep, [], walk, i, before);
  }

  /** A failing entry ends the walk with its error. */
  lemma CollectResultsStops(walk: seq<WalkEntry>, i: nat, before: seq<ResultData>)
    requires i < |walk| && CollectResults(walk[..i]) == Success(before)
    requires ResultsStep(before, walk[i]).Failure?
    ensures CollectResults(walk) == ResultsStep(before, walk[i])
  {
    AccumulateStep(ResultsStep, [], walk, i, before);
    AccumulatePrefix(ResultsStep, [], walk, i + 1);
  }

  lemma CaseCountAppend(rs: seq<ResultData>, r: ResultData)
    ensures CaseCount(rs + [r]) == CaseCount(rs) + |r.cases|
  {
    assert (rs + [r])[..|rs|] == rs;
  }

  // ---------------------------------------------------------------------
  // parse

  /** The body of the per-`testcase` loop: one case object, numbered by the case counter. */
  method NewCase(testCase: Element, caseIds: IdSource) returns (r: Outcome<JUnitTestCase>)
    modifies caseIds
    ensures r.Success? <==> CaseOf(testCase, old(caseIds.next)).Success?
    ensures r.Failure? ==> CaseOf(testCase, old(caseIds.next)) == Failure(r.error) && caseIds.next == old(caseIds.next)
    ensures r.Success? ==> fresh(r.value) && r.value.Data() == CaseOf(testCase, old(caseIds.next)).value
    ensures r.Success? ==> caseIds.next == old(caseIds.next) + 1
  {
    var testName := Attr(testCase, "name");
    var className := Attr(testCase, "classname");
    var testTime := Attr(testCase, "time");
    if testTime.None? {
      return Failure(NullPointer);
    }
    var testInfo := new JUnitTestCase(caseIds, testName, className, testTime.value);

    var failure := Child(testCase, "failure");
    if failure.Some? {
      var message := Attr(failure.value, "message");
      var failureType := Attr(failure.value, "type");
      var error := failure.value.content;
      testInfo.Failure(message, failureType, Some(error));
    }
    r := Success(testInfo);
  }

  /** The suite constructor call with the root's attributes, numbered by the suite counter. */
  method NewSuite(suite: Element, suiteIds: IdSource) returns (r: Outcome<JUnitTestSuite>)
    modifies suiteIds
    ensures r.Success? <==> SuiteOf(suite, old(suiteIds.next)).Success?
    ensures r.Failure? ==> SuiteOf(suite, old(suiteIds.next)) == Failure(r.error)
    ensures r.Success? ==> r.value.Data() == SuiteOf(suite, old(suiteIds.next)).value
    ensures r.Success? ==> suiteIds.next == old(suiteIds.next) + 1
  {
    var suiteName := Attr(suite, "name");
    var testCount := ParseInt(Attr(suite, "tests"));
    if testCount.None? {
      return Failure(NumberFormat(Attr(suite, "tests")));
    }
    var skippedCount := ParseInt(Attr(suite, "skipped"));
    if skippedCount.None? {
      return Failure(NumberFormat(Attr(suite, "skipped")));
    }
    var failureCount := ParseInt(Attr(suite, "failures"));
    if failureCount.None? {
      return Failure(NumberFormat(Attr(suite, "failures")));
    }
    var errorCount := ParseInt(Attr(suite, "errors"));
    if errorCount.None? {
      return Failure(NumberFormat(Attr(suite, "errors")));
    }
    var suiteTime := Attr(suite, "time");
    if suiteTime.None? {
      return Failure(NullPointer);
    }
    var stdout := ChildContent(suite, "system-out");
    var stderr := ChildContent(suite, "system-err");
    var suiteInfo := new JUnitTestSuite(suiteIds, suiteName, testCount.value, skippedCount.value,
                                        failureCount.value, errorCount.value, suiteTime.value, stdout, stderr);
    r := Success(suiteInfo);
  }

  /** The loop over the `testcase` children: one case object each, in document order. */
  method NewCases(testCases: seq<Element>, caseIds: IdSource) returns (r: Outcome<seq<JUnitTestCase>>)
    modifies caseIds
    ensures r.Success? <==> CasesOf(testCases, old(caseIds.next)).Success?
    ensures r.Failure? ==> CasesOf(testCases, old(caseIds.next)) == Failure(r.error)
    ensures r.Success? ==> CasesData(r.value) == CasesOf(testCases, old(caseIds.next)).value
    ensures r.Success? ==> caseIds.next == old(caseIds.next) + |testCases|
  {
    ghost var firstId := caseIds.next;
    ghost var cases: seq<CaseData> := [];
    var tests: seq<JUnitTestCase> := [];
    var i := 0;
    while i < |testCases|
      invariant 0 <= i <= |testCases|
      invariant caseIds.next == firstId + i
      invariant CasesOf(testCases[..i], firstId) == Success(cases)
      invariant CasesData(tests) == cases
    {
      var testInfo := NewCase(testCases[i], caseIds);
      if testInfo.Failure? {
        CasesOfStops(testCases, firstId, i, testInfo.error);
        return Failure(testInfo.error);
      }
      CasesOfExtend(testCases, firstId, i, cases, testInfo.value.Data());
      CasesDataAppend(tests, testInfo.value);
      tests := tests + [testInfo.value];
      cases := cases + [testInfo.value.Data()];
      i := i + 1;
    }
    assert testCases[..|testCases|] == testCases;
    r := Success(tests);
  }

  /**
   * One result file: the suite from the root's attributes, then one case per
   * direct `testcase` child, then one pair appended to `results`.
   */
  method Parse(document: Option<Element>, suiteIds: IdSource, caseIds: IdSource, results: ResultList)
    returns (r: Outcome<()>)
    requires suiteIds != caseIds
    modifies suiteIds, caseIds, results
    ensures r.Success? <==> ParseResult(document, old(suiteIds.next), old(caseIds.next)).Success?
    ensures r.Failure? ==> ParseResult(document, old(suiteIds.next), old(caseIds.next)) == Failure(r.error)
    ensures r.Success? ==>
      && results.items == old(results.items) + [ParseResult(document, old(suiteIds.next), old(caseIds.next)).value]
      && suiteIds.next == old(suiteIds.next) + 1
      && caseIds.next == old(caseIds.next) + |ParseResult(document, old(suiteIds.next), old(caseIds.next)).value.cases|
  {
    if document.None? {
      return Failure(Unreadable);
    }
    ghost var suiteId, firstCaseId := suiteIds.next, caseIds.next;
    ghost var testCases := ChildrenNamed(document.value, "testcase");
    var suiteInfo := NewSuite(document.value, suiteIds);
    if suiteInfo.Failure? {
      return Failure(suiteInfo.error);
    }
    ghost var suite := suiteInfo.value.Data();
    assert SuiteOf(document.value, suiteId) == Success(suite);
    var tests := NewCases(ChildrenNamed(document.value, "testcase"), caseIds);
    if tests.Failure? {
      assert CasesOf(testCases, firstCaseId) == Failure(tests.error);
      return Failure(tests.error);
    }
    ghost var cases := CasesData(tests.value);
    assert CasesOf(testCases, firstCaseId) == Success(cases);
    assert ParseResult(document, suiteId, firstCaseId) == Success(ResultData(suite, cases));
    results.Add(suiteInfo.value, tests.value);
    r := Success(());
  }

  // ---------------------------------------------------------------------
  // run

  /** The fail count: every suite's declared errors plus failures, added up. */
  method FailCount(results: seq<ResultData>) returns (failCount: int)
    ensures failCount == DeclaredFailures(results)
  {
    failCount := 0;
    var i := 0;
    while i < |results|
      invariant 0 <= i <= |results|
      invariant failCount == DeclaredFailures(results[..i])
    {
      assert results[..i + 1][..i] == results[..i];
      failCount := failCount + (results[i].suite.errorCount + results[i].suite.failureCount);
      i := i + 1;
    }
    assert results[..|results|] == results;
  }

  /** The body of the walk: an entry is parsed when the filter selects it. */
  method Visit(entry: WalkEntry, suiteIds: IdSource, caseIds: IdSource, results: ResultList) returns (r: Outcome<()>)
    requires suiteIds != caseIds
    requires suiteIds.next == |results.items| && caseIds.next == CaseCount(results.items)
    modifies suiteIds, caseIds, results
    ensures r.Success? <==> ResultsStep(old(results.items), entry).Success?
    ensures r.Failure? ==> ResultsStep(old(results.items), entry) == Failure(r.error)
    ensures r.Success? ==> results.items == ResultsStep(old(results.items), entry).value
    ensures r.Success? ==> suiteIds.next == |results.items| && caseIds.next == CaseCount(results.items)
  {
    var fileName := FileName(entry.path);
    if fileName.None? {
      return Failure(NullPointer);
    }
    if entry.isRegularFile && Contains(PathString(entry.path), "/build/test-results/")
       && StartsWith(fileName.value, "TEST-") && EndsWith(fileName.value, ".xml")
    {
      ghost var before := results.items;
      r := Parse(entry.document, suiteIds, caseIds, results);
      if r.Success? {
        CaseCountAppend(before, results.items[|results.items| - 1]);
      }
    } else {
      r := Success(());
    }
  }

  /**
   * The walk of the run: every selected result file is parsed into one
   * shared list, both counters starting at 0.
   */
  method Walk(walk: seq<WalkEntry>) returns (r: Outcome<ResultList>)
    ensures r.Success? <==> CollectResults(walk).Success?
    ensures r.Failure? ==> CollectResults(walk) == Failure(r.error)
    ensures r.Success? ==> fresh(r.value) && CollectResults(walk) == Success(r.value.items)
  {
    var suiteIds := new IdSource();
    var caseIds := new IdSource();
    var results := new ResultList();
    var i := 0;
    while i < |walk|
      invariant 0 <= i <= |walk|
      invariant fresh(suiteIds) && fresh(caseIds) && fresh(results)
      invariant CollectResults(walk[..i]) == Success(results.items)
      invariant suiteIds.next == |results.items| && caseIds.next == CaseCount(results.items)
    {
      ghost var before := results.items;
      var visited := Visit(walk[i], suiteIds, caseIds, results);
      if visited.Failure? {
        CollectResultsStops(walk, i, before);
        return Failure(visited.error);
      }
      CollectResultsStep(walk, i, before);
      i := i + 1;
    }
    assert walk[..|walk|] == walk;
    r := Success(results);
  }

  /**
   * The whole run over the entries of a directory walk: no result file
   * fails the run; otherwise the results are sorted and rendered, and the
   * run passes when the declared failures add up to zero or less.
   */
  method Run(walk: seq<WalkEntry>) returns (r: Outcome<JUnitReport>)
    ensures r == JUnitRun(walk)
  {
    var collected := Walk(walk);
    if collected.Failure? {
      return Failure(collected.error);
    }
    var results := collected.value;
    if |results.items| == 0 {
      return Success(JUnitReport(false, None));
    }
    results.Sort();
    var failCount := FailCount(results.items);
    if failCount > 0 {
      r := Success(JUnitReport(false, Some(results.items)));
    } else {
      r := Success(JUnitReport(true, Some(results.items)));
    }
  }
}
