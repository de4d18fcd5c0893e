/**
 * What the JUnit tool promises, proved about the functions of JUnitSpec:
 * what a result file yields, how cases and suites are numbered, the order
 * of the report, and the verdict.
 */
module JUnitProps {
  import opened Wrappers
  import opened JavaLang
  import opened Xml
  import opened Paths
  import opened Ordering
  import opened JUnitModel
  import opened JUnitSpec
  import opened Folds

  // ---------------------------------------------------------------------
  // One result file

  /**
   * A case carries failure details exactly when it has a `failure` child,
   * and then all three come from that child together; its ID, names and
   * time come from the `testcase` element. Only a missing time is fatal.
   */
  lemma CaseFailureIff(testCase: Element, uniqueId: int)
    ensures CaseOf(testCase, uniqueId).Failure? <==> Attr(testCase, "time").None?
    ensures CaseOf(testCase, uniqueId).Success? ==>
      var c := CaseOf(testCase, uniqueId).value;
      && c.uniqueId == uniqueId && c.testName == Attr(testCase, "name")
      && c.className == Attr(testCase, "classname") && Attr(testCase, "time") == Some(c.time)
      && (c.error.Some? <==> Child(testCase, "failure").Some?)
      && (Child(testCase, "failure").None? ==> c.message.None? && c.failureType.None?)
      && (Child(testCase, "failure").Some? ==>
            var f := Child(testCase, "failure").value;
            c.message == Attr(f, "message") && c.failureType == Attr(f, "type") && c.error == Some(f.content))
  {
  }

  /** A failure with empty content sorts exactly as a passing case does. */
  lemma EmptyFailureSortsAsPassing(testCase: Element, uniqueId: int)
    requires CaseOf(testCase, uniqueId).Success?
    requires Child(testCase, "failure").Some? && Child(testCase, "failure").value.content == ""
    ensures var c := CaseOf(testCase, uniqueId).value;
      c.error.Some? && !CaseFailed(c)
      && CaseKey(c) == CaseKey(c.(message := None, failureType := None, error := None))
  {
  }

  /** The suite attributes read back: the four counts as written, the rest copied. */
  lemma SuiteRoundTrip(suite: Element, uniqueId: int, tests: Int32, skipped: Int32, failures: Int32, errors: Int32,
                       time: string)
    requires Attr(suite, "tests") == Some(IntToString(tests))
    requires Attr(suite, "skipped") == Some(IntToString(skipped))
    requires Attr(suite, "failures") == Some(IntToString(failures))
    requires Attr(suite, "errors") == Some(IntToString(errors))
    requires Attr(suite, "time") == Some(time)
    ensures SuiteOf(suite, uniqueId) ==
      Success(SuiteData(uniqueId, Attr(suite, "name"), tests, skipped, failures, errors, time,
                        ChildContent(suite, "system-out"), ChildContent(suite, "system-err")))
  {
    ParseIntToString(tests);
    ParseIntToString(skipped);
    ParseIntToString(failures);
    ParseIntToString(errors);
  }

  /** A count that is not an integer is fatal for its file, and the run fails with it. */
  lemma BadCountFatal(walk: seq<WalkEntry>, k: nat, name: string)
    requires k < |walk| && CollectResults(walk[..k]).Success?
    requires TestResultSelected(walk[k]) == Success(true) && walk[k].document.Some?
    requires name in ["tests", "skipped", "failures", "errors"]
    requires ParseInt(Attr(walk[k].document.value, name)).None?
    ensures JUnitRun(walk).Failure? && JUnitRun(walk).error.NumberFormat?
  {
    var before := CollectResults(walk[..k]).value;
    BadCountParse(walk[k].document.value, |before|, CaseCount(before), name);
    AccumulateStep(ResultsStep, [], walk, k, before);
    AccumulatePrefix(ResultsStep, [], walk, k + 1);
  }

  lemma BadCountParse(document: Element, suiteId: int, firstCaseId: int, name: string)
    requires name in ["tests", "skipped", "failures", "errors"]
    requires ParseInt(Attr(document, name)).None?
    ensures ParseResult(Some(document), suiteId, firstCaseId).Failure?
    ensures ParseResult(Some(document), suiteId, firstCaseId).error.NumberFormat?
  {
  }

  /** Every case of the list parses, numbered from `firstId` on. */
  predicate AllCasesParse(testCases: seq<Element>, firstId: int) {
    forall i :: 0 <= i < |testCases| ==> CaseOf(testCases[i], firstId + i).Success?
  }

  /** The cases fold succeeds exactly when every case does. */
  lemma CasesOfSucceeds(testCases: seq<Element>, firstId: int)
    ensures CasesOf(testCases, firstId).Success? <==> AllCasesParse(testCases, firstId)
  {
    MapAllSucceeds(CaseAt(), firstId, testCases);
    assert AllSucceed(CaseAt(), firstId, testCases) <==> AllCasesParse(testCases, firstId);
  }

  /** A successful cases fold holds each case in document order, numbered in order. */
  lemma CasesOfOneEach(testCases: seq<Element>, firstId: int)
    requires CasesOf(testCases, firstId).Success?
    ensures forall i :: 0 <= i < |testCases| ==> CaseOf(testCases[i], firstId + i) == Success(CasesOf(testCases, firstId).value[i])
  {
    MapAllOneEach(CaseAt(), firstId, testCases);
  }

  /**
   * A parsed file is one suite from the root and one case per direct
   * `testcase` child, in document order, numbered on from `firstCaseId`.
   */
  lemma ParseResultShape(document: Option<Element>, suiteId: int, firstCaseId: int)
    requires ParseResult(document, suiteId, firstCaseId).Success?
    ensures var r := ParseResult(document, suiteId, firstCaseId).value;
      var testCases := ChildrenNamed(document.value, "testcase");
      && SuiteOf(document.value, suiteId) == Success(r.suite)
      && r.suite.uniqueId == suiteId
      && |r.cases| == |testCases|
      && (forall i :: 0 <= i < |r.cases| ==>
            CaseOf(testCases[i], firstCaseId + i) == Success(r.cases[i]) && r.cases[i].uniqueId == firstCaseId + i)
  {
    var testCases := ChildrenNamed(document.value, "testcase");
    CasesOfOneEach(testCases, firstCaseId);
    CasesOfSucceeds(testCases, firstCaseId);
  }

  // ---------------------------------------------------------------------
  // Discovery and accumulation

  /** A Gradle JUnit report, `<project>/build/test-results/.../TEST-*.xml`, is parsed. */
  lemma GradleTestResultSelected(absolute: bool, project: seq<string>, dirs: seq<string>, file: string,
                                 document: Option<Element>)
    requires absolute || project != []
    requires StartsWith(file, "TEST-") && EndsWith(file, ".xml")
    ensures TestResultSelected(WalkEntry(FsPath(absolute, project + ["build", "test-results"] + (dirs + [file])), true, document))
            == Success(true)
  {
    MarkerInPathString(absolute, project, ["build", "test-results"], dirs + [file]);
    TestResultsMarker();
  }

  lemma TestResultsMarker()
    ensures "/" + Join(["build", "test-results"]) + "/" == "/build/test-results/"
  {
    assert Join(["build", "test-results"]) == "build/test-results";
  }

  /** Directories, files outside build/test-results and other names are never parsed. */
  lemma NonTestResultIgnored(walk: seq<WalkEntry>, entry: WalkEntry)
    requires FileName(entry.path).Some?
    requires !IsTestResultFile(entry.path, entry.isRegularFile, FileName(entry.path).value)
    ensures CollectResults(walk + [entry]) == CollectResults(walk)
  {
    assert (walk + [entry])[..|walk|] == walk;
  }

  /** Parsing only appends: the results of a prefix of the walk are a prefix of the results. */
  lemma {:induction false} CollectAppendOnly(walk: seq<WalkEntry>, k: nat)
    requires k <= |walk| && CollectResults(walk).Success?
    ensures CollectResults(walk[..k]).Success?
    ensures CollectResults(walk[..k]).value <= CollectResults(walk).value
    decreases |walk| - k
  {
    if k < |walk| {
      var init := walk[..|walk| - 1];
      assert init[..k] == walk[..k];
      CollectAppendOnly(init, k);
    } else {
      assert walk[..k] == walk;
    }
  }

  /** Each selected file with a result adds exactly one pair, at the end. */
  lemma OneResultPerFile(walk: seq<WalkEntry>, entry: WalkEntry)
    requires CollectResults(walk + [entry]).Success? && TestResultSelected(entry) == Success(true)
    ensures CollectResults(walk).Success?
    ensures var before := CollectResults(walk).value;
      CollectResults(walk + [entry]) == Success(before + [ParseResult(entry.document, |before|, CaseCount(before)).value])
  {
    assert (walk + [entry])[..|walk|] == walk;
  }

  /** Suite `i` of the results has ID `i`; case `k` of suite `i` the count of cases before it. */
  predicate NumberedInOrder(rs: seq<ResultData>) {
    forall i :: 0 <= i < |rs| ==>
      rs[i].suite.uniqueId == i
      && forall k :: 0 <= k < |rs[i].cases| ==> rs[i].cases[k].uniqueId == CaseCount(rs[..i]) + k
  }

  /** One walked entry keeps the results numbered in order. */
  lemma ResultsStepNumbered(before: seq<ResultData>, entry: WalkEntry)
    requires NumberedInOrder(before) && ResultsStep(before, entry).Success?
    ensures NumberedInOrder(ResultsStep(before, entry).value)
  {
    if TestResultSelected(entry) == Success(true) {
      var r := ParseResult(entry.document, |before|, CaseCount(before)).value;
      ParseResultShape(entry.document, |before|, CaseCount(before));
      var rs := before + [r];
      assert rs[..|before|] == before;
      forall i | 0 <= i < |before| ensures rs[..i] == before[..i] {
      }
    }
  }

  lemma {:induction false} CollectResultsNumbered(walk: seq<WalkEntry>)
    requires CollectResults(walk).Success?
    ensures NumberedInOrder(CollectResults(walk).value)
    decreases |walk|
  {
    if walk != [] {
      var init := walk[..|walk| - 1];
      CollectResultsNumbered(init);
      ResultsStepNumbered(CollectResults(init).value, walk[|walk| - 1]);
    }
  }

  lemma {:induction false} CaseCountMonotone(rs: seq<ResultData>, i: nat, j: nat)
    requires i <= j <= |rs|
    ensures CaseCount(rs[..i]) <= CaseCount(rs[..j])
    decreases j - i
  {
    if i < j {
      CaseCountMonotone(rs, i, j - 1);
      assert rs[..j][..j - 1] == rs[..j - 1];
    }
  }

  /** Suite IDs, and case IDs taken across all suites in order, increase strictly, so no two are equal. */
  lemma IdsIncrease(rs: seq<ResultData>)
    requires NumberedInOrder(rs)
    ensures forall i, j :: 0 <= i < j < |rs| ==> rs[i].suite.uniqueId < rs[j].suite.uniqueId
    ensures forall i, j, k, l :: 0 <= i < j < |rs| && 0 <= k < |rs[i].cases| && 0 <= l < |rs[j].cases| ==>
              rs[i].cases[k].uniqueId < rs[j].cases[l].uniqueId
    ensures forall i, k, l :: 0 <= i < |rs| && 0 <= k < l < |rs[i].cases| ==>
              rs[i].cases[k].uniqueId < rs[i].cases[l].uniqueId
  {
    forall i, j, k, l | 0 <= i < j < |rs| && 0 <= k < |rs[i].cases| && 0 <= l < |rs[j].cases|
      ensures rs[i].cases[k].uniqueId < rs[j].cases[l].uniqueId
    {
      CaseCountMonotone(rs, i + 1, j);
      assert rs[..i + 1][..i] == rs[..i];
    }
  }

  // ---------------------------------------------------------------------
  // The order of the report

  /** After sorting, suites with failures precede those without, and each group is in name order. */
  lemma SuitesOrdered(rs: seq<ResultData>)
    ensures var s := SortResults(rs);
      forall i, j :: 0 <= i < j < |s| ==>
        && (HasFailures(s[j].suite) ==> HasFailures(s[i].suite))
        && (HasFailures(s[i].suite) == HasFailures(s[j].suite) ==> NameLe(s[i].suite.suiteName, s[j].suite.suiteName))
  {
    var b := SortBy(rs, SuiteKey);
    var s := SortResults(rs);
    forall i, j | 0 <= i < j < |s|
      ensures KeyLe(SuiteKey(s[i]), SuiteKey(s[j]))
    {
      assert KeyLe(SuiteKey(b[i]), SuiteKey(b[j]));
    }
  }

  /**
   * After sorting, within each suite the cases with a non-empty error come
   * first, and each group is in test-name order.
   */
  lemma CasesOrdered(rs: seq<ResultData>)
    ensures var s := SortResults(rs);
      forall i, j, k :: 0 <= i < |s| && 0 <= j < k < |s[i].cases| ==>
        && (CaseFailed(s[i].cases[k]) ==> CaseFailed(s[i].cases[j]))
        && (CaseFailed(s[i].cases[j]) == CaseFailed(s[i].cases[k]) ==>
              NameLe(s[i].cases[j].testName, s[i].cases[k].testName))
  {
    var s := SortResults(rs);
    forall i, j, k | 0 <= i < |s| && 0 <= j < k < |s[i].cases|
      ensures KeyLe(CaseKey(s[i].cases[j]), CaseKey(s[i].cases[k]))
    {
      assert SortedBy(s[i].cases, CaseKey);
    }
  }

  /** The suites of a list of results, in order. */
  function Suites(rs: seq<ResultData>): (r: seq<SuiteData>)
    ensures |r| == |rs| && forall i :: 0 <= i < |rs| ==> r[i] == rs[i].suite
  {
    seq(|rs|, i requires 0 <= i < |rs| => rs[i].suite)
  }

  lemma SuitesSplit(a: seq<ResultData>, x: ResultData, b: seq<ResultData>)
    ensures multiset(Suites(a + [x] + b)) == multiset(Suites(a + b)) + multiset{x.suite}
  {
    var sa, sb := Suites(a), Suites(b);
    assert Suites(a + [x] + b) == sa + [x.suite] + sb;
    assert Suites(a + b) == sa + sb;
    assert multiset(sa + [x.suite] + sb) == multiset(sa) + multiset{x.suite} + multiset(sb);
  }

  /** The first element of `a` found in a rearrangement `b`, and the rest of both still rearrangements. */
  lemma RemoveOne<T>(a: seq<T>, b: seq<T>) returns (k: nat)
    requires a != [] && multiset(a) == multiset(b)
    ensures k < |b| && b[k] == a[0]
    ensures b == b[..k] + [a[0]] + b[k + 1..]
    ensures multiset(a[1..]) == multiset(b[..k] + b[k + 1..])
  {
    var x := a[0];
    assert x in multiset(b);
    k :| 0 <= k < |b| && b[k] == x;
    assert b == b[..k] + [x] + b[k + 1..];
    assert a == [x] + a[1..];
    assert multiset(b) == multiset(b[..k]) + multiset{x} + multiset(b[k + 1..]);
    assert multiset(b[..k] + b[k + 1..]) == multiset(b[..k]) + multiset(b[k + 1..]);
    assert multiset(a[1..]) == multiset(a) - multiset{x};
  }

  /** Equal results up to order have equal suites up to order. */
  lemma {:induction false} SuitesPermuted(a: seq<ResultData>, b: seq<ResultData>)
    requires multiset(a) == multiset(b)
    ensures multiset(Suites(a)) == multiset(Suites(b))
    decreases |a|
  {
    if a != [] {
      var x := a[0];
      var k := RemoveOne(a, b);
      var rest := b[..k] + b[k + 1..];
      SuitesPermuted(a[1..], rest);
      SuitesSplit([], x, a[1..]);
      SuitesSplit(b[..k], x, b[k + 1..]);
      assert [] + [x] + a[1..] == a && [] + a[1..] == a[1..];
      assert multiset(Suites(a)) == multiset(Suites(a[1..])) + multiset{x.suite};
      assert multiset(Suites(b)) == multiset(Suites(rest)) + multiset{x.suite};
    }
  }

  /**
   * Sorting rearranges the results and each case list, and keeps each case
   * list with its suite.
   */
  lemma SortPermutes(rs: seq<ResultData>)
    ensures |SortResults(rs)| == |rs|
    ensures multiset(Suites(SortResults(rs))) == multiset(Suites(rs))
    ensures forall i :: 0 <= i < |SortResults(rs)| ==>
              (exists k :: 0 <= k < |rs| && SortResults(rs)[i].suite == rs[k].suite
                           && multiset(SortResults(rs)[i].cases) == multiset(rs[k].cases))
  {
    var b := SortBy(rs, SuiteKey);
    var s := SortResults(rs);
    assert |b| == |multiset(b)| == |multiset(rs)| == |rs|;
    assert Suites(s) == Suites(b);
    SuitesPermuted(b, rs);
    forall i | 0 <= i < |rs|
      ensures exists k :: 0 <= k < |rs| && s[i].suite == rs[k].suite && multiset(s[i].cases) == multiset(rs[k].cases)
    {
      assert b[i] in multiset(rs);
      var k :| 0 <= k < |rs| && rs[k] == b[i];
      assert s[i].suite == rs[k].suite && multiset(s[i].cases) == multiset(rs[k].cases);
    }
  }

  /** Sorting the sorted results changes nothing. */
  lemma SortResultsIdempotent(rs: seq<ResultData>)
    ensures SortResults(SortResults(rs)) == SortResults(rs)
  {
    var b := SortBy(rs, SuiteKey);
    var s := SortResults(rs);
    forall i, j | 0 <= i < j < |s| ensures KeyLe(SuiteKey(s[i]), SuiteKey(s[j])) {
      assert KeyLe(SuiteKey(b[i]), SuiteKey(b[j]));
    }
    SortedUnchanged(s, SuiteKey);
    forall i | 0 <= i < |s| ensures SortCases(SortCases(b[i].cases)) == SortCases(b[i].cases) {
      SortIdempotent(b[i].cases, CaseKey);
    }
  }

  // ---------------------------------------------------------------------
  // The verdict

  /** The declared failures of one suite. */
  function Declared(r: ResultData): int {
    r.suite.errorCount + r.suite.failureCount
  }

  lemma {:induction false} DeclaredFailuresAppend(a: seq<ResultData>, b: seq<ResultData>)
    ensures DeclaredFailures(a + b) == DeclaredFailures(a) + DeclaredFailures(b)
    decreases |b|
  {
    if b == [] {
      assert a + b == a;
    } else {
      var init := b[..|b| - 1];
      DeclaredFailuresAppend(a, init);
      assert (a + b)[..|a + b| - 1] == a + init;
    }
  }

  /** The sum does not depend on the order of the results. */
  lemma {:induction false} DeclaredFailuresPermuted(a: seq<ResultData>, b: seq<ResultData>)
    requires multiset(a) == multiset(b)
    ensures DeclaredFailures(a) == DeclaredFailures(b)
    decreases |a|
  {
    if a != [] {
      var x := a[0];
      var k := RemoveOne(a, b);
      var rest := b[..k] + b[k + 1..];
      assert a == [x] + a[1..];
      DeclaredFailuresPermuted(a[1..], rest);
      DeclaredFailuresAppend([x], a[1..]);
      DeclaredFailuresAppend(b[..k] + [x], b[k + 1..]);
      DeclaredFailuresAppend(b[..k], [x]);
      DeclaredFailuresAppend(b[..k], b[k + 1..]);
      assert DeclaredFailures([x]) == Declared(x);
    }
  }

  lemma {:induction false} DeclaredFailuresSameSuites(a: seq<ResultData>, b: seq<ResultData>)
    requires Suites(a) == Suites(b)
    ensures DeclaredFailures(a) == DeclaredFailures(b)
    decreases |a|
  {
    if a != [] {
      assert Suites(a[..|a| - 1]) == Suites(b[..|b| - 1]);
      DeclaredFailuresSameSuites(a[..|a| - 1], b[..|b| - 1]);
    }
  }

  /** Sorting leaves the sum of declared failures as it is. */
  lemma DeclaredFailuresSorted(rs: seq<ResultData>)
    ensures DeclaredFailures(SortResults(rs)) == DeclaredFailures(rs)
  {
    var b := SortBy(rs, SuiteKey);
    assert Suites(SortResults(rs)) == Suites(b);
    DeclaredFailuresSameSuites(SortResults(rs), b);
    DeclaredFailuresPermuted(b, rs);
  }

  /**
   * A run that collects its results fails when there are none; otherwise
   * it fails exactly when the declared errors and failures of the suites
   * add up to more than zero, whatever the cases say, and renders the
   * sorted results.
   */
  lemma JUnitVerdict(walk: seq<WalkEntry>)
    requires CollectResults(walk).Success?
    ensures var rs := CollectResults(walk).value;
      && JUnitRun(walk).Success?
      && (JUnitRun(walk).value.passed <==> rs != [] && DeclaredFailures(rs) <= 0)
      && JUnitRun(walk).value.rendered == (if rs == [] then None else Some(SortResults(rs)))
  {
    DeclaredFailuresSorted(CollectResults(walk).value);
  }

  /** A walk with no result file fails, and nothing is rendered. */
  lemma {:induction false} NoTestResultsFail(walk: seq<WalkEntry>)
    requires forall i :: 0 <= i < |walk| ==> TestResultSelected(walk[i]) == Success(false)
    ensures CollectResults(walk) == Success([])
    ensures JUnitRun(walk) == Success(JUnitReport(false, None))
    decreases |walk|
  {
    if walk != [] {
      var init := walk[..|walk| - 1];
      assert forall i :: 0 <= i < |init| ==> init[i] == walk[i];
      NoTestResultsFail(init);
    }
  }

  // ---------------------------------------------------------------------
  // The fail count in 32-bit arithmetic

  /**
   * One suite declaring 2147483647 failures and one error: the program's
   * wrapped count is the most negative `int`, so the run would pass,
   * although the suite declares failures.
   */
  lemma FailCountOverflow()
    ensures var rs := [ResultData(SuiteData(0, Some("suite"), 1, 0, MaxInt, 1, "0.0", None, None), [])];
      && WrittenFailCount(rs) == MinInt
      && !(WrittenFailCount(rs) > 0)
      && DeclaredFailures(rs) > 0
      && HasFailures(rs[0].suite)
  {
    var rs := [ResultData(SuiteData(0, Some("suite"), 1, 0, MaxInt, 1, "0.0", None, None), [])];
    assert rs[..0] == [];
    assert Wrap32(1 + MaxInt) == MinInt;
    assert WrittenFailCount(rs) == Wrap32(0 + Wrap32(1 + MaxInt));
  }

  lemma Wrap32InRange(x: int)
    requires MinInt <= x <= MaxInt
    ensures Wrap32(x) == x
  {
    if x < 0 {
      assert x % TwoTo32 == x + TwoTo32;
    } else {
      assert x % TwoTo32 == x;
    }
  }

  /** Where no partial sum leaves the `int` range, the program's count is the declared sum. */
  lemma {:induction false} WrittenMatchesWithoutOverflow(rs: seq<ResultData>)
    requires forall i :: 0 <= i < |rs| ==> MinInt <= Declared(rs[i]) <= MaxInt
    requires forall k :: 0 <= k <= |rs| ==> MinInt <= DeclaredFailures(rs[..k]) <= MaxInt
    ensures WrittenFailCount(rs) == DeclaredFailures(rs)
    decreases |rs|
  {
    if rs != [] {
      var init := rs[..|rs| - 1];
      forall k | 0 <= k <= |init| ensures MinInt <= DeclaredFailures(init[..k]) <= MaxInt {
        assert init[..k] == rs[..k];
      }
      WrittenMatchesWithoutOverflow(init);
      assert rs[..|rs|] == rs;
      Wrap32InRange(Declared(rs[|rs| - 1]));
      Wrap32InRange(DeclaredFailures(rs));
    }
  }

  /** With non-negative counts, the declared sum is positive exactly when some suite has failures. */
  lemma {:induction false} AnyDeclaredFailureFails(rs: seq<ResultData>)
    requires forall i :: 0 <= i < |rs| ==> rs[i].suite.failureCount >= 0 && rs[i].suite.errorCount >= 0
    ensures DeclaredFailures(rs) > 0 <==> exists i :: 0 <= i < |rs| && HasFailures(rs[i].suite)
    decreases |rs|
  {
    if rs != [] {
      var init := rs[..|rs| - 1];
      assert forall i :: 0 <= i < |init| ==> init[i] == rs[i];
      AnyDeclaredFailureFails(init);
      if exists i :: 0 <= i < |init| && HasFailures(init[i].suite) {
        var i :| 0 <= i < |init| && HasFailures(init[i].suite);
        assert HasFailures(rs[i].suite);
      }
      NonNegativeSum(init);
    }
  }

  lemma {:induction false} NonNegativeSum(rs: seq<ResultData>)
    requires forall i :: 0 <= i < |rs| ==> rs[i].suite.failureCount >= 0 && rs[i].suite.errorCount >= 0
    ensures DeclaredFailures(rs) >= 0
    decreases |rs|
  {
    if rs != [] {
      var init := rs[..|rs| - 1];
      assert forall i :: 0 <= i < |init| ==> init[i] == rs[i];
      NonNegativeSum(init);
    }
  }
}
