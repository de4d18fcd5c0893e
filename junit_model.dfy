/**
 * The JUnit structures: a suite with final fields and a case whose failure
 * details are filled in after construction. Each class numbers its instances
 * from its own static counter, modelled as an `IdSource` object shared by all
 * constructions of that class.
 */
module JUnitModel {
  import opened Wrappers
  import opened JavaLang

  /** A class's static `uniqueIdSource`: the next ID to hand out. */
  class IdSource {
    var next: int

    /** A static `int` field starts at 0. */
    constructor()
      ensures next == 0
    {
      next := 0;
    }
  }

  /** A suite's fields, as a value. `time` is the raw text of the float attribute. */
  datatype SuiteData = SuiteData(
    uniqueId: int,
    suiteName: JString,
    testCount: Int32,
    skippedCount: Int32,
    failureCount: Int32,
    errorCount: Int32,
    time: string,
    stdout: JString,
    stderr: JString)

  /** A case's fields, as a value. */
  datatype CaseData = CaseData(
    uniqueId: int,
    testName: JString,
    className: JString,
    time: string,
    message: JString,
    failureType: JString,
    error: JString)

  /**
   * Whether a suite reports failures. The method the sort calls for this is
   * not part of the suite class as given; it is taken to be that the
   * suite's declared failures and errors add up to more than zero, the
   * quantity the run's verdict also adds up.
   */
  predicate HasFailures(s: SuiteData) {
    s.failureCount + s.errorCount > 0
  }

  /** Whether a case counts as failing in the case order: its error text is not empty. */
  predicate CaseFailed(c: CaseData) {
    !IsEmpty(c.error)
  }

  class JUnitTestSuite {
    const uniqueId: int
    const suiteName: JString
    const testCount: Int32
    const skippedCount: Int32
    const failureCount: Int32
    const errorCount: Int32
    const time: string
    const stdout: JString
    const stderr: JString

    function Data(): SuiteData {
      SuiteData(uniqueId, suiteName, testCount, skippedCount, failureCount, errorCount, time, stdout, stderr)
    }

    /** Takes the counter's value as its ID and advances the counter by one. */
    constructor(ids: IdSource, suiteName: JString, testCount: Int32, skippedCount: Int32, failureCount: Int32,
                errorCount: Int32, time: string, stdout: JString, stderr: JString)
      modifies ids
      ensures uniqueId == old(ids.next) && ids.next == old(ids.next) + 1
      ensures Data() == SuiteData(old(ids.next), suiteName, testCount, skippedCount, failureCount, errorCount,
                                  time, stdout, stderr)
    {
      uniqueId := ids.next;
      ids.next := ids.next + 1;
      this.suiteName := suiteName;
      this.testCount := testCount;
      this.skippedCount := skippedCount;
      this.failureCount := failureCount;
      this.errorCount := errorCount;
      this.time := time;
      this.stdout := stdout;
      this.stderr := stderr;
    }
  }

  class JUnitTestCase {
    const uniqueId: int
    const testName: JString
    const className: JString
    const time: string
    var message: JString
    var failureType: JString
    var error: JString

    function Data(): CaseData
      reads this
    {
      CaseData(uniqueId, testName, className, time, message, failureType, error)
    }

    /** Takes the counter's value as its ID; the failure details start out null. */
    constructor(ids: IdSource, testName: JString, className: JString, time: string)
      modifies ids
      ensures uniqueId == old(ids.next) && ids.next == old(ids.next) + 1
      ensures Data() == CaseData(old(ids.next), testName, className, time, None, None, None)
    {
      uniqueId := ids.next;
      ids.next := ids.next + 1;
      this.testName := testName;
      this.className := className;
      this.time := time;
      message, failureType, error := None, None, None;
    }

    /** Sets the three failure details together; the ID, names and time are final. */
    method Failure(message: JString, failureType: JString, error: JString)
      modifies this`message, this`failureType, this`error
      ensures Data() == old(Data()).(message := message, failureType := failureType, error := error)
    {
      this.message := message;
      this.failureType := failureType;
      this.error := error;
    }
  }

  /** The values of a list of cases, in list order. */
  function CasesData(cs: seq<JUnitTestCase>): (r: seq<CaseData>)
    reads set c | c in cs
    ensures |r| == |cs|
  {
    if cs == [] then [] else CasesData(cs[..|cs| - 1]) + [cs[|cs| - 1].Data()]
  }

  lemma CasesDataAppend(cs: seq<JUnitTestCase>, c: JUnitTestCase)
    ensures CasesData(cs + [c]) == CasesData(cs) + [c.Data()]
  {
    assert (cs + [c])[..|cs|] == cs;
  }
}
