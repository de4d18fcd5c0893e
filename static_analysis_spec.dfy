/**
 * What the static-analysis tool extracts from each report dialect, as
 * functions on the element tree. The parsers in StaticAnalysisTool are
 * proved to produce exactly these findings, in document order, or to stop
 * with the same first fatal error.
 */
module StaticAnalysisSpec {
  import opened Wrappers
  import opened JavaLang
  import opened Xml
  import opened Paths
  import opened Messages
  import opened Folds

  datatype Dialect = Checkstyle | Findbugs | Pmd

  /** The report directory's name picks the dialect. */
  function DialectNamed(kind: string): Option<Dialect> {
    match kind
    case "checkstyle" => Some(Checkstyle)
    case "findbugs" => Some(Findbugs)
    case "pmd" => Some(Pmd)
    case _ => None
  }

  // ---------------------------------------------------------------------
  // Checkstyle

  /** The severity table; `switch` on a null string throws too. */
  function SeverityPriority(severity: JString): (r: Outcome<Int32>)
    ensures r.Success? ==> 1 <= r.value <= 3
  {
    match severity
    case None => Failure(NullPointer)
    case Some(text) =>
      match text
      case "error" => Success(1)
      case "warning" => Success(2)
      case "info" => Success(3)
      case _ => Failure(UnknownSeverity(text))
  }

  const CheckstyleChecksPackage: string := "com.puppycrawl.tools.checkstyle.checks."
  const CheckstyleDocs: string := "http://checkstyle.sourceforge.net/"

  /** The documentation link built from a check's class name. */
  function CheckstyleInfoUrl(source: string): string {
    CheckstyleDocs + ("config_" + ReplaceAll(ReplaceAll(ReplaceAll(source, CheckstyleChecksPackage, ""), "Check", ""), ".", ".html#"))
  }

  function CheckstyleFinding(fileName: JString, error: Element): Outcome<Finding> {
    var line :- ParseIntOrFail(Attr(error, "line"));
    var source := Attr(error, "source");
    if source.None? then Failure(NullPointer)
    else
      var priority :- SeverityPriority(Attr(error, "severity"));
      Success(Fresh("checkstyle", fileName).(
        startLine := line, endLine := line,
        message := Attr(error, "message"),
        priority := priority,
        rule := source,
        category := Some("style"),
        infoUrl := Some(CheckstyleInfoUrl(source.value))))
  }

  // ---------------------------------------------------------------------
  // FindBugs

  const FindbugsDocs: string := "http://findbugs.sourceforge.net/bugDescriptions.html#"

  datatype LineRange = LineRange(start: Int32, end: Int32)

  /** The `start` and `end` of a `SourceLine` match; an empty match has neither. */
  function SourceLineRange(sourceLine: Option<Element>): (r: Outcome<LineRange>)
    ensures r.Success? ==> sourceLine.Some?
  {
    var start :- ParseIntOrFail(AttrOf(sourceLine, "start"));
    var end :- ParseIntOrFail(AttrOf(sourceLine, "end"));
    Success(LineRange(start, end))
  }

  /** One narrowing step: a present `SourceLine` overrides the current range. */
  function Narrow(current: LineRange, sourceLine: Option<Element>): Outcome<LineRange> {
    if sourceLine.None? then Success(current) else SourceLineRange(sourceLine)
  }

  /** Lower case, with '_' read as a space. */
  function FindbugsCategory(raw: string): string {
    ReplaceChar(ToLowerCase(raw), '_', ' ')
  }

  /**
   * A `BugInstance`: the range starts as the class's `SourceLine`, then a
   * `Method/SourceLine` and then a direct `SourceLine` override it in turn.
   */
  function FindbugsFinding(bug: Element): Outcome<Finding> {
    var priority :- ParseIntOrFail(Attr(bug, "priority"));
    var rule := Attr(bug, "type");
    var rawCategory := Attr(bug, "category");
    if rawCategory.None? then Failure(NullPointer)
    else
      var range :- FindbugsLines(bug);
      Success(Fresh("findbugs", AttrOf(Child(bug, "Class"), "classname")).(
        startLine := range.start, endLine := range.end,
        priority := priority,
        rule := rule,
        category := Some(FindbugsCategory(rawCategory.value)),
        infoUrl := Some(FindbugsDocs + Str(rule)),
        methodName := AttrOf(Child(bug, "Method"), "name")))
  }

  /** The line range of a bug instance, narrowed from the class to the method to the direct `SourceLine`. */
  function FindbugsLines(bug: Element): Outcome<LineRange> {
    var classRange :- SourceLineRange(ChildOf(Child(bug, "Class"), "SourceLine"));
    FindbugsNarrowed(bug, classRange)
  }

  /** The class's range narrowed by the method's `SourceLine`, then by the direct one. */
  function FindbugsNarrowed(bug: Element, classRange: LineRange): Outcome<LineRange> {
    var methodMatch := Child(bug, "Method");
    var methodRange :- if methodMatch.Some? then Narrow(classRange, Child(methodMatch.value, "SourceLine"))
                       else Success(classRange);
    Narrow(methodRange, Child(bug, "SourceLine"))
  }

  /** The most specific `SourceLine` a bug instance has: direct, else the method's, else the class's. */
  function MostSpecificSourceLine(bug: Element): Option<Element> {
    var direct := Child(bug, "SourceLine");
    var methodLine := ChildOf(Child(bug, "Method"), "SourceLine");
    if direct.Some? then direct
    else if methodLine.Some? then methodLine
    else ChildOf(Child(bug, "Class"), "SourceLine")
  }

  // ---------------------------------------------------------------------
  // PMD

  function PmdFinding(fileName: JString, violation: Element): Outcome<Finding> {
    var beginLine :- ParseIntOrFail(Attr(violation, "beginline"));
    var endLine :- ParseIntOrFail(Attr(violation, "endline"));
    var beginCol :- ParseIntOrFail(Attr(violation, "begincolumn"));
    var endCol :- ParseIntOrFail(Attr(violation, "endcolumn"));
    var ruleset := Attr(violation, "ruleset");
    if ruleset.None? then Failure(NullPointer)
    else
      var priority :- ParseIntOrFail(Attr(violation, "priority"));
      Success(Fresh("pmd", fileName).(
        startLine := beginLine, endLine := endLine,
        startCol := beginCol, endCol := endCol,
        methodName := Attr(violation, "method"),
        priority := priority,
        rule := Attr(violation, "rule"),
        category := Some(ToLowerCase(ruleset.value)),
        infoUrl := Attr(violation, "externalInfoUrl")))
  }

  // ---------------------------------------------------------------------
  // Whole documents

  /** One finding from one element of the given dialect. */
  function Extract(d: Dialect, fileName: JString, e: Element): Outcome<Finding> {
    match d
    case Checkstyle => CheckstyleFinding(fileName, e)
    case Findbugs => FindbugsFinding(e)
    case Pmd => PmdFinding(fileName, e)
  }

  /** `Extract` as the per-element function of a fold; the element's index plays no part. */
  function ExtractAt(d: Dialect, fileName: JString): (int, Element) -> Outcome<Finding> {
    (i: int, e: Element) => Extract(d, fileName, e)
  }

  /** One finding per element, in order, or the first element's failure. */
  function ExtractAll(d: Dialect, fileName: JString, es: seq<Element>): Outcome<seq<Finding>> {
    MapAll(ExtractAt(d, fileName), 0, es)
  }

  /** The name of the per-finding elements under a `file` element. */
  function FindingElement(d: Dialect): string {
    if d == Checkstyle then "error" else "violation"
  }

  /** The findings under one `file` element. */
  function FileFindingsOf(d: Dialect, file: Element): Outcome<seq<Finding>> {
    ExtractAll(d, Attr(file, "name"), Find(file, FindingElement(d)))
  }

  /** One `file` element: the findings so far, then its own. */
  function FileStep(d: Dialect): (seq<Finding>, Element) -> Outcome<seq<Finding>> {
    (before: seq<Finding>, file: Element) =>
      var found :- FileFindingsOf(d, file);
      Success(before + found)
  }

  /** The findings under a list of `file` elements, file after file. */
  function FileFindings(d: Dialect, files: seq<Element>): Outcome<seq<Finding>> {
    Accumulate(FileStep(d), [], files)
  }

  /** Everything a report of dialect `d` contributes. */
  function DocumentFindings(d: Dialect, document: Element): Outcome<seq<Finding>> {
    match d
    case Checkstyle => FileFindings(Checkstyle, SelectPath(document, "checkstyle", "file"))
    case Findbugs => ExtractAll(Findbugs, None, SelectPath(document, "BugCollection", "BugInstance"))
    case Pmd => FileFindings(Pmd, SelectPath(document, "pmd", "file"))
  }

  /**
   * One report file: it must be readable, then its parent directory's name
   * picks the dialect.
   */
  function ParseFindings(path: FsPath, document: Option<Element>): Outcome<seq<Finding>> {
    if document.None? then Failure(Unreadable)
    else
      match ParentName(path)
      case None => Failure(NoParentDirectory)
      case Some(kind) =>
        match DialectNamed(kind)
        case None => Failure(UnknownAnalysisType(kind))
        case Some(d) => DocumentFindings(d, document.value)
  }

  // ---------------------------------------------------------------------
  // Discovery and the run

  /** The file filter applied to each walked path. */
  predicate IsReportFile(path: FsPath, isRegularFile: bool, fileName: string) {
    isRegularFile && Contains(PathString(path), "/build/reports/") && (fileName == "main.xml" || fileName == "test.xml")
  }

  /** The filter on a walk entry; the file name of the root directory is null. */
  function Selected(entry: WalkEntry): Outcome<bool> {
    match FileName(entry.path)
    case None => Failure(NullPointer)
    case Some(name) => Success(IsReportFile(entry.path, entry.isRegularFile, name))
  }

  /** One walked entry: the findings so far, with the entry's own appended when it is a selected report. */
  function FindingsStep(before: seq<Finding>, entry: WalkEntry): Outcome<seq<Finding>> {
    var selected :- Selected(entry);
    if !selected then Success(before)
    else
      var found :- ParseFindings(entry.path, entry.document);
      Success(before + found)
  }

  /** The findings of every selected file, in walk order. */
  function CollectFindings(walk: seq<WalkEntry>): Outcome<seq<Finding>> {
    Accumulate(FindingsStep, [], walk)
  }

  /** The outcome of a run: whether it passed, and the messages handed to the report renderer. */
  datatype StaticReport = StaticReport(passed: bool, rendered: Option<seq<Finding>>)

  function AnalysisRun(walk: seq<WalkEntry>): Outcome<StaticReport> {
    var all :- CollectFindings(walk);
    if all == [] then Success(StaticReport(true, None)) else Success(StaticReport(false, Some(all)))
  }
}
