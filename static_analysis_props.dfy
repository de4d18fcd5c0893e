/**
 * Properties of what the static-analysis tool extracts: each dialect reads
 * back the attributes a report tool writes, FindBugs keeps the most specific
 * line range, the folds keep one finding per element in document order, the
 * Gradle report layout is discovered, and a tree without findings passes.
 */
module StaticAnalysisProps {
  import opened Wrappers
  import opened JavaLang
  import opened Xml
  import opened Paths
  import opened Messages
  import opened StaticAnalysisSpec
  import opened Folds

  // ---------------------------------------------------------------------
  // Checkstyle

  /** The severity names, by the priority they map to. */
  function SeverityName(priority: int): string
    requires 1 <= priority <= 3
  {
    if priority == 1 then "error" else if priority == 2 then "warning" else "info"
  }

  /**
   * Any `error` element whose line, severity and source attributes hold a
   * line number, one of the three severities and a check class is read back
   * as exactly those values, with its message attribute (null when absent),
   * the "style" category and the check's documentation link. Other
   * attributes, such as `column`, are ignored.
   */
  lemma CheckstyleRoundTrip(fileName: JString, error: Element, line: Int32, priority: int, source: string,
                            message: JString)
    requires 1 <= priority <= 3
    requires Attr(error, "line") == Some(IntToString(line))
    requires Attr(error, "severity") == Some(SeverityName(priority))
    requires Attr(error, "source") == Some(source)
    requires Attr(error, "message") == message
    ensures CheckstyleFinding(fileName, error)
            == Success(Finding(fileName, "checkstyle", None, line, line, 0, 0, message, priority,
                               Some(source), Some("style"), Some(CheckstyleInfoUrl(source))))
  {
    ParseIntToString(line);
  }

  /**
   * The ways an `error` element is fatal, in the order they are met: a bad
   * line number, then a missing `source`, then a severity outside the table.
   */
  lemma CheckstyleFailures(fileName: JString, error: Element)
    ensures ParseInt(Attr(error, "line")).None? ==>
              CheckstyleFinding(fileName, error) == Failure(NumberFormat(Attr(error, "line")))
    ensures ParseInt(Attr(error, "line")).Some? && Attr(error, "source").None? ==>
              CheckstyleFinding(fileName, error) == Failure(NullPointer)
    ensures ParseInt(Attr(error, "line")).Some? && Attr(error, "source").Some? ==>
              (CheckstyleFinding(fileName, error).Success? <==>
               Attr(error, "severity") in {Some("error"), Some("warning"), Some("info")})
  {
  }

  /**
   * A check class `<package>.<Name>Check` of the standard checks package
   * links to the page of its package, anchored at the check's name.
   */
  lemma CheckstyleUrlShape(pkg: string, name: string)
    requires '.' !in pkg && '.' !in name
    requires !Contains(pkg + "." + name + "Chec", "Check")
    ensures CheckstyleInfoUrl(CheckstyleChecksPackage + (pkg + "." + name + "Check"))
            == CheckstyleDocs + ("config_" + (pkg + ".html#" + name))
  {
    StripPackage(pkg, name);
    StripCheck(pkg + "." + name);
    DotToAnchor(pkg, name);
    InfoUrlSteps(CheckstyleChecksPackage + (pkg + "." + name + "Check"), pkg + "." + name + "Check",
                 pkg + "." + name, pkg + ".html#" + name);
  }

  /** The link from the results of the three replacements in turn. */
  lemma InfoUrlSteps(source: string, stripped: string, bare: string, anchored: string)
    requires ReplaceAll(source, CheckstyleChecksPackage, "") == stripped
    requires ReplaceAll(stripped, "Check", "") == bare
    requires ReplaceAll(bare, ".", ".html#") == anchored
    ensures CheckstyleInfoUrl(source) == CheckstyleDocs + ("config_" + anchored)
  {
  }

  /** The package prefix occurs once, at the start. */
  lemma StripPackage(pkg: string, name: string)
    requires '.' !in pkg && '.' !in name
    ensures ReplaceAll(CheckstyleChecksPackage + (pkg + "." + name + "Check"), CheckstyleChecksPackage, "")
            == pkg + "." + name + "Check"
  {
    var p := CheckstyleChecksPackage;
    var rest := pkg + "." + name + "Check";
    ShorterNotContained(p[..|p| - 1], p);
    assert "" + p[..|p| - 1] == p[..|p| - 1];
    assert "" + p + rest == p + rest;
    ReplaceAllFirstMatch("", p, rest, "");
    OnlyDotAt(pkg, name);
    TwoDotsNotContained(rest, |pkg|, p);
    ReplaceAllAbsent(rest, p, "");
  }

  /** "Check" occurs once, at the end. */
  lemma StripCheck(a: string)
    requires !Contains(a + "Chec", "Check")
    ensures ReplaceAll(a + "Check", "Check", "") == a
  {
    assert "Check"[..4] == "Chec";
    assert a + "Check" == a + "Check" + "";
    ReplaceAllFirstMatch(a, "Check", "", "");
    assert ReplaceAll("", "Check", "") == "";
  }

  /** The one '.' becomes ".html#". */
  lemma DotToAnchor(pkg: string, name: string)
    requires '.' !in pkg && '.' !in name
    ensures ReplaceAll(pkg + "." + name, ".", ".html#") == pkg + ".html#" + name
  {
    ContainsChar(pkg, '.');
    ContainsChar(name, '.');
    assert pkg + "."[..0] == pkg;
    ReplaceAllFirstMatch(pkg, ".", name, ".html#");
    ReplaceAllAbsent(name, ".", ".html#");
  }

  lemma ShorterNotContained(s: string, t: string)
    requires |s| < |t|
    ensures !Contains(s, t)
  {
    ContainsIff(s, t);
  }

  /** In `pkg + "." + name + "Check"` the only '.' is the one after `pkg`. */
  lemma OnlyDotAt(pkg: string, name: string)
    requires '.' !in pkg && '.' !in name
    ensures forall k :: 0 <= k < |pkg + "." + name + "Check"| && k != |pkg| ==> (pkg + "." + name + "Check")[k] != '.'
  {
    var rest := pkg + "." + name + "Check";
    forall k | 0 <= k < |rest| && k != |pkg| ensures rest[k] != '.' {
      if k < |pkg| {
        assert rest[k] == pkg[k];
      } else if k < |pkg| + 1 + |name| {
        assert rest[k] == name[k - |pkg| - 1];
      } else {
        assert rest[k] == "Check"[k - |pkg| - 1 - |name|];
      }
    }
  }

  /** A string with two dots cannot occur in a string with one. */
  lemma TwoDotsNotContained(rest: string, dot: int, p: string)
    requires forall k :: 0 <= k < |rest| && k != dot ==> rest[k] != '.'
    requires |p| > 14 && p[3] == '.' && p[14] == '.'
    ensures !Contains(rest, p)
  {
    ContainsIff(rest, p);
    forall i ensures !OccursAt(rest, p, i) {
      if 0 <= i && i + |p| <= |rest| {
        var w := rest[i..i + |p|];
        if i + 3 != dot {
          assert w[3] == rest[i + 3] && w[3] != p[3];
        } else {
          assert w[14] == rest[i + 14] && w[14] != p[14];
        }
      }
    }
  }

  // ---------------------------------------------------------------------
  // FindBugs

  /** A bug instance's range is the one of its most specific `SourceLine`. */
  lemma FindbugsPrecedence(bug: Element)
    requires FindbugsFinding(bug).Success?
    ensures MostSpecificSourceLine(bug).Some?
    ensures SourceLineRange(MostSpecificSourceLine(bug))
            == Success(LineRange(FindbugsFinding(bug).value.startLine, FindbugsFinding(bug).value.endLine))
  {
    var classLine := ChildOf(Child(bug, "Class"), "SourceLine");
    var classRange := SourceLineRange(classLine).value;
    var methodMatch := Child(bug, "Method");
    var methodRange := if methodMatch.Some? then Narrow(classRange, Child(methodMatch.value, "SourceLine")).value
                       else classRange;
    assert FindbugsLines(bug) == Narrow(methodRange, Child(bug, "SourceLine"));
  }

  /**
   * The fields of a FindBugs finding: the class's name as the file, the
   * method's name when there is a `Method`, the bug pattern as the rule and
   * the anchor of its documentation link, and the category in lower case
   * with spaces for underscores.
   */
  lemma FindbugsFields(bug: Element)
    requires FindbugsFinding(bug).Success?
    ensures var f := FindbugsFinding(bug).value;
      && f.tool == "findbugs"
      && f.fileName == AttrOf(Child(bug, "Class"), "classname")
      && f.methodName == AttrOf(Child(bug, "Method"), "name")
      && (Child(bug, "Method").None? ==> f.methodName == None)
      && ParseInt(Attr(bug, "priority")) == Some(f.priority)
      && f.rule == Attr(bug, "type")
      && f.infoUrl == Some(FindbugsDocs + Str(Attr(bug, "type")))
      && f.category.Some? && |f.category.value| == |Attr(bug, "category").value|
      && (forall i :: 0 <= i < |f.category.value| ==>
            f.category.value[i] == (var c := Attr(bug, "category").value[i]; if c == '_' then ' ' else LowerChar(c)))
      && '_' !in f.category.value
      && (forall i :: 0 <= i < |f.category.value| ==> !('A' <= f.category.value[i] <= 'Z'))
      && f.startCol == 0 && f.endCol == 0 && f.message == None
  {
    var raw := Attr(bug, "category").value;
    var c := FindbugsCategory(raw);
    forall i | 0 <= i < |c| ensures c[i] != '_' && !('A' <= c[i] <= 'Z') {
      assert c[i] == (if ToLowerCase(raw)[i] == '_' then ' ' else ToLowerCase(raw)[i]);
    }
  }

  /** An element with the given name and attributes and no text. */
  function Tag(name: string, attributes: map<string, string>, children: seq<Element>): Element {
    Element(name, attributes, children, "")
  }

  /** A `SourceLine` element for a line range. */
  function Lines(range: LineRange): Element {
    Tag("SourceLine", map["start" := IntToString(range.start), "end" := IntToString(range.end)], [])
  }

  lemma LinesRoundTrip(range: LineRange)
    ensures SourceLineRange(Some(Lines(range))) == Success(range)
  {
    ParseIntToString(range.start);
    ParseIntToString(range.end);
  }

  /**
   * The narrowing from the class's range to the method's to the direct
   * `SourceLine`'s, whatever the three ranges: each level that is present wins.
   */
  lemma FindbugsNarrowing(attributes: map<string, string>, classRange: LineRange, methodRange: LineRange, direct: LineRange)
    ensures var cls := Tag("Class", map["classname" := "C"], [Lines(classRange)]);
      var meth := Tag("Method", map["name" := "m"], [Lines(methodRange)]);
      && FindbugsLines(Tag("BugInstance", attributes, [cls, meth, Lines(direct)])) == Success(direct)
      && FindbugsLines(Tag("BugInstance", attributes, [cls, meth])) == Success(methodRange)
      && FindbugsLines(Tag("BugInstance", attributes, [cls])) == Success(classRange)
  {
    var cls := Tag("Class", map["classname" := "C"], [Lines(classRange)]);
    var meth := Tag("Method", map["name" := "m"], [Lines(methodRange)]);
    LinesRoundTrip(classRange);
    LinesRoundTrip(methodRange);
    LinesRoundTrip(direct);
    assert Child(cls, "SourceLine") == Some(Lines(classRange)) by {
      assert ChildrenNamedIn([Lines(classRange)], "SourceLine") == [Lines(classRange)];
    }
    assert Child(meth, "SourceLine") == Some(Lines(methodRange)) by {
      assert ChildrenNamedIn([Lines(methodRange)], "SourceLine") == [Lines(methodRange)];
    }
    NarrowFull(attributes, cls, meth, Lines(direct));
    NarrowMethod(attributes, cls, meth);
    NarrowClass(attributes, cls);
  }

  lemma NarrowFull(attributes: map<string, string>, cls: Element, meth: Element, direct: Element)
    requires cls.name == "Class" && meth.name == "Method" && direct.name == "SourceLine"
    ensures var bug := Tag("BugInstance", attributes, [cls, meth, direct]);
      Child(bug, "Class") == Some(cls) && Child(bug, "Method") == Some(meth) && Child(bug, "SourceLine") == Some(direct)
  {
    var cs := [cls, meth, direct];
    assert cs[1..] == [meth, direct] && cs[1..][1..] == [direct] && [direct][1..] == [];
    assert ChildrenNamedIn([direct], "SourceLine") == [direct];
    assert ChildrenNamedIn([meth, direct], "SourceLine") == [direct];
    assert ChildrenNamedIn(cs, "SourceLine") == [direct];
    assert ChildrenNamedIn([meth, direct], "Method")[0] == meth;
    assert ChildrenNamedIn(cs, "Method")[0] == meth;
  }

  lemma NarrowMethod(attributes: map<string, string>, cls: Element, meth: Element)
    requires cls.name == "Class" && meth.name == "Method"
    ensures var bug := Tag("BugInstance", attributes, [cls, meth]);
      Child(bug, "Class") == Some(cls) && Child(bug, "Method") == Some(meth) && Child(bug, "SourceLine") == None
  {
    var cs := [cls, meth];
    assert cs[1..] == [meth] && [meth][1..] == [];
    assert ChildrenNamedIn([meth], "SourceLine") == [];
    assert ChildrenNamedIn(cs, "SourceLine") == [];
    assert ChildrenNamedIn([meth], "Method") == [meth];
    assert ChildrenNamedIn(cs, "Method") == [meth];
  }

  lemma NarrowClass(attributes: map<string, string>, cls: Element)
    requires cls.name == "Class"
    ensures var bug := Tag("BugInstance", attributes, [cls]);
      Child(bug, "Class") == Some(cls) && Child(bug, "Method") == None && Child(bug, "SourceLine") == None
  {
    assert [cls][1..] == [];
    assert ChildrenNamedIn([cls], "Method") == [] && ChildrenNamedIn([cls], "SourceLine") == [];
  }

  // ---------------------------------------------------------------------
  // PMD

  /**
   * A `violation` element written with its four positions, rule, ruleset,
   * method (null when absent), link and priority is read back as exactly
   * those values, with the ruleset in lower case as the category and no
   * message text.
   */
  lemma PmdRoundTrip(fileName: JString, violation: Element, beginLine: Int32, endLine: Int32, beginCol: Int32,
                     endCol: Int32, rule: string, ruleset: string, methodName: JString, url: string, priority: Int32)
    requires Attr(violation, "beginline") == Some(IntToString(beginLine))
    requires Attr(violation, "endline") == Some(IntToString(endLine))
    requires Attr(violation, "begincolumn") == Some(IntToString(beginCol))
    requires Attr(violation, "endcolumn") == Some(IntToString(endCol))
    requires Attr(violation, "rule") == Some(rule) && Attr(violation, "ruleset") == Some(ruleset)
    requires Attr(violation, "method") == methodName && Attr(violation, "externalInfoUrl") == Some(url)
    requires Attr(violation, "priority") == Some(IntToString(priority))
    ensures PmdFinding(fileName, violation)
            == Success(Finding(fileName, "pmd", methodName, beginLine, endLine, beginCol, endCol, None,
                               priority, Some(rule), Some(ToLowerCase(ruleset)), Some(url)))
  {
    ParseIntToString(beginLine);
    ParseIntToString(endLine);
    ParseIntToString(beginCol);
    ParseIntToString(endCol);
    ParseIntToString(priority);
  }

  // ---------------------------------------------------------------------
  // The folds

  /** Every finding element of the list is well formed. */
  predicate AllExtract(d: Dialect, fileName: JString, es: seq<Element>) {
    forall i :: 0 <= i < |es| ==> Extract(d, fileName, es[i]).Success?
  }

  /** A fold over finding elements succeeds exactly when every element does. */
  lemma ExtractAllSucceeds(d: Dialect, fileName: JString, es: seq<Element>)
    ensures ExtractAll(d, fileName, es).Success? <==> AllExtract(d, fileName, es)
  {
    MapAllSucceeds(ExtractAt(d, fileName), 0, es);
    assert AllSucceed(ExtractAt(d, fileName), 0, es) <==> AllExtract(d, fileName, es);
  }

  /** A successful fold holds one finding per element, in document order. */
  lemma ExtractAllOneEach(d: Dialect, fileName: JString, es: seq<Element>)
    requires ExtractAll(d, fileName, es).Success?
    ensures |ExtractAll(d, fileName, es).value| == |es|
    ensures forall i :: 0 <= i < |es| ==> Extract(d, fileName, es[i]) == Success(ExtractAll(d, fileName, es).value[i])
  {
    MapAllOneEach(ExtractAt(d, fileName), 0, es);
  }

  /** A failing fold reports the error of its first failing element. */
  lemma ExtractAllFirstFailure(d: Dialect, fileName: JString, es: seq<Element>) returns (k: nat)
    requires ExtractAll(d, fileName, es).Failure?
    ensures k < |es|
    ensures forall i :: 0 <= i < k ==> Extract(d, fileName, es[i]).Success?
    ensures Extract(d, fileName, es[k]).Failure?
    ensures ExtractAll(d, fileName, es) == Failure(Extract(d, fileName, es[k]).error)
  {
    k := MapAllFirstFailure(ExtractAt(d, fileName), 0, es);
    forall i | 0 <= i < k ensures Extract(d, fileName, es[i]).Success? {
      assert es[..k][i] == es[i];
    }
  }

  // ---------------------------------------------------------------------
  // Discovery and the run

  /**
   * The Gradle layout `<..>/build/reports/<tool>/<file>`: a regular file
   * named main.xml or test.xml there is selected, and the tool directory's
   * name picks its dialect.
   */
  lemma GradleReportSelected(absolute: bool, project: seq<string>, tool: string, file: string, document: Element)
    requires absolute || project != []
    requires file == "main.xml" || file == "test.xml"
    ensures var path := FsPath(absolute, project + ["build", "reports"] + [tool, file]);
      && Selected(WalkEntry(path, true, Some(document))) == Success(true)
      && ParentName(path) == Some(tool)
      && ParseFindings(path, Some(document)) ==
           match DialectNamed(tool)
           case Some(d) => DocumentFindings(d, document)
           case None => Failure(UnknownAnalysisType(tool))
  {
    MarkerInPathString(absolute, project, ["build", "reports"], [tool, file]);
    ReportsMarker();
  }

  lemma ReportsMarker()
    ensures "/" + Join(["build", "reports"]) + "/" == "/build/reports/"
  {
    assert Join(["build", "reports"]) == "build/reports";
  }

  /** Directories, and files outside build/reports or with other names, are never parsed. */
  lemma NonReportIgnored(entry: WalkEntry)
    requires FileName(entry.path).Some?
    requires !entry.isRegularFile || !Contains(PathString(entry.path), "/build/reports/")
             || (FileName(entry.path).value != "main.xml" && FileName(entry.path).value != "test.xml")
    ensures Selected(entry) == Success(false)
  {
  }

  /** A walk that selects no report file passes, and nothing is rendered. */
  lemma {:induction false} NoReportsPass(walk: seq<WalkEntry>)
    requires forall i :: 0 <= i < |walk| ==> Selected(walk[i]) == Success(false)
    ensures CollectFindings(walk) == Success([])
    ensures AnalysisRun(walk) == Success(StaticReport(true, None))
    decreases |walk|
  {
    if walk != [] {
      var init := walk[..|walk| - 1];
      assert forall i :: 0 <= i < |init| ==> init[i] == walk[i];
      NoReportsPass(init);
    }
  }

  /** Later files only append: the findings of a walk's prefix are a prefix of the whole. */
  lemma {:induction false} CollectAppendOnly(walk: seq<WalkEntry>, k: nat)
    requires k <= |walk|
    requires CollectFindings(walk).Success?
    ensures CollectFindings(walk[..k]).Success?
    ensures CollectFindings(walk[..k]).value <= CollectFindings(walk).value
    decreases |walk| - k
  {
    if k < |walk| {
      var init := walk[..|walk| - 1];
      assert init[..k] == walk[..k];
      CollectAppendOnly(init, k);
    } else {
      assert walk[..k] == walk;
    }
  }

  /** A run passes exactly when no selected file held a finding, and otherwise renders all of them. */
  lemma RunVerdict(walk: seq<WalkEntry>)
    ensures AnalysisRun(walk).Success? <==> CollectFindings(walk).Success?
    ensures AnalysisRun(walk).Success? ==>
      (AnalysisRun(walk).value.passed <==> CollectFindings(walk).value == []) &&
      (AnalysisRun(walk).value.rendered == if AnalysisRun(walk).value.passed then None else Some(CollectFindings(walk).value))
  {
  }
}
