/**
 * The static-analysis tool as the program runs it: a walk over the build
 * tree, a parser per report dialect that appends one message per finding to
 * a shared list, and the pass/fail verdict. Each parser is proved to append
 * exactly the findings the dialect's specification extracts, or to stop with
 * the specification's first fatal error.
 */
module StaticAnalysisTool {
  import opened Wrappers
  import opened JavaLang
  import opened Xml
  import opened Paths
  import opened Messages
  import opened StaticAnalysisSpec
  import opened Folds

  // ---------------------------------------------------------------------
  // How each loop step moves its fold on, and how a failure ends it

  /** The fold over elements stops at the first element that fails. */
  lemma ExtractAllStops(d: Dialect, fileName: JString, es: seq<Element>, j: nat, err: Fatal)
    requires j < |es|
    requires ExtractAll(d, fileName, es[..j]).Success?
    requires Extract(d, fileName, es[j]) == Failure(err)
    ensures ExtractAll(d, fileName, es) == Failure(err)
  {
    MapAllStops(ExtractAt(d, fileName), 0, es, j);
  }

  lemma ExtractAllStep(d: Dialect, fileName: JString, es: seq<Element>, j: nat)
    requires j < |es|
    requires ExtractAll(d, fileName, es[..j]).Success?
    requires Extract(d, fileName, es[j]).Success?
    ensures ExtractAll(d, fileName, es[..j + 1]) ==
            Success(ExtractAll(d, fileName, es[..j]).value + [Extract(d, fileName, es[j]).value])
  {
    MapAllExtend(ExtractAt(d, fileName), 0, es, j);
  }

  /** A failing file ends the fold over files with its error. */
  lemma FileFindingsStops(d: Dialect, files: seq<Element>, i: nat, err: Fatal)
    requires i < |files|
    requires FileFindings(d, files[..i]).Success?
    requires FileFindingsOf(d, files[i]) == Failure(err)
    ensures FileFindings(d, files) == Failure(err)
  {
    AccumulateStep(FileStep(d), [], files, i, FileFindings(d, files[..i]).value);
    AccumulatePrefix(FileStep(d), [], files, i + 1);
  }

  lemma FileFindingsStep(d: Dialect, files: seq<Element>, i: nat)
    requires i < |files|
    requires FileFindings(d, files[..i]).Success?
    requires FileFindingsOf(d, files[i]).Success?
    ensures FileFindings(d, files[..i + 1]) ==
            Success(FileFindings(d, files[..i]).value + FileFindingsOf(d, files[i]).value)
  {
    AccumulateStep(FileStep(d), [], files, i, FileFindings(d, files[..i]).value);
  }

  /** A failing entry ends the walk with its error. */
  lemma CollectFindingsStops(walk: seq<WalkEntry>, i: nat, before: seq<Finding>)
    requires i < |walk| && CollectFindings(walk[..i]) == Success(before)
    requires FindingsStep(before, walk[i]).Failure?
    ensures CollectFindings(walk) == FindingsStep(before, walk[i])
  {
    AccumulateStep(FindingsStep, [], walk, i, before);
    AccumulatePrefix(FindingsStep, [], walk, i + 1);
  }

  lemma CollectFindingsStep(walk: seq<WalkEntry>, i: nat, before: seq<Finding>)
    requires i < |walk| && CollectFindings(walk[..i]) == Success(before)
    ensures CollectFindings(walk[..i + 1]) == FindingsStep(before, walk[i])
  {
    AccumulateStep(FindingsStep, [], walk, i, before);
  }

  lemma ConcatAssociates<T>(a: seq<T>, b: seq<T>, c: seq<T>)
    ensures a + b + c == a + (b + c)
  {
  }

  // ---------------------------------------------------------------------
  // One finding element each

  /** The body of the checkstyle per-`error` loop. */
  method AddCheckstyleError(fileName: JString, error: Element, messages: MessageList) returns (r: Outcome<()>)
    modifies messages
    ensures r.Success? <==> CheckstyleFinding(fileName, error).Success?
    ensures r.Failure? ==> CheckstyleFinding(fileName, error) == Failure(r.error) && messages.items == old(messages.items)
    ensures r.Success? ==> |messages.items| == |old(messages.items)| + 1 && old(messages.items) <= messages.items
    ensures r.Success? ==> messages.Contents() == old(messages.Contents()) + [CheckstyleFinding(fileName, error).value]
  {
    var lineNumber := ParseInt(Attr(error, "line"));
    if lineNumber.None? {
      return Failure(NumberFormat(Attr(error, "line")));
    }
    var messageText := Attr(error, "message");
    var severityText := Attr(error, "severity");
    var rawSource := Attr(error, "source");
    if rawSource.None? {
      return Failure(NullPointer);
    }
    var infoUrl := CheckstyleInfoUrl(rawSource.value);
    var priority := SeverityPriority(severityText);
    if priority.Failure? {
      return Failure(priority.error);
    }
    var rule := Attr(error, "source");
    var message := NewCheckstyleMessage(fileName, lineNumber.value, messageText, priority.value, rule, infoUrl);
    messages.Add(message);
    r := Success(());
  }

  /** The builder chain of a checkstyle message. */
  method NewCheckstyleMessage(fileName: JString, line: Int32, messageText: JString, priority: Int32,
                              rule: JString, infoUrl: string)
    returns (message: AnalysisMessage)
    ensures fresh(message)
    ensures message.Value() == Fresh("checkstyle", fileName).(
              startLine := line, endLine := line, message := messageText, priority := priority, rule := rule,
              category := Some("style"), infoUrl := Some(infoUrl))
  {
    message := new AnalysisMessage("checkstyle", fileName);
    message := message.Line(line);
    message := message.Message(messageText);
    message := message.Priority(priority);
    message := message.Rule(rule);
    message := message.Category(Some("style"));
    message := message.InfoUrl(Some(infoUrl));
  }

  /** The builder chain of a FindBugs message, before the method and its lines are known. */
  method NewFindbugsMessage(fileName: JString, startLine: Int32, endLine: Int32, priority: Int32,
                            rule: JString, category: string, infoUrl: string)
    returns (message: AnalysisMessage)
    ensures fresh(message)
    ensures message.Value() == Fresh("findbugs", fileName).(
              startLine := startLine, endLine := endLine, priority := priority, rule := rule,
              category := Some(category), infoUrl := Some(infoUrl))
  {
    message := new AnalysisMessage("findbugs", fileName);
    message := message.LineRange(startLine, endLine);
    message := message.Priority(priority);
    message := message.Rule(rule);
    message := message.Category(Some(category));
    message := message.InfoUrl(Some(infoUrl));
  }

  /** The body of the FindBugs per-`BugInstance` loop. */
  method AddFindbugsBug(bug: Element, messages: MessageList) returns (r: Outcome<()>)
    modifies messages
    ensures r.Success? <==> FindbugsFinding(bug).Success?
    ensures r.Failure? ==> FindbugsFinding(bug) == Failure(r.error) && messages.items == old(messages.items)
    ensures r.Success? ==> |messages.items| == |old(messages.items)| + 1 && old(messages.items) <= messages.items
    ensures r.Success? ==> messages.Contents() == old(messages.Contents()) + [FindbugsFinding(bug).value]
  {
    var priority := ParseInt(Attr(bug, "priority"));
    if priority.None? {
      return Failure(NumberFormat(Attr(bug, "priority")));
    }
    var rule := Attr(bug, "type");
    var infoUrl := FindbugsDocs + Str(rule);
    var rawCategory := Attr(bug, "category");
    if rawCategory.None? {
      return Failure(NullPointer);
    }
    var category := FindbugsCategory(rawCategory.value);

    var classMatch := Child(bug, "Class");
    var fileName := AttrOf(classMatch, "classname");
    var classSourceLineMatch := ChildOf(classMatch, "SourceLine");
    var startLine := ParseInt(AttrOf(classSourceLineMatch, "start"));
    if startLine.None? {
      return Failure(NumberFormat(AttrOf(classSourceLineMatch, "start")));
    }
    var endLine := ParseInt(AttrOf(classSourceLineMatch, "end"));
    if endLine.None? {
      return Failure(NumberFormat(AttrOf(classSourceLineMatch, "end")));
    }
    ghost var classRange := LineRange(startLine.value, endLine.value);
    assert SourceLineRange(classSourceLineMatch) == Success(classRange);

    var message := NewFindbugsMessage(fileName, startLine.value, endLine.value, priority.value, rule, category, infoUrl);
    ghost var built := message.Value();
    var narrowed := NarrowFindbugsMessage(bug, message, classRange);
    if narrowed.Failure? {
      return Failure(narrowed.error);
    }
    assert message.Value() == built.(startLine := FindbugsLines(bug).value.start, endLine := FindbugsLines(bug).value.end,
                                     methodName := AttrOf(Child(bug, "Method"), "name"));
    messages.Add(message);
    r := Success(());
  }

  /**
   * The narrowing steps of the FindBugs loop body: a `Method` child sets the
   * method name and may override the class's range with its `SourceLine`,
   * and a direct `SourceLine` overrides whatever range is set by then.
   */
  method NarrowFindbugsMessage(bug: Element, message: AnalysisMessage, ghost classRange: LineRange)
    returns (r: Outcome<()>)
    modifies message`methodName, message`startLine, message`endLine
    requires message.methodName == None
    requires message.startLine == classRange.start && message.endLine == classRange.end
    ensures r.Success? <==> FindbugsNarrowed(bug, classRange).Success?
    ensures r.Failure? ==> FindbugsNarrowed(bug, classRange) == Failure(r.error)
    ensures r.Success? ==> message.Value() == old(message.Value()).(
              startLine := FindbugsNarrowed(bug, classRange).value.start,
              endLine := FindbugsNarrowed(bug, classRange).value.end,
              methodName := AttrOf(Child(bug, "Method"), "name"))
  {
    ghost var range := classRange;
    var methodMatch := Child(bug, "Method");
    if methodMatch.Some? {
      var _ := message.Method(Attr(methodMatch.value, "name"));
      var methodLineMatch := Child(methodMatch.value, "SourceLine");
      if methodLineMatch.Some? {
        var start := ParseInt(Attr(methodLineMatch.value, "start"));
        if start.None? {
          return Failure(NumberFormat(Attr(methodLineMatch.value, "start")));
        }
        var end := ParseInt(Attr(methodLineMatch.value, "end"));
        if end.None? {
          return Failure(NumberFormat(Attr(methodLineMatch.value, "end")));
        }
        var _ := message.LineRange(start.value, end.value);
        range := LineRange(start.value, end.value);
      }
    }
    assert methodMatch.Some? ==> Narrow(classRange, Child(methodMatch.value, "SourceLine")) == Success(range);
    ghost var methodRange := range;

    var sourceLineMatch := Child(bug, "SourceLine");
    if sourceLineMatch.Some? {
      var start := ParseInt(Attr(sourceLineMatch.value, "start"));
      if start.None? {
        return Failure(NumberFormat(Attr(sourceLineMatch.value, "start")));
      }
      var end := ParseInt(Attr(sourceLineMatch.value, "end"));
      if end.None? {
        return Failure(NumberFormat(Attr(sourceLineMatch.value, "end")));
      }
      var _ := message.LineRange(start.value, end.value);
      range := LineRange(start.value, end.value);
    }
    assert Narrow(methodRange, sourceLineMatch) == Success(range);
    r := Success(());
  }

  /** The builder chain of a PMD message. */
  method NewPmdMessage(fileName: JString, beginLine: Int32, endLine: Int32, beginCol: Int32, endCol: Int32,
                       methodName: JString, priority: Int32, rule: JString, category: string, infoUrl: JString)
    returns (message: AnalysisMessage)
    ensures fresh(message)
    ensures message.Value() == Fresh("pmd", fileName).(
              startLine := beginLine, endLine := endLine, startCol := beginCol, endCol := endCol,
              methodName := methodName, priority := priority, rule := rule,
              category := Some(category), infoUrl := infoUrl)
  {
    message := new AnalysisMessage("pmd", fileName);
    message := message.LineAndColumnRange(beginLine, endLine, beginCol, endCol);
    message := message.Method(methodName);
    message := message.Priority(priority);
    message := message.Rule(rule);
    message := message.Category(Some(category));
    message := message.InfoUrl(infoUrl);
  }

  /** The body of the PMD per-`violation` loop. */
  method AddPmdViolation(fileName: JString, violation: Element, messages: MessageList) returns (r: Outcome<()>)
    modifies messages
    ensures r.Success? <==> PmdFinding(fileName, violation).Success?
    ensures r.Failure? ==> PmdFinding(fileName, violation) == Failure(r.error) && messages.items == old(messages.items)
    ensures r.Success? ==> |messages.items| == |old(messages.items)| + 1 && old(messages.items) <= messages.items
    ensures r.Success? ==> messages.Contents() == old(messages.Contents()) + [PmdFinding(fileName, violation).value]
  {
    var beginLine := ParseInt(Attr(violation, "beginline"));
    if beginLine.None? {
      return Failure(NumberFormat(Attr(violation, "beginline")));
    }
    var endLine := ParseInt(Attr(violation, "endline"));
    if endLine.None? {
      return Failure(NumberFormat(Attr(violation, "endline")));
    }
    var beginCol := ParseInt(Attr(violation, "begincolumn"));
    if beginCol.None? {
      return Failure(NumberFormat(Attr(violation, "begincolumn")));
    }
    var endCol := ParseInt(Attr(violation, "endcolumn"));
    if endCol.None? {
      return Failure(NumberFormat(Attr(violation, "endcolumn")));
    }
    var rule := Attr(violation, "rule");
    var ruleset := Attr(violation, "ruleset");
    if ruleset.None? {
      return Failure(NullPointer);
    }
    var category := ToLowerCase(ruleset.value);
    var methodName := Attr(violation, "method");
    var infoUrl := Attr(violation, "externalInfoUrl");
    var priority := ParseInt(Attr(violation, "priority"));
    if priority.None? {
      return Failure(NumberFormat(Attr(violation, "priority")));
    }

    var message := NewPmdMessage(fileName, beginLine.value, endLine.value, beginCol.value, endCol.value,
                                 methodName, priority.value, rule, category, infoUrl);
    messages.Add(message);
    r := Success(());
  }

  /** One finding element of the given dialect. */
  method AddFinding(d: Dialect, fileName: JString, e: Element, messages: MessageList) returns (r: Outcome<()>)
    modifies messages
    ensures r.Success? <==> Extract(d, fileName, e).Success?
    ensures r.Failure? ==> Extract(d, fileName, e) == Failure(r.error)
    ensures old(messages.items) <= messages.items
    ensures r.Success? ==> messages.Contents() == old(messages.Contents()) + [Extract(d, fileName, e).value]
  {
    match d
    case Checkstyle => r := AddCheckstyleError(fileName, e, messages);
    case Findbugs => r := AddFindbugsBug(e, messages);
    case Pmd => r := AddPmdViolation(fileName, e, messages);
  }

  // ---------------------------------------------------------------------
  // Whole documents

  /** The loop over the finding elements of one `file` element. */
  method AddFileFindings(d: Dialect, fileName: JString, es: seq<Element>, messages: MessageList)
    returns (r: Outcome<()>)
    modifies messages
    ensures old(messages.items) <= messages.items
    ensures r.Success? <==> ExtractAll(d, fileName, es).Success?
    ensures r.Failure? ==> ExtractAll(d, fileName, es) == Failure(r.error)
    ensures r.Success? ==> messages.Contents() == old(messages.Contents()) + ExtractAll(d, fileName, es).value
  {
    ghost var start := messages.Contents();
    ghost var done: seq<Finding> := [];
    var j := 0;
    while j < |es|
      invariant 0 <= j <= |es|
      invariant old(messages.items) <= messages.items
      invariant ExtractAll(d, fileName, es[..j]) == Success(done)
      invariant messages.Contents() == start + done
    {
      var added := AddFinding(d, fileName, es[j], messages);
      if added.Failure? {
        ExtractAllStops(d, fileName, es, j, added.error);
        return Failure(added.error);
      }
      ExtractAllStep(d, fileName, es, j);
      done := done + [Extract(d, fileName, es[j]).value];
      j := j + 1;
    }
    assert es[..|es|] == es;
    r := Success(());
  }

  /** The body of the loop over `file` elements: the file's findings, under its name. */
  method AddFile(d: Dialect, file: Element, messages: MessageList) returns (r: Outcome<()>)
    modifies messages
    ensures old(messages.items) <= messages.items
    ensures r.Success? <==> FileFindingsOf(d, file).Success?
    ensures r.Failure? ==> FileFindingsOf(d, file) == Failure(r.error)
    ensures r.Success? ==> messages.Contents() == old(messages.Contents()) + FileFindingsOf(d, file).value
  {
    var fileName := Attr(file, "name");
    r := AddFileFindings(d, fileName, Find(file, FindingElement(d)), messages);
  }

  /** The loop over `file` elements shared by checkstyle and PMD reports. */
  method AddFiles(d: Dialect, files: seq<Element>, messages: MessageList) returns (r: Outcome<()>)
    modifies messages
    ensures old(messages.items) <= messages.items
    ensures r.Success? <==> FileFindings(d, files).Success?
    ensures r.Failure? ==> FileFindings(d, files) == Failure(r.error)
    ensures r.Success? ==> messages.Contents() == old(messages.Contents()) + FileFindings(d, files).value
  {
    ghost var start := messages.Contents();
    ghost var done: seq<Finding> := [];
    var i := 0;
    while i < |files|
      invariant 0 <= i <= |files|
      invariant old(messages.items) <= messages.items
      invariant FileFindings(d, files[..i]) == Success(done)
      invariant messages.Contents() == start + done
    {
      var added := AddFile(d, files[i], messages);
      if added.Failure? {
        FileFindingsStops(d, files, i, added.error);
        return Failure(added.error);
      }
      FileFindingsStep(d, files, i);
      ghost var found := FileFindingsOf(d, files[i]).value;
      ConcatAssociates(start, done, found);
      done := done + found;
      i := i + 1;
    }
    assert files[..|files|] == files;
    r := Success(());
  }

  method ParseCheckstyle(document: Element, messages: MessageList) returns (r: Outcome<()>)
    modifies messages
    ensures old(messages.items) <= messages.items
    ensures r.Success? <==> DocumentFindings(Checkstyle, document).Success?
    ensures r.Failure? ==> DocumentFindings(Checkstyle, document) == Failure(r.error)
    ensures r.Success? ==> messages.Contents() == old(messages.Contents()) + DocumentFindings(Checkstyle, document).value
  {
    r := AddFiles(Checkstyle, SelectPath(document, "checkstyle", "file"), messages);
  }

  method ParseFindbugs(document: Element, messages: MessageList) returns (r: Outcome<()>)
    modifies messages
    ensures old(messages.items) <= messages.items
    ensures r.Success? <==> DocumentFindings(Findbugs, document).Success?
    ensures r.Failure? ==> DocumentFindings(Findbugs, document) == Failure(r.error)
    ensures r.Success? ==> messages.Contents() == old(messages.Contents()) + DocumentFindings(Findbugs, document).value
  {
    var bugs := SelectPath(document, "BugCollection", "BugInstance");
    ghost var start := messages.Contents();
    ghost var done: seq<Finding> := [];
    var i := 0;
    while i < |bugs|
      invariant 0 <= i <= |bugs|
      invariant old(messages.items) <= messages.items
      invariant ExtractAll(Findbugs, None, bugs[..i]) == Success(done)
      invariant messages.Contents() == start + done
    {
      var added := AddFindbugsBug(bugs[i], messages);
      if added.Failure? {
        ExtractAllStops(Findbugs, None, bugs, i, added.error);
        return Failure(added.error);
      }
      ExtractAllStep(Findbugs, None, bugs, i);
      done := done + [FindbugsFinding(bugs[i]).value];
      i := i + 1;
    }
    assert bugs[..|bugs|] == bugs;
    r := Success(());
  }

  method ParsePmd(document: Element, messages: MessageList) returns (r: Outcome<()>)
    modifies messages
    ensures old(messages.items) <= messages.items
    ensures r.Success? <==> DocumentFindings(Pmd, document).Success?
    ensures r.Failure? ==> DocumentFindings(Pmd, document) == Failure(r.error)
    ensures r.Success? ==> messages.Contents() == old(messages.Contents()) + DocumentFindings(Pmd, document).value
  {
    r := AddFiles(Pmd, SelectPath(document, "pmd", "file"), messages);
  }

  /**
   * One report file: an unreadable file, a path without a parent directory
   * and an unknown directory name are fatal before anything is added.
   */
  method Parse(path: FsPath, document: Option<Element>, messages: MessageList) returns (r: Outcome<()>)
    modifies messages
    ensures old(messages.items) <= messages.items
    ensures r.Success? <==> ParseFindings(path, document).Success?
    ensures r.Failure? ==> ParseFindings(path, document) == Failure(r.error)
    ensures r.Success? ==> messages.Contents() == old(messages.Contents()) + ParseFindings(path, document).value
    ensures document.None? || ParentName(path).None? || DialectNamed(ParentName(path).value).None?
            ==> messages.items == old(messages.items)
  {
    if document.None? {
      return Failure(Unreadable);
    }
    if |path.names| < 2 {
      return Failure(NoParentDirectory);
    }
    var kind := path.names[|path.names| - 2];
    match kind
    case "checkstyle" => r := ParseCheckstyle(document.value, messages);
    case "findbugs" => r := ParseFindbugs(document.value, messages);
    case "pmd" => r := ParsePmd(document.value, messages);
    case _ => r := Failure(UnknownAnalysisType(kind));
  }

  /** The body of the walk: an entry is parsed when the filter selects it. */
  method Visit(entry: WalkEntry, messages: MessageList) returns (r: Outcome<()>)
    modifies messages
    ensures r.Success? <==> FindingsStep(old(messages.Contents()), entry).Success?
    ensures r.Failure? ==> FindingsStep(old(messages.Contents()), entry) == Failure(r.error)
    ensures r.Success? ==> messages.Contents() == FindingsStep(old(messages.Contents()), entry).value
  {
    var fileName := FileName(entry.path);
    if fileName.None? {
      return Failure(NullPointer);
    }
    if entry.isRegularFile && Contains(PathString(entry.path), "/build/reports/")
       && (fileName.value == "main.xml" || fileName.value == "test.xml")
    {
      r := Parse(entry.path, entry.document, messages);
    } else {
      r := Success(());
    }
  }

  /**
   * The whole run over the entries of a directory walk: every selected file
   * is parsed into one shared list, and the run passes exactly when that
   * list stays empty; otherwise the list is what gets rendered.
   */
  method Run(walk: seq<WalkEntry>) returns (r: Outcome<StaticReport>)
    ensures r == AnalysisRun(walk)
  {
    var messages := new MessageList();
    var i := 0;
    while i < |walk|
      invariant 0 <= i <= |walk|
      invariant fresh(messages)
      invariant CollectFindings(walk[..i]) == Success(messages.Contents())
    {
      ghost var before := messages.Contents();
      var visited := Visit(walk[i], messages);
      if visited.Failure? {
        CollectFindingsStops(walk, i, before);
        return Failure(visited.error);
      }
      CollectFindingsStep(walk, i, before);
      i := i + 1;
    }
    assert walk[..|walk|] == walk;
    if |messages.items| == 0 {
      r := Success(StaticReport(true, None));
    } else {
      r := Success(StaticReport(false, Some(messages.Contents())));
    }
  }
}
