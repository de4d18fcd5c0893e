/**
 * The common record every static-analysis dialect fills in: a mutable
 * object built with fluent setters, each of which assigns its own fields
 * and returns the same object. `StaticAnalysisMessage` is a field-for-field
 * copy of this class and is modelled by it.
 */
module Messages {
  import opened Wrappers
  import opened JavaLang

  /** The state of one message, as a value. */
  datatype Finding = Finding(
    fileName: JString,
    tool: string,
    methodName: JString,
    startLine: Int32,
    endLine: Int32,
    startCol: Int32,
    endCol: Int32,
    message: JString,
    priority: Int32,
    rule: JString,
    category: JString,
    infoUrl: JString)

  /** What the constructor leaves: the two final fields set, everything else null or 0. */
  function Fresh(tool: string, fileName: JString): (f: Finding)
    ensures f.tool == tool && f.fileName == fileName
    ensures f.startLine == f.endLine == f.startCol == f.endCol == f.priority == 0
    ensures f.methodName == f.message == f.rule == f.category == f.infoUrl == None
  {
    Finding(fileName, tool, None, 0, 0, 0, 0, None, 0, None, None, None)
  }

  class AnalysisMessage {
    const fileName: JString
    const tool: string

    var methodName: JString
    var startLine: Int32
    var endLine: Int32
    var startCol: Int32
    var endCol: Int32

    var message: JString
    var priority: Int32
    var rule: JString
    var category: JString

    var infoUrl: JString

    function Value(): Finding
      reads this
    {
      Finding(fileName, tool, methodName, startLine, endLine, startCol, endCol,
              message, priority, rule, category, infoUrl)
    }

    constructor(tool: string, name: JString)
      ensures Value() == Fresh(tool, name)
    {
      this.fileName := name;
      this.tool := tool;
      methodName, message, rule, category, infoUrl := None, None, None, None, None;
      startLine, endLine, startCol, endCol, priority := 0, 0, 0, 0, 0;
    }

    method Category(category: JString) returns (self: AnalysisMessage)
      modifies this`category
      ensures self == this
      ensures Value() == old(Value()).(category := category)
    {
      this.category := category;
      self := this;
    }

    method InfoUrl(infoUrl: JString) returns (self: AnalysisMessage)
      modifies this`infoUrl
      ensures self == this
      ensures Value() == old(Value()).(infoUrl := infoUrl)
    {
      this.infoUrl := infoUrl;
      self := this;
    }

    /** A single-line position: both ends of the line range, columns untouched. */
    method Line(number: Int32) returns (self: AnalysisMessage)
      modifies this`startLine, this`endLine
      ensures self == this
      ensures Value() == old(Value()).(startLine := number, endLine := number)
    {
      this.startLine := number;
      this.endLine := number;
      self := this;
    }

    method LineAndColumnRange(startLine: Int32, endLine: Int32, startCol: Int32, endCol: Int32)
      returns (self: AnalysisMessage)
      modifies this`startLine, this`endLine, this`startCol, this`endCol
      ensures self == this
      ensures Value() == old(Value()).(startLine := startLine, endLine := endLine,
                                       startCol := startCol, endCol := endCol)
    {
      this.startLine := startLine;
      this.endLine := endLine;
      this.startCol := startCol;
      this.endCol := endCol;
      self := this;
    }

    /** Overwrites the line range, whatever an earlier call set. */
    method LineRange(start: Int32, end: Int32) returns (self: AnalysisMessage)
      modifies this`startLine, this`endLine
      ensures self == this
      ensures Value() == old(Value()).(startLine := start, endLine := end)
    {
      this.startLine := start;
      this.endLine := end;
      self := this;
    }

    method Message(message: JString) returns (self: AnalysisMessage)
      modifies this`message
      ensures self == this
      ensures Value() == old(Value()).(message := message)
    {
      this.message := message;
      self := this;
    }

    method Method(methodName: JString) returns (self: AnalysisMessage)
      modifies this`methodName
      ensures self == this
      ensures Value() == old(Value()).(methodName := methodName)
    {
      this.methodName := methodName;
      self := this;
    }

    method Priority(priority: Int32) returns (self: AnalysisMessage)
      modifies this`priority
      ensures self == this
      ensures Value() == old(Value()).(priority := priority)
    {
      this.priority := priority;
      self := this;
    }

    method Rule(rule: JString) returns (self: AnalysisMessage)
      modifies this`rule
      ensures self == this
      ensures Value() == old(Value()).(rule := rule)
    {
      this.rule := rule;
      self := this;
    }
  }

  /** The values of a list of messages, in list order. */
  function ValuesOf(ms: seq<AnalysisMessage>): (r: seq<Finding>)
    reads ms
    ensures |r| == |ms|
  {
    if ms == [] then [] else ValuesOf(ms[..|ms| - 1]) + [ms[|ms| - 1].Value()]
  }

  lemma ValuesOfAppend(ms: seq<AnalysisMessage>, m: AnalysisMessage)
    ensures ValuesOf(ms + [m]) == ValuesOf(ms) + [m.Value()]
  {
    assert (ms + [m])[..|ms|] == ms;
  }

  /** The `List<AnalysisMessage>` the parsers append to. */
  class MessageList {
    var items: seq<AnalysisMessage>

    function Contents(): seq<Finding>
      reads this, items
    {
      ValuesOf(items)
    }

    constructor()
      ensures items == []
    {
      items := [];
    }

    method Add(m: AnalysisMessage)
      modifies this
      ensures items == old(items) + [m]
      ensures Contents() == old(Contents()) + [m.Value()]
    {
      ValuesOfAppend(items, m);
      items := items + [m];
    }
  }
}
