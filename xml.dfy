/**
 * The XML documents the tools read, as an element tree, and the jOOX/XPath
 * queries they run on it: attribute lookup, `child` (first direct child),
 * `children` (direct children), `find` (descendants) and `//parent/child`.
 */
module Xml {
  import opened Wrappers
  import opened JavaLang

  /** An element: its name, attributes, child elements in document order, and its text content. */
  datatype Element = Element(name: string, attributes: map<string, string>, children: seq<Element>, content: string)

  /** `attr(key)`: the attribute's value, or null when it is absent. */
  function Attr(e: Element, key: string): JString {
    if key in e.attributes then Some(e.attributes[key]) else None
  }

  /** `attr(key)` on a match that may be empty: an empty match has no attributes. */
  function AttrOf(m: Option<Element>, key: string): JString {
    if m.None? then None else Attr(m.value, key)
  }

  /** The direct children with the given name, in document order. */
  function ChildrenNamed(e: Element, name: string): seq<Element> {
    ChildrenNamedIn(e.children, name)
  }

  function ChildrenNamedIn(cs: seq<Element>, name: string): seq<Element> {
    if cs == [] then []
    else (if cs[0].name == name then [cs[0]] else []) + ChildrenNamedIn(cs[1..], name)
  }

  /** The children named `name` are exactly the direct children of that name. */
  lemma {:induction false} ChildrenNamedMembers(cs: seq<Element>, name: string)
    ensures forall c :: c in ChildrenNamedIn(cs, name) <==> c in cs && c.name == name
  {
    if cs != [] {
      ChildrenNamedMembers(cs[1..], name);
      assert forall c :: c in cs <==> c == cs[0] || c in cs[1..];
    }
  }

  /**
   * The selection keeps document order and multiplicity: selecting from two
   * runs of children one after the other is selecting from each in turn.
   */
  lemma {:induction false} ChildrenNamedAppend(a: seq<Element>, b: seq<Element>, name: string)
    ensures ChildrenNamedIn(a + b, name) == ChildrenNamedIn(a, name) + ChildrenNamedIn(b, name)
    decreases |a|
  {
    if a != [] {
      assert (a + b)[0] == a[0];
      assert (a + b)[1..] == a[1..] + b;
      ChildrenNamedAppend(a[1..], b, name);
      var head := if a[0].name == name then [a[0]] else [];
      assert ChildrenNamedIn(a + b, name) == head + ChildrenNamedIn(a[1..] + b, name);
      assert ChildrenNamedIn(a, name) == head + ChildrenNamedIn(a[1..], name);
    } else {
      assert a + b == b;
    }
  }

  /** The first selected child is the first child of that name. */
  lemma {:induction false} ChildrenNamedFirst(cs: seq<Element>, name: string)
    requires ChildrenNamedIn(cs, name) != []
    ensures exists i :: 0 <= i < |cs| && cs[i] == ChildrenNamedIn(cs, name)[0] && cs[i].name == name
                        && forall j :: 0 <= j < i ==> cs[j].name != name
    decreases |cs|
  {
    if cs[0].name != name {
      ChildrenNamedFirst(cs[1..], name);
      var i :| 0 <= i < |cs[1..]| && cs[1..][i] == ChildrenNamedIn(cs[1..], name)[0] && cs[1..][i].name == name
               && forall j :: 0 <= j < i ==> cs[1..][j].name != name;
      assert cs[i + 1] == cs[1..][i];
      assert forall j :: 1 <= j < i + 1 ==> cs[j] == cs[1..][j - 1];
    } else {
      assert cs[0] == ChildrenNamedIn(cs, name)[0];
    }
  }

  /** `child(name)`: the first direct child with that name, or an empty match. */
  function Child(e: Element, name: string): Option<Element> {
    var cs := ChildrenNamed(e, name);
    if cs == [] then None else Some(cs[0])
  }

  /**
   * `child(name)` finds a child exactly when there is one of that name, and
   * what it finds is the first child of that name.
   */
  lemma ChildIff(e: Element, name: string)
    ensures Child(e, name).Some? <==> exists c :: c in e.children && c.name == name
    ensures Child(e, name).Some? ==>
      exists i :: 0 <= i < |e.children| && e.children[i] == Child(e, name).value && e.children[i].name == name
                  && forall j :: 0 <= j < i ==> e.children[j].name != name
  {
    ChildrenNamedMembers(e.children, name);
    var cs := ChildrenNamed(e, name);
    if cs != [] {
      assert cs[0] in cs;
      ChildrenNamedFirst(e.children, name);
    }
  }

  /** `child(name)` on a match that may be empty. */
  function ChildOf(m: Option<Element>, name: string): Option<Element> {
    if m.None? then None else Child(m.value, name)
  }

  function Flatten(xss: seq<seq<Element>>): seq<Element> {
    if xss == [] then [] else xss[0] + Flatten(xss[1..])
  }

  /** `find(name)`: every descendant with that name, in document order. */
  function Find(e: Element, name: string): seq<Element>
    decreases e
  {
    Flatten(seq(|e.children|, i requires 0 <= i < |e.children| =>
      var c := e.children[i];
      (if c.name == name then [c] else []) + Find(c, name)))
  }

  /**
   * The XPath `//parent/child` evaluated on the document whose root element
   * is `e`: every element named `child` whose parent element is named `parent`,
   * in document order.
   */
  function SelectPath(e: Element, parent: string, child: string): seq<Element>
    decreases e
  {
    Flatten(seq(|e.children|, i requires 0 <= i < |e.children| =>
      var c := e.children[i];
      (if e.name == parent && c.name == child then [c] else []) + SelectPath(c, parent, child)))
  }
}
