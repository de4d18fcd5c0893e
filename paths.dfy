/**
 * File-system paths as `Files.walk` yields them: an optional root and the
 * name elements, with `toString`, `getFileName` and `getName(count - 2)`.
 */
module Paths {
  import opened Wrappers
  import opened JavaLang
  import opened Xml

  /** A Unix path: absolute or relative, and its name elements (none contains '/'). */
  datatype FsPath = FsPath(absolute: bool, names: seq<string>)

  /** The name elements joined by '/'. */
  function Join(names: seq<string>): string
    decreases |names|
  {
    if names == [] then ""
    else if |names| == 1 then names[0]
    else names[0] + "/" + Join(names[1..])
  }

  /**
   * One entry of a directory walk: its path, whether it is a regular file,
   * and the document the file holds (`None`: it cannot be read as XML).
   */
  datatype WalkEntry = WalkEntry(path: FsPath, isRegularFile: bool, document: Option<Element>)

  /** `path.toString()`. */
  function PathString(p: FsPath): string {
    (if p.absolute then "/" else "") + Join(p.names)
  }

  /** `path.getFileName()`: the last name element, or null for the root directory. */
  function FileName(p: FsPath): JString {
    if p.names == [] then None else Some(p.names[|p.names| - 1])
  }

  /** `path.getName(path.getNameCount() - 2)`: the parent directory's name, when there is one. */
  function ParentName(p: FsPath): Option<string> {
    if |p.names| >= 2 then Some(p.names[|p.names| - 2]) else None
  }

  lemma {:induction false} JoinAppend(a: seq<string>, b: seq<string>)
    requires a != [] && b != []
    ensures Join(a + b) == Join(a) + "/" + Join(b)
    decreases |a|
  {
    if |a| == 1 {
      assert (a + b)[1..] == b;
    } else {
      assert (a + b)[1..] == a[1..] + b;
      JoinAppend(a[1..], b);
    }
  }

  /**
   * A path whose name elements contain `marker` as consecutive elements, with
   * at least one element on either side (the first one may be the root),
   * contains "/" + the joined marker + "/" in its string form.
   */
  lemma MarkerInPathString(absolute: bool, pre: seq<string>, marker: seq<string>, post: seq<string>)
    requires absolute || pre != []
    requires marker != [] && post != []
    ensures Contains(PathString(FsPath(absolute, pre + marker + post)), "/" + Join(marker) + "/")
  {
    var names := pre + marker + post;
    if pre == [] {
      MarkerAfterRoot(names, marker, post);
    } else {
      MarkerAfterName(absolute, names, pre, marker, post);
    }
  }

  lemma MarkerAfterRoot(names: seq<string>, marker: seq<string>, post: seq<string>)
    requires names == marker + post && marker != [] && post != []
    ensures Contains(PathString(FsPath(true, names)), "/" + Join(marker) + "/")
  {
    var needle := "/" + Join(marker) + "/";
    var str := PathString(FsPath(true, names));
    JoinAppend(marker, post);
    assert str == "/" + (Join(marker) + "/" + Join(post));
    assert str == "" + needle + Join(post);
    ContainsMiddle("", needle, Join(post));
  }

  lemma MarkerAfterName(absolute: bool, names: seq<string>, pre: seq<string>, marker: seq<string>, post: seq<string>)
    requires names == pre + marker + post && pre != [] && marker != [] && post != []
    ensures Contains(PathString(FsPath(absolute, names)), "/" + Join(marker) + "/")
  {
    var str := PathString(FsPath(absolute, names));
    var root := if absolute then "/" else "";
    JoinAppend(marker, post);
    assert names == pre + (marker + post);
    JoinAppend(pre, marker + post);
    assert str == root + Join(pre + (marker + post));
    Reassociate(root, Join(pre), Join(marker), Join(post));
    ContainsMiddle(root + Join(pre), "/" + Join(marker) + "/", Join(post));
  }

  lemma Reassociate(root: string, pre: string, marker: string, post: string)
    ensures root + (pre + "/" + (marker + "/" + post)) == (root + pre) + ("/" + marker + "/") + post
  {
  }
}
