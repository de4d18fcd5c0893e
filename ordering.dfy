/**
 * The orders the JUnit report uses: `String.compareTo` on names, a boolean
 * "comes later" flag compared first, and a stable sort by such keys.
 */
module Ordering {
  import opened Wrappers
  import opened JavaLang

  /** `a.compareTo(b) <= 0`: lexicographic order on characters, a proper prefix first. */
  predicate StrLe(a: string, b: string)
    decreases |a|
  {
    a == [] || (b != [] && (a[0] < b[0] || (a[0] == b[0] && StrLe(a[1..], b[1..]))))
  }

  lemma {:induction false} StrLeTotal(a: string, b: string)
    ensures StrLe(a, b) || StrLe(b, a)
    decreases |a|
  {
    if a != [] && b != [] && a[0] == b[0] {
      StrLeTotal(a[1..], b[1..]);
    }
  }

  lemma {:induction false} StrLeTrans(a: string, b: string, c: string)
    requires StrLe(a, b) && StrLe(b, c)
    ensures StrLe(a, c)
    decreases |a|
  {
    if a != [] && b != [] && c != [] && a[0] == b[0] == c[0] {
      StrLeTrans(a[1..], b[1..], c[1..]);
    }
  }

  lemma {:induction false} StrLeAntisymmetric(a: string, b: string)
    requires StrLe(a, b) && StrLe(b, a)
    ensures a == b
    decreases |a|
  {
    if a != [] {
      StrLeAntisymmetric(a[1..], b[1..]);
      assert a == [a[0]] + a[1..] && b == [b[0]] + b[1..];
    }
  }

  /** The name order; a missing name comes first. */
  predicate NameLe(a: JString, b: JString) {
    a.None? || (b.Some? && StrLe(a.value, b.value))
  }

  /** A sort key: entries with `later` false come first, then by name. */
  datatype SortKey = SortKey(later: bool, name: JString)

  predicate KeyLe(a: SortKey, b: SortKey) {
    (!a.later && b.later) || (a.later == b.later && NameLe(a.name, b.name))
  }

  lemma KeyLeTotal(a: SortKey, b: SortKey)
    ensures KeyLe(a, b) || KeyLe(b, a)
  {
    if a.name.Some? && b.name.Some? {
      StrLeTotal(a.name.value, b.name.value);
    }
  }

  lemma KeyLeTrans(a: SortKey, b: SortKey, c: SortKey)
    requires KeyLe(a, b) && KeyLe(b, c)
    ensures KeyLe(a, c)
  {
    if a.name.Some? && b.name.Some? && c.name.Some? {
      if StrLe(a.name.value, b.name.value) && StrLe(b.name.value, c.name.value) {
        StrLeTrans(a.name.value, b.name.value, c.name.value);
      }
    }
  }

  /** Every element's key is at most every later element's key. */
  predicate SortedBy<T>(s: seq<T>, key: T -> SortKey) {
    forall i, j :: 0 <= i < j < |s| ==> KeyLe(key(s[i]), key(s[j]))
  }

  /** Inserts `x` before the first element it does not follow. */
  function InsertBy<T>(x: T, s: seq<T>, key: T -> SortKey): (r: seq<T>)
    ensures multiset(r) == multiset(s) + multiset{x}
    ensures SortedBy(s, key) ==> SortedBy(r, key)
    decreases |s|
  {
    if s == [] then [x]
    else if KeyLe(key(x), key(s[0])) then
      SortedAfterFirst(x, s, key);
      [x] + s
    else
      var rest := InsertBy(x, s[1..], key);
      KeyLeTotal(key(x), key(s[0]));
      assert s == [s[0]] + s[1..];
      InsertedAfterHead(x, s, rest, key);
      [s[0]] + rest
  }

  lemma SortedAfterFirst<T>(x: T, s: seq<T>, key: T -> SortKey)
    requires s != [] && KeyLe(key(x), key(s[0]))
    ensures SortedBy(s, key) ==> SortedBy([x] + s, key)
  {
    if SortedBy(s, key) {
      var r := [x] + s;
      forall i, j | 0 <= i < j < |r| ensures KeyLe(key(r[i]), key(r[j])) {
        if i == 0 && j > 1 {
          KeyLeTrans(key(x), key(s[0]), key(s[j - 1]));
        }
      }
    }
  }

  lemma InsertedAfterHead<T>(x: T, s: seq<T>, rest: seq<T>, key: T -> SortKey)
    requires s != [] && KeyLe(key(s[0]), key(x))
    requires multiset(rest) == multiset(s[1..]) + multiset{x}
    requires SortedBy(s[1..], key) ==> SortedBy(rest, key)
    ensures SortedBy(s, key) ==> SortedBy([s[0]] + rest, key)
  {
    if SortedBy(s, key) {
      var r := [s[0]] + rest;
      forall j | 0 <= j < |rest| ensures KeyLe(key(s[0]), key(rest[j])) {
        assert rest[j] in multiset(rest);
        if rest[j] != x {
          assert rest[j] in multiset(s[1..]);
          var k :| 0 <= k < |s[1..]| && s[1..][k] == rest[j];
          assert s[k + 1] == rest[j];
        }
      }
      forall i, j | 0 <= i < j < |r| ensures KeyLe(key(r[i]), key(r[j])) {
        if i > 0 {
          assert r[i] == rest[i - 1] && r[j] == rest[j - 1];
        } else {
          assert r[j] == rest[j - 1];
        }
      }
    }
  }

  /**
   * A stable sort: an insertion sort, each element inserted before the first
   * element it does not follow, so that elements with equal keys keep their order.
   */
  function SortBy<T>(s: seq<T>, key: T -> SortKey): (r: seq<T>)
    ensures multiset(r) == multiset(s)
    ensures SortedBy(r, key)
    decreases |s|
  {
    if s == [] then []
    else
      var rest := SortBy(s[1..], key);
      assert s == [s[0]] + s[1..];
      InsertBy(s[0], rest, key)
  }

  /** An element inserted in front of keys it does not exceed goes to the front. */
  lemma InsertAtFront<T>(x: T, s: seq<T>, key: T -> SortKey)
    requires s == [] || KeyLe(key(x), key(s[0]))
    ensures InsertBy(x, s, key) == [x] + s
  {
  }

  /** Sorting an ordered sequence leaves it as it is. */
  lemma {:induction false} SortedUnchanged<T>(s: seq<T>, key: T -> SortKey)
    requires SortedBy(s, key)
    ensures SortBy(s, key) == s
    decreases |s|
  {
    if s != [] {
      assert SortedBy(s[1..], key);
      SortedUnchanged(s[1..], key);
      InsertAtFront(s[0], s[1..], key);
      assert s == [s[0]] + s[1..];
    }
  }

  /** Sorting twice gives the order of sorting once. */
  lemma SortIdempotent<T>(s: seq<T>, key: T -> SortKey)
    ensures SortBy(SortBy(s, key), key) == SortBy(s, key)
  {
    SortedUnchanged(SortBy(s, key), key);
  }
}
