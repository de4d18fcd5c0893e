/**
 * The few pieces of the Java platform that the two report tools rely on:
 * nullable strings, 32-bit `int`, `Integer.parseInt`, the `String` methods
 * `toLowerCase`, `replace`, `contains`, `startsWith`, `endsWith`, string
 * concatenation with `null`, and the exceptions that abort a run.
 */
module JavaLang {
  import opened Wrappers

  /** A Java `String` reference: `None` is `null`. */
  type JString = Option<string>

  const MinInt: int := -0x8000_0000
  const MaxInt: int := 0x7fff_ffff

  /** A Java `int`. */
  type Int32 = x: int | MinInt <= x <= MaxInt

  /** The exceptions the tools let escape; each one ends the whole run. */
  datatype Fatal =
    | NumberFormat(text: JString)          // Integer.parseInt rejected its argument
    | NullPointer                          // a method was called on a null string
    | UnknownSeverity(severity: string)    // checkstyle severity outside error/warning/info
    | UnknownAnalysisType(kind: string)    // report directory is not checkstyle/findbugs/pmd
    | NoParentDirectory                    // Path.getName(getNameCount() - 2) out of range
    | Unreadable                           // the XML file could not be read or parsed

  type Outcome<T> = Result<T, Fatal>

  /** `String.valueOf(s)`, as used by `+`: a null reference prints as "null". */
  function Str(s: JString): string {
    if s.None? then "null" else s.value
  }

  /** Apache Commons `StringUtils.isEmpty`: null or "". */
  predicate IsEmpty(s: JString) {
    s.None? || s.value == []
  }

  // ---------------------------------------------------------------------
  // Integer.parseInt (radix 10, ASCII digits)

  predicate IsDigit(c: char) {
    '0' <= c <= '9'
  }

  predicate AllDigits(s: string) {
    forall i :: 0 <= i < |s| ==> IsDigit(s[i])
  }

  function DigitValue(c: char): nat
    requires IsDigit(c)
  {
    c as int - '0' as int
  }

  function DigitChar(d: nat): (c: char)
    requires d < 10
    ensures IsDigit(c) && DigitValue(c) == d
  {
    ('0' as int + d) as char
  }

  /** The value of a digit string, read left to right. */
  function DecimalValue(s: string): nat
    requires AllDigits(s)
  {
    if s == [] then 0 else DecimalValue(s[..|s| - 1]) * 10 + DigitValue(s[|s| - 1])
  }

  /**
   * `Integer.parseInt(s)`: an optional '+' or '-', then at least one digit,
   * and a value that fits in an `int`; anything else (null included) is
   * rejected with `None`, i.e. a NumberFormatException.
   */
  function ParseInt(s: JString): (r: Option<Int32>)
    ensures r.Some? ==> s.Some? && s.value != []
  {
    match s
    case None => None
    case Some(t) =>
      if t == [] then None
      else if t[0] == '-' || t[0] == '+' then
        var digits := t[1..];
        if digits == [] || !AllDigits(digits) then None
        else
          var magnitude: int := DecimalValue(digits);
          var v := if t[0] == '-' then -magnitude else magnitude;
          if MinInt <= v <= MaxInt then Some(v) else None
      else if AllDigits(t) && DecimalValue(t) <= MaxInt then Some(DecimalValue(t))
      else None
  }

  /** The parse of an attribute that must hold an integer. */
  function ParseIntOrFail(s: JString): (r: Outcome<Int32>)
    ensures r.Success? <==> ParseInt(s).Some?
    ensures r.Success? ==> Some(r.value) == ParseInt(s)
    ensures r.Failure? ==> r.error == NumberFormat(s)
  {
    match ParseInt(s)
    case Some(v) => Success(v)
    case None => Failure(NumberFormat(s))
  }

  /**
   * What `Integer.parseInt` accepts: either an optional sign, then digits
   * whose value, negated after a '-', is the result; or digits alone, whose
   * value is the result.
   */
  lemma ParseIntAccepted(s: JString)
    requires ParseInt(s).Some?
    ensures var t := s.value;
      var n := ParseInt(s).value;
      || (|t| >= 2 && (t[0] == '-' || t[0] == '+') && AllDigits(t[1..])
          && (t[0] == '-' ==> n == -(DecimalValue(t[1..]) as int))
          && (t[0] == '+' ==> n == DecimalValue(t[1..])))
      || (AllDigits(t) && n == DecimalValue(t))
  {
  }

  /** Decimal digits of a natural number, most significant first. */
  function NatDigits(n: nat): string
    decreases n
  {
    if n < 10 then [DigitChar(n)] else NatDigits(n / 10) + [DigitChar(n % 10)]
  }

  /** `Integer.toString(n)`. */
  function IntToString(n: int): string {
    if n < 0 then "-" + NatDigits(-n) else NatDigits(n)
  }

  lemma {:induction false} NatDigitsValue(n: nat)
    ensures NatDigits(n) != [] && AllDigits(NatDigits(n))
    ensures DecimalValue(NatDigits(n)) == n
    decreases n
  {
    if n >= 10 {
      NatDigitsValue(n / 10);
      var d := NatDigits(n);
      assert d == NatDigits(n / 10) + [DigitChar(n % 10)];
      assert d[..|d| - 1] == NatDigits(n / 10);
    }
  }

  /** `Integer.parseInt` reads back what `Integer.toString` writes, for every `int`. */
  lemma ParseIntToString(n: Int32)
    ensures ParseInt(Some(IntToString(n))) == Some(n)
  {
    var m: int := n;
    if m < 0 {
      NatDigitsValue(-m);
      var t := IntToString(m);
      assert t[1..] == NatDigits(-m);
    } else {
      NatDigitsValue(n);
      assert IsDigit(NatDigits(n)[0]);
    }
  }

  // ---------------------------------------------------------------------
  // String.toLowerCase, String.replace(char, char)

  function LowerChar(c: char): char {
    if 'A' <= c <= 'Z' then (c as int + 32) as char else c
  }

  /** `String.toLowerCase()` on ASCII letters. */
  function ToLowerCase(s: string): string {
    seq(|s|, i requires 0 <= i < |s| => LowerChar(s[i]))
  }

  /** `String.replace(char, char)`: every occurrence of `from` becomes `to`. */
  function ReplaceChar(s: string, from: char, to: char): string {
    seq(|s|, i requires 0 <= i < |s| => if s[i] == from then to else s[i])
  }

  lemma ToLowerCaseIdempotent(s: string)
    ensures ToLowerCase(ToLowerCase(s)) == ToLowerCase(s)
    ensures forall i :: 0 <= i < |s| ==> !('A' <= ToLowerCase(s)[i] <= 'Z')
  {
  }

  // ---------------------------------------------------------------------
  // String.startsWith, endsWith, contains, replace(CharSequence, CharSequence)

  predicate StartsWith(s: string, prefix: string) {
    |prefix| <= |s| && s[..|prefix|] == prefix
  }

  predicate EndsWith(s: string, suffix: string) {
    |suffix| <= |s| && s[|s| - |suffix|..] == suffix
  }

  /** `t` occurs in `s` starting at index `i`. */
  predicate OccursAt(s: string, t: string, i: int) {
    0 <= i && i + |t| <= |s| && s[i..i + |t|] == t
  }

  /** `s.contains(t)`: searched from the left, one start position at a time. */
  predicate Contains(s: string, t: string)
    decreases |s|
  {
    StartsWith(s, t) || (s != [] && Contains(s[1..], t))
  }

  lemma OccursAtTail(s: string, t: string, i: int)
    requires OccursAt(s, t, i) && i >= 1
    ensures OccursAt(s[1..], t, i - 1)
  {
    assert s[1..][i - 1..i - 1 + |t|] == s[i..i + |t|];
  }

  lemma {:induction false} OccursAtContains(s: string, t: string, i: int)
    requires OccursAt(s, t, i)
    ensures Contains(s, t)
    decreases i
  {
    if i >= 1 {
      OccursAtTail(s, t, i);
      OccursAtContains(s[1..], t, i - 1);
    }
  }

  lemma {:induction false} ContainsWitness(s: string, t: string) returns (i: int)
    requires Contains(s, t)
    ensures OccursAt(s, t, i)
    decreases |s|
  {
    if StartsWith(s, t) {
      i := 0;
    } else {
      var j := ContainsWitness(s[1..], t);
      assert s[1..][j..j + |t|] == s[j + 1..j + 1 + |t|];
      i := j + 1;
    }
  }

  /** `contains` holds exactly when some start index matches. */
  lemma ContainsIff(s: string, t: string)
    ensures Contains(s, t) <==> exists i :: OccursAt(s, t, i)
  {
    if Contains(s, t) {
      var i := ContainsWitness(s, t);
    }
    forall i | OccursAt(s, t, i) ensures Contains(s, t) {
      OccursAtContains(s, t, i);
    }
  }

  /** Every string `a + t + b` contains `t`. */
  lemma ContainsMiddle(a: string, t: string, b: string)
    ensures Contains(a + t + b, t)
  {
    var s := a + t + b;
    assert s[|a|..|a| + |t|] == t;
    assert OccursAt(s, t, |a|);
    ContainsIff(s, t);
  }

  /** A single character is contained exactly when it is an element. */
  lemma ContainsChar(s: string, c: char)
    ensures Contains(s, [c]) <==> c in s
  {
    ContainsIff(s, [c]);
    if c in s {
      var i :| 0 <= i < |s| && s[i] == c;
      assert s[i..i + 1] == [c];
      assert OccursAt(s, [c], i);
    }
    if Contains(s, [c]) {
      var i :| OccursAt(s, [c], i);
      assert s[i] == s[i..i + 1][0];
    }
  }

  /**
   * `s.replace(target, replacement)`: every non-overlapping occurrence of
   * `target`, scanning from the left, is replaced.
   */
  function ReplaceAll(s: string, target: string, replacement: string): string
    requires target != []
    decreases |s|
  {
    if |s| < |target| then s
    else if s[..|target|] == target then replacement + ReplaceAll(s[|target|..], target, replacement)
    else [s[0]] + ReplaceAll(s[1..], target, replacement)
  }

  /** Replacing a string that does not occur changes nothing. */
  lemma {:induction false} ReplaceAllAbsent(s: string, target: string, replacement: string)
    requires target != []
    requires !Contains(s, target)
    ensures ReplaceAll(s, target, replacement) == s
    decreases |s|
  {
    if |s| >= |target| {
      ReplaceAllAbsent(s[1..], target, replacement);
    }
  }

  /**
   * When the first occurrence of `target` in `a + target + b` is the one
   * after `a`, the replacement keeps `a`, substitutes that occurrence and
   * carries on with `b`.
   */
  lemma {:induction false} ReplaceAllFirstMatch(a: string, target: string, b: string, replacement: string)
    requires target != []
    requires !Contains(a + target[..|target| - 1], target)
    ensures ReplaceAll(a + target + b, target, replacement) == a + replacement + ReplaceAll(b, target, replacement)
    decreases |a|
  {
    var s := a + target + b;
    if a == [] {
      assert s == target + b;
      assert s[..|target|] == target;
      assert s[|target|..] == b;
    } else {
      var p := a + target[..|target| - 1];
      PrefixOfLongerPrefix(a, target, b);
      assert !StartsWith(s, target);
      assert s[1..] == a[1..] + target + b;
      assert p[1..] == a[1..] + target[..|target| - 1];
      ReplaceAllFirstMatch(a[1..], target, b, replacement);
      assert s == [a[0]] + s[1..];
      assert a == [a[0]] + a[1..];
    }
  }

  /** The first |target| characters of a + target + b lie inside a + target[..|target| - 1]. */
  lemma PrefixOfLongerPrefix(a: string, target: string, b: string)
    requires a != [] && target != []
    ensures |a + target + b| >= |target|
    ensures (a + target + b)[..|target|] == (a + target[..|target| - 1])[..|target|]
  {
    var s := a + target + b;
    var p := a + target[..|target| - 1];
    forall k | 0 <= k < |target| ensures s[k] == p[k] {
      if k >= |a| {
        assert s[k] == target[k - |a|];
        assert p[k] == target[..|target| - 1][k - |a|];
      }
    }
  }
}
