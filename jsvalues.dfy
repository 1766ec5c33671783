/** The small Option type used for values that may be missing. */
module Options {
  datatype Option<T> = None | Some(value: T)
}

/**
 * The slice of JavaScript value semantics that the TTLock callback
 * handlers rely on: truthiness, `a || b` chains, `String(v)`,
 * `parseInt(v, 10)`, `s.split(sep)` and the relational operator `<=`.
 * Numbers are integral here; `null` and `undefined` are one value.
 */
module JsValues {
  import opened Options

  /** A value read from a request body or a database row. */
  datatype JsValue = Null | Num(n: int) | Str(s: string)

  /** JavaScript truthiness: `null`, `0` and `""` are falsy. */
  predicate Truthy(v: JsValue) {
    match v
    case Null => false
    case Num(n) => n != 0
    case Str(s) => s != ""
  }

  /**
   * `vs[0] || vs[1] || ... || vs[|vs|-1]`: the first truthy operand, or
   * the last operand when none is truthy.
   */
  function OrChain(vs: seq<JsValue>): (r: JsValue)
    requires |vs| >= 1
    ensures Truthy(r) <==> exists i :: 0 <= i < |vs| && Truthy(vs[i])
    ensures Truthy(r) ==> exists i :: 0 <= i < |vs| && vs[i] == r && forall j :: 0 <= j < i ==> !Truthy(vs[j])
    ensures !Truthy(r) ==> r == vs[|vs| - 1]
  {
    if |vs| == 1 then vs[0]
    else if Truthy(vs[0]) then vs[0]
    else
      var r := OrChain(vs[1..]);
      assert forall i :: 1 <= i < |vs| ==> vs[i] == vs[1..][i - 1];
      r
  }

  // ---------------------------------------------------------------------
  // Decimal text of integers: String(n)
  // ---------------------------------------------------------------------

  predicate IsDigit(c: char) {
    '0' <= c <= '9'
  }

  predicate AllDigits(s: string) {
    forall i :: 0 <= i < |s| ==> IsDigit(s[i])
  }

  function DigitChar(d: nat): (c: char)
    requires d < 10
    ensures IsDigit(c)
  {
    ('0' as int + d) as char
  }

  function DigitValue(c: char): (d: nat)
    requires IsDigit(c)
    ensures d < 10
  {
    c as int - '0' as int
  }

  /** Decimal digits of a natural number, without leading zeros. */
  function NatToDecimal(n: nat): (r: string)
    ensures |r| >= 1 && AllDigits(r)
    decreases n
  {
    if n < 10 then [DigitChar(n)] else NatToDecimal(n / 10) + [DigitChar(n % 10)]
  }

  function IntToDecimal(n: int): string {
    if n < 0 then "-" + NatToDecimal(-n) else NatToDecimal(n)
  }

  /** `String(v)`, also what a template literal `${v}` produces. */
  function Text(v: JsValue): string {
    match v
    case Null => "null"
    case Num(n) => IntToDecimal(n)
    case Str(s) => s
  }

  // ---------------------------------------------------------------------
  // parseInt(s, 10)
  // ---------------------------------------------------------------------

  /** The white space and line terminators that `parseInt` skips. */
  predicate IsJsSpace(c: char) {
    c == ' ' || c == '\t' || c == '\n' || c == '\r' || c == '\U{B}' || c == '\U{C}'
    || c == '\U{A0}' || c == '\U{FEFF}' || c == '\U{1680}' || ('\U{2000}' <= c <= '\U{200A}')
    || c == '\U{2028}' || c == '\U{2029}' || c == '\U{202F}' || c == '\U{205F}' || c == '\U{3000}'
  }

  /** `s` without its leading white space. */
  function TrimStart(s: string): string
  {
    if |s| > 0 && IsJsSpace(s[0]) then TrimStart(s[1..]) else s
  }

  /** `s` without its trailing white space. */
  function TrimEnd(s: string): string
  {
    if |s| > 0 && IsJsSpace(s[|s| - 1]) then TrimEnd(s[..|s| - 1]) else s
  }

  /** The longest prefix of `s` made of decimal digits. */
  function DigitPrefix(s: string): (r: string)
    ensures |r| <= |s| && AllDigits(r)
  {
    if |s| > 0 && IsDigit(s[0]) then [s[0]] + DigitPrefix(s[1..]) else []
  }

  /** The value of a string of decimal digits, read most significant first. */
  function DigitsValue(d: string): nat
    requires AllDigits(d)
  {
    if d == [] then 0 else DigitsValue(d[..|d| - 1]) * 10 + DigitValue(d[|d| - 1])
  }

  /**
   * `parseInt(s, 10)`: skip leading white space, take an optional sign and
   * the longest run of digits after it; `None` stands for `NaN` (no digits).
   */
  function ParseInt(s: string): (r: Option<int>)
  {
    var t := TrimStart(s);
    var d := DigitPrefix(SignedBody(t));
    if d == [] then None
    else if |t| > 0 && t[0] == '-' then Some(-(DigitsValue(d) as int))
    else Some(DigitsValue(d))
  }

  /** What follows an optional leading `+` or `-`. */
  function SignedBody(t: string): (r: string)
    ensures |t| > 0 && (t[0] == '-' || t[0] == '+') ==> r == t[1..]
  {
    if |t| > 0 && (t[0] == '-' || t[0] == '+') then t[1..] else t
  }

  /** `parseInt(v, 10)` on any value: the value is first turned into text. */
  function ParseIntValue(v: JsValue): Option<int> {
    ParseInt(Text(v))
  }

  /**
   * `n || d` where `n` is the number `parseInt` returned: for a number it is
   * the general `||` on the two operands, and `NaN` (falsy) gives `d`.
   */
  function NumberOr(n: Option<int>, d: int): (r: int)
    ensures n.Some? ==> Num(r) == OrChain([Num(n.value), Num(d)])
    ensures n.None? ==> r == d
  {
    if n.Some? && n.value != 0 then n.value else d
  }

  lemma {:induction false} DigitsOfNat(n: nat)
    ensures DigitsValue(NatToDecimal(n)) == n
    decreases n
  {
    var r := NatToDecimal(n);
    if n >= 10 {
      DigitsOfNat(n / 10);
      assert r[..|r| - 1] == NatToDecimal(n / 10);
    }
  }

  lemma {:induction false} DigitPrefixOfDigits(s: string)
    requires AllDigits(s)
    ensures DigitPrefix(s) == s
    decreases |s|
  {
    if |s| > 0 {
      DigitPrefixOfDigits(s[1..]);
      assert [s[0]] + s[1..] == s;
    }
  }

  /** `parseInt` once the white space and the sign are known to be gone. */
  lemma ParseIntOfSignedDigits(t: string, d: string)
    requires |d| >= 1 && AllDigits(d)
    requires TrimStart(t) == t && SignedBody(t) == d
    ensures t == d ==> ParseInt(t) == Some(DigitsValue(d))
    ensures t == "-" + d ==> ParseInt(t) == Some(-(DigitsValue(d) as int))
  {
    DigitPrefixOfDigits(d);
    if t == "-" + d {
      assert t[0] == '-';
    }
  }

  lemma TrimStartKeeps(t: string)
    requires |t| > 0 && !IsJsSpace(t[0])
    ensures TrimStart(t) == t
  {
  }

  /** `parseInt` reads a string of digits as its decimal value. */
  lemma ParseIntOfDigits(s: string)
    requires |s| >= 1 && AllDigits(s)
    ensures ParseInt(s) == Some(DigitsValue(s))
  {
    assert IsDigit(s[0]);
    TrimStartKeeps(s);
    ParseIntOfSignedDigits(s, s);
  }

  /** `parseInt` reads a minus sign followed by digits as the negated value. */
  lemma ParseIntOfNegative(d: string)
    requires |d| >= 1 && AllDigits(d)
    ensures ParseInt("-" + d) == Some(-(DigitsValue(d) as int))
  {
    var t := "-" + d;
    assert t[0] == '-' && t[1..] == d;
    TrimStartKeeps(t);
    ParseIntOfSignedDigits(t, d);
  }

  /** Round trip: `parseInt(String(n), 10) == n` for every integer `n`. */
  lemma ParseIntOfText(n: int)
    ensures ParseIntValue(Num(n)) == Some(n)
  {
    if n < 0 {
      var d := NatToDecimal(-n);
      assert Text(Num(n)) == "-" + d;
      ParseIntOfNegative(d);
      DigitsOfNat(-n);
    } else {
      ParseIntOfDigits(NatToDecimal(n));
      DigitsOfNat(n);
    }
  }

  // ---------------------------------------------------------------------
  // s.split(sep)
  // ---------------------------------------------------------------------

  /** `s.split(sep)` for a one-character separator. */
  function Split(s: string, sep: char): (r: seq<string>)
    ensures |r| >= 1
    decreases |s|
  {
    if |s| == 0 then [""]
    else if s[0] == sep then [""] + Split(s[1..], sep)
    else
      var rest := Split(s[1..], sep);
      [[s[0]] + rest[0]] + rest[1..]
  }

  /** A piece without the separator comes out of `split` whole. */
  lemma {:induction false} SplitPiece(a: string, sep: char, rest: string)
    requires forall i :: 0 <= i < |a| ==> a[i] != sep
    ensures Split(a, sep) == [a]
    ensures Split(a + [sep] + rest, sep) == [a] + Split(rest, sep)
    decreases |a|
  {
    if |a| > 0 {
      SplitPiece(a[1..], sep, rest);
      assert (a + [sep] + rest)[1..] == a[1..] + [sep] + rest;
      assert [a[0]] + a[1..] == a;
    } else {
      assert a + [sep] + rest == [sep] + rest;
    }
  }

  // ---------------------------------------------------------------------
  // The relational operators < and <= (abstract relational comparison)
  // ---------------------------------------------------------------------

  /**
   * `Number(s)` for the integer literals this model covers: surrounding white
   * space is dropped, the empty string is 0, an optionally signed run of
   * digits is its value, and anything else is `NaN` (`None`).
   */
  function StringToNumber(s: string): Option<int> {
    var t := TrimEnd(TrimStart(s));
    if t == [] then Some(0)
    else
      var body := SignedBody(t);
      if body != [] && AllDigits(body) then
        (if t[0] == '-' then Some(-(DigitsValue(body) as int)) else Some(DigitsValue(body)))
      else None
  }

  /** `Number(v)`; `None` is `NaN`. */
  function ToNumber(v: JsValue): Option<int> {
    match v
    case Null => Some(0)
    case Num(n) => Some(n)
    case Str(s) => StringToNumber(s)
  }

  /** Lexicographic order of strings, character by character. */
  predicate StrLess(a: string, b: string) {
    if a == [] then b != []
    else if b == [] then false
    else if a[0] != b[0] then a[0] < b[0]
    else StrLess(a[1..], b[1..])
  }

  /** `a < b`; `None` is the undefined outcome of a comparison with `NaN`. */
  function JsLess(a: JsValue, b: JsValue): Option<bool> {
    if a.Str? && b.Str? then Some(StrLess(a.s, b.s))
    else
      var x, y := ToNumber(a), ToNumber(b);
      if x.Some? && y.Some? then Some(x.value < y.value) else None
  }

  /** `a <= b`: false when `b < a` holds or is undefined. */
  predicate JsLessEq(a: JsValue, b: JsValue) {
    JsLess(b, a) == Some(false)
  }

  lemma {:induction false} StrLessIrreflexive(a: string)
    ensures !StrLess(a, a)
    decreases |a|
  {
    if a != [] {
      StrLessIrreflexive(a[1..]);
    }
  }

  /**
   * Every value compares `<=` to itself: two strings by lexicographic order,
   * anything else by its number. (A string that is not a number is still
   * compared as a string when both sides are strings.)
   */
  lemma JsLessEqReflexive(v: JsValue)
    ensures JsLessEq(v, v)
  {
    if v.Str? {
      StrLessIrreflexive(v.s);
    }
  }

  /** For numbers, `<=` is the order of the integers. */
  lemma JsLessEqOnNumbers(a: int, b: int)
    ensures JsLessEq(Num(a), Num(b)) <==> a <= b
  {
  }
}
