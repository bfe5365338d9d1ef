/**
 * The JavaScript built-ins the application's decision logic leans on,
 * stated over exact integers and strings: `parseInt`, `String.prototype.includes`,
 * `startsWith`, `toLowerCase`, integer-to-decimal conversion and the length
 * rule of `Array.from({ length })`.
 */
module Js {

  /** A value that may be `null`/`undefined`. */
  datatype Option<T> = None | Some(value: T)

  /** A JavaScript number as the code here produces it: an integer or NaN. */
  datatype Number = NaN | Int(value: int)

  /** A string is truthy iff it is present and non-empty. */
  predicate Truthy(v: Option<string>) {
    v.Some? && v.value != ""
  }

  /** NaN and zero are the falsy numbers. */
  predicate TruthyNumber(n: Number) {
    n.Int? && n.value != 0
  }

  // ---------------------------------------------------------------------------
  // String.prototype.startsWith / includes
  // ---------------------------------------------------------------------------

  predicate StartsWith(s: string, prefix: string) {
    prefix <= s
  }

  /** `sub` occurs in `s` starting at offset `i`. */
  predicate OccursAt(s: string, sub: string, i: int) {
    0 <= i <= |s| - |sub| && s[i..i + |sub|] == sub
  }

  /** `s.includes(sub)`: `sub` occurs in `s` at some offset. */
  function Includes(s: string, sub: string): (b: bool)
    ensures b <==> exists i :: OccursAt(s, sub, i)
    decreases |s|
  {
    if sub <= s then
      assert OccursAt(s, sub, 0);
      true
    else if |s| == 0 then
      false
    else
      OccurrenceShift(s, sub);
      Includes(s[1..], sub)
  }

  /** When `sub` is not a prefix of a non-empty `s`, it occurs in `s` iff it occurs in
      `s[1..]`. */
  lemma OccurrenceShift(s: string, sub: string)
    requires |s| > 0 && !(sub <= s)
    ensures (exists i :: OccursAt(s, sub, i)) <==> (exists i :: OccursAt(s[1..], sub, i))
  {
    if exists i :: OccursAt(s, sub, i) {
      var i :| OccursAt(s, sub, i);
      assert i != 0;
      assert s[1..][i - 1..i - 1 + |sub|] == s[i..i + |sub|];
      assert OccursAt(s[1..], sub, i - 1);
    }
    if exists j :: OccursAt(s[1..], sub, j) {
      var j :| OccursAt(s[1..], sub, j);
      assert s[j + 1..j + 1 + |sub|] == s[1..][j..j + |sub|];
      assert OccursAt(s, sub, j + 1);
    }
  }

  /** Any string includes the empty string, and `x + y + z` includes `y`. */
  lemma {:induction false} IncludesInfix(x: string, y: string, z: string)
    ensures Includes(x + y + z, y)
    ensures Includes(x, "")
  {
    var s := x + y + z;
    assert s[|x|..|x| + |y|] == y;
    assert OccursAt(s, y, |x|);
    assert OccursAt(x, "", 0);
  }

  /** `a + b + c + d` includes both `b` and `d`. */
  lemma {:induction false} IncludesSecondAndFourth(a: string, b: string, c: string, d: string)
    ensures Includes(a + b + c + d, b)
    ensures Includes(a + b + c + d, d)
  {
    var s := a + b + c + d;
    assert s[|a|..|a| + |b|] == b;
    assert OccursAt(s, b, |a|);
    assert s[|s| - |d|..|s|] == d;
    assert OccursAt(s, d, |s| - |d|);
  }

  // ---------------------------------------------------------------------------
  // String.prototype.toLowerCase (ASCII letters)
  // ---------------------------------------------------------------------------

  function LowerChar(c: char): char {
    if 'A' <= c <= 'Z' then (c as int + 32) as char else c
  }

  function ToLowerCase(s: string): (r: string)
    ensures |r| == |s|
    ensures forall i :: 0 <= i < |s| ==> r[i] == LowerChar(s[i])
  {
    seq(|s|, i requires 0 <= i < |s| => LowerChar(s[i]))
  }

  /** Lower-casing twice is lower-casing once. */
  lemma ToLowerCaseIdempotent(s: string)
    ensures ToLowerCase(ToLowerCase(s)) == ToLowerCase(s)
  {
    assert forall i :: 0 <= i < |s| ==> LowerChar(LowerChar(s[i])) == LowerChar(s[i]);
  }

  // ---------------------------------------------------------------------------
  // Digits, parseInt and number-to-string
  // ---------------------------------------------------------------------------

  /** The value of `c` as a digit of radix up to 36, or -1. */
  function DigitValue(c: char): int {
    if '0' <= c <= '9' then c as int - '0' as int
    else if 'a' <= c <= 'z' then c as int - 'a' as int + 10
    else if 'A' <= c <= 'Z' then c as int - 'A' as int + 10
    else -1
  }

  predicate IsDigitIn(c: char, radix: int) {
    0 <= DigitValue(c) < radix
  }

  /** The characters `parseInt` skips first: white space and line terminators. */
  predicate IsWhiteSpace(c: char) {
    c == '\t' || c == '\n' || c == '\U{000B}' || c == '\U{000C}' || c == '\r' || c == ' '
    || c == '\U{00A0}' || c == '\U{1680}' || ('\U{2000}' <= c <= '\U{200A}')
    || c == '\U{2028}' || c == '\U{2029}' || c == '\U{202F}' || c == '\U{205F}'
    || c == '\U{3000}' || c == '\U{FEFF}'
  }

  function TrimStart(s: string): (r: string)
    ensures |r| <= |s| && r == s[|s| - |r|..]
    ensures r == [] || !IsWhiteSpace(r[0])
    ensures forall i :: 0 <= i < |s| - |r| ==> IsWhiteSpace(s[i])
  {
    if s != [] && IsWhiteSpace(s[0]) then TrimStart(s[1..]) else s
  }

  /** Length of the longest prefix of `s` made of radix-`radix` digits. */
  function DigitPrefixLength(s: string, radix: int): (n: nat)
    ensures n <= |s|
    ensures forall i :: 0 <= i < n ==> IsDigitIn(s[i], radix)
    ensures n == |s| || !IsDigitIn(s[n], radix)
  {
    if s != [] && IsDigitIn(s[0], radix) then 1 + DigitPrefixLength(s[1..], radix) else 0
  }

  /** The value of a digit string, most significant digit first. */
  function DigitsValue(s: string, radix: int): int {
    if s == [] then 0 else DigitsValue(s[..|s| - 1], radix) * radix + DigitValue(s[|s| - 1])
  }

  /**
   * `parseInt(s)` with no radix: skip leading white space, take one sign, a
   * `0x`/`0X` prefix switches to hexadecimal, then the longest run of digits;
   * no digits gives NaN. (`-0` is reported as `Int(0)`: both are falsy.)
   */
  function ParseInt(s: string): Number {
    ParseSigned(TrimStart(s))
  }

  /** `parseInt` after the white space: an optional sign, then an unsigned number. */
  function ParseSigned(t: string): Number {
    if |t| > 0 && t[0] == '-' then Negate(ParseUnsigned(t[1..]))
    else if |t| > 0 && t[0] == '+' then ParseUnsigned(t[1..])
    else ParseUnsigned(t)
  }

  function Negate(n: Number): Number {
    match n
    case NaN => NaN
    case Int(v) => Int(-v)
  }

  /** An optional `0x`/`0X` prefix, then the longest run of digits of that radix. */
  function ParseUnsigned(u: string): Number {
    var hex := |u| >= 2 && u[0] == '0' && (u[1] == 'x' || u[1] == 'X');
    var radix := if hex then 16 else 10;
    var v := if hex then u[2..] else u;
    var k := DigitPrefixLength(v, radix);
    if k == 0 then NaN else Int(DigitsValue(v[..k], radix))
  }

  function DecimalDigit(d: int): (c: char)
    requires 0 <= d < 10
    ensures '0' <= c <= '9' && DigitValue(c) == d
  {
    ('0' as int + d) as char
  }

  /** The decimal numeral of `n`, as template literals and `toString` write it. */
  function NatToString(n: nat): (s: string)
    ensures |s| >= 1
    ensures forall i :: 0 <= i < |s| ==> '0' <= s[i] <= '9'
    ensures s[0] == '0' ==> n == 0
  {
    if n < 10 then [DecimalDigit(n)] else NatToString(n / 10) + [DecimalDigit(n % 10)]
  }

  lemma {:induction false} DigitsValueOfNumeral(n: nat)
    ensures DigitsValue(NatToString(n), 10) == n
  {
    var s := NatToString(n);
    if n >= 10 {
      DigitsValueOfNumeral(n / 10);
      assert s[..|s| - 1] == NatToString(n / 10);
    }
  }

  lemma ParseUnsignedOfNumeral(n: nat)
    ensures ParseUnsigned(NatToString(n)) == Int(n)
  {
    var s := NatToString(n);
    assert |s| >= 2 ==> s[1] != 'x' && s[1] != 'X';
    DigitPrefixAll(s);
    assert s[..|s|] == s;
    DigitsValueOfNumeral(n);
  }

  /** `parseInt` reads back what `NatToString` writes. */
  lemma ParseIntOfNumeral(n: nat)
    ensures ParseInt(NatToString(n)) == Int(n)
  {
    var s := NatToString(n);
    assert !IsWhiteSpace(s[0]);
    ParseUnsignedOfNumeral(n);
  }

  /** A minus sign in front of a numeral negates it. */
  lemma ParseIntOfNegativeNumeral(n: nat)
    ensures ParseInt("-" + NatToString(n)) == Int(-(n as int))
  {
    var t := "-" + NatToString(n);
    assert !IsWhiteSpace(t[0]);
    assert t[1..] == NatToString(n);
    ParseUnsignedOfNumeral(n);
  }

  /** Text without any decimal digit parses to NaN. */
  lemma NoDigitsIsNaN(s: string)
    requires forall i :: 0 <= i < |s| ==> !('0' <= s[i] <= '9')
    ensures ParseInt(s) == NaN
  {
    var t := TrimStart(s);
    forall i | 0 <= i < |t|
      ensures !('0' <= t[i] <= '9')
    {
      assert t[i] == s[|s| - |t| + i];
    }
    UnsignedNoDigits(t);
    if |t| > 0 {
      assert forall i :: 0 <= i < |t[1..]| ==> t[1..][i] == t[i + 1];
      UnsignedNoDigits(t[1..]);
    }
  }

  lemma UnsignedNoDigits(u: string)
    requires forall i :: 0 <= i < |u| ==> !('0' <= u[i] <= '9')
    ensures ParseUnsigned(u) == NaN
  {
    if |u| > 0 {
      assert u[0] != '0' && !IsDigitIn(u[0], 10);
    }
  }

  lemma {:induction false} DigitPrefixAll(s: string)
    requires forall i :: 0 <= i < |s| ==> '0' <= s[i] <= '9'
    ensures DigitPrefixLength(s, 10) == |s|
  {
    if s != [] {
      DigitPrefixAll(s[1..]);
    }
  }

  // ---------------------------------------------------------------------------
  // Array.from({ length })
  // ---------------------------------------------------------------------------

  /** The largest length an array may have; `new Array(n)` beyond it throws a RangeError. */
  const MaxArrayLength: nat := 4294967295

  /** ToLength: NaN and negatives become 0. */
  function ToLength(n: Number): nat {
    match n
    case NaN => 0
    case Int(v) => if v < 0 then 0 else v
  }

  /** The length `Array.from({ length: n }, f)` builds, or None when it throws a RangeError. */
  function ArrayFromLength(n: Number): (r: Option<nat>)
    ensures r.Some? <==> ToLength(n) <= MaxArrayLength
    ensures r.Some? ==> r.value == ToLength(n)
  {
    var len := ToLength(n);
    if len <= MaxArrayLength then Some(len) else None
  }
}
