/**
 * The few JavaScript built-ins the grammar engine leans on: `parseInt`,
 * the 32-bit integer conversion behind `>>` and `&`, the ASCII case
 * mapping of `toLowerCase`, and `replace(/-/g, "_")`.  Numbers are
 * integers here, plus the NaN and Infinity the engine stores in its
 * repetition bounds.
 */
module Js {

  /** A JavaScript number, as far as this model needs one. */
  datatype Number = NaN | Int(v: int) | Infinity

  /** The white space `parseInt` skips before the digits. */
  predicate IsJsSpace(c: char) {
    c == ' ' || ('\t' <= c <= '\r') || c == '\U{00A0}' || c == '\U{FEFF}' || c == '\U{1680}'
    || ('\U{2000}' <= c <= '\U{200A}') || c == '\U{2028}' || c == '\U{2029}' || c == '\U{202F}'
    || c == '\U{205F}' || c == '\U{3000}'
  }

  /** The value of c as a digit in bases up to 36, or -1. */
  function DigitValue(c: char): (d: int)
    ensures -1 <= d < 36
  {
    if '0' <= c <= '9' then c as int - '0' as int
    else if 'a' <= c <= 'z' then c as int - 'a' as int + 10
    else if 'A' <= c <= 'Z' then c as int - 'A' as int + 10
    else -1
  }

  predicate IsDigitIn(c: char, radix: int) { 0 <= DigitValue(c) < radix }

  function TrimStart(s: string): (t: string)
    ensures |t| <= |s| && t == s[|s| - |t|..]
    ensures |t| > 0 ==> !IsJsSpace(t[0])
  {
    if |s| > 0 && IsJsSpace(s[0]) then TrimStart(s[1..]) else s
  }

  function TrimEnd(s: string): (t: string)
    ensures |t| <= |s| && t == s[..|t|]
    ensures |t| > 0 ==> !IsJsSpace(t[|t| - 1])
    ensures forall i | |t| <= i < |s| :: IsJsSpace(s[i])
  {
    if |s| > 0 && IsJsSpace(s[|s| - 1]) then TrimEnd(s[..|s| - 1]) else s
  }

  /** `String.prototype.trim`: white space and line terminators removed from both ends. */
  function Trim(s: string): (t: string)
    ensures |t| > 0 ==> !IsJsSpace(t[0]) && !IsJsSpace(t[|t| - 1])
  {
    TrimEnd(TrimStart(s))
  }

  /** Trimming keeps a run of s: only white space is cut, and nothing inside is touched. */
  lemma TrimIsInner(s: string)
    ensures exists i, j | 0 <= i <= j <= |s| ::
      Trim(s) == s[i..j] && (forall k | 0 <= k < i :: IsJsSpace(s[k])) && (forall k | j <= k < |s| :: IsJsSpace(s[k]))
  {
    var u := TrimStart(s);
    var i := |s| - |u|;
    TrimStartCuts(s);
    var j := i + |Trim(s)|;
    assert Trim(s) == u[..|Trim(s)|] == s[i..j];
    assert forall k | j <= k < |s| :: s[k] == u[k - i];
  }

  lemma {:induction false} TrimStartCuts(s: string)
    ensures forall k | 0 <= k < |s| - |TrimStart(s)| :: IsJsSpace(s[k])
  {
    if |s| > 0 && IsJsSpace(s[0]) {
      TrimStartCuts(s[1..]);
      assert forall k | 1 <= k < |s| - |TrimStart(s)| :: s[k] == s[1..][k - 1];
    }
  }

  /** The number of leading characters of s that are digits in the radix. */
  function DigitRun(s: string, radix: int): (n: nat)
    ensures n <= |s|
    ensures forall i | 0 <= i < n :: IsDigitIn(s[i], radix)
    ensures n < |s| ==> !IsDigitIn(s[n], radix)
  {
    if |s| > 0 && IsDigitIn(s[0], radix) then 1 + DigitRun(s[1..], radix) else 0
  }

  /** The value of a string of digits, most significant first. */
  function DigitsValue(s: string, radix: int): int
    requires forall i | 0 <= i < |s| :: IsDigitIn(s[i], radix)
  {
    if |s| == 0 then 0 else DigitsValue(s[..|s| - 1], radix) * radix + DigitValue(s[|s| - 1])
  }

  /**
   * `parseInt(s, radix)`, with 0 standing for an omitted radix: leading
   * white space and one sign are skipped, a `0x` prefix selects base 16
   * when the radix is omitted or 16, and the longest run of digits is read;
   * no digit at all gives NaN.
   */
  function ParseInt(s: string, radix: int): (r: Number)
    ensures r.NaN? || r.Int?
  {
    var t := TrimStart(s);
    var negative := |t| > 0 && t[0] == '-';
    var u := if |t| > 0 && (t[0] == '-' || t[0] == '+') then t[1..] else t;
    if radix != 0 && (radix < 2 || radix > 36) then NaN
    else
      var hexPrefix := (radix == 0 || radix == 16) && |u| >= 2 && u[0] == '0' && (u[1] == 'x' || u[1] == 'X');
      var base := if hexPrefix then 16 else if radix == 0 then 10 else radix;
      var w := if hexPrefix then u[2..] else u;
      var n := DigitRun(w, base);
      if n == 0 then NaN
      else
        var m := DigitsValue(w[..n], base);
        Int(if negative then -m else m)
  }

  /** The decimal numeral of n, as `String(n)` writes it. */
  function DecimalText(n: nat): (s: string)
    ensures |s| > 0 && forall i | 0 <= i < |s| :: '0' <= s[i] <= '9'
  {
    if n < 10 then [('0' as int + n) as char]
    else DecimalText(n / 10) + [('0' as int + n % 10) as char]
  }

  lemma {:induction false} DecimalTextValue(n: nat)
    ensures forall i | 0 <= i < |DecimalText(n)| :: IsDigitIn(DecimalText(n)[i], 10)
    ensures DigitsValue(DecimalText(n), 10) == n
  {
    var s := DecimalText(n);
    if n >= 10 {
      DecimalTextValue(n / 10);
      assert s[..|s| - 1] == DecimalText(n / 10);
    }
  }

  /**
   * `parseInt` reads back every decimal numeral, and stops at the first
   * character after it that is not a digit; without a radix, "0" followed
   * by an `x` is a hexadecimal prefix instead.
   */
  lemma ParseIntDecimal(n: nat, rest: string)
    requires |rest| > 0 ==> !('0' <= rest[0] <= '9')
    ensures ParseInt(DecimalText(n) + rest, 10) == Int(n)
    ensures !(n == 0 && |rest| > 0 && (rest[0] == 'x' || rest[0] == 'X')) ==> ParseInt(DecimalText(n) + rest, 0) == Int(n)
  {
    var d := DecimalText(n);
    var s := d + rest;
    DecimalTextValue(n);
    DigitRunOver(d, rest, 10);
    assert s[..|d|] == d;
    assert DigitsValue(s[..DigitRun(s, 10)], 10) == n;
    assert s[0] == d[0];
    ParseIntFromDigit(s, 10);
    if !(n == 0 && |rest| > 0 && (rest[0] == 'x' || rest[0] == 'X')) {
      assert !(|s| >= 2 && s[0] == '0' && (s[1] == 'x' || s[1] == 'X')) by {
        if n >= 10 {
          assert s[1] == d[1];
        } else if n > 0 {
          assert s[0] != '0';
        } else {
          assert |d| == 1;
          assert |s| >= 2 ==> s[1] == rest[0];
        }
      }
      ParseIntFromDigit(s, 0);
    }
  }

  /** A string that starts with a decimal digit and no hexadecimal prefix is read in base 10, or in the radix given. */
  lemma ParseIntFromDigit(s: string, radix: int)
    requires |s| > 0 && '0' <= s[0] <= '9'
    requires radix == 0 || radix == 10
    requires radix == 0 ==> !(|s| >= 2 && s[0] == '0' && (s[1] == 'x' || s[1] == 'X'))
    ensures ParseInt(s, radix) == Int(DigitsValue(s[..DigitRun(s, 10)], 10))
  {
    assert !IsJsSpace(s[0]);
    assert TrimStart(s) == s;
    var n := DigitRun(s, 10);
    assert n > 0;
    assert ParseInt(s, radix) == Int(DigitsValue(s[..n], 10));
  }

  lemma {:induction false} DigitRunOver(s: string, rest: string, radix: int)
    requires forall i | 0 <= i < |s| :: IsDigitIn(s[i], radix)
    requires |rest| > 0 ==> !IsDigitIn(rest[0], radix)
    ensures DigitRun(s + rest, radix) == |s|
  {
    if |s| > 0 {
      assert (s + rest)[1..] == s[1..] + rest;
      DigitRunOver(s[1..], rest, radix);
    } else {
      assert s + rest == rest;
    }
  }

  function Pow2(k: nat): (p: nat)
    ensures p >= 1
  {
    if k == 0 then 1 else 2 * Pow2(k - 1)
  }

  /** `ToInt32`: the number modulo 2^32, read as a two's-complement integer; NaN and Infinity give 0. */
  function ToInt32(x: Number): (w: int)
    ensures -0x8000_0000 <= w < 0x8000_0000
  {
    match x
    case Int(v) => (v + 0x8000_0000) % 0x1_0000_0000 - 0x8000_0000
    case _ => 0
  }

  /** `x >> k` on a 32-bit integer: the sign-propagating shift is division rounding down. */
  function Sar(x: int, k: nat): int {
    x / Pow2(k)
  }

  /** `x & (2^k - 1)`: the low k bits, which two's complement makes the non-negative remainder. */
  function LowBits(x: int, k: nat): (r: int)
    ensures 0 <= r < Pow2(k)
  {
    x % Pow2(k)
  }

  /** `a | a << 4` on a nibble, computed on the bits. */
  function NibbleTwice(a: int): int
    requires 0 <= a < 16
  {
    ((a as bv8) | ((a as bv8) << 4)) as int
  }

  lemma NibbleTwiceIsTimes17(a: int)
    requires 0 <= a < 16
    ensures NibbleTwice(a) == 17 * a
  {
    var x := a as bv8;
    assert x < 16;
    assert (x | (x << 4)) == x * 17;
  }

  function LowerChar(c: char): char {
    if 'A' <= c <= 'Z' then (c as int + 32) as char else c
  }

  /** `toLowerCase` on the ASCII letters. */
  function ToLower(s: string): (t: string)
    ensures |t| == |s| && forall i | 0 <= i < |s| :: t[i] == LowerChar(s[i])
  {
    if |s| == 0 then [] else [LowerChar(s[0])] + ToLower(s[1..])
  }

  /** `replace(/x/g, y)` for a single character x: exactly the x characters become y. */
  function Replace(s: string, from: char, to: char): (t: string)
    ensures |t| == |s|
    ensures forall i | 0 <= i < |s| :: t[i] == (if s[i] == from then to else s[i])
  {
    if |s| == 0 then [] else [if s[0] == from then to else s[0]] + Replace(s[1..], from, to)
  }

  /** `replace(/-/g, "_")`: a property name as the tables store it. */
  function Underscored(s: string): string {
    Replace(s, '-', '_')
  }

  /** `replace(/\_/g, "-")`: a stored name as CSS writes it. */
  function Hyphenated(s: string): string {
    Replace(s, '_', '-')
  }

  /** Writing a stored name back turns it into the name it was read as, when that name had no `_`. */
  lemma HyphenatedUndoes(s: string)
    requires '_' !in s
    ensures Hyphenated(Underscored(s)) == s
  {
    assert forall i | 0 <= i < |s| :: Hyphenated(Underscored(s))[i] == s[i];
  }

  /** And reading a written name gives the stored name, when that had no `-`. */
  lemma UnderscoredUndoes(s: string)
    requires '-' !in s
    ensures Underscored(Hyphenated(s)) == s
  {
    assert forall i | 0 <= i < |s| :: Underscored(Hyphenated(s))[i] == s[i];
  }

  lemma UnderscoredIdempotent(s: string)
    ensures Underscored(Underscored(s)) == Underscored(s)
    ensures '-' !in Underscored(s)
  {
  }
}
