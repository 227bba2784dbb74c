/**
 * The leaf value parsers the `types` table names: each reads tokens from a
 * lexer (and its peek lexer), and returns a value object and the advanced
 * lexer, or null, or throws.  Numeric amounts are kept as the token text
 * and the sign applied to it.
 */
module Leaves {
  import opened Wrappers
  import opened LexTables
  import opened LexSpec
  import opened LexerObject
  import opened LexerValue
  import opened Values
  import Js

  /** What a leaf parser returns: a value (Null for null) and the lexer, or an exception. */
  datatype LeafOut = LeafOut(v: Val, l: Lx) | LeafThrew

  /** A colour with integer channels, as the hex notation and the named-colour table give them. */
  datatype Rgba = Rgba(r: int, g: int, b: int, a: int)

  /** The leaf kinds; the ones this model does not parse itself are handed to an external parser by name. */
  datatype LeafKind = ColorType | LengthType | PercentageType | UrlType | NumberType | IdType | StringType | OtherType(name: string)

  /** A parser for the kinds this model leaves out (shapes, gradients, beziers, transforms, paths, font names, media features). */
  type ExternalParser = (string, string, Lx) -> LeafOut

  /** The `types` table: which leaf parser a `<name>` stands for. */
  function TypeOf(name: string): (k: Option<LeafKind>)
    ensures name in {"length", "time", "flex", "angle", "frequency", "resolution"} <==> k == Some(LengthType)
    ensures name in {"url", "uri"} <==> k == Some(UrlType)
    ensures name in {"number", "integer"} <==> k == Some(NumberType)
  {
    if name == "color" then Some(ColorType)
    else if name in {"length", "time", "flex", "angle", "frequency", "resolution"} then Some(LengthType)
    else if name == "percentage" then Some(PercentageType)
    else if name in {"url", "uri"} then Some(UrlType)
    else if name in {"number", "integer"} then Some(NumberType)
    else if name == "id" then Some(IdType)
    else if name == "string" then Some(StringType)
    else if name in {"shape", "cubic_bezier", "gradient", "transform2D", "path", "fontname",
                     "m_width", "m_min_width", "m_max_width", "m_height", "m_min_height", "m_max_height",
                     "m_device_width", "m_min_device_width", "m_max_device_width",
                     "m_device_height", "m_min_device_height", "m_max_device_height"} then Some(OtherType(name))
    else None
  }

  /** The measure by which a loop of `next` calls ends: one step settles a negative length, then Progress falls. */
  function Unsettled(l: Lx): nat { if l.c.tl < 0 then 1 else 0 }

  // ---------------------------------------------------------------- colour

  /** The hex-run loop of `_fs_`: advance until a white-space token, the end, or `;` (line breaks do not stop it). */
  function HexRun(str: string, pk: Lx): (r: Lx)
    decreases Unsettled(pk), Progress(pk.c)
  {
    if pk.c.typ == WhiteSpace || End(pk) || Ch(str, pk) == ';' as int then pk
    else
      NextAdvances(str, OwnCtx(None, pk.c), pk.c);
      HexRun(str, Advance(str, pk))
  }

  method ScanHexRun(str: string, pk0: Lx) returns (pk: Lx)
    ensures pk == HexRun(str, pk0)
  {
    pk := pk0;
    while !(pk.c.typ == WhiteSpace || End(pk) || Ch(str, pk) == ';' as int)
      invariant HexRun(str, pk) == HexRun(str, pk0)
      decreases Unsettled(pk), Progress(pk.c)
    {
      NextAdvances(str, OwnCtx(None, pk.c), pk.c);
      pk := Advance(str, pk);
    }
  }

  /**
   * The channels of `#` notation as the source computes them from the digit
   * count and `parseInt(value, 16)`: three or four digits are nibbles each
   * doubled, otherwise the low three bytes (after an alpha byte for eight
   * digits).  The four-digit alpha is read from the nibble above the blue
   * one, that is, from green.
   */
  function HexChannelsAsWritten(len: int, num: Js.Number): Rgba {
    var n := Js.ToInt32(num);
    if len == 3 || len == 4 then
      var a := if len == 4 then Js.NibbleTwice(Js.LowBits(Js.Sar(n, 8), 4)) else 1;
      var m := if len == 4 then Js.Sar(n, 4) else n;
      Rgba(Js.NibbleTwice(Js.LowBits(Js.Sar(m, 8), 4)), Js.NibbleTwice(Js.LowBits(Js.Sar(m, 4), 4)),
           Js.NibbleTwice(Js.LowBits(m, 4)), a)
    else
      var a := if len == 8 then Js.LowBits(n, 8) else 1;
      var m := if len == 8 then Js.Sar(n, 8) else n;
      Rgba(Js.LowBits(Js.Sar(m, 16), 8), Js.LowBits(Js.Sar(m, 8), 8), Js.LowBits(m, 8), a)
  }

  /** The channels with the four-digit alpha read from the last nibble, which is the model's `#` notation. */
  function HexChannels(len: int, num: Js.Number): (c: Rgba)
    ensures len != 4 ==> c == HexChannelsAsWritten(len, num)
  {
    var w := HexChannelsAsWritten(len, num);
    if len == 4 then w.(a := Js.NibbleTwice(Js.LowBits(Js.ToInt32(num), 4))) else w
  }

  function DigitAt(s: string, i: nat): int
    requires i < |s|
  {
    Js.DigitValue(s[i])
  }

  /** Two digits from `i` read as one byte. */
  function PairAt(s: string, i: nat): int
    requires i + 1 < |s|
  {
    16 * DigitAt(s, i) + DigitAt(s, i + 1)
  }

  predicate AllHex(s: string) { forall i | 0 <= i < |s| :: Js.IsDigitIn(s[i], 16) }

  lemma {:induction false} HexValue(s: string)
    requires AllHex(s) && |s| > 0
    ensures Js.ParseInt(s, 16) == Js.Int(Js.DigitsValue(s, 16))
  {
    assert !Js.IsJsSpace(s[0]);
    assert Js.TrimStart(s) == s;
    DigitRunAll(s);
    assert s[..|s|] == s;
  }

  lemma {:induction false} DigitRunAll(s: string)
    requires AllHex(s)
    ensures Js.DigitRun(s, 16) == |s|
  {
    if |s| > 0 {
      DigitRunAll(s[1..]);
    }
  }

  /** One more digit: the value of a prefix grows by a place. */
  lemma DigitsSnoc(s: string, k: nat)
    requires AllHex(s) && k < |s|
    ensures Js.DigitsValue(s[..k + 1], 16) == Js.DigitsValue(s[..k], 16) * 16 + DigitAt(s, k)
  {
    assert s[..k + 1][..k] == s[..k];
  }

  lemma DivModOf(hi: int, lo: int, b: int)
    requires b > 0 && 0 <= lo < b
    ensures (hi * b + lo) / b == hi && (hi * b + lo) % b == lo
  {
    var x := hi * b + lo;
    var q, r := x / b, x % b;
    assert q * b + r == x;
    assert (hi - q) * b == r - lo;
    if hi - q >= 1 {
      MulAtLeast(hi - q, b);
    } else if hi - q <= -1 {
      MulAtLeast(q - hi, b);
    }
  }

  lemma MulAtLeast(k: int, b: int)
    requires k >= 1 && b > 0
    ensures k * b >= b
  {
    assert k * b == (k - 1) * b + b;
  }

  lemma Pow2Facts()
    ensures Js.Pow2(4) == 16 && Js.Pow2(8) == 256 && Js.Pow2(16) == 65536
  {
    assert Js.Pow2(2) == 4;
    assert Js.Pow2(4) == 16;
    assert Js.Pow2(6) == 64;
    assert Js.Pow2(8) == 256;
    assert Js.Pow2(12) == 4096;
    assert Js.Pow2(16) == 65536;
  }

  /** The three nibbles of a twelve-bit number, as the shifts and masks of `_fs_` read them. */
  lemma Nibbles(d0: int, d1: int, d2: int)
    requires 0 <= d0 < 16 && 0 <= d1 < 16 && 0 <= d2 < 16
    ensures var m := (d0 * 16 + d1) * 16 + d2;
      Js.LowBits(Js.Sar(m, 8), 4) == d0 && Js.LowBits(Js.Sar(m, 4), 4) == d1 && Js.LowBits(m, 4) == d2
  {
    Pow2Facts();
    var m := (d0 * 16 + d1) * 16 + d2;
    DivModOf(d0, d1 * 16 + d2, 256);
    assert m == d0 * 256 + (d1 * 16 + d2);
    DivModOf(0, d0, 16);
    DivModOf(d0 * 16 + d1, d2, 16);
    DivModOf(d0, d1, 16);
  }

  /** The three bytes of a 24-bit number. */
  lemma Bytes(r: int, g: int, b: int)
    requires 0 <= r < 256 && 0 <= g < 256 && 0 <= b < 256
    ensures var m := (r * 256 + g) * 256 + b;
      Js.LowBits(Js.Sar(m, 16), 8) == r && Js.LowBits(Js.Sar(m, 8), 8) == g && Js.LowBits(m, 8) == b
  {
    Pow2Facts();
    var m := (r * 256 + g) * 256 + b;
    DivModOf(r, g * 256 + b, 65536);
    assert m == r * 65536 + (g * 256 + b);
    DivModOf(0, r, 256);
    DivModOf(r * 256 + g, b, 256);
    DivModOf(r, g, 256);
  }

  /** The value of a run of digits, place by place. */
  lemma DigitsOf(s: string)
    requires AllHex(s) && 3 <= |s| <= 6
    ensures |s| == 3 ==> Js.DigitsValue(s, 16) == (DigitAt(s, 0) * 16 + DigitAt(s, 1)) * 16 + DigitAt(s, 2)
    ensures |s| == 4 ==> Js.DigitsValue(s, 16) == ((DigitAt(s, 0) * 16 + DigitAt(s, 1)) * 16 + DigitAt(s, 2)) * 16 + DigitAt(s, 3)
    ensures |s| == 6 ==>
      Js.DigitsValue(s, 16) == (PairAt(s, 0) * 256 + PairAt(s, 2)) * 256 + PairAt(s, 4)
  {
    DigitsSnoc(s, 0);
    DigitsSnoc(s, 1);
    DigitsSnoc(s, 2);
    assert s[..0] == [];
    if |s| > 3 {
      DigitsSnoc(s, 3);
    }
    if |s| > 5 {
      DigitsSnoc(s, 4);
      DigitsSnoc(s, 5);
    }
    assert s[..|s|] == s;
  }

  lemma Channels3(d0: int, d1: int, d2: int)
    requires 0 <= d0 < 16 && 0 <= d1 < 16 && 0 <= d2 < 16
    ensures HexChannels(3, Js.Int((d0 * 16 + d1) * 16 + d2)) == Rgba(17 * d0, 17 * d1, 17 * d2, 1)
  {
    var v := (d0 * 16 + d1) * 16 + d2;
    assert 0 <= d0 * 16 + d1 < 256;
    assert 0 <= v < 4096;
    assert Js.ToInt32(Js.Int(v)) == v;
    Nibbles(d0, d1, d2);
    Js.NibbleTwiceIsTimes17(d0);
    Js.NibbleTwiceIsTimes17(d1);
    Js.NibbleTwiceIsTimes17(d2);
  }

  lemma Channels6(r: int, g: int, b: int, n: Js.Number)
    requires 0 <= r < 256 && 0 <= g < 256 && 0 <= b < 256
    requires n == Js.Int((r * 256 + g) * 256 + b)
    ensures HexChannels(6, n) == Rgba(r, g, b, 1)
  {
    var v := (r * 256 + g) * 256 + b;
    assert 0 <= r * 256 + g < 65536;
    assert 0 <= v < 0x100_0000;
    assert Js.ToInt32(Js.Int(v)) == v;
    Bytes(r, g, b);
  }

  /** The shifts of `_fs_` on a four-digit value: the top three digits, the second digit, and the last one. */
  lemma Split4(d0: int, d1: int, d2: int, d3: int)
    requires 0 <= d0 < 16 && 0 <= d1 < 16 && 0 <= d2 < 16 && 0 <= d3 < 16
    ensures var m := (d0 * 16 + d1) * 16 + d2; var v := m * 16 + d3;
      Js.ToInt32(Js.Int(v)) == v && Js.ToInt32(Js.Int(m)) == m && Js.Sar(v, 4) == m
      && Js.LowBits(v, 4) == d3 && Js.LowBits(Js.Sar(v, 8), 4) == d1
  {
    var m := (d0 * 16 + d1) * 16 + d2;
    var v := m * 16 + d3;
    assert 0 <= d0 * 16 + d1 < 256;
    assert 0 <= m < 4096;
    assert 0 <= v < 65536;
    Pow2Facts();
    DivModOf(m, d3, 16);
    DivModOf(d0 * 16 + d1, d2 * 16 + d3, 256);
    assert v == (d0 * 16 + d1) * 256 + (d2 * 16 + d3);
    DivModOf(d0, d1, 16);
  }

  lemma Channels4(d0: int, d1: int, d2: int, d3: int)
    requires 0 <= d0 < 16 && 0 <= d1 < 16 && 0 <= d2 < 16 && 0 <= d3 < 16
    ensures var v := ((d0 * 16 + d1) * 16 + d2) * 16 + d3;
      HexChannelsAsWritten(4, Js.Int(v)) == Rgba(17 * d0, 17 * d1, 17 * d2, 17 * d1)
      && HexChannels(4, Js.Int(v)) == Rgba(17 * d0, 17 * d1, 17 * d2, 17 * d3)
  {
    var m := (d0 * 16 + d1) * 16 + d2;
    Split4(d0, d1, d2, d3);
    var v := m * 16 + d3;
    Channels3(d0, d1, d2);
    var t := HexChannelsAsWritten(3, Js.Int(m));
    assert t == Rgba(17 * d0, 17 * d1, 17 * d2, 1);
    var w := HexChannelsAsWritten(4, Js.Int(v));
    assert w.r == t.r && w.g == t.g && w.b == t.b;
    Js.NibbleTwiceIsTimes17(d1);
    assert w.a == 17 * d1;
    Js.NibbleTwiceIsTimes17(d3);
    assert HexChannels(4, Js.Int(v)).a == 17 * d3;
  }

  lemma Channels3Of(d0: int, d1: int, d2: int, n: Js.Number)
    requires 0 <= d0 < 16 && 0 <= d1 < 16 && 0 <= d2 < 16
    requires n == Js.Int((d0 * 16 + d1) * 16 + d2)
    ensures HexChannels(3, n) == Rgba(17 * d0, 17 * d1, 17 * d2, 1)
  {
    Channels3(d0, d1, d2);
  }

  lemma Channels4Of(d0: int, d1: int, d2: int, d3: int, n: Js.Number)
    requires 0 <= d0 < 16 && 0 <= d1 < 16 && 0 <= d2 < 16 && 0 <= d3 < 16
    requires n == Js.Int(((d0 * 16 + d1) * 16 + d2) * 16 + d3)
    ensures HexChannelsAsWritten(4, n) == Rgba(17 * d0, 17 * d1, 17 * d2, 17 * d1)
    ensures HexChannels(4, n) == Rgba(17 * d0, 17 * d1, 17 * d2, 17 * d3)
  {
    Channels4(d0, d1, d2, d3);
  }

  /** The number `parseInt` reads from three hex digits. */
  lemma ThreeDigitValue(s: string)
    requires |s| == 3 && AllHex(s)
    ensures Js.ParseInt(s, 16) == Js.Int((DigitAt(s, 0) * 16 + DigitAt(s, 1)) * 16 + DigitAt(s, 2))
  {
    DigitsOf(s);
    HexValue(s);
  }

  /** `#rgb`: every channel is its digit doubled into a byte, that is, times 17; alpha stays 1. */
  lemma ThreeDigitHex(s: string)
    requires |s| == 3 && AllHex(s)
    ensures HexChannels(3, Js.ParseInt(s, 16)) == Rgba(17 * DigitAt(s, 0), 17 * DigitAt(s, 1), 17 * DigitAt(s, 2), 1)
  {
    assert Js.IsDigitIn(s[0], 16) && Js.IsDigitIn(s[1], 16) && Js.IsDigitIn(s[2], 16);
    ThreeDigitValue(s);
    Channels3Of(DigitAt(s, 0), DigitAt(s, 1), DigitAt(s, 2), Js.ParseInt(s, 16));
  }

  /** Two digits read as one byte. */
  lemma PairByte(s: string, i: nat)
    requires AllHex(s) && i + 1 < |s|
    ensures 0 <= PairAt(s, i) < 256
  {
    assert Js.IsDigitIn(s[i], 16) && Js.IsDigitIn(s[i + 1], 16);
  }

  /** The number `parseInt` reads from six hex digits, byte by byte. */
  lemma SixDigitValue(s: string)
    requires |s| == 6 && AllHex(s)
    ensures Js.ParseInt(s, 16)
      == Js.Int((PairAt(s, 0) * 256 + PairAt(s, 2)) * 256 + PairAt(s, 4))
    ensures 0 <= PairAt(s, 0) < 256 && 0 <= PairAt(s, 2) < 256 && 0 <= PairAt(s, 4) < 256
  {
    PairByte(s, 0);
    PairByte(s, 2);
    PairByte(s, 4);
    DigitsOf(s);
    HexValue(s);
  }

  /** `#rrggbb`: each channel is its pair of digits. */
  lemma SixDigitHex(s: string)
    requires |s| == 6 && AllHex(s)
    ensures HexChannels(6, Js.ParseInt(s, 16))
      == Rgba(PairAt(s, 0), PairAt(s, 2), PairAt(s, 4), 1)
  {
    SixDigitValue(s);
    Channels6(PairAt(s, 0), PairAt(s, 2), PairAt(s, 4), Js.ParseInt(s, 16));
  }

  /** The number `parseInt` reads from four hex digits. */
  lemma FourDigitValue(s: string)
    requires |s| == 4 && AllHex(s)
    ensures Js.ParseInt(s, 16) == Js.Int(((DigitAt(s, 0) * 16 + DigitAt(s, 1)) * 16 + DigitAt(s, 2)) * 16 + DigitAt(s, 3))
  {
    DigitsOf(s);
    HexValue(s);
  }

  /**
   * `#rgba` as written takes its alpha from the green digit: "#f00a" gets
   * alpha 0 where the last digit asks for 0xaa.  The corrected channels
   * agree on red, green and blue and take the alpha from the last digit.
   */
  lemma FourDigitHexAlpha(s: string)
    requires |s| == 4 && AllHex(s)
    ensures HexChannelsAsWritten(4, Js.ParseInt(s, 16)) == Rgba(17 * DigitAt(s, 0), 17 * DigitAt(s, 1), 17 * DigitAt(s, 2), 17 * DigitAt(s, 1))
    ensures HexChannels(4, Js.ParseInt(s, 16)) == Rgba(17 * DigitAt(s, 0), 17 * DigitAt(s, 1), 17 * DigitAt(s, 2), 17 * DigitAt(s, 3))
  {
    assert Js.IsDigitIn(s[0], 16) && Js.IsDigitIn(s[1], 16) && Js.IsDigitIn(s[2], 16) && Js.IsDigitIn(s[3], 16);
    FourDigitValue(s);
    Channels4Of(DigitAt(s, 0), DigitAt(s, 1), DigitAt(s, 2), DigitAt(s, 3), Js.ParseInt(s, 16));
  }

  function Exact(n: int): Channel { Channel.Exact(Js.Int(n)) }

  function RgbaLeaf(c: Rgba): Val {
    Leaf(ColorLeaf(Exact(c.r), Exact(c.g), Exact(c.b), Exact(c.a)))
  }

  /**
   * The `#` branch of `_fs_` with its white-space handling as written: the
   * digits up to white space, `;` or the end, read in base 16.  The scan
   * runs on a copy that does not ignore white space, and syncing with it
   * copies that flag back, so the lexer returned no longer ignores white
   * space.  The channels are the corrected HexChannels, not
   * HexChannelsAsWritten: only the white-space half is as written.
   */
  function HexColorAsWritten(str: string, l: Lx): (r: LeafOut)
  {
    var l1 := Advance(str, l);
    var pk := HexRun(str, Copy(l1).(c := l1.c.(iws := false)));
    var value := SliceFrom(str, pk, l1.c.off);
    var l2 := Sync(l1, pk);
    var l3 := Advance(str, l2.(c := l2.c.(tl := 0)));
    LeafOut(RgbaLeaf(HexChannels(|value|, Js.ParseInt(value, 16))), Advance(str, l3))
  }

  /** The `#` branch with the white-space flag given back once the colour has been read, which is the model's. */
  function HexColor(str: string, l: Lx): (r: LeafOut)
  {
    var w := HexColorAsWritten(str, l);
    w.(l := w.l.(c := w.l.c.(iws := l.c.iws)))
  }

  /** The hex scan keeps the flags of the lexer it runs on. */
  lemma {:induction false} HexRunKeepsFlags(str: string, pk: Lx)
    ensures HexRun(str, pk).c.iws == pk.c.iws
    decreases Unsettled(pk), Progress(pk.c)
  {
    if !(pk.c.typ == WhiteSpace || End(pk) || Ch(str, pk) == ';' as int) {
      NextAdvances(str, OwnCtx(None, pk.c), pk.c);
      HexRunKeepsFlags(str, Advance(str, pk));
    }
  }

  /**
   * After a `#` colour the lexer as written has stopped ignoring white
   * space, whatever it did before.
   */
  lemma HexColorWhiteSpace(str: string, l: Lx)
    ensures HexColorAsWritten(str, l).l.c.iws == false
  {
    HexColorKeepsWhiteSpace(str, l);
  }

  /**
   * The corrected `#` branch reads the same colour as the code as written,
   * ends on the same token and keeps the caller's white-space setting.
   */
  lemma HexColorKeepsWhiteSpace(str: string, l: Lx)
    ensures HexColor(str, l).l.c.iws == l.c.iws
    ensures HexColor(str, l).v == HexColorAsWritten(str, l).v
    ensures HexColor(str, l).l.c.(iws := false) == HexColorAsWritten(str, l).l.c
  {
    var l1 := Advance(str, l);
    var pk0 := Copy(l1).(c := l1.c.(iws := false));
    HexRunKeepsFlags(str, pk0);
    var pk := HexRun(str, pk0);
    var l2 := Sync(l1, pk);
    assert l2.c.iws == false;
    var l2z := l2.(c := l2.c.(tl := 0));
    NextAdvances(str, OwnCtx(None, l2z.c), l2z.c);
    var l3 := Advance(str, l2z);
    NextAdvances(str, OwnCtx(None, l3.c), l3.c);
  }

  /** A channel of `rgb()`: an integer token, scaled when a `%` follows. */
  function RgbChannel(str: string, l: Lx): (Channel, Lx) {
    var l1 := Advance(str, l);
    var n := Js.ParseInt(Tx(str, l1), 0);
    var l2 := Advance(str, l1);
    if Ch(str, l2) == '%' as int then (PercentOf(n), Advance(str, l2)) else (Channel.Exact(n), l2)
  }

  /** The `rgb(` / `rgba(` branch: three integer channels, for `rgba` a float alpha, then `)`. */
  function RgbColor(str: string, l: Lx, withAlpha: bool): (r: LeafOut) {
    var l0 := Advance(str, l);
    var (r, l1) := RgbChannel(str, l0);
    var (g, l2) := RgbChannel(str, l1);
    var (b, l3) := RgbChannel(str, l2);
    var (a, l4) :=
      if withAlpha then
        var la := Advance(str, l3);
        var lb := Advance(str, la);
        if Ch(str, lb) == '%' as int then (FloatPercentOf(Tx(str, la)), Advance(str, lb)) else (FloatText(Tx(str, la)), lb)
      else (Channel.Exact(Js.Int(1)), l3);
    match Expect(str, l4, ")")
    case None => LeafThrew
    case Some(l5) => LeafOut(Leaf(ColorLeaf(r, g, b, a)), l5)
  }

  /** `CSS_Color.parse`: `#` digits, `rgb(`/`rgba(`, or a name (quoted or not) from the colour table. */
  function ColorParse(str: string, names: map<string, Rgba>, l: Lx): (r: LeafOut)
    ensures r.LeafOut? && r.v == Null ==> r.l == l
  {
    var tx := Tx(str, l);
    if Ch(str, l) == '#' as int then HexColor(str, l)
    else if Ch(str, l) == 'r' as int && (tx == "rgba" || tx == "rgb") then RgbColor(str, l, tx == "rgba")
    else
      var name := if l.c.typ == Str then JsSlice(tx, 1, -1) else tx;
      var key := Js.ToLower(name);
      if key in names then LeafOut(RgbaLeaf(names[key]), Advance(str, l)) else LeafOut(Null, l)
  }

  // ---------------------------------------------------------------- numbers

  /** The units the CSS_Length constructor has a class for. */
  const LengthUnits: set<string> :=
    {"px", "mm", "cm", "in", "pc", "pt", "ch", "em", "ex", "rem", "vh", "vw", "vmin", "vmax", "deg"}

  /**
   * The unit dispatch of the CSS_Length constructor: the units it has a
   * class for keep their name, `%` makes a percentage, and any other unit
   * makes a plain length whose `unit` getter says "".
   */
  function LengthOfAsWritten(amount: Amount, unit: string): (v: LeafVal)
  {
    if unit in LengthUnits then LengthLeaf(amount, unit)
    else if unit == "%" then PercentageLeaf(amount)
    else LengthLeaf(amount, "")
  }

  /**
   * The constructor with the time units `s` and `ms` kept as well, which is
   * the model's length: a listed or time unit keeps its name, `%` makes a
   * percentage, and any other unit is dropped.
   */
  function LengthOf(amount: Amount, unit: string): (v: LeafVal)
    ensures unit == "%" ==> v == PercentageLeaf(amount)
    ensures unit != "%" ==> v.LengthLeaf? && v.amount == amount
    ensures unit != "%" ==> (v.unit == unit <==> unit in LengthUnits || unit in {"s", "ms"} || unit == "")
    ensures unit != "%" && !(unit in LengthUnits || unit in {"s", "ms"}) ==> v.unit == ""
    ensures unit !in {"s", "ms"} ==> v == LengthOfAsWritten(amount, unit)
  {
    if unit in {"s", "ms"} then LengthLeaf(amount, unit) else LengthOfAsWritten(amount, unit)
  }

  /** The factor the `milliseconds` getter applies: seconds are scaled to milliseconds, anything else is taken as is. */
  function MillisecondsFactor(v: LeafVal): int
    requires v.LengthLeaf?
  {
    if v.unit == "s" then 1000 else 1
  }

  /**
   * Time lengths lose their unit as written: "1s" and "1ms" make the same
   * value, and the seconds case of `milliseconds` never applies.  With the
   * unit kept they differ and seconds scale by 1000.
   */
  lemma TimeUnitsDropped(amount: Amount)
    ensures LengthOfAsWritten(amount, "s") == LengthOfAsWritten(amount, "ms")
    ensures MillisecondsFactor(LengthOfAsWritten(amount, "s")) == 1
    ensures LengthOf(amount, "s") != LengthOf(amount, "ms")
    ensures MillisecondsFactor(LengthOf(amount, "s")) == 1000
  {
    assert "s" !in LengthUnits;
    assert "ms" !in LengthUnits;
  }

  /**
   * The sign handling CSS_Length and CSS_Percentage share: a number token,
   * or a `-` whose peeked token is a number (the peek lexer is then moved past
   * it).  Returns the amount and the lexer whose peek lexer sits on the token
   * after the number; None when the token is not a number.
   */
  function SignedAmount(str: string, l: Lx): (r: Option<(Amount, Lx)>)
    ensures r.Some? ==> r.value.1.c == l.c && r.value.1.p.Some?
  {
    var tx := Tx(str, l);
    var l1 := Peek(str, l);
    var pky := l1.p.value.c.typ;
    if l.c.typ == Num || (tx == "-" && pky == Num) then
      if Ch(str, l) == '-' as int then
        Some((Amount(Tx(str, l1.p.value), true), l1.(p := Some(Advance(str, l1.p.value)))))
      else Some((Amount(tx, false), l1))
    else None
  }

  /** `CSS_Length.parse`: an amount directly followed by an identifier, which is its unit. */
  function LengthParse(str: string, l: Lx): (r: LeafOut)
    ensures r.LeafOut?
    ensures r.v == Null ==> r.l.c == l.c
    ensures r.LeafOut? && r.v != Null ==> r.v.Leaf? && (r.v.leaf.LengthLeaf? || r.v.leaf.PercentageLeaf?)
  {
    match SignedAmount(str, l)
    case None => LeafOut(Null, Peek(str, l))
    case Some((amount, l1)) =>
      if l1.p.value.c.typ == Ident then
        var l2 := SyncPeek(l1);
        LeafOut(Leaf(LengthOf(amount, Tx(str, l2))), Advance(str, l2))
      else LeafOut(Null, l1)
  }

  /** `CSS_Percentage.parse`: an amount directly followed by `%`. */
  function PercentageParse(str: string, l: Lx): (r: LeafOut)
    ensures r.LeafOut?
    ensures r.v == Null ==> r.l.c == l.c
    ensures r.LeafOut? && r.v != Null ==> r.v.Leaf? && r.v.leaf.PercentageLeaf?
  {
    match SignedAmount(str, l)
    case None => LeafOut(Null, Peek(str, l))
    case Some((amount, l1)) =>
      if Ch(str, l1.p.value) == '%' as int then LeafOut(Leaf(PercentageLeaf(amount)), Advance(str, SyncPeek(l1)))
      else LeafOut(Null, l1)
  }

  /** `CSS_Number.parse`: a number token, negated when a `-` precedes it. */
  function NumberParse(str: string, l: Lx): (r: LeafOut)
    ensures r.LeafOut?
    ensures r.v == Null ==> r.l.c == l.c
    ensures r.LeafOut? && r.v != Null ==> r.v.Leaf? && r.v.leaf.NumberLeaf?
  {
    var negated := Ch(str, l) == '-' as int && Peek(str, l).p.value.c.typ == Num;
    var l1 := if Ch(str, l) == '-' as int then (if negated then SyncPeek(Peek(str, l)) else Peek(str, l)) else l;
    if l1.c.typ == Num then LeafOut(Leaf(NumberLeaf(Amount(Tx(str, l1), negated))), Advance(str, l1))
    else LeafOut(Null, l1)
  }

  /** `CSS_Id.parse`. */
  function IdParse(str: string, l: Lx): (r: LeafOut)
    ensures r.LeafOut?
    ensures r.v != Null <==> l.c.typ == Ident
    ensures l.c.typ == Ident ==> r == LeafOut(Leaf(IdLeaf(Tx(str, l))), Advance(str, l))
    ensures l.c.typ != Ident ==> r.l == l
  {
    if l.c.typ == Ident then LeafOut(Leaf(IdLeaf(Tx(str, l))), Advance(str, l)) else LeafOut(Null, l)
  }

  /**
   * The CSS_String constructor as written: a leading double or single quote
   * and the last character are dropped.  Its test names the single quote
   * twice and never the backtick, which the lexer also reads as a string
   * delimiter.
   */
  function UnquotedAsWritten(s: string): (t: string)
    ensures |s| >= 2 && (s[0] == '"' || s[0] == '\'') ==> t == s[1..|s| - 1]
    ensures |s| == 0 || (s[0] != '"' && s[0] != '\'') ==> t == s
  {
    if |s| > 0 && (s[0] == '"' || s[0] == '\'' || s[0] == '\'') then JsSlice(s, 1, -1) else s
  }

  /** The constructor with every string delimiter of the lexer stripped, which is the model's. */
  function Unquoted(s: string): (t: string)
    ensures |s| >= 2 && IsQuote(s[0] as int) ==> t == s[1..|s| - 1]
    ensures |s| == 0 || !IsQuote(s[0] as int) ==> t == s
  {
    if |s| > 0 && IsQuote(s[0] as int) then JsSlice(s, 1, -1) else s
  }

  /** A backtick string keeps its backticks as written, and loses them once corrected. */
  lemma BacktickString()
    ensures UnquotedAsWritten("`a`") == "`a`"
    ensures Unquoted("`a`") == "a"
  {
    assert "`a`"[1..2] == "a";
  }

  /** `CSS_String.parse`. */
  function StringParse(str: string, l: Lx): (r: LeafOut)
    ensures r.LeafOut?
    ensures r.v != Null <==> l.c.typ == Str
    ensures l.c.typ != Str ==> r.l == l
  {
    if l.c.typ == Str then LeafOut(Leaf(StringLeaf(Unquoted(Tx(str, l)))), Advance(str, l)) else LeafOut(Null, l)
  }

  /** The loop of `CSS_URL.parse` over the peek lexer: advance until a `)` token or the end. */
  function UrlScan(str: string, p: Lx): (r: Lx)
    decreases Unsettled(p), Progress(p.c)
    ensures End(r) || Tx(str, r) == ")"
  {
    if End(p) then p
    else
      NextAdvances(str, OwnCtx(None, p.c), p.c);
      var q := Advance(str, p);
      if Tx(str, q) != ")" then UrlScan(str, q) else q
  }

  method ScanUrl(str: string, p0: Lx) returns (p: Lx)
    ensures p == UrlScan(str, p0)
  {
    p := p0;
    while !End(p)
      invariant UrlScan(str, p) == UrlScan(str, p0)
      decreases Unsettled(p), Progress(p.c)
    {
      NextAdvances(str, OwnCtx(None, p.c), p.c);
      var q := Advance(str, p);
      if Tx(str, q) == ")" {
        return q;
      }
      p := q;
    }
  }

  /**
   * Where a bare address ends, scanned from the peek lexer p, which stands
   * one token past the address's first token.  As written the loop
   * advances p before its first test, so a one-token address is scanned
   * past its own `)`; corrected, the token p already holds is tested first.
   */
  function AddressEnd(str: string, p: Lx, testFirst: bool): (r: Lx)
    ensures End(r) || Tx(str, r) == ")"
    ensures !testFirst || Tx(str, p) != ")" ==> r == UrlScan(str, p)
  {
    if testFirst && Tx(str, p) == ")" then p else UrlScan(str, p)
  }

  /**
   * `CSS_URL.parse`: `url(` or `uri(` with a quoted or bare address and
   * `)`, or a quoted string; `testFirst` chooses the corrected end of a
   * bare address.
   */
  function UrlParseWith(str: string, l: Lx, testFirst: bool): (r: LeafOut)
    ensures r.LeafOut? && r.v == Null ==> r.l == l
    ensures Tx(str, l) == "url" || Tx(str, l) == "uri" || l.c.typ == Str <==> r == LeafThrew || (r.v.Leaf? && r.v.leaf.UrlLeaf?)
    ensures l.c.typ == Str && Tx(str, l) != "url" && Tx(str, l) != "uri" ==>
      r == LeafOut(Leaf(UrlLeaf(JsSlice(Tx(str, l), 1, -1))), Advance(str, l))
  {
    var tx := Tx(str, l);
    if tx == "url" || tx == "uri" then
      match Expect(str, Advance(str, l), "(")
      case None => LeafThrew
      case Some(l1) =>
        if l1.c.typ == Str then
          var v := JsSlice(Tx(str, l1), 1, -1);
          match Expect(str, Advance(str, l1), ")")
          case None => LeafThrew
          case Some(l2) => LeafOut(Leaf(UrlLeaf(v)), l2)
        else
          var l2 := Peek(str, l1);
          var p := AddressEnd(str, l2.p.value, testFirst);
          var v := SliceFrom(str, p, l1.c.off);
          match Expect(str, Sync(l2.(p := Some(p)), p), ")")
          case None => LeafThrew
          case Some(l3) => LeafOut(Leaf(UrlLeaf(v)), l3)
    else if l.c.typ == Str then
      LeafOut(Leaf(UrlLeaf(JsSlice(tx, 1, -1))), Advance(str, l))
    else LeafOut(Null, l)
  }

  /** `CSS_URL.parse` as written. */
  function UrlParseAsWritten(str: string, l: Lx): (r: LeafOut)
    ensures r.LeafOut? && r.v == Null ==> r.l == l
  {
    UrlParseWith(str, l, false)
  }

  /** `CSS_URL.parse` with a one-token bare address read up to its own `)`, which is the model's. */
  function UrlParse(str: string, l: Lx): (r: LeafOut)
    ensures r.LeafOut? && r.v == Null ==> r.l == l
    ensures Tx(str, l) == "url" || Tx(str, l) == "uri" || l.c.typ == Str <==> r == LeafThrew || (r.v.Leaf? && r.v.leaf.UrlLeaf?)
    ensures l.c.typ == Str && Tx(str, l) != "url" && Tx(str, l) != "uri" ==>
      r == LeafOut(Leaf(UrlLeaf(JsSlice(Tx(str, l), 1, -1))), Advance(str, l))
  {
    UrlParseWith(str, l, true)
  }

  // ---------------------------------------------------------------- `url(` on small inputs

  /** A lexer at the `url` token that starts str, reading the whole of str with white space ignored. */
  function UrlStart(str: string): Lx {
    Lx(Cursor(0, 3, Ident, 0, 0, |str|, true, false, false), None)
  }

  /** The cursor of the token at off of length tl in str, on one line with white space ignored. */
  function TokenCursor(str: string, off: int, tl: int, typ: TokenType): Cursor {
    Cursor(off, tl, typ, 0, off, |str|, true, false, false)
  }

  /**
   * One `next` that meets no blank: from the token at c, the token of type
   * typ and length tl that TokenAt reads right after it.
   */
  lemma StepTo(str: string, c: Cursor, typ: TokenType, tl: int)
    requires c.iws && !c.parseString && !c.charsOnly && c.sl == |str| && c.line == 0 && c.col == c.off
    requires c.tl >= 0 && 1 <= c.sl && c.off + c.tl < c.sl && !IsBlankClass(CodeAt(str, c.off + c.tl))
    requires TokenAt(str, OwnCtx(None, c), None, c, c.sl, c.off + c.tl, c.col + c.tl, 0)
      == Scanned(typ, c.off + c.tl, tl, c.col + c.tl, 0, c.sl)
    ensures Next(str, OwnCtx(None, c), None, c) == TokenCursor(str, c.off + c.tl, tl, typ)
  {
    var ctx := OwnCtx(None, c);
    assert LexSpec.Scan(str, ctx, None, c, c.sl, c.off + c.tl, c.col + c.tl, 0)
      == Scanned(typ, c.off + c.tl, tl, c.col + c.tl, 0, c.sl);
    assert NextInBound(str, ctx, None, c) == Finish(ctx, c, Scanned(typ, c.off + c.tl, tl, c.col + c.tl, 0, c.sl));
  }

  /** The `next` from the last token, which ends on the end of str. */
  lemma StepToEnd(str: string, c: Cursor)
    requires c.iws && !c.parseString && !c.charsOnly && c.sl == |str| && c.line == 0 && c.col == c.off
    requires c.tl >= 0 && 1 <= c.sl && c.off + c.tl == c.sl
    ensures Next(str, OwnCtx(None, c), None, c) == TokenCursor(str, |str|, 0, Symbol)
  {
  }

  /** `url("x")`: the quoted address without its quotes, and the lexer at the end. */
  lemma QuotedUrl()
    ensures UrlParse("url(\"x\")", UrlStart("url(\"x\")")) == LeafOut(Leaf(UrlLeaf("x")), Lx(TokenCursor("url(\"x\")", 8, 0, Symbol), None))
    ensures UrlParseAsWritten("url(\"x\")", UrlStart("url(\"x\")")) == UrlParse("url(\"x\")", UrlStart("url(\"x\")"))
  {
    var str := "url(\"x\")";
    var c0 := UrlStart(str).c;
    var c1 := TokenCursor(str, 3, 1, OpenBracket);
    var c2 := TokenCursor(str, 4, 3, Str);
    var c3 := TokenCursor(str, 7, 1, CloseBracket);
    assert TokenAt(str, OwnCtx(None, c0), None, c0, 8, 3, 3, 0) == Scanned(OpenBracket, 3, 1, 3, 0, 8);
    StepTo(str, c0, OpenBracket, 1);
    assert RunEnd(str, 8, 6, UntilCode('"' as int)) == 6;
    assert RunEnd(str, 8, 5, UntilCode('"' as int)) == 6;
    assert TokenAt(str, OwnCtx(None, c1), None, c1, 8, 4, 4, 0) == Scanned(Str, 4, 3, 4, 0, 8);
    StepTo(str, c1, Str, 3);
    assert TokenAt(str, OwnCtx(None, c2), None, c2, 8, 7, 7, 0) == Scanned(CloseBracket, 7, 1, 7, 0, 8);
    StepTo(str, c2, CloseBracket, 1);
    StepToEnd(str, c3);
    assert Tx(str, Lx(c0, None)) == "url";
    assert Tx(str, Lx(c1, None)) == "(";
    assert Tx(str, Lx(c2, None)) == "\"x\"";
    assert Tx(str, Lx(c3, None)) == ")";
    assert JsSlice("\"x\"", 1, -1) == "x";
  }

  /** `url(a.b)`: a bare address of three tokens is read up to the `)`, as written and corrected. */
  lemma BareUrl()
    ensures UrlParse("url(a.b)", UrlStart("url(a.b)")).LeafOut?
    ensures UrlParse("url(a.b)", UrlStart("url(a.b)")).v == Leaf(UrlLeaf("a.b"))
    ensures End(UrlParse("url(a.b)", UrlStart("url(a.b)")).l)
    ensures UrlParseAsWritten("url(a.b)", UrlStart("url(a.b)")) == UrlParse("url(a.b)", UrlStart("url(a.b)"))
  {
    var str := "url(a.b)";
    var c0 := UrlStart(str).c;
    var c1 := TokenCursor(str, 3, 1, OpenBracket);
    var c2 := TokenCursor(str, 4, 1, Ident);
    var c3 := TokenCursor(str, 5, 1, Symbol);
    var c4 := TokenCursor(str, 6, 1, Ident);
    var c5 := TokenCursor(str, 7, 1, CloseBracket);
    assert TokenAt(str, OwnCtx(None, c0), None, c0, 8, 3, 3, 0) == Scanned(OpenBracket, 3, 1, 3, 0, 8);
    StepTo(str, c0, OpenBracket, 1);
    assert RunEnd(str, 8, 5, IdentChars) == 5;
    assert TokenAt(str, OwnCtx(None, c1), None, c1, 8, 4, 4, 0) == Scanned(Ident, 4, 1, 4, 0, 8);
    StepTo(str, c1, Ident, 1);
    assert TokenAt(str, OwnCtx(None, c2), None, c2, 8, 5, 5, 0) == Scanned(Symbol, 5, 1, 5, 0, 8);
    StepTo(str, c2, Symbol, 1);
    assert RunEnd(str, 8, 7, IdentChars) == 7;
    assert TokenAt(str, OwnCtx(None, c3), None, c3, 8, 6, 6, 0) == Scanned(Ident, 6, 1, 6, 0, 8);
    StepTo(str, c3, Ident, 1);
    assert TokenAt(str, OwnCtx(None, c4), None, c4, 8, 7, 7, 0) == Scanned(CloseBracket, 7, 1, 7, 0, 8);
    StepTo(str, c4, CloseBracket, 1);
    StepToEnd(str, c5);
    assert Tx(str, Lx(c0, None)) == "url";
    assert Tx(str, Lx(c1, None)) == "(";
    assert Tx(str, Lx(c3, None)) == ".";
    assert Tx(str, Lx(c4, None)) == "b";
    assert Tx(str, Lx(c5, None)) == ")";
    assert PeekNext(str, c2, 8) == c3;
    assert UrlScan(str, Lx(c4, None)) == Lx(c5, None);
    assert UrlScan(str, Lx(c3, None)) == Lx(c5, None);
    assert JsSlice(str, 4, 7) == "a.b";
  }

  /**
   * `url(a)` as written: the scan starts one token late, passes the
   * address's own `)`, and `a(")")` finds the end instead.
   */
  lemma OneTokenUrlThrows()
    ensures UrlParseAsWritten("url(a)", UrlStart("url(a)")) == LeafThrew
  {
    var str := "url(a)";
    var c0 := UrlStart(str).c;
    var c1 := TokenCursor(str, 3, 1, OpenBracket);
    var c2 := TokenCursor(str, 4, 1, Ident);
    var c3 := TokenCursor(str, 5, 1, CloseBracket);
    assert TokenAt(str, OwnCtx(None, c0), None, c0, 6, 3, 3, 0) == Scanned(OpenBracket, 3, 1, 3, 0, 6);
    StepTo(str, c0, OpenBracket, 1);
    assert RunEnd(str, 6, 5, IdentChars) == 5;
    assert TokenAt(str, OwnCtx(None, c1), None, c1, 6, 4, 4, 0) == Scanned(Ident, 4, 1, 4, 0, 6);
    StepTo(str, c1, Ident, 1);
    assert TokenAt(str, OwnCtx(None, c2), None, c2, 6, 5, 5, 0) == Scanned(CloseBracket, 5, 1, 5, 0, 6);
    StepTo(str, c2, CloseBracket, 1);
    StepToEnd(str, c3);
    var e := TokenCursor(str, 6, 0, Symbol);
    assert Tx(str, Lx(c0, None)) == "url";
    assert Tx(str, Lx(c1, None)) == "(";
    assert Tx(str, Lx(e, None)) == "";
    assert PeekNext(str, c2, 6) == c3;
    assert UrlScan(str, Lx(e, None)) == Lx(e, None);
    assert UrlScan(str, Lx(c3, None)) == Lx(e, None);
  }

  /** `url(a)` corrected: the address `a`, and the lexer at the end. */
  lemma OneTokenUrlReads()
    ensures UrlParse("url(a)", UrlStart("url(a)")).LeafOut?
    ensures UrlParse("url(a)", UrlStart("url(a)")).v == Leaf(UrlLeaf("a"))
    ensures End(UrlParse("url(a)", UrlStart("url(a)")).l)
  {
    var str := "url(a)";
    var c0 := UrlStart(str).c;
    var c1 := TokenCursor(str, 3, 1, OpenBracket);
    var c2 := TokenCursor(str, 4, 1, Ident);
    var c3 := TokenCursor(str, 5, 1, CloseBracket);
    assert TokenAt(str, OwnCtx(None, c0), None, c0, 6, 3, 3, 0) == Scanned(OpenBracket, 3, 1, 3, 0, 6);
    StepTo(str, c0, OpenBracket, 1);
    assert RunEnd(str, 6, 5, IdentChars) == 5;
    assert TokenAt(str, OwnCtx(None, c1), None, c1, 6, 4, 4, 0) == Scanned(Ident, 4, 1, 4, 0, 6);
    StepTo(str, c1, Ident, 1);
    assert TokenAt(str, OwnCtx(None, c2), None, c2, 6, 5, 5, 0) == Scanned(CloseBracket, 5, 1, 5, 0, 6);
    StepTo(str, c2, CloseBracket, 1);
    StepToEnd(str, c3);
    assert Tx(str, Lx(c0, None)) == "url";
    assert Tx(str, Lx(c1, None)) == "(";
    assert Tx(str, Lx(c3, None)) == ")";
    assert PeekNext(str, c2, 6) == c3;
    assert JsSlice(str, 4, 5) == "a";
  }

  /** The parser a ValueTerm over a `types` entry calls. */
  function ParseLeaf(kind: LeafKind, str: string, names: map<string, Rgba>, ext: ExternalParser, l: Lx): (r: LeafOut)
    ensures !kind.OtherType? && r.LeafOut? && r.v == Null ==> r.l.c == l.c
    ensures !kind.OtherType? && r.LeafOut? ==> r.v == Null || r.v.Leaf?
  {
    match kind
    case ColorType => ColorParse(str, names, l)
    case LengthType => LengthParse(str, l)
    case PercentageType => PercentageParse(str, l)
    case UrlType => UrlParse(str, l)
    case NumberType => NumberParse(str, l)
    case IdType => IdParse(str, l)
    case StringType => StringParse(str, l)
    case OtherType(name) => ext(name, str, l)
  }
}
