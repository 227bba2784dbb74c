/**
 * The lexer's `next` as a function on an unpacked lexer state.  A Cursor
 * holds what one Lexer object holds about its current token: the offset
 * and length of the token, its type, its line and column, the bound `sl`
 * past which it does not read, and the three flags of the packed word.
 * The string itself never changes and is passed alongside.
 */
module LexSpec {
  import opened Wrappers
  import opened LexTables

  datatype Cursor = Cursor(
    off: int, tl: int, typ: TokenType, line: int, col: int, sl: int,
    iws: bool, parseString: bool, charsOnly: bool)

  /**
   * The custom-symbol trie of `addSymbol`: a node per string on a path from
   * the root, and the nodes marked as complete symbols.
   */
  datatype SymbolTrie = SymbolTrie(nodes: set<string>, marks: set<string>)

  /** What `next` reads from the Lexer it is called on, as opposed to the one it advances. */
  datatype Ctx = Ctx(symbols: Option<SymbolTrie>, parseString: bool, charsOnly: bool)

  /** The one-token result of the scanning loop, before it is stored. */
  datatype Scanned = Scanned(typ: TokenType, base: int, length: int, col: int, line: int, sl: int)

  /** `charCodeAt`: the UTF-16 unit at i, or -1 standing for the NaN returned outside the string. */
  function CodeAt(str: string, i: int): int {
    if 0 <= i < |str| then str[i] as int else -1
  }

  /** The runs the scanning loop extends a token over. */
  datatype RunKind = NumberChars | IdentChars | Spaces | UntilCode(quote: int)

  predicate Continues(k: RunKind, code: int) {
    match k
    case NumberChars => InNumberSet(code)
    case IdentChars => InIdentSet(code)
    case Spaces => code == 32
    case UntilCode(q) => code != q
  }

  /** The first offset at or after i that is at the bound or does not continue the run. */
  function RunEnd(str: string, l: int, i: int, k: RunKind): (e: int)
    decreases l - i
    ensures i <= e
    ensures i < l ==> e <= l
    ensures forall j | i <= j < e :: Continues(k, CodeAt(str, j))
    ensures e >= l || !Continues(k, CodeAt(str, e))
  {
    if i < l && Continues(k, CodeAt(str, i)) then RunEnd(str, l, i + 1, k) else i
  }

  /** The skip over spaces done before a custom-symbol match; it stops at the end of the string, not at the bound. */
  function SkipSpaces(str: string, i: int): (e: int)
    decreases |str| - i
    ensures i <= e
    ensures forall j | i <= j < e :: CodeAt(str, j) == 32
    ensures CodeAt(str, e) != 32
  {
    if CodeAt(str, i) == 32 then SkipSpaces(str, i + 1) else i
  }

  /** Walk the trie from `start` as long as the next character leads to a node. */
  function TrieWalk(str: string, nodes: set<string>, start: int, i: int): (e: int)
    requires start <= i
    decreases |str| - i
    ensures i <= e
  {
    if 0 <= start && i < |str| && str[start..i + 1] in nodes then TrieWalk(str, nodes, start, i + 1) else i
  }

  /** An `e` or `E` directly after a number run, followed by a number-set character. */
  predicate ExponentAt(str: string, e: int) {
    (CodeAt(str, e) == 'e' as int || CodeAt(str, e) == 'E' as int) && InNumberSet(CodeAt(str, e + 1))
  }

  /** The ctx a Lexer presents when it advances itself. */
  function OwnCtx(symbols: Option<SymbolTrie>, c: Cursor): Ctx {
    Ctx(symbols, c.parseString, c.charsOnly)
  }

  /** The stored token length: one at most in characters-only mode. */
  function StoredLength(ctx: Ctx, length: int): int {
    if ctx.charsOnly then (if length < 1 then length else 1) else length
  }

  function Finish(ctx: Ctx, c: Cursor, s: Scanned): Cursor {
    c.(typ := s.typ, off := s.base, tl := StoredLength(ctx, s.length), col := s.col, line := s.line, sl := s.sl)
  }

  /** Measure shared by the mutually recursive Next and Scan. */
  function Remaining(c: Cursor): int {
    if c.off + c.tl < c.sl then c.sl - (c.off + c.tl) else 0
  }

  /**
   * `next(marker)` called on a Lexer whose symbols and flags are `ctx`,
   * advancing the lexer whose state is `c` and whose own symbols are `msyms`
   * (the two differ only when a peek lexer is advanced by its parent).
   */
  function Next(str: string, ctx: Ctx, msyms: Option<SymbolTrie>, c: Cursor): (r: Cursor)
    decreases Remaining(c), if c.off + c.tl < c.sl then 5 else 0
  {
    if c.sl < 1 then
      c.(off := 0, typ := NoType, tl := 0, line := 0, col := 0)
    else if c.off + c.tl >= c.sl then
      c.(typ := Symbol, off := c.sl, tl := 0, col := c.col + c.tl - (c.sl - (c.off + c.tl)))
    else
      NextInBound(str, ctx, msyms, c)
  }

  /** `next` when the token it starts from ends inside the bound: a custom symbol, or the scanning loop. */
  function NextInBound(str: string, ctx: Ctx, msyms: Option<SymbolTrie>, c: Cursor): (r: Cursor)
    requires 1 <= c.sl && c.off + c.tl < c.sl
    decreases Remaining(c), 4
  {
    var off := c.off + c.tl;
    var col := c.col + c.tl;
    match ctx.symbols
    case Some(trie) =>
      var start := if c.iws then SkipSpaces(str, off) else off;
      var stop := TrieWalk(str, trie.nodes, start, start);
      if JsSlice(str, start, stop) in trie.marks then
        c.(typ := Symbol, off := start, tl := StoredLength(ctx, stop - start), col := col + (stop - start))
      else
        Finish(ctx, c, Scan(str, ctx, msyms, c, c.sl, start, col, c.line))
    case None =>
      Finish(ctx, c, Scan(str, ctx, msyms, c, c.sl, off, col, c.line))
  }

  function Left(l: int, off: int): int { if off < l then l - off else 0 }

  /**
   * The scanning loop of `next` from offset `off`: white space and line
   * breaks go to ScanBlank, every other character starts the token that
   * TokenAt reads.
   */
  function Scan(str: string, ctx: Ctx, msyms: Option<SymbolTrie>, c: Cursor, l: int,
                off: int, col: int, line: int): (s: Scanned)
    requires c.sl == l
    decreases Left(l, off), 3
  {
    if IsBlankClass(CodeAt(str, off)) then ScanBlank(str, ctx, msyms, c, l, off, col, line)
    else TokenAt(str, ctx, msyms, c, l, off, col, line)
  }

  /**
   * A space run, a tab, a carriage return (always two characters) or a line
   * feed.  Kept as a token unless white space is ignored; then the loop
   * continues after it, or, when it reaches the bound, the bound is pulled
   * back over it and an empty token is left there.
   */
  function ScanBlank(str: string, ctx: Ctx, msyms: Option<SymbolTrie>, c: Cursor, l: int,
                     off: int, col: int, line: int): (s: Scanned)
    requires c.sl == l && IsBlankClass(CodeAt(str, off))
    decreases Left(l, off), 2
  {
    var k := JumpClass(CodeAt(str, off));
    var typ := if k <= 4 then WhiteSpace else NewLine;
    var length := if k == 3 then RunEnd(str, l, off + 1, Spaces) - off else if k == 5 then 2 else 1;
    var after := off + length;
    var col1 := if k <= 4 then col else 0;
    var line1 := if k <= 4 then line else line + 1;
    if c.iws then
      if after < l then Scan(str, ctx, msyms, c, l, after, col1 + length, line1)
      else Scanned(typ, l - length, 0, col1 - ((l - length) - after), line1, l - length)
    else
      Scanned(typ, off, length, col1, line1, l)
  }

  /**
   * Any other character: a number run (which re-enters `next` on the same
   * lexer for an exponent), an identifier run, a quoted string up to the
   * same quote, or a single character (four for the data-link escape).
   */
  function TokenAt(str: string, ctx: Ctx, msyms: Option<SymbolTrie>, c: Cursor, l: int,
                   off: int, col: int, line: int): (s: Scanned)
    requires c.sl == l
    decreases Left(l, off), 2
  {
    var code := CodeAt(str, off);
    if 0 <= code < 128 then
      var k := JumpClass(code);
      if k == 0 then NumberAt(str, msyms, c, l, off, col, line)
      else if k == 1 then
        var e := RunEnd(str, l, off + 1, IdentChars);
        Scanned(Ident, off, e - off, col, line, l)
      else if k == 2 then
        if ctx.parseString then Scanned(Symbol, off, 1, col, line, l)
        else
          var e := RunEnd(str, l, off + 1, UntilCode(code));
          Scanned(Str, off, e - off + 1, col, line, l)
      else
        Scanned(SimpleType(k), off, if k == 11 then 4 else 1, col, line, l)
    else
      Scanned(Symbol, off, 1, col, line, l)
  }

  /**
   * A number token: the number-set run, and, when an exponent follows, the
   * token `next` reads on the same lexer from just after the `e` glued on.
   */
  function NumberAt(str: string, msyms: Option<SymbolTrie>, c: Cursor, l: int,
                    off: int, col: int, line: int): (s: Scanned)
    requires c.sl == l
    ensures s.typ == Num && s.base == off
    decreases Left(l, off), 1
  {
    var e := RunEnd(str, l, off + 1, NumberChars);
    if ExponentAt(str, e) then
      var e2 := if CodeAt(str, e + 1) == '-' as int then e + 2 else e + 1;
      var inner := Next(str, OwnCtx(msyms, c), msyms, c.(off := e2, tl := 0));
      Scanned(Num, off, inner.off + inner.tl - off, col, line, inner.sl)
    else
      Scanned(Num, off, e - off, col, line, l)
  }

  /** The type of the single-character classes 7 to 11. */
  function SimpleType(k: nat): TokenType {
    if k == 8 then Operator
    else if k == 9 then OpenBracket
    else if k == 10 then CloseBracket
    else if k == 11 then DataLink
    else Symbol
  }

  /** `String.prototype.slice`: negative positions count from the end, both ends are clamped. */
  function JsSlice(s: string, a: int, b: int): (r: string)
    ensures |r| <= |s|
  {
    var from := ClampIndex(a, |s|);
    var to := ClampIndex(b, |s|);
    if from < to then s[from..to] else []
  }

  function ClampIndex(i: int, n: nat): (j: nat)
    ensures j <= n
  {
    if i < 0 then (if n + i < 0 then 0 else n + i) else if i > n then n else i
  }

  // ---------------------------------------------------------------------
  // Properties of `next`
  // ---------------------------------------------------------------------

  predicate IsQuote(code: int) { code == '"' as int || code == '\'' as int || code == '`' as int }

  /** The token a successful scan reports, described through the maximal runs. */
  ghost predicate TokenShape(str: string, parseString: bool, typ: TokenType, sl: int, base: int, length: int)
  {
    var q := CodeAt(str, base);
    (typ == Num <==> IsDigit(q))
    && (typ == Ident <==> IsLetter(q))
    && (typ == Num ==>
          var e := RunEnd(str, sl, base + 1, NumberChars);
          (!ExponentAt(str, e) ==> length == e - base)
          && (ExponentAt(str, e) && e + 1 < sl ==> base + length >= e + 2)
          && (ExponentAt(str, e) && e + 1 >= sl ==> base + length == sl))
    && (typ == Ident ==> length == RunEnd(str, sl, base + 1, IdentChars) - base)
    && (!parseString ==> (typ == Str <==> IsQuote(q)))
    && (typ == Str ==>
          var e := RunEnd(str, sl, base + 1, UntilCode(q));
          length == e - base + 1
          && (e < sl ==> CodeAt(str, e) == q)
          && (e >= sl ==> base + length == sl + 1))
    && length >= 1
  }

  /**
   * Started on a character that is not white space or a line break, within
   * the bound, `next` reports a token of at least one character right there
   * and leaves the bound alone.
   */
  lemma {:induction false} NonBlankStart(str: string, ctx: Ctx, c: Cursor)
    requires ctx.symbols.None?
    requires 1 <= c.sl && c.off + c.tl < c.sl
    requires !IsBlankClass(CodeAt(str, c.off + c.tl))
    ensures var r := Next(str, ctx, None, c);
      r.sl == c.sl && r.off == c.off + c.tl && r.tl >= 1
    decreases Remaining(c), 1
  {
    var off := c.off + c.tl;
    assert Next(str, ctx, None, c) == Finish(ctx, c, Scan(str, ctx, None, c, c.sl, off, c.col + c.tl, c.line));
    assert Scan(str, ctx, None, c, c.sl, off, c.col + c.tl, c.line) == TokenAt(str, ctx, None, c, c.sl, off, c.col + c.tl, c.line);
    TokenNonBlank(str, ctx, c, c.sl, off, c.col + c.tl, c.line);
  }

  lemma {:induction false} TokenNonBlank(str: string, ctx: Ctx, c: Cursor, l: int, off: int, col: int, line: int)
    requires c.sl == l && off < l
    ensures var s := TokenAt(str, ctx, None, c, l, off, col, line);
      s.sl == l && s.base == off && s.length >= 1
    decreases l - off, 0
  {
    var code := CodeAt(str, off);
    if 0 <= code < 128 && JumpClass(code) == 0 {
      assert TokenAt(str, ctx, None, c, l, off, col, line) == NumberAt(str, None, c, l, off, col, line);
      var e := RunEnd(str, l, off + 1, NumberChars);
      if ExponentAt(str, e) {
        NumberSetCharacters(CodeAt(str, e + 1));
        if e + 1 < l {
          NonBlankStart(str, OwnCtx(None, c), c.(off := e + 1, tl := 0));
        } else {
          assert Next(str, OwnCtx(None, c), None, c.(off := e + 1, tl := 0)).off == l;
        }
      }
    }
  }

  /** A token read by TokenAt inside the bound is well formed. */
  lemma TokenAtShape(str: string, ctx: Ctx, c: Cursor, l: int, off: int, col: int, line: int)
    requires c.sl == l && off < l && !IsBlankClass(CodeAt(str, off))
    ensures var s := TokenAt(str, ctx, None, c, l, off, col, line);
      s.sl == l && s.base == off && TokenShape(str, ctx.parseString, s.typ, s.sl, s.base, s.length)
      && s.typ != WhiteSpace && s.typ != NewLine
  {
    var code := CodeAt(str, off);
    if 0 <= code < 128 && JumpClass(code) == 0 {
      NumberShape(str, ctx, c, l, off, col, line);
    } else {
      TokenNonBlank(str, ctx, c, l, off, col, line);
    }
  }

  /** The number case of TokenAtShape: the run of number characters, glued to an exponent. */
  lemma NumberShape(str: string, ctx: Ctx, c: Cursor, l: int, off: int, col: int, line: int)
    requires c.sl == l && off < l && 0 <= CodeAt(str, off) < 128 && JumpClass(CodeAt(str, off)) == 0
    ensures var s := TokenAt(str, ctx, None, c, l, off, col, line);
      s.sl == l && s.base == off && TokenShape(str, ctx.parseString, s.typ, s.sl, s.base, s.length)
      && s.typ != WhiteSpace && s.typ != NewLine
  {
    TokenNonBlank(str, ctx, c, l, off, col, line);
    var e := RunEnd(str, l, off + 1, NumberChars);
    if ExponentAt(str, e) {
      NumberSetCharacters(CodeAt(str, e + 1));
      var c2 := c.(off := e + 1, tl := 0);
      if e + 1 < l {
        NonBlankStart(str, OwnCtx(None, c), c2);
      } else {
        assert Next(str, OwnCtx(None, c), None, c2).off == l;
      }
    }
  }

  /** What ScanToken promises of a scan started at `off`: a well-formed token, or an empty one at the (trimmed) bound. */
  ghost predicate ScanShaped(str: string, ctx: Ctx, c: Cursor, l: int, off: int, s: Scanned) {
    && (s.base < s.sl ==>
          s.sl == l && off <= s.base && TokenShape(str, ctx.parseString, s.typ, s.sl, s.base, s.length)
          && (c.iws ==> s.typ != WhiteSpace && s.typ != NewLine))
    && (s.base >= s.sl ==>
          c.iws && s.length == 0 && s.base == s.sl && s.sl < l && (s.typ == WhiteSpace || s.typ == NewLine))
  }

  /** The scanning loop started within the bound reports a well-formed token, or an empty one at the (trimmed) bound. */
  lemma {:induction false} ScanToken(str: string, ctx: Ctx, c: Cursor, l: int, off: int, col: int, line: int)
    requires c.sl == l && off < l
    ensures ScanShaped(str, ctx, c, l, off, Scan(str, ctx, None, c, l, off, col, line))
    decreases l - off, 1
  {
    if IsBlankClass(CodeAt(str, off)) {
      BlankToken(str, ctx, c, l, off, col, line);
    } else {
      TokenAtShape(str, ctx, c, l, off, col, line);
    }
  }

  /** The blank case of ScanToken: kept as a token, or skipped and the scan goes on. */
  lemma {:induction false} BlankToken(str: string, ctx: Ctx, c: Cursor, l: int, off: int, col: int, line: int)
    requires c.sl == l && off < l && IsBlankClass(CodeAt(str, off))
    ensures ScanShaped(str, ctx, c, l, off, ScanBlank(str, ctx, None, c, l, off, col, line))
    decreases l - off, 0
  {
    var code := CodeAt(str, off);
    var k := JumpClass(code);
    var length := if k == 3 then RunEnd(str, l, off + 1, Spaces) - off else if k == 5 then 2 else 1;
    var col1 := if k <= 4 then col else 0;
    var line1 := if k <= 4 then line else line + 1;
    if c.iws && off + length < l {
      ScanToken(str, ctx, c, l, off + length, col1 + length, line1);
    } else if !c.iws {
      assert !IsDigit(code) && !IsLetter(code) && !IsQuote(code);
    }
  }

  /**
   * With no custom symbols, a token that `next` reports inside the bound is
   * the maximal run its first character starts: digits start a number-set
   * run (glued to an exponent after `e`/`E`), letters an identifier-set run,
   * a quote runs to the matching quote, which it includes, or one past the
   * bound when there is none.  When white space is ignored no such token is
   * white space or a line break.
   */
  lemma NextTokenShape(str: string, ctx: Ctx, c: Cursor)
    requires ctx.symbols.None? && !ctx.charsOnly && 1 <= c.sl
    ensures var r := Next(str, ctx, None, c);
      r.off < r.sl ==>
        TokenShape(str, ctx.parseString, r.typ, r.sl, r.off, r.tl) && (c.iws ==> r.typ != WhiteSpace && r.typ != NewLine)
  {
    if c.off + c.tl < c.sl {
      ScanToken(str, ctx, c, c.sl, c.off + c.tl, c.col + c.tl, c.line);
    }
  }

  /**
   * At the end of the input `next` reports an empty token sitting exactly on
   * the bound, whether the bound was reached directly or after trailing
   * white space was trimmed off it.
   */
  lemma EndOfInput(str: string, ctx: Ctx, c: Cursor)
    requires ctx.symbols.None? && 1 <= c.sl
    ensures var r := Next(str, ctx, None, c);
      r.off >= r.sl ==> r.tl == 0 && r.off == r.sl
    ensures c.off + c.tl >= c.sl ==>
      var r := Next(str, ctx, None, c);
      r.off == c.sl && r.tl == 0 && r.sl == c.sl
  {
    if c.off + c.tl < c.sl {
      ScanToken(str, ctx, c, c.sl, c.off + c.tl, c.col + c.tl, c.line);
    }
  }

  /**
   * When white space is ignored, `next` never reports a non-empty white-space
   * or line-break token, even with custom symbols: the only such tokens are
   * the empty ones left at the bound after trimming.
   */
  lemma IgnoredBlanksAreEmpty(str: string, ctx: Ctx, msyms: Option<SymbolTrie>, c: Cursor)
    requires c.iws
    ensures var r := Next(str, ctx, msyms, c);
      (r.typ == WhiteSpace || r.typ == NewLine) ==> r.tl == 0 && r.off == r.sl && r.sl < c.sl
  {
    if 1 <= c.sl && c.off + c.tl < c.sl {
      var off := c.off + c.tl;
      var start := if ctx.symbols.Some? then SkipSpaces(str, off) else off;
      ScanBlanksTrimmed(str, ctx, msyms, c, c.sl, start, c.col + c.tl, c.line);
    }
  }

  lemma {:induction false} ScanBlanksTrimmed(str: string, ctx: Ctx, msyms: Option<SymbolTrie>, c: Cursor,
                                             l: int, off: int, col: int, line: int)
    requires c.sl == l && c.iws
    ensures var s := Scan(str, ctx, msyms, c, l, off, col, line);
      (s.typ == WhiteSpace || s.typ == NewLine) ==> s.length == 0 && s.base == s.sl && s.sl < l
    decreases Left(l, off)
  {
    var code := CodeAt(str, off);
    if IsBlankClass(code) {
      var k := JumpClass(code);
      var length := if k == 3 then RunEnd(str, l, off + 1, Spaces) - off else if k == 5 then 2 else 1;
      var col1 := if k <= 4 then col else 0;
      var line1 := if k <= 4 then line else line + 1;
      if off + length < l {
        ScanBlanksTrimmed(str, ctx, msyms, c, l, off + length, col1 + length, line1);
      }
    }
  }

  /**
   * A tab is a white-space token of exactly one character, even when more
   * tabs follow: the loop meant to extend the run compares a character with
   * a number, so it never does.
   */
  lemma TabTokenIsOneCharacter(str: string, ctx: Ctx, msyms: Option<SymbolTrie>, c: Cursor,
                               l: int, off: int, col: int, line: int)
    requires c.sl == l && !c.iws && CodeAt(str, off) == 9
    ensures var s := Scan(str, ctx, msyms, c, l, off, col, line);
      s.typ == WhiteSpace && s.base == off && s.length == 1 && s.line == line
  {
  }

  /** The measure by which `next` advances a lexer that has no custom symbols. */
  function Progress(c: Cursor): nat {
    if c.off < c.sl then 2 * (c.sl - c.off) + (if c.tl == 0 then 1 else 0) else 0
  }

  /**
   * Without custom symbols `next` keeps the flags and leaves a non-negative
   * length; from a non-negative length it moves strictly forward until the
   * end of the input and stays at the end once there: so a loop that calls
   * it until the end terminates.
   */
  lemma NextAdvances(str: string, ctx: Ctx, c: Cursor)
    requires ctx.symbols.None?
    ensures var r := Next(str, ctx, None, c);
      && r.tl >= 0 && r.iws == c.iws && r.parseString == c.parseString && r.charsOnly == c.charsOnly
      && (c.tl >= 0 && c.off < c.sl ==> Progress(r) < Progress(c))
      && (c.tl >= 0 && c.off >= c.sl ==> r.off >= r.sl)
      && (r.off < r.sl ==> r.tl >= 1)
  {
    if 1 <= c.sl && c.off + c.tl < c.sl {
      ScanToken(str, ctx, c, c.sl, c.off + c.tl, c.col + c.tl, c.line);
    }
  }

  /**
   * Without custom symbols `next` starts its token after the previous one
   * and no later than the bound it was given, which it never raises.  Where
   * the token ends is not bounded here: a string whose closing quote is
   * missing runs one past the bound, and a data-link escape always takes
   * four characters.
   */
  lemma NextWithinBound(str: string, ctx: Ctx, c: Cursor)
    requires ctx.symbols.None? && 1 <= c.sl
    ensures var r := Next(str, ctx, None, c);
      r.sl <= c.sl && r.off <= r.sl && (r.off < r.sl ==> c.off + c.tl <= r.off)
  {
    if c.off + c.tl < c.sl {
      ScanToken(str, ctx, c, c.sl, c.off + c.tl, c.col + c.tl, c.line);
    }
  }
}
