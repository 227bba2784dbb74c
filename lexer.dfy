/**
 * The Lexer object.  Its fields are the unpacked fields of the source's
 * Lexer (the packed word is modelled and checked separately in Packing);
 * its `next` is an imperative scanning loop proved to compute LexSpec.Next.
 */
module LexerObject {
  import opened Wrappers
  import opened LexTables
  import opened LexSpec

  class Lexer {
    const str: string
    var off: int
    var tl: int
    var typ: TokenType
    var line: int
    var col: int
    var sl: int
    var iws: bool
    var parseString: bool
    var charsOnly: bool
    var symbols: Option<SymbolTrie>
    /** The peek lexer, created by the first peek and reused afterwards. */
    var p: Lexer?

    /** The token state of this lexer as a value. */
    function State(): Cursor
      reads this
    {
      Cursor(off, tl, typ, line, col, sl, iws, parseString, charsOnly)
    }

    /** What `next` reads from the lexer it is called on. */
    function Context(): Ctx
      reads this
    {
      Ctx(symbols, parseString, charsOnly)
    }

    ghost predicate Valid()
      reads this
    {
      p != this && (p != null ==> p.str == str)
    }

    /**
     * A new lexer over `s`.  Its type is the one of index 0 (numbers): the
     * constructor stores the no-type value before it clears the packed word.
     * Unless it is a peek lexer it is advanced to its first token.
     */
    constructor (s: string, includeWhiteSpace: bool, peeking: bool)
      ensures str == s && symbols.None? && p == null && Valid()
      ensures peeking ==> State() == Initial(s, includeWhiteSpace)
      ensures !peeking ==> State() == Next(s, Ctx(None, false, false), None, Initial(s, includeWhiteSpace))
    {
      str := s;
      p := null;
      typ := Num;
      off := 0;
      col := 0;
      line := 0;
      sl := |s|;
      tl := 0;
      iws := !includeWhiteSpace;
      parseString := false;
      charsOnly := false;
      symbols := None;
      new;
      if !peeking {
        this.NextOn(this);
      }
    }

    /**
     * `next(marker)`: advances `marker` to its next token, reading the
     * custom symbols and the string and characters-only flags of this lexer.
     */
    method NextOn(marker: Lexer)
      modifies marker
      ensures marker.State() == Next(marker.str, old(Context()), old(marker.symbols), old(marker.State()))
      ensures marker.symbols == old(marker.symbols) && marker.p == old(marker.p)
      ensures marker.iws == old(marker.iws) && marker.parseString == old(marker.parseString)
      ensures marker.charsOnly == old(marker.charsOnly)
      decreases Remaining(marker.State()), if marker.off + marker.tl < marker.sl then 6 else 0
    {
      var ctx := Context();
      if marker.sl < 1 {
        marker.off := 0;
        marker.typ := NoType;
        marker.tl := 0;
        marker.line := 0;
        marker.col := 0;
        return;
      }
      if marker.off + marker.tl >= marker.sl {
        var length := marker.tl;
        var off := marker.off + length;
        marker.typ := Symbol;
        marker.off := marker.sl;
        marker.tl := 0;
        marker.col := marker.col + length - (marker.sl - off);
        return;
      }
      NextInBoundOn(ctx, marker);
    }

    /** The stores that end `next`: the token's type, offset, length, column and line. */
    method Store(t: TokenType, base: int, length: int, column: int, ln: int)
      modifies this
      ensures State() == old(State()).(typ := t, off := base, tl := length, col := column, line := ln)
      ensures symbols == old(symbols) && p == old(p)
    {
      typ := t;
      off := base;
      tl := length;
      col := column;
      line := ln;
    }

    /** `fence(marker)`: bounds this lexer at the other one's offset, when both read the same string. */
    method Fence(marker: Lexer)
      modifies this
      ensures marker.str != str ==> State() == old(State())
      ensures marker.str == str ==> State() == old(State()).(sl := old(marker.off))
    {
      if marker.str != str {
        return;
      }
      sl := marker.off;
    }

    /** `copy()`: a fresh lexer in the same token state, without peek lexer or custom symbols. */
    method Copy() returns (d: Lexer)
      ensures fresh(d) && d.str == str && d.State() == State()
      ensures d.symbols.None? && d.p == null && d.Valid()
    {
      d := new Lexer(str, false, true);
      d.off := off;
      d.col := col;
      d.line := line;
      d.sl := sl;
      d.typ, d.tl, d.iws, d.parseString, d.charsOnly := typ, tl, iws, parseString, charsOnly;
    }

    /**
     * `sync(marker)`: takes over the other lexer's position, token and flags
     * but keeps its own bound; a lexer over another string is an error, and
     * no lexer at all (no peek yet) changes nothing.
     */
    method Sync(marker: Lexer?) returns (ok: bool)
      modifies this
      ensures marker != null && marker.str != str ==> !ok && State() == old(State())
      ensures marker == null ==> ok && State() == old(State())
      ensures marker != null && marker.str == str ==>
        ok && State() == SyncState(old(State()), old(marker.State()))
      ensures symbols == old(symbols) && p == old(p)
    {
      if marker == null {
        return true;
      }
      if marker.str != str {
        return false;
      }
      var m := marker.State();
      off, col, line := m.off, m.col, m.line;
      typ, tl, iws, parseString, charsOnly := m.typ, m.tl, m.iws, m.parseString, m.charsOnly;
      return true;
    }

    /**
     * `peek()`: creates the peek lexer on first use, puts it in this lexer's
     * token state (its own bound stays) and advances it with this lexer's
     * symbols and flags.
     */
    method Peek() returns (pk: Lexer)
      requires Valid()
      modifies this, p
      ensures pk == p && Valid() && pk.str == str
      ensures old(p) != null ==> pk == old(p)
      ensures old(p) == null ==> fresh(pk) && pk.symbols.None?
      ensures old(p) != null ==> pk.symbols == old(p.symbols)
      ensures State() == old(State()) && symbols == old(symbols)
      ensures pk.State() == Next(str, Context(), pk.symbols, PeekStart(State(), if old(p) == null then |str| else old(p.sl)))
    {
      if p == null {
        p := new Lexer(str, false, true);
      }
      pk := p;
      pk.typ, pk.tl, pk.iws, pk.parseString, pk.charsOnly := typ, tl, iws, parseString, charsOnly;
      pk.off := off;
      pk.col := col;
      pk.line := line;
      this.NextOn(pk);
    }

    /** The text of the current token; empty at a negative offset. */
    function Text(): string
      reads this
    {
      TokenText(str, State())
    }

    /** `END`: the current token starts at or past the bound. */
    function End(): bool
      reads this
    {
      off >= sl
    }

    /** `ch`, as a code: the character at the token's offset, -1 outside the string. */
    function Ch(): int
      reads this
    {
      CodeAt(str, off)
    }

    /** `slice(start)`: from `start` to the token, or to the bound when the token is not past `start`. */
    function Slice(start: int): string
      reads this
    {
      JsSlice(str, start, if off <= start then sl else off)
    }

    /** `assert(text)`: advances when the token's text is `text`, fails otherwise. */
    method Assert(text: string) returns (ok: bool)
      modifies this
      ensures ok <==> AssertOk(str, old(State()), text)
      ensures ok ==> State() == Next(str, old(Context()), old(symbols), old(State()))
      ensures !ok ==> State() == old(State())
      ensures symbols == old(symbols) && p == old(p)
    {
      if off < 0 {
        return false;
      }
      if Text() == text {
        this.NextOn(this);
        return true;
      }
      return false;
    }

    /**
     * `addSymbol(sym)`: every prefix of the symbol becomes a trie node and the
     * symbol itself is marked.
     */
    method AddSymbol(sym: string)
      modifies this
      ensures symbols == Some(WithSymbol(old(symbols), sym))
      ensures State() == old(State()) && p == old(p)
    {
      var trie := if symbols.None? then SymbolTrie({[]}, {}) else symbols.value;
      var nodes := trie.nodes + {sym[..0]};
      var i := 0;
      while i < |sym|
        invariant 0 <= i <= |sym|
        invariant nodes == trie.nodes + set j | 0 <= j <= i :: sym[..j]
      {
        i := i + 1;
        nodes := nodes + {sym[..i]};
      }
      symbols := Some(SymbolTrie(nodes, trie.marks + {sym}));
    }

    /** The bound the peek lexer will scan with: its own, or the whole string when there is none yet. */
    function PeekBound(): int
      reads this, p
    {
      if p == null then |str| else p.sl
    }

    /**
     * `comment(ASSERT)`: on a `/` followed by `*`, skips to the token after
     * the closing `*` `/` (failing when that is missing); on a `/` followed by
     * `/`, skips past the next line break; on any other `/` fails when
     * `assertStart` is set.  The line skip switches white-space skipping
     * off while it runs, as the saved and restored flag intends (see
     * LineCommentIntended).
     */
    method Comment(assertStart: bool) returns (ok: bool)
      requires Valid() && symbols.None? && tl >= 0
      requires p != null ==> p.symbols.None?
      modifies this, p
      ensures Valid() && symbols.None? && (p != null ==> p.symbols.None?)
      ensures Outcome(ok, State(), PeekBound()) == CommentSpec(str, old(State()), old(PeekBound()), assertStart)
    {
      ghost var c := State();
      ghost var pb := PeekBound();
      if Ch() != '/' as int {
        return true;
      }
      NextAdvances(str, Context(), PeekStart(c, pb));
      var pk := Peek();
      if pk.Ch() == '*' as int {
        ok := SkipBlock();
        return;
      }
      NextAdvances(str, Context(), PeekStart(c, pk.sl));
      pk := Peek();
      if pk.Ch() != '/' as int {
        return !assertStart;
      }
      SkipLine();
      return true;
    }

    /** The `/` `*` branch of `comment`, entered with the peek lexer on the `*`. */
    method SkipBlock() returns (ok: bool)
      requires Valid() && symbols.None? && tl >= 0 && p != null && p.symbols.None? && p.tl >= 0
      modifies this, p
      ensures Valid() && symbols.None? && p == old(p) && p.symbols.None?
      ensures var e := BlockSkip(str, SyncState(old(State()), old(p.State())), old(p.State()));
        var c2 := SyncState(e.marker, e.peek);
        && ok == AssertOk(str, c2, "/")
        && State() == (if ok then Next(str, OwnCtx(None, c2), None, c2) else c2)
        && p.sl == e.peek.sl
    {
      ghost var pk0 := p.State();
      ok := Sync(p);
      BlockLoop();
      ok := Sync(p);
      ok := Assert("/");
    }

    /** The loop of the `/` `*` branch, as BlockSkip describes it. */
    method BlockLoop()
      requires Valid() && symbols.None? && tl >= 0 && p != null && p.symbols.None? && p.tl >= 0
      modifies this, p
      ensures Valid() && symbols.None? && p == old(p) && p.symbols.None?
      ensures BlockEnd(State(), p.State()) == BlockSkip(str, old(State()), old(p.State()))
    {
      var pk: Lexer := p;
      ghost var c1 := State();
      ghost var target := BlockSkip(str, c1, pk.State());
      while true
        invariant Valid() && p == pk && pk == old(p) && pk.str == str && symbols.None? && pk.symbols.None?
        invariant tl >= 0 && pk.tl >= 0 && iws == c1.iws && parseString == c1.parseString && charsOnly == c1.charsOnly
        invariant BlockSkip(str, State(), pk.State()) == target
        decreases Progress(State())
      {
        if End() {
          break;
        }
        ghost var before := State();
        ghost var pkBefore := pk.State();
        NextAdvances(str, Context(), State());
        this.NextOn(this);
        ghost var n := State();
        assert n == Next(str, OwnCtx(None, before), None, before);
        if Ch() != '*' as int {
          continue;
        }
        NextAdvances(str, Context(), PeekStart(State(), pk.sl));
        pk := Peek();
        assert pk.State() == PeekNext(str, n, pkBefore.sl);
        if pk.Ch() != '/' as int {
          continue;
        }
        assert target == BlockEnd(State(), pk.State());
        break;
      }
    }

    /** The `/` `/` branch of `comment`, with white-space skipping off while the line is skipped. */
    method SkipLine()
      requires Valid() && symbols.None? && tl >= 0
      modifies this
      ensures Valid() && symbols.None? && p == old(p)
      ensures State() == LineCommentIntended(str, old(State()))
    {
      ghost var c := State();
      var saved := iws;
      iws := false;
      ghost var target := LineSkip(str, State());
      while true
        invariant Valid() && symbols.None? && p == old(p)
        invariant tl >= 0 && !iws && parseString == c.parseString && charsOnly == c.charsOnly
        invariant LineSkip(str, State()) == target
        decreases Progress(State())
      {
        NextAdvances(str, Context(), State());
        this.NextOn(this);
        if typ == NewLine || End() {
          break;
        }
      }
      iws := saved;
      this.NextOn(this);
    }
  }

  /** The state of a new lexer, before any `next`. */
  function Initial(s: string, includeWhiteSpace: bool): (c: Cursor)
    ensures c.off == 0 && c.tl == 0 && c.sl == |s| && c.iws == !includeWhiteSpace
  {
    Cursor(0, 0, Num, 0, 0, |s|, !includeWhiteSpace, false, false)
  }

  /** The state `sync` leaves: the other lexer's position, token and flags with the own bound. */
  function SyncState(own: Cursor, other: Cursor): (c: Cursor)
    ensures c.sl == own.sl && c.(sl := other.sl) == other
  {
    other.(sl := own.sl)
  }

  /** The state a peek lexer is given before it is advanced: the caller's token with the peek lexer's own bound. */
  function PeekStart(caller: Cursor, peekBound: int): (c: Cursor)
    ensures c.sl == peekBound && c.(sl := caller.sl) == caller
  {
    caller.(sl := peekBound)
  }

  function TokenText(str: string, c: Cursor): string {
    if c.off < 0 then [] else JsSlice(str, c.off, c.off + c.tl)
  }

  predicate AssertOk(str: string, c: Cursor, text: string) {
    c.off >= 0 && TokenText(str, c) == text
  }

  /** The trie after `addSymbol(sym)`; a lexer without symbols starts from the root alone. */
  function WithSymbol(t: Option<SymbolTrie>, sym: string): (r: SymbolTrie)
    ensures sym in r.marks && forall j | 0 <= j <= |sym| :: sym[..j] in r.nodes
  {
    var trie := if t.None? then SymbolTrie({[]}, {}) else t.value;
    SymbolTrie(trie.nodes + set j | 0 <= j <= |sym| :: sym[..j], trie.marks + {sym})
  }

  /** The custom-symbol lookup of `next`: skip spaces when they are ignored, walk the trie, and see whether a symbol ends there. */
  method MatchSymbol(s: string, trie: SymbolTrie, iws: bool, off: int) returns (start: int, stop: int, matched: bool)
    ensures start == (if iws then SkipSpaces(s, off) else off)
    ensures stop == TrieWalk(s, trie.nodes, start, start)
    ensures matched == (JsSlice(s, start, stop) in trie.marks)
  {
    start := off;
    if iws {
      start := SkipSpaceRun(s, off);
    }
    stop := WalkTrie(s, trie.nodes, start);
    matched := JsSlice(s, start, stop) in trie.marks;
  }

  /** The skip over leading spaces before a custom-symbol match. */
  method SkipSpaceRun(s: string, i: int) returns (e: int)
    ensures e == SkipSpaces(s, i)
  {
    e := i;
    while CodeAt(s, e) == 32
      invariant SkipSpaces(s, e) == SkipSpaces(s, i)
      decreases |s| - e
    {
      e := e + 1;
    }
  }

  /** The walk down the symbol trie. */
  method WalkTrie(s: string, nodes: set<string>, start: int) returns (e: int)
    ensures e == TrieWalk(s, nodes, start, start)
  {
    e := start;
    while 0 <= start && e < |s| && s[start..e + 1] in nodes
      invariant start <= e && TrieWalk(s, nodes, start, e) == TrieWalk(s, nodes, start, start)
      decreases |s| - e
    {
      e := e + 1;
    }
  }

  /** A run loop of `next`: extends from `i` while the run continues and the bound is not reached. */
  method ScanRun(s: string, l: int, i: int, k: RunKind) returns (e: int)
    ensures e == RunEnd(s, l, i, k)
  {
    e := i;
    while e < l && Continues(k, CodeAt(s, e))
      invariant RunEnd(s, l, e, k) == RunEnd(s, l, i, k)
      decreases l - e
    {
      e := e + 1;
    }
  }

  /**
   * The `for (;;)` loop of `next` on `marker`, started at `off0`: white space
   * and line breaks are skipped or reported here, anything else is read by
   * ReadToken.
   */
  method ScanLoop(ctx: Ctx, marker: Lexer, off0: int, col0: int, line0: int) returns (s: Scanned)
    modifies marker
    ensures s == Scan(marker.str, ctx, old(marker.symbols), old(marker.State()), old(marker.sl), off0, col0, line0)
    ensures marker.sl == s.sl
    ensures marker.symbols == old(marker.symbols) && marker.p == old(marker.p)
    ensures marker.iws == old(marker.iws) && marker.parseString == old(marker.parseString)
    ensures marker.charsOnly == old(marker.charsOnly)
    decreases Left(marker.sl, off0), 4, 0
  {
    var str := marker.str;
    var l := marker.sl;
    ghost var c := marker.State();
    ghost var msyms := marker.symbols;
    var off, col, line := off0, col0, line0;
    while true
      invariant marker.State() == c && marker.symbols == msyms && marker.p == old(marker.p)
      invariant off0 <= off
      invariant Scan(str, ctx, msyms, c, l, off, col, line) == Scan(str, ctx, msyms, c, l, off0, col0, line0)
      decreases Left(l, off)
    {
      var code := CodeAt(str, off);
      if !IsBlankClass(code) {
        s := ReadToken(ctx, marker, off, col, line);
        return;
      }
      var k := JumpClass(code);
      var typ := if k <= 4 then WhiteSpace else NewLine;
      var length := 1;
      if k == 3 {
        var e := ScanRun(str, l, off + 1, Spaces);
        length := e - off;
      } else if k == 5 {
        // a carriage return always counts as two characters
        length := 2;
      }
      // a tab run never extends: the source compares the character with the number 9
      if k >= 5 {
        col := 0;
        line := line + 1;
      }
      off := off + length;
      if !marker.iws {
        return Scanned(typ, off - length, length, col, line, l);
      }
      if off < l {
        col := col + length;
        continue;
      }
      marker.sl := marker.sl - length;
      return Scanned(typ, l - length, 0, col - ((l - length) - off), line, l - length);
    }
  }

  /**
   * One non-blank token of `next`'s loop.  A number followed by an exponent
   * re-enters `next` on `marker` itself from just after the `e`.
   */
  method ReadToken(ctx: Ctx, marker: Lexer, off0: int, col: int, line: int) returns (s: Scanned)
    modifies marker
    ensures s == TokenAt(marker.str, ctx, old(marker.symbols), old(marker.State()), old(marker.sl), off0, col, line)
    ensures marker.sl == s.sl
    ensures marker.symbols == old(marker.symbols) && marker.p == old(marker.p)
    ensures marker.iws == old(marker.iws) && marker.parseString == old(marker.parseString)
    ensures marker.charsOnly == old(marker.charsOnly)
    decreases Left(marker.sl, off0), 3
  {
    var str := marker.str;
    var l := marker.sl;
    var code := CodeAt(str, off0);
    if !(0 <= code < 128) {
      return Scanned(Symbol, off0, 1, col, line, l);
    }
    var k := JumpClass(code);
    if k == 0 {
      s := ReadNumber(marker, off0, col, line);
    } else if k == 1 {
      var off := ScanRun(str, l, off0 + 1, IdentChars);
      s := Scanned(Ident, off0, off - off0, col, line, l);
    } else if k == 2 {
      if ctx.parseString {
        s := Scanned(Symbol, off0, 1, col, line, l);
      } else {
        var off := ScanRun(str, l, off0 + 1, UntilCode(code));
        s := Scanned(Str, off0, off - off0 + 1, col, line, l);
      }
    } else {
      s := Scanned(SimpleType(k), off0, if k == 11 then 4 else 1, col, line, l);
    }
  }

  /**
   * A number token: the number-set run, and, when an `e` or `E` follows it
   * with a number-set character after that, the token `next` reads on
   * `marker` itself from just after the `e` is glued on.
   */
  method ReadNumber(marker: Lexer, off0: int, col: int, line: int) returns (s: Scanned)
    modifies marker
    ensures s == NumberAt(marker.str, old(marker.symbols), old(marker.State()), old(marker.sl), off0, col, line)
    ensures marker.sl == s.sl
    ensures marker.symbols == old(marker.symbols) && marker.p == old(marker.p)
    ensures marker.iws == old(marker.iws) && marker.parseString == old(marker.parseString)
    ensures marker.charsOnly == old(marker.charsOnly)
    decreases Left(marker.sl, off0), 1
  {
    var str := marker.str;
    var l := marker.sl;
    var off := ScanRun(str, l, off0 + 1, NumberChars);
    if (CodeAt(str, off) == 'e' as int || CodeAt(str, off) == 'E' as int) && InNumberSet(CodeAt(str, off + 1)) {
      off := off + 1;
      if CodeAt(str, off) == '-' as int {
        off := off + 1;
      }
      marker.off := off;
      marker.tl := 0;
      marker.NextOn(marker);
      off := marker.off + marker.tl;
    }
    s := Scanned(Num, off0, off - off0, col, line, marker.sl);
  }

  /** The part of `next` past the early returns: a custom symbol, or the scanning loop. */
  method NextInBoundOn(ctx: Ctx, marker: Lexer)
    requires 1 <= marker.sl && marker.off + marker.tl < marker.sl
    modifies marker
    ensures marker.State() == NextInBound(marker.str, ctx, old(marker.symbols), old(marker.State()))
    ensures marker.symbols == old(marker.symbols) && marker.p == old(marker.p)
    ensures marker.iws == old(marker.iws) && marker.parseString == old(marker.parseString)
    ensures marker.charsOnly == old(marker.charsOnly)
    decreases Remaining(marker.State()), 5
  {
    ghost var c := marker.State();
    var s := marker.str;
    var off := marker.off + marker.tl;
    var col := marker.col + marker.tl;
    if ctx.symbols.Some? {
      var matched, stop;
      off, stop, matched := MatchSymbol(s, ctx.symbols.value, marker.iws, off);
      if matched {
        marker.Store(Symbol, off, StoredLength(ctx, stop - off), col + (stop - off), marker.line);
        return;
      }
    }
    ScanOn(ctx, marker, off, col);
  }

  /** The scanning loop of `next` from `off`, and the stores that end it. */
  method ScanOn(ctx: Ctx, marker: Lexer, off: int, col: int)
    requires 1 <= marker.sl && marker.off + marker.tl < marker.sl && marker.off + marker.tl <= off
    modifies marker
    ensures marker.State() == Finish(ctx, old(marker.State()), Scan(marker.str, ctx, old(marker.symbols), old(marker.State()), old(marker.sl), off, col, old(marker.line)))
    ensures marker.symbols == old(marker.symbols) && marker.p == old(marker.p)
    ensures marker.iws == old(marker.iws) && marker.parseString == old(marker.parseString)
    ensures marker.charsOnly == old(marker.charsOnly)
    decreases Remaining(marker.State()), 4, 1
  {
    ghost var c := marker.State();
    var r := ScanLoop(ctx, marker, off, col, marker.line);
    marker.Store(r.typ, r.base, StoredLength(ctx, r.length), r.col, r.line);
    assert marker.State() == Finish(ctx, c, r);
  }

  /** The state a peek lexer reaches: the caller's token advanced once, scanning with the peek lexer's bound. */
  function PeekNext(str: string, c: Cursor, bound: int): Cursor {
    Next(str, OwnCtx(None, c), None, PeekStart(c, bound))
  }

  /** Where the `/` `*` loop of `comment` stops: the lexer and its peek lexer. */
  datatype BlockEnd = BlockEnd(marker: Cursor, peek: Cursor)

  /**
   * The block-comment loop: `next` until the end, or until a `*` whose
   * following token starts with `/`.  The peek lexer keeps the state of the
   * last peek, which may be from an earlier `*`.
   */
  function BlockSkip(str: string, c: Cursor, pk: Cursor): (r: BlockEnd)
    requires c.tl >= 0 && pk.tl >= 0
    ensures r.marker.tl >= 0 && r.peek.tl >= 0 && r.marker.iws == c.iws
    ensures r.marker.parseString == c.parseString && r.marker.charsOnly == c.charsOnly
    decreases Progress(c)
  {
    if c.off >= c.sl then BlockEnd(c, pk)
    else
      NextAdvances(str, OwnCtx(None, c), c);
      var n := Next(str, OwnCtx(None, c), None, c);
      if CodeAt(str, n.off) != '*' as int then BlockSkip(str, n, pk)
      else
        NextAdvances(str, OwnCtx(None, n), PeekStart(n, pk.sl));
        var pk2 := PeekNext(str, n, pk.sl);
        if CodeAt(str, pk2.off) != '/' as int then BlockSkip(str, n, pk2) else BlockEnd(n, pk2)
  }

  /** The line-comment loop: `next` until a line-break token or the end. */
  function LineSkip(str: string, c: Cursor): (r: Cursor)
    requires c.tl >= 0
    ensures r.tl >= 0 && r.iws == c.iws && r.parseString == c.parseString && r.charsOnly == c.charsOnly
    decreases Progress(c)
  {
    NextAdvances(str, OwnCtx(None, c), c);
    var n := Next(str, OwnCtx(None, c), None, c);
    if n.typ != NewLine && n.off < n.sl then LineSkip(str, n) else n
  }

  /** The `//` branch as written: the white-space flag is saved and restored but left on during the loop. */
  function LineCommentAsWritten(str: string, c: Cursor): Cursor
    requires c.tl >= 0
  {
    var e := LineSkip(str, c);
    Next(str, OwnCtx(None, e), None, e)
  }

  /** The `//` branch as intended: white space is not ignored while the line is skipped, then the flag is restored. */
  function LineCommentIntended(str: string, c: Cursor): Cursor
    requires c.tl >= 0
  {
    var e := LineSkip(str, c.(iws := false)).(iws := c.iws);
    Next(str, OwnCtx(None, e), None, e)
  }

  /** The result of `comment`: whether it succeeded, the lexer's state and its peek lexer's bound. */
  datatype Outcome = Outcome(ok: bool, marker: Cursor, peekBound: int)

  function CommentSpec(str: string, c: Cursor, pb: int, assertStart: bool): Outcome
    requires c.tl >= 0
  {
    if CodeAt(str, c.off) != '/' as int then Outcome(true, c, pb)
    else
      NextAdvances(str, OwnCtx(None, c), PeekStart(c, pb));
      var pk := PeekNext(str, c, pb);
      if CodeAt(str, pk.off) == '*' as int then
        var e := BlockSkip(str, SyncState(c, pk), pk);
        var c2 := SyncState(e.marker, e.peek);
        if AssertOk(str, c2, "/") then Outcome(true, Next(str, OwnCtx(None, c2), None, c2), e.peek.sl)
        else Outcome(false, c2, e.peek.sl)
      else
        var pk2 := PeekNext(str, c, pk.sl);
        if CodeAt(str, pk2.off) == '/' as int then Outcome(true, LineCommentIntended(str, c), pk2.sl)
        else Outcome(!assertStart, c, pk2.sl)
  }

  /**
   * The `//` branch as written never stops at a line break while white space
   * is ignored: `next` then reports no line-break token before the end, so
   * the loop runs to the end of the input.
   */
  lemma {:induction false} LineCommentRunsToEnd(str: string, c: Cursor)
    requires c.tl >= 0 && c.iws
    ensures var r := LineSkip(str, c); r.off >= r.sl
    ensures var r := LineCommentAsWritten(str, c); r.off >= r.sl
    decreases Progress(c)
  {
    var ctx := OwnCtx(None, c);
    NextAdvances(str, ctx, c);
    IgnoredBlanksAreEmpty(str, ctx, None, c);
    var n := Next(str, ctx, None, c);
    if n.typ != NewLine && n.off < n.sl {
      LineCommentRunsToEnd(str, n);
    }
    var e := LineSkip(str, c);
    NextAdvances(str, OwnCtx(None, e), e);
  }

  /**
   * The intended `//` branch stops on the first line-break token: the loop
   * ends on one, or at the end of the input.
   */
  lemma {:induction false} LineCommentStopsAtBreak(str: string, c: Cursor)
    requires c.tl >= 0
    ensures var r := LineSkip(str, c.(iws := false)); r.off < r.sl ==> r.typ == NewLine && r.tl >= 1
    decreases Progress(c)
  {
    var c0 := c.(iws := false);
    var ctx := OwnCtx(None, c0);
    NextAdvances(str, ctx, c0);
    var n := Next(str, ctx, None, c0);
    if n.typ != NewLine && n.off < n.sl {
      LineCommentStopsAtBreak(str, n);
      assert n.(iws := false) == n;
    }
  }
}
