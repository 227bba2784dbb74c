/**
 * A lexer object as a value, for the parts of the engine that copy, advance
 * and sync whole lexers (the value evaluator, the leaf parsers and the
 * notation compiler).  It is the state of the Lexer class plus the peek
 * lexer that object keeps in `p`, which has a peek lexer of its own.  All
 * lexers of one parse read the same string, which is passed alongside; the
 * operations are the ones the Lexer class is proved against.
 */
module LexerValue {
  import opened Wrappers
  import opened LexTables
  import opened LexSpec
  import opened LexerObject

  datatype Lx = Lx(c: Cursor, p: Option<Lx>)

  /** `whind(s)`: a new lexer over s that ignores white space, advanced to its first token. */
  function Whind(s: string): (l: Lx)
    ensures l.p.None?
  {
    var c := Initial(s, false);
    Lx(Next(s, OwnCtx(None, c), None, c), None)
  }

  /** `next()` on a lexer without custom symbols. */
  function Advance(str: string, l: Lx): Lx {
    l.(c := Next(str, OwnCtx(None, l.c), None, l.c))
  }

  /** `copy()`: the same state in a new lexer, which has no peek lexer yet. */
  function Copy(l: Lx): Lx {
    Lx(l.c, None)
  }

  /** `sync(other)`: the other lexer's token with the own bound. */
  function Sync(l: Lx, other: Lx): Lx {
    l.(c := SyncState(l.c, other.c))
  }

  /** `sync()`: syncs with the peek lexer, when there is one. */
  function SyncPeek(l: Lx): Lx {
    if l.p.Some? then Sync(l, l.p.value) else l
  }

  /** `fence(other)`: the bound becomes the other lexer's offset. */
  function Fence(l: Lx, other: Lx): Lx {
    l.(c := l.c.(sl := other.c.off))
  }

  /**
   * `pk`: the peek lexer (created over the whole string when missing) is set
   * to this lexer's token and advanced once; it keeps its own bound and its
   * own peek lexer.
   */
  function Peek(str: string, l: Lx): (r: Lx)
    ensures r.c == l.c && r.p.Some?
  {
    var bound := if l.p.Some? then l.p.value.c.sl else |str|;
    var sub := if l.p.Some? then l.p.value.p else None;
    l.(p := Some(Lx(PeekNext(str, l.c, bound), sub)))
  }

  predicate End(l: Lx) { l.c.off >= l.c.sl }

  function Tx(str: string, l: Lx): string { TokenText(str, l.c) }

  /** `ch`: the character at the offset, -1 standing for `undefined`. */
  function Ch(str: string, l: Lx): int { CodeAt(str, l.c.off) }

  /** `assert(text)` / `a(text)`: advance past `text`, or None where the lexer throws. */
  function Expect(str: string, l: Lx, text: string): (r: Option<Lx>)
    ensures r.Some? <==> AssertOk(str, l.c, text)
    ensures r.Some? ==> r.value == Advance(str, l)
  {
    if l.c.off < 0 then None
    else if Tx(str, l) == text then Some(Advance(str, l))
    else None
  }

  /** `slice(start)`: from start to the current token, or to the bound when the token is not past start. */
  function SliceFrom(str: string, l: Lx, start: int): string {
    JsSlice(str, start, if l.c.off <= start then l.c.sl else l.c.off)
  }

  /** Syncing with an untouched copy changes nothing: backtracking to a copy is exact. */
  lemma SyncWithCopy(l: Lx)
    ensures Sync(l, Copy(l)) == l
  {
  }
}
