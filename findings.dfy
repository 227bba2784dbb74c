/**
 * Three places where the notation compiler, as written, builds a term tree
 * other than the one its notation means, each shown on a small notation
 * and on the general mechanism.  The rest of the project compiles with the
 * corrected build.  Last, the corrected CSS-wide keyword test on the
 * values of small declarations.
 */
module Findings {
  import opened Wrappers
  import opened LexTables
  import opened LexSpec
  import opened LexerObject
  import opened LexerValue
  import opened Values
  import opened Leaves
  import opened Grammar
  import opened Compiler
  import opened Evaluator
  import Js

  // ---------------------------------------------------------------- `||`, `&&` and `|` return from `d$1`

  /**
   * A `||` after a term, whose OR children stop at a single `|` (as in
   * `a || b | c`): as written `d$1` returns the OR at once, at a `|` that
   * no enclosing group handles, so the rest of the notation is never read.
   */
  lemma OrReturnsAsWritten(fuel: nat, env: CEnv, st: St, str: string, lx: Lx, term: Option<nat>, t: Option<nat>, s2: St, l2: Lx)
    requires fuel >= 2 && Valid(st) && ValidTerm(st, term) && !End(lx)
    requires Ch(str, lx) == '|' as int && Ch(str, Peek(str, lx).p.value) == '|' as int
    requires var s1 := Add(st, NewGroup(Or, [term])).0;
      Children(fuel - 1, AsWritten, env, s1, str, Advance(str, SyncPeek(Peek(str, lx))), Flags(false, true, false), |st.nodes|, Or)
      == Ok(t, s2, l2)
    requires !End(l2) && Ch(str, l2) == '|' as int
    ensures D1Loop(fuel, AsWritten, env, st, str, lx, NoFlags, term) == Ok(Some(|st.nodes|), s2, l2)
    ensures !StopsAt(str, l2, NoFlags)
  {
    assert SwitchCase(fuel - 1, AsWritten, env, st, str, lx, NoFlags, term) == Return(Ok(Some(|st.nodes|), s2, l2));
  }

  /**
   * The same `||` corrected: the OR becomes the term and the loop goes on
   * at the `|`, which then makes the OR the first alternative of a ONE_OF.
   */
  lemma OrContinuesCorrected(fuel: nat, env: CEnv, st: St, str: string, lx: Lx, term: Option<nat>, t: Option<nat>, s2: St, l2: Lx)
    requires fuel >= 2 && Valid(st) && ValidTerm(st, term) && !End(lx)
    requires Ch(str, lx) == '|' as int && Ch(str, Peek(str, lx).p.value) == '|' as int
    requires var s1 := Add(st, NewGroup(Or, [term])).0;
      Children(fuel - 1, Corrected, env, s1, str, Advance(str, SyncPeek(Peek(str, lx))), Flags(false, true, false), |st.nodes|, Or)
      == Ok(t, s2, l2)
    requires !End(l2)
    ensures D1Loop(fuel, Corrected, env, st, str, lx, NoFlags, term)
         == D1Loop(fuel - 1, Corrected, env, s2, str, l2, NoFlags, Some(|st.nodes|))
  {
    assert SwitchCase(fuel - 1, Corrected, env, st, str, lx, NoFlags, term) == Continue(Some(|st.nodes|), s2, l2);
  }

  // ---------------------------------------------------------------- `[` after a group that does not repeat

  /**
   * A bracketed group after a term that is a group without multiplier (as
   * in `[a | b] [c]`): as written the new group is pushed into that group,
   * so it becomes a third alternative of the ONE_OF.
   */
  lemma BracketAppendsAsWritten(fuel: nat, env: CEnv, st: St, str: string, lx: Lx, fl: Flags, g: nat,
                                v: Option<nat>, st1: St, l1: Lx, l2: Lx, v2: nat, st2: St, l3: Lx)
    requires Valid(st) && g < |st.nodes| && st.nodes[g].Group? && !IsRepeating(st.nodes[g])
    requires D1(fuel, AsWritten, env, st, str, Advance(str, lx), NoFlags) == Ok(v, st1, l1)
    requires Expect(str, l1, "]") == Some(l2)
    requires CheckExtensions(fuel, AsWritten, st1, str, l2, v) == Ok(Some(v2), st2, l3)
    requires !IsRepeating(st2.nodes[g])
    ensures var r := BracketCase(fuel, AsWritten, env, st, str, lx, fl, Some(g));
      r.Continue? && r.term == Some(g) && r.lx == l3
      && r.st.nodes == st2.nodes[g := st2.nodes[g].(terms := st2.nodes[g].terms + [Some(v2)])]
  {
  }

  /**
   * The same bracket corrected: the term and the new group become the two
   * children of a new JUX, and the group read before is left as it was.
   */
  lemma BracketWrapsCorrected(fuel: nat, env: CEnv, st: St, str: string, lx: Lx, fl: Flags, g: nat,
                              v: Option<nat>, st1: St, l1: Lx, l2: Lx, v2: nat, st2: St, l3: Lx)
    requires Valid(st) && g < |st.nodes| && st.nodes[g].Group?
    requires D1(fuel, Corrected, env, st, str, Advance(str, lx), NoFlags) == Ok(v, st1, l1)
    requires Expect(str, l1, "]") == Some(l2)
    requires CheckExtensions(fuel, Corrected, st1, str, l2, v) == Ok(Some(v2), st2, l3)
    ensures var r := BracketCase(fuel, Corrected, env, st, str, lx, fl, Some(g));
      var j := |st2.nodes|;
      r.Continue? && r.term == Some(j) && r.lx == l3
      && r.st.nodes == st2.nodes + [NewGroup(Jux, [Some(g), Some(v2)])]
  {
    var (s0, j) := Add(st2, NewGroup(Jux, []));
    assert s0.nodes[j].terms + [Some(g)] == [Some(g)];
    var (s1, t1) := Fold(s0, Some(j), Some(g));
    assert s1.nodes == st2.nodes + [NewGroup(Jux, [Some(g)])];
    assert s1.nodes[j].terms + [Some(v2)] == [Some(g), Some(v2)];
  }

  // ---------------------------------------------------------------- `#`: a comma-separated list of one item

  /**
   * A JUX of one term under `#`, as written (the term followed by a `","`
   * SymbolTerm), when that term matches a single item that is not followed
   * by a comma: no cycle commits and the lexer is left where it was.
   */
  lemma CommaListAsWritten(fuel: nat, e: Env, v: nat, c: nat, a: Attrs, lx: Lx, rule: Obj, out: Obj,
                           l2: Lx, rule2: Obj, temp2: Obj)
    requires c < |e.nodes| && e.nodes[c] == Node.Symbol(",", NoAttrs)
    requires !End(lx)
    requires Parse(fuel, e, v, Copy(lx), rule, Fresh, false) == Done(true, l2, rule2, temp2)
    requires Tx(e.str, l2) != ","
    ensures var asWritten := Group(Jux, [Some(v), Some(c)], Js.Int(1), Js.Infinity, true, a);
      var res := Repeat(fuel, e, asWritten, 0, lx, rule, out, false, true);
      res.Done? && !res.ok && res.lx == lx && res.out == out
  {
    var asWritten := Group(Jux, [Some(v), Some(c)], Js.Int(1), Js.Infinity, true, a);
    assert Parse(fuel, e, c, l2, rule2, temp2, false) == Done(false, l2, rule2, temp2);
    assert !OptionalChild(e, asWritten.terms, 1);
    assert JuxTerms(fuel, e, asWritten.terms, 1, l2, rule2, temp2) == Done(false, l2, rule2, temp2);
    assert JuxTerms(fuel, e, asWritten.terms, 0, Copy(lx), rule, Fresh) == Done(false, l2, rule2, temp2);
    assert Below(0, EndBound(asWritten));
    assert JuxRepeat(fuel, e, asWritten, 0, lx, rule, out, false) == Done(false, lx, rule2, out);
  }

  /**
   * The same JUX corrected (the term alone, a comma required only between
   * repetitions): the item is read and the lexer ends where the term's
   * match ended.
   */
  lemma CommaListCorrected(fuel: nat, e: Env, v: nat, a: Attrs, lx: Lx, rule: Obj, out: Obj,
                           l2: Lx, rule2: Obj, temp2: Obj)
    requires !End(lx)
    requires Parse(fuel, e, v, Copy(lx), rule, Fresh, false) == Done(true, l2, rule2, temp2)
    requires Tx(e.str, l2) != "," && Ch(e.str, l2) != ',' as int
    ensures var corrected := Group(Jux, [Some(v)], Js.Int(1), Js.Infinity, true, a);
      var res := Repeat(fuel, e, corrected, 0, lx, rule, out, false, true);
      res.Done? && res.ok && res.lx == Sync(lx, l2) && res.rule == rule2
  {
    var corrected := Group(Jux, [Some(v)], Js.Int(1), Js.Infinity, true, a);
    assert JuxTerms(fuel, e, corrected.terms, 1, l2, rule2, temp2) == Done(true, l2, rule2, temp2);
    assert JuxTerms(fuel, e, corrected.terms, 0, Copy(lx), rule, Fresh) == Done(true, l2, rule2, temp2);
    assert AfterComma(e.str, true, Sync(lx, l2)) == None;
    assert Below(0, EndBound(corrected));
    assert JuxRepeat(fuel, e, corrected, 0, lx, rule, out, false) == Commit(fuel, e, corrected, 0, lx, l2, rule2, out, temp2, false);
  }

  /** A group at the root, on a token that is not a CSS-wide keyword, parses as its repetition. */
  lemma GroupAtRoot(fuel: nat, e: Env, id: nat, lx: Lx, rule: Obj)
    requires fuel > 0 && id < |e.nodes| && e.nodes[id].Group? && Tx(e.str, lx) !in DefaultKeywords
    ensures var res := Parse(fuel, e, id, lx, rule, Fresh, true);
      var rep := Repeat(fuel - 1, e, e.nodes[id], 0, lx, rule, Fresh, false, true);
      rep.Done? ==> res.Done? && res.ok == rep.ok && res.lx == rep.lx
  {
  }

  /** The notation `a#` and the input `a`, lexed with white space ignored. */
  const HashNotation := "a#"
  const HashA := Cursor(0, 1, Ident, 0, 0, 2, true, false, false)
  const HashMark := Cursor(1, 1, TokenType.Symbol, 0, 1, 2, true, false, false)
  const HashEnd := Cursor(2, 0, TokenType.Symbol, 0, 2, 2, true, false, false)

  const Empty := St([], map[], None)
  const LitA := Literal("a", NoAttrs)

  lemma HashLexStart()
    ensures Whind(HashNotation) == Lx(HashA, None)
  {
  }

  lemma HashLexMark()
    ensures Advance(HashNotation, Lx(HashA, None)) == Lx(HashMark, None)
  {
  }

  lemma HashLexEnd()
    ensures Advance(HashNotation, Lx(HashMark, None)) == Lx(HashEnd, None)
  {
  }

  /** The store after `#`: the JUX around the literal with its bounds and comma flag, prop not yet set. */
  function HashMarked(b: Build): seq<Node> {
    if b.AsWritten? then
      [LitA, Group(Jux, [Some(0), Some(2)], Js.Int(1), Js.Infinity, true, NoAttrs), Node.Symbol(",", NoAttrs)]
    else
      [LitA, Group(Jux, [Some(0)], Js.Int(1), Js.Infinity, true, NoAttrs)]
  }

  lemma HashExtensions(b: Build)
    ensures CheckExtensions(1, b, St([LitA], map[], None), HashNotation, Lx(HashMark, None), Some(0))
         == Ok(Some(1), St(HashMarked(b), map[], None), Lx(HashEnd, None))
  {
    HashLexEnd();
    var st1 := St([LitA], map[], None);
    var folded := St([LitA, NewGroup(Jux, [Some(0)])], map[], None);
    assert !st1.nodes[0].Group? && Valid(st1);
    var added := Add(st1, NewGroup(Jux, [Some(0)]));
    assert added.0 == folded && added.1 == 1;
    assert Fold(st1, Some(0), None) == (folded, Some(1));
    var g := NewGroup(Jux, [Some(0)]);
    var s2 := if b.AsWritten? then St([LitA, g.(terms := [Some(0), Some(2)]), Node.Symbol(",", NoAttrs)], map[], None) else folded;
    if b.AsWritten? {
      var (s0, c) := Add(folded, Node.Symbol(",", NoAttrs));
      assert c == 2 && s0 == St([LitA, g, Node.Symbol(",", NoAttrs)], map[], None);
      assert s0.nodes[1].terms + [Some(2)] == [Some(0), Some(2)];
      assert s0.nodes[1 := s0.nodes[1].(terms := [Some(0), Some(2)])] == s2.nodes;
      assert Push(s0, 1, Some(2)) == s2;
    }
    var s3 := SetBounds(s2, 1, Js.Int(1), Js.Infinity);
    assert Update(s3, 1, s3.nodes[1].(requireComma := true)) == St(HashMarked(b), map[], None);
    assert CommaMarked(b, folded, 1) == St(HashMarked(b), map[], None);
    assert Ch(HashNotation, Lx(HashEnd, None)) == -1;
    assert Hash(b, folded, 1, HashNotation, Lx(HashMark, None)) == Ok(Some(1), St(HashMarked(b), map[], None), Lx(HashEnd, None));
  }
  /** The term store `a#` compiles to: the literal, its JUX, and as written the comma SymbolTerm. */
  function HashStore(b: Build, name: string): seq<Node> {
    if b.AsWritten? then
      [LitA, Group(Jux, [Some(0), Some(2)], Js.Int(1), Js.Infinity, true, NoAttrs.(prop := Some(name))), Node.Symbol(",", NoAttrs)]
    else
      [LitA, Group(Jux, [Some(0)], Js.Int(1), Js.Infinity, true, NoAttrs.(prop := Some(name)))]
  }

  lemma HashToken(b: Build, env: CEnv)
    ensures TokenCase(1, b, env, Empty, HashNotation, Lx(HashA, None), NoFlags, None)
         == Continue(Some(1), St(HashMarked(b), map[], None), Lx(HashEnd, None))
  {
    HashLexMark(); HashExtensions(b);
    assert Tx(HashNotation, Lx(HashA, None)) == "a";
    assert Empty.nodes + [LitA] == [LitA];
    assert Add(Empty, LitA) == (St([LitA], map[], None), 0);
    TokenCaseFirst(1, b, env, Empty, HashNotation, Lx(HashA, None), NoFlags);
  }

  /** A token that starts no bracket, value name or combinator goes to the default case. */
  lemma SwitchToToken(fuel: nat, b: Build, env: CEnv, st: St, str: string, lx: Lx, fl: Flags, t: Option<nat>)
    requires Valid(st) && ValidTerm(st, t) && !End(lx)
    requires Ch(str, lx) !in {']' as int, '[' as int, '<' as int, '&' as int, '|' as int}
    ensures SwitchCase(fuel, b, env, st, str, lx, fl, t) == TokenCase(fuel, b, env, st, str, lx, fl, t)
  {
  }

  lemma HashSwitch(b: Build, env: CEnv)
    ensures SwitchCase(1, b, env, Empty, HashNotation, Lx(HashA, None), NoFlags, None)
         == Continue(Some(1), St(HashMarked(b), map[], None), Lx(HashEnd, None))
  {
    assert Ch(HashNotation, Lx(HashA, None)) == 'a' as int;
    SwitchToToken(1, b, env, Empty, HashNotation, Lx(HashA, None), NoFlags, None);
    HashToken(b, env);
  }

  lemma HashAtEnd(b: Build, env: CEnv)
    ensures D1Loop(1, b, env, St(HashMarked(b), map[], None), HashNotation, Lx(HashEnd, None), NoFlags, Some(1))
         == Ok(Some(1), St(HashMarked(b), map[], None), Lx(HashEnd, None))
  {
    assert End(Lx(HashEnd, None));
  }

  lemma HashD1(b: Build, env: CEnv)
    ensures D1(2, b, env, Empty, HashNotation, Lx(HashA, None), NoFlags) == Ok(Some(1), St(HashMarked(b), map[], None), Lx(HashEnd, None))
  {
    HashSwitch(b, env); HashAtEnd(b, env);
    assert !End(Lx(HashA, None));
  }

  /**
   * `a#` compiles to a JUX over the literal with bounds [1,∞] and the
   * comma flag; as written its children are the literal and a `","`
   * SymbolTerm, corrected the literal alone.
   */
  lemma HashCompiles(b: Build, env: CEnv, name: string)
    ensures CreatePropertyParser(3, b, env, Empty, HashNotation, name) == Made(1, St(HashStore(b, name), map[], None))
  {
    HashLexStart(); HashD1(b, env);
    var st3 := St(HashMarked(b), map[], None);
    assert SetAttrs(st3, 1, AttrsOf(st3.nodes[1]).(prop := Some(name))) == St(HashStore(b, name), map[], None);
  }

  /** The input `a`. */
  const InputA := "a"
  const InputStart := Cursor(0, 1, Ident, 0, 0, 1, true, false, false)
  const InputEnd := Cursor(1, 0, TokenType.Symbol, 0, 1, 1, true, false, false)

  lemma InputLexStart()
    ensures Whind(InputA) == Lx(InputStart, None)
  {
    var c := Initial(InputA, false);
    var ctx := OwnCtx(None, c);
    assert RunEnd(InputA, 1, 1, IdentChars) == 1;
    assert TokenAt(InputA, ctx, None, c, 1, 0, 0, 0) == Scanned(Ident, 0, 1, 0, 0, 1);
    assert LexSpec.Scan(InputA, ctx, None, c, 1, 0, 0, 0) == Scanned(Ident, 0, 1, 0, 0, 1);
  }

  lemma InputLexEnd()
    ensures Advance(InputA, Lx(InputStart, None)) == Lx(InputEnd, None)
  {
  }

  /** A LiteralTerm that is not the root matches a token with its text, records it, and leaves the rule alone. */
  lemma LiteralMatches(fuel: nat, e: Env, id: nat, lx: Lx, rule: Obj, out: Obj)
    requires fuel > 0 && id < |e.nodes| && e.nodes[id].Literal? && Tx(e.str, lx) == e.nodes[id].text
    ensures var res := Parse(fuel, e, id, lx, rule, out, false);
      res.Done? && res.ok && res.lx == Advance(e.str, lx) && res.rule == rule
  {
  }

  /**
   * The store `a#` at the root on an input whose first token is `a` and is
   * followed by no comma: as written it does not match and reads nothing;
   * corrected it matches and reads up to the token after `a`.
   */
  lemma HashListAtRoot(b: Build, e: Env, name: string, lx: Lx, rule: Obj)
    requires e.nodes == HashStore(b, name)
    requires Tx(e.str, lx) == "a" && !End(lx) && lx.p.None?
    requires Tx(e.str, Advance(e.str, lx)) != "," && Ch(e.str, Advance(e.str, lx)) != ',' as int
    ensures var res := Parse(3, e, 1, lx, rule, Fresh, true);
      res.Done? && (res.ok <==> b.Corrected?)
      && (b.AsWritten? ==> res.lx == lx)
      && (b.Corrected? ==> res.lx == Sync(lx, Advance(e.str, lx)))
  {
    assert Copy(lx) == lx;
    LiteralMatches(2, e, 0, lx, rule, Fresh);
    var p := Parse(2, e, 0, lx, rule, Fresh, false);
    var a := NoAttrs.(prop := Some(name));
    assert e.nodes[1] == if b.AsWritten? then Group(Jux, [Some(0), Some(2)], Js.Int(1), Js.Infinity, true, a)
                         else Group(Jux, [Some(0)], Js.Int(1), Js.Infinity, true, a);
    if b.AsWritten? {
      CommaListAsWritten(2, e, 0, 2, a, lx, rule, Fresh, p.lx, p.rule, p.out);
    } else {
      CommaListCorrected(2, e, 0, a, lx, rule, Fresh, p.lx, p.rule, p.out);
    }
    assert "a" !in DefaultKeywords;
    GroupAtRoot(3, e, 1, lx, rule);
  }

  lemma InputTokens()
    ensures Tx(InputA, Lx(InputStart, None)) == "a" && !End(Lx(InputStart, None))
    ensures Tx(InputA, Lx(InputEnd, None)) == "" && Ch(InputA, Lx(InputEnd, None)) == -1
    ensures End(Sync(Lx(InputStart, None), Lx(InputEnd, None)))
  {
  }

  /** The input `a` lexed: one token `a`, then the end. */
  lemma InputFacts()
    ensures var lx := Whind(InputA); var l2 := Advance(InputA, lx);
      Tx(InputA, lx) == "a" && !End(lx) && lx.p.None?
      && Tx(InputA, l2) == "" && Ch(InputA, l2) == -1 && End(Sync(lx, l2))
  {
    InputLexStart();
    InputLexEnd();
    InputTokens();
  }

  /**
   * The property `name: a#` on the value `a`, a list of one item: as
   * written it does not match and reads nothing; corrected it matches and
   * reads the whole value.
   */
  lemma HashListOfOne(b: Build, name: string, names: map<string, Rgba>, ext: ExternalParser, rule: Obj)
    ensures var e := Env(InputA, HashStore(b, name), names, ext);
      var res := Parse(3, e, 1, Whind(InputA), rule, Fresh, true);
      res.Done? && (res.ok <==> b.Corrected?)
      && (b.AsWritten? ==> res.lx == Whind(InputA))
      && (b.Corrected? ==> End(res.lx))
  {
    InputFacts();
    HashListAtRoot(b, Env(InputA, HashStore(b, name), names, ext), name, Whind(InputA), rule);
  }

  // ---------------------------------------------------------------- CSS-wide keywords in a declaration

  /**
   * The value lexer of a declaration `color:inherit` followed by `stop`:
   * the keyword token at offset 6, fenced at the offset of `stop`.
   */
  function KeywordValue(str: string, fence: int): Lx {
    Lx(Cursor(6, 7, Ident, 0, 6, fence, true, false, false), None)
  }

  /** The token at offset 6 of a declaration starting `color:inherit` is the keyword. */
  lemma KeywordToken(str: string)
    requires |str| >= 13 && str[..13] == "color:inherit"
    ensures forall fence :: Tx(str, KeywordValue(str, fence)) == "inherit"
  {
    assert str[6..13] == str[..13][6..13];
  }

  /** `color:inherit;` and `color:inherit}`: the keyword is alone in its value and is valid. */
  lemma KeywordBeforeStopIsValid()
    ensures CheckDefaults("color:inherit;", KeywordValue("color:inherit;", 13)).0 == 1
    ensures CheckDefaults("color:inherit}", KeywordValue("color:inherit}", 13)).0 == 1
  {
    KeywordToken("color:inherit;");
    KeywordToken("color:inherit}");
    KeywordLastIsValid("color:inherit;", KeywordValue("color:inherit;", 13));
    KeywordLastIsValid("color:inherit}", KeywordValue("color:inherit}", 13));
  }

  /** `color:inherit red;`: the keyword shares its value with `red` and is invalid. */
  lemma KeywordWithOtherValueIsInvalid()
    ensures CheckDefaults("color:inherit red;", KeywordValue("color:inherit red;", 17)).0 == 0
  {
    var str := "color:inherit red;";
    var lx := KeywordValue(str, 17);
    KeywordToken(str);
    var c := PeekStart(lx.c, |str|);
    var ctx := OwnCtx(None, c);
    assert RunEnd(str, |str|, 14, Spaces) == 14;
    assert RunEnd(str, |str|, 17, IdentChars) == 17;
    assert TokenAt(str, ctx, None, c, |str|, 14, 14, 0) == Scanned(Ident, 14, 3, 14, 0, |str|);
    assert LexSpec.Scan(str, ctx, None, c, |str|, 14, 14, 0) == Scanned(Ident, 14, 3, 14, 0, |str|);
    assert LexSpec.Scan(str, ctx, None, c, |str|, 13, 13, 0) == Scanned(Ident, 14, 3, 14, 0, |str|);
    assert NextInBound(str, ctx, None, c).off == 14;
    assert PeekNext(str, lx.c, |str|).off == 14;
  }
}
