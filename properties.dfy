/**
 * `CSSRuleBody.parseProperty` and `_applyProperties_`: a declaration is a
 * name, a `:` and a value that runs to the next `;` or `}`.  The name is
 * stored with `-` turned into `_`; the value is handed, on a lexer fenced at
 * its end, to the parser compiled for the name, which writes into the rule's
 * property map.  A value the parser cannot read, a name nobody defines and
 * a grammar that throws are all passed over, and reading goes on after the
 * value whatever its parser did.
 *
 * The definition tables are the compiler's state, threaded through as a
 * value; the compiler is the corrected build.
 */
module Properties {
  import opened Wrappers
  import opened LexSpec
  import opened LexerValue
  import opened Values
  import opened Leaves
  import opened Grammar
  import opened Compiler
  import Evaluator
  import LexerObject
  import Rules
  import Js

  /** What a declaration reads besides the lexer and the definitions: the virtual definitions, the colour names and the external leaf parsers. */
  datatype Tables = Tables(cenv: CEnv, names: map<string, Rgba>, ext: ExternalParser)

  /** After a declaration: the lexer, the property map and the definitions; or an exception that is not caught; or no fuel. */
  datatype PropOut = PropDone(lx: Lx, props: Obj, st: St) | PropThrew | PropNoFuel

  /** What the value's parser leaves: the property map and the definitions, or no fuel. */
  datatype Declared = Declared(props: Obj, st: St) | DeclNoFuel

  /** A lexer whose token has been read by `next` (only a fresh lexer has a negative length). */
  predicate Settled(l: Lx) { l.c.tl >= 0 }

  /** Whether the token ends a value: `;`, `}` or the end. */
  predicate AtStop(str: string, p: Lx) {
    Ch(str, p) == '}' as int || Ch(str, p) == ';' as int || End(p)
  }

  lemma CommentSettles(str: string, c: Cursor, pb: int)
    requires c.tl >= 0
    ensures var o := LexerObject.CommentSpec(str, c, pb, true); o.ok ==> o.marker.tl >= 0
  {
    if CodeAt(str, c.off) == '/' as int {
      var pk := LexerObject.PeekNext(str, c, pb);
      NextAdvances(str, OwnCtx(None, c), LexerObject.PeekStart(c, pb));
      if CodeAt(str, pk.off) == '*' as int {
        var e := LexerObject.BlockSkip(str, LexerObject.SyncState(c, pk), pk);
        var c2 := LexerObject.SyncState(e.marker, e.peek);
        NextAdvances(str, OwnCtx(None, c2), c2);
      } else {
        var e := LexerObject.LineSkip(str, c.(iws := false)).(iws := c.iws);
        NextAdvances(str, OwnCtx(None, e), e);
      }
    }
  }

  /**
   * `comment(true)`: past the comment, or None where it throws.  The peek
   * lexer is left with the bound the comment gave it, which is what a later
   * `pk` reads of it.
   */
  function CommentLx(str: string, l: Lx): (r: Option<Lx>)
    requires Settled(l)
    ensures r.Some? ==> Settled(r.value)
  {
    var pb := if l.p.Some? then l.p.value.c.sl else |str|;
    var o := LexerObject.CommentSpec(str, l.c, pb, true);
    CommentSettles(str, l.c, pb);
    if !o.ok then None
    else Some(Lx(o.marker, Some(Lx(o.marker.(sl := o.peekBound), if l.p.Some? then l.p.value.p else None))))
  }

  /** The scan for the end of a value: `next` on the peek lexer until a `;`, a `}` or the end. */
  function ValueEnd(str: string, p: Lx): (r: Lx)
    ensures AtStop(str, r)
    ensures Settled(p) ==> Settled(r)
    decreases Unsettled(p), Progress(p.c)
  {
    if AtStop(str, p) then p
    else
      NextAdvances(str, OwnCtx(None, p.c), p.c);
      ValueEnd(str, Advance(str, p))
  }

  /**
   * Where a value ends, from the lexer at its first token.  As written the
   * scan starts on the peek lexer, one token on, so the first token is never
   * looked at; corrected, a value that is empty ends where it starts.
   */
  function ValueStop(b: Build, str: string, l1: Lx): (p: Lx)
    ensures AtStop(str, p)
    ensures Settled(l1) ==> Settled(p)
  {
    if b == Corrected && AtStop(str, l1) then l1
    else
      var pk := Peek(str, l1).p.value;
      NextAdvances(str, OwnCtx(None, l1.c), LexerObject.PeekStart(l1.c, if l1.p.Some? then l1.p.value.c.sl else |str|));
      ValueEnd(str, pk)
  }

  /** The reading lexer after the value: synced with the peek lexer at the stop (left where it is when the value is empty). */
  function AfterValue(b: Build, str: string, l1: Lx): (l: Lx)
    ensures Settled(l1) ==> Settled(l)
  {
    var p := ValueStop(b, str, l1);
    if b == Corrected && AtStop(str, l1) then l1
    else Sync(Peek(str, l1).(p := Some(p)), p)
  }

  /** The lexer the value's parser reads: a copy at the value's first token, fenced at the stop. */
  function ValueLexer(b: Build, str: string, l1: Lx): (l: Lx)
    ensures l.c.sl == ValueStop(b, str, l1).c.off && l.c.off == l1.c.off
  {
    Fence(Copy(l1), ValueStop(b, str, l1))
  }

  /**
   * `getPropertyParser(name)` and `parser.parse(out_lex, rule.props)`: an
   * exception is caught and reported, a missing or virtual parser is
   * reported, and otherwise the parser's writes are kept, whether or not it
   * matched.
   */
  function Declare(fuel: nat, t: Tables, st: St, str: string, name: string, value: Lx, props: Obj): (r: Declared)
    requires Valid(st)
    ensures r.Declared? ==> Grows(st, r.st)
    ensures r.Declared? && r.props != props ==> Defined(st.defs, name)
  {
    match GetPropertyParser(fuel, Corrected, t.cenv, st, name)
    case LookupThrew => GrowsReflexive(st); Declared(props, st)
    case LookupNoFuel => DeclNoFuel
    case Found(id, isVirtual, st2) =>
      if id.None? || isVirtual then Declared(props, st2)
      else
        match Evaluator.Parse(fuel, Evaluator.Env(str, st2.nodes, t.names, t.ext), id.value, value, props, Fresh, true)
        case Done(_, _, rule, _) => Declared(rule, st2)
        case Threw => Declared(props, st2)
        case NoFuel => DeclNoFuel
  }

  /**
   * `parseProperty(lexer, rule, definitions)`, with the value's end as
   * corrected: a comment is skipped and the declaration after it read; the
   * name's token must be followed by `:`; reading resumes at the stop, past
   * it when it is a `;`.  One unit of fuel per comment.
   */
  function ParsePropertySpec(fuel: nat, t: Tables, st: St, str: string, lx: Lx, props: Obj): (r: PropOut)
    requires Settled(lx) && Valid(st)
    ensures r.PropDone? ==> Settled(r.lx) && Grows(st, r.st)
    decreases fuel, 1
  {
    if fuel == 0 then PropNoFuel else PropertyAt(fuel, t, st, str, lx, props)
  }

  /** One call of ParsePropertySpec with fuel left: a comment, or a declaration. */
  function PropertyAt(fuel: nat, t: Tables, st: St, str: string, lx: Lx, props: Obj): (r: PropOut)
    requires Settled(lx) && Valid(st) && fuel > 0
    ensures r.PropDone? ==> Settled(r.lx) && Grows(st, r.st)
    decreases fuel, 0
  {
    if Ch(str, lx) == '/' as int then
      match CommentLx(str, lx)
      case None => PropThrew
      case Some(l1) => ParsePropertySpec(fuel - 1, t, st, str, l1, props)
    else
      var name := Js.Underscored(Tx(str, lx));
      NextAdvances(str, OwnCtx(None, lx.c), lx.c);
      match Expect(str, Advance(str, lx), ":")
      case None => PropThrew
      case Some(l1) =>
        NextAdvances(str, OwnCtx(None, Advance(str, lx).c), Advance(str, lx).c);
        var lexer := AfterValue(Corrected, str, l1);
        match Declare(fuel - 1, t, st, str, name, ValueLexer(Corrected, str, l1), props)
        case DeclNoFuel => PropNoFuel
        case Declared(props2, st2) =>
          NextAdvances(str, OwnCtx(None, lexer.c), lexer.c);
          PropDone(if Ch(str, lexer) == ';' as int then Advance(str, lexer) else lexer, props2, st2)
  }

  /** `_applyProperties_`: declarations up to a `}` or the end, then one `next`; one unit of fuel per declaration. */
  function ApplyPropertiesSpec(fuel: nat, t: Tables, st: St, str: string, lx: Lx, props: Obj): (r: PropOut)
    requires Settled(lx) && Valid(st)
    ensures r.PropDone? ==> Settled(r.lx) && Grows(st, r.st)
    decreases fuel, 1
  {
    if fuel == 0 then PropNoFuel
    else if End(lx) || Tx(str, lx) == "}" then
      NextAdvances(str, OwnCtx(None, lx.c), lx.c);
      GrowsReflexive(st);
      PropDone(Advance(str, lx), props, st)
    else ApplyFrom(fuel, t, st, str, lx, props)
  }

  /** One declaration of a block that is not closed yet, then the rest of the block. */
  function ApplyFrom(fuel: nat, t: Tables, st: St, str: string, lx: Lx, props: Obj): (r: PropOut)
    requires Settled(lx) && Valid(st) && fuel > 0
    ensures r.PropDone? ==> Settled(r.lx) && Grows(st, r.st)
    decreases fuel, 0
  {
    var q := ParsePropertySpec(fuel - 1, t, st, str, lx, props);
    if !q.PropDone? then q
    else
      var r := ApplyPropertiesSpec(fuel - 1, t, q.st, str, q.lx, q.props);
      if r.PropDone? then GrowsTransitive(st, q.st, r.st); r else r
  }

  // ---------------------------------------------------------------- properties

  /**
   * Where a declaration ends, read from the text alone: past its comments,
   * its name and `:`, at its value's stop and past it when that is a `;`;
   * None where the text makes the lexer throw or the comments outrun the
   * fuel.
   */
  function DeclarationEnd(fuel: nat, str: string, lx: Lx): Option<Lx>
    requires Settled(lx)
    decreases fuel
  {
    if fuel == 0 then None
    else if Ch(str, lx) == '/' as int then
      match CommentLx(str, lx)
      case None => None
      case Some(l1) => DeclarationEnd(fuel - 1, str, l1)
    else
      match Expect(str, Advance(str, lx), ":")
      case None => None
      case Some(l1) =>
        var p := ValueStop(Corrected, str, l1);
        var lexer := if AtStop(str, l1) then l1 else Sync(Peek(str, l1).(p := Some(p)), p);
        Some(if Ch(str, lexer) == ';' as int then Advance(str, lexer) else lexer)
  }

  /** Where a rule block's declarations end, read from the text alone. */
  function BlockEnd(fuel: nat, str: string, lx: Lx): Option<Lx>
    requires Settled(lx)
    decreases fuel
  {
    if fuel == 0 then None
    else if End(lx) || Tx(str, lx) == "}" then Some(Advance(str, lx))
    else
      NextAdvances(str, OwnCtx(None, lx.c), lx.c);
      match DeclarationEnd(fuel - 1, str, lx)
      case None => None
      case Some(l2) => if Settled(l2) then BlockEnd(fuel - 1, str, l2) else None
  }

  /**
   * Recovery: where a declaration ends does not depend on the definitions,
   * the tables or the property map, so a value no parser reads, or one that
   * makes its parser throw, is passed over like any other; and only the
   * text makes a declaration throw.
   */
  lemma {:induction false} PropertyEndsByText(fuel: nat, t: Tables, st: St, str: string, lx: Lx, props: Obj)
    requires Settled(lx) && Valid(st)
    ensures var r := ParsePropertySpec(fuel, t, st, str, lx, props);
      (r.PropDone? ==> DeclarationEnd(fuel, str, lx) == Some(r.lx))
      && (r.PropThrew? ==> DeclarationEnd(fuel, str, lx).None?)
    decreases fuel
  {
    if fuel > 0 && Ch(str, lx) == '/' as int {
      match CommentLx(str, lx)
      case None =>
      case Some(l1) => PropertyEndsByText(fuel - 1, t, st, str, l1, props);
    } else if fuel > 0 {
      DeclarationEndsByText(fuel, t, st, str, lx, props);
    }
  }

  /** PropertyEndsByText for a declaration that does not start with a comment. */
  lemma DeclarationEndsByText(fuel: nat, t: Tables, st: St, str: string, lx: Lx, props: Obj)
    requires Settled(lx) && Valid(st) && fuel > 0 && Ch(str, lx) != '/' as int
    ensures var r := PropertyAt(fuel, t, st, str, lx, props);
      (r.PropDone? ==> DeclarationEnd(fuel, str, lx) == Some(r.lx))
      && (r.PropThrew? ==> DeclarationEnd(fuel, str, lx).None?)
  {
  }

  lemma ApplyStep(fuel: nat, t: Tables, st: St, str: string, lx: Lx, props: Obj)
    requires Settled(lx) && Valid(st) && fuel > 0
    ensures var r := ApplyPropertiesSpec(fuel, t, st, str, lx, props);
      var q := ParsePropertySpec(fuel - 1, t, st, str, lx, props);
      (End(lx) || Tx(str, lx) == "}" ==> r == PropDone(Advance(str, lx), props, st))
      && (!(End(lx) || Tx(str, lx) == "}") && q.PropDone? ==> r == ApplyPropertiesSpec(fuel - 1, t, q.st, str, q.lx, q.props))
      && (!(End(lx) || Tx(str, lx) == "}") && !q.PropDone? ==> r == q)
  {
  }

  lemma BlockEndStep(fuel: nat, str: string, lx: Lx, l2: Lx)
    requires Settled(lx) && fuel > 0 && !(End(lx) || Tx(str, lx) == "}")
    requires DeclarationEnd(fuel - 1, str, lx) == Some(l2) && Settled(l2)
    ensures BlockEnd(fuel, str, lx) == BlockEnd(fuel - 1, str, l2)
  {
  }

  lemma ClosedBlockEnd(fuel: nat, t: Tables, st: St, str: string, lx: Lx, props: Obj)
    requires Settled(lx) && Valid(st) && fuel > 0 && (End(lx) || Tx(str, lx) == "}")
    ensures var r := ApplyPropertiesSpec(fuel, t, st, str, lx, props);
      r.PropDone? ==> BlockEnd(fuel, str, lx) == Some(r.lx)
  {
    ApplyStep(fuel, t, st, str, lx, props);
  }

  /** The step of BlockEndsByText past one declaration. */
  lemma {:induction false} DeclarationThenBlock(fuel: nat, t: Tables, st: St, str: string, lx: Lx, props: Obj)
    requires Settled(lx) && Valid(st) && fuel > 0 && !(End(lx) || Tx(str, lx) == "}")
    ensures var r := ApplyFrom(fuel, t, st, str, lx, props);
      r.PropDone? ==> BlockEnd(fuel, str, lx) == Some(r.lx)
    decreases fuel, 0, 1
  {
    var q := ParsePropertySpec(fuel - 1, t, st, str, lx, props);
    if q.PropDone? {
      DoneEnds(fuel - 1, t, st, str, lx, props, q);
      var r := ApplyPropertiesSpec(fuel - 1, t, q.st, str, q.lx, q.props);
      DeclarationDoneThenBlock(fuel, t, q.st, str, lx, q.lx, q.props, r);
    }
  }

  /** DeclarationThenBlock once the declaration has parsed and ends at `l2`: the rest of the block from there. */
  lemma {:induction false} DeclarationDoneThenBlock(fuel: nat, t: Tables, st2: St, str: string, lx: Lx, l2: Lx, props2: Obj, r: PropOut)
    requires Settled(lx) && fuel > 0 && !(End(lx) || Tx(str, lx) == "}")
    requires DeclarationEnd(fuel - 1, str, lx) == Some(l2) && Settled(l2) && Valid(st2)
    requires r == ApplyPropertiesSpec(fuel - 1, t, st2, str, l2, props2)
    ensures r.PropDone? ==> BlockEnd(fuel, str, lx) == Some(r.lx)
    decreases fuel, 0, 0
  {
    BlockEndsAt(fuel - 1, t, st2, str, l2, props2, r);
    BlockEndStep(fuel, str, lx, l2);
  }

  /** PropertyEndsByText for a declaration that parses, with the facts DeclarationDoneThenBlock goes on from. */
  lemma DoneEnds(fuel: nat, t: Tables, st: St, str: string, lx: Lx, props: Obj, q: PropOut)
    requires Settled(lx) && Valid(st)
    requires q == ParsePropertySpec(fuel, t, st, str, lx, props) && q.PropDone?
    ensures Settled(q.lx) && Valid(q.st) && DeclarationEnd(fuel, str, lx) == Some(q.lx)
  {
    PropertyEndsByText(fuel, t, st, str, lx, props);
  }

  /** BlockEndsByText for the outcome `r` already computed. */
  lemma {:induction false} BlockEndsAt(fuel: nat, t: Tables, st: St, str: string, lx: Lx, props: Obj, r: PropOut)
    requires Settled(lx) && Valid(st) && r == ApplyPropertiesSpec(fuel, t, st, str, lx, props)
    ensures r.PropDone? ==> BlockEnd(fuel, str, lx) == Some(r.lx)
    decreases fuel, 2
  {
    BlockEndsByText(fuel, t, st, str, lx, props);
  }

  lemma OpenBlockApplies(fuel: nat, t: Tables, st: St, str: string, lx: Lx, props: Obj)
    requires Settled(lx) && Valid(st) && fuel > 0 && !(End(lx) || Tx(str, lx) == "}")
    ensures ApplyPropertiesSpec(fuel, t, st, str, lx, props) == ApplyFrom(fuel, t, st, str, lx, props)
  {
  }

  /** A rule block ends in the same place whatever the definitions make of its declarations. */
  lemma {:induction false} BlockEndsByText(fuel: nat, t: Tables, st: St, str: string, lx: Lx, props: Obj)
    requires Settled(lx) && Valid(st)
    ensures var r := ApplyPropertiesSpec(fuel, t, st, str, lx, props);
      r.PropDone? ==> BlockEnd(fuel, str, lx) == Some(r.lx)
    decreases fuel, 1
  {
    if fuel > 0 {
      if End(lx) || Tx(str, lx) == "}" {
        ClosedBlockEnd(fuel, t, st, str, lx, props);
      } else {
        OpenBlockApplies(fuel, t, st, str, lx, props);
        DeclarationThenBlock(fuel, t, st, str, lx, props);
      }
    }
  }

  /**
   * Only a name with an entry in the definitions table changes the
   * property map: a name found only among the virtual definitions, or
   * nowhere, is reported and passed over.
   */
  lemma UndefinedNameKeepsProps(fuel: nat, t: Tables, st: St, str: string, lx: Lx, props: Obj)
    requires Settled(lx) && Valid(st) && Ch(str, lx) != '/' as int
    requires !Defined(st.defs, Js.Underscored(Tx(str, lx)))
    ensures var r := ParsePropertySpec(fuel, t, st, str, lx, props); r.PropDone? ==> r.props == props
  {
  }

  /** The name a declaration is stored under has no `-`, and writing it back with `-` and reading it again gives it back. */
  lemma StoredNameReadsBack(tx: string)
    ensures var name := Js.Underscored(tx); '-' !in name && Js.Underscored(Js.Hyphenated(name)) == name
  {
    Js.UnderscoredIdempotent(tx);
    Js.UnderscoredUndoes(Js.Underscored(tx));
  }

  // ---------------------------------------------------------------- the empty value

  /**
   * As written, an empty value (`color:;top:1px` or `color:}`) does not end
   * at its own `;` or `}`: the scan starts one token on, at the next
   * declaration's name, and runs past it to the following stop.  The next
   * declaration becomes part of this one's value.
   */
  lemma EmptyValueSwallowsNext(str: string, l1: Lx)
    requires Settled(l1) && !End(l1) && (Ch(str, l1) == ';' as int || Ch(str, l1) == '}' as int)
    requires var nm := Peek(str, l1).p.value; !AtStop(str, nm)
    ensures var nm := Peek(str, l1).p.value;
      ValueStop(AsWritten, str, l1) == ValueEnd(str, Advance(str, nm))
  {
    var nm := Peek(str, l1).p.value;
    assert ValueEnd(str, nm) == ValueEnd(str, Advance(str, nm));
    assert Peek(str, l1).c == l1.c;
  }

  /**
   * Corrected, an empty value ends at its own stop: the value lexer is
   * empty and reading resumes right after the `;` (or at the `}`), at the
   * next declaration.
   */
  lemma EmptyValueEndsAtItsStop(fuel: nat, t: Tables, st: St, str: string, lx: Lx, props: Obj, l1: Lx)
    requires Settled(lx) && Valid(st) && Ch(str, lx) != '/' as int
    requires Expect(str, Advance(str, lx), ":") == Some(l1) && AtStop(str, l1)
    ensures End(ValueLexer(Corrected, str, l1))
    ensures var r := ParsePropertySpec(fuel, t, st, str, lx, props);
      r.PropDone? ==> r.lx == (if Ch(str, l1) == ';' as int then Advance(str, l1) else l1)
  {
  }

  // ---------------------------------------------------------------- the methods

  /** `while ((p.ch !== "}" && p.ch !== ";") && !p.END) p.next();` on the peek lexer. */
  method ScanValue(str: string, p0: Lx) returns (p: Lx)
    ensures p == ValueEnd(str, p0)
  {
    p := p0;
    while !AtStop(str, p)
      invariant ValueEnd(str, p) == ValueEnd(str, p0)
      decreases Unsettled(p), Progress(p.c)
    {
      NextAdvances(str, OwnCtx(None, p.c), p.c);
      p := Advance(str, p);
    }
  }

  /** The value of a declaration whose `:` is behind `l1`: its fenced lexer, and where reading resumes. */
  method ScanDeclarationValue(str: string, l1: Lx) returns (lexer: Lx, value: Lx)
    requires Settled(l1)
    ensures lexer == AfterValue(Corrected, str, l1) && value == ValueLexer(Corrected, str, l1)
  {
    if AtStop(str, l1) {
      lexer := l1;
      value := Fence(Copy(l1), l1);
    } else {
      var lp := Peek(str, l1);
      NextAdvances(str, OwnCtx(None, l1.c), LexerObject.PeekStart(l1.c, if l1.p.Some? then l1.p.value.c.sl else |str|));
      var p := ScanValue(str, lp.p.value);
      value := Fence(Copy(l1), p);
      lexer := Sync(lp.(p := Some(p)), p);
    }
  }

  /**
   * `parseProperty(lexer, rule, definitions)`: the rule's property map
   * takes what the value's parser writes; the lexer, the definitions and
   * the outcome are the specification's.
   */
  method ParseProperty(fuel: nat, t: Tables, st: St, str: string, lx: Lx, rule: Rules.Rule) returns (r: PropOut)
    requires Settled(lx) && Valid(st) && rule.Valid()
    modifies rule
    ensures r == ParsePropertySpec(fuel, t, st, str, lx, old(rule.props))
    ensures rule.Valid() && rule.props == (if r.PropDone? then r.props else old(rule.props))
    ensures rule.loaded == old(rule.loaded) && rule.ver == old(rule.ver) && rule.refs == old(rule.refs)
    decreases fuel
  {
    if fuel == 0 {
      return PropNoFuel;
    }
    if Ch(str, lx) == '/' as int {
      var l1 := CommentLx(str, lx);
      if l1.None? {
        return PropThrew;
      }
      r := ParseProperty(fuel - 1, t, st, str, l1.value, rule);
      return;
    }
    var name := Js.Underscored(Tx(str, lx));
    NextAdvances(str, OwnCtx(None, lx.c), lx.c);
    var l1 := Expect(str, Advance(str, lx), ":");
    if l1.None? {
      return PropThrew;
    }
    NextAdvances(str, OwnCtx(None, Advance(str, lx).c), Advance(str, lx).c);
    var lexer, value := ScanDeclarationValue(str, l1.value);
    var d := Declare(fuel - 1, t, st, str, name, value, rule.props);
    if d.DeclNoFuel? {
      return PropNoFuel;
    }
    if d.props != rule.props {
      rule.Assign(d.props);
    }
    NextAdvances(str, OwnCtx(None, lexer.c), lexer.c);
    if Ch(str, lexer) == ';' as int {
      lexer := Advance(str, lexer);
    }
    return PropDone(lexer, d.props, d.st);
  }

  /**
   * One pass of `_applyProperties_`'s loop: the block is closed (the
   * outcome is final), or a declaration was read and the loop goes on.
   */
  method ApplyPass(fuel: nat, t: Tables, st: St, str: string, lx: Lx, rule: Rules.Rule) returns (r: PropOut, more: bool)
    requires fuel > 0 && Settled(lx) && Valid(st) && rule.Valid()
    modifies rule
    ensures !more ==> r == ApplyPropertiesSpec(fuel, t, st, str, lx, old(rule.props))
    ensures more ==> r.PropDone? && Settled(r.lx) && Valid(r.st)
    ensures more ==> ApplyPropertiesSpec(fuel, t, st, str, lx, old(rule.props)) == ApplyPropertiesSpec(fuel - 1, t, r.st, str, r.lx, r.props)
    ensures rule.Valid() && (r.PropDone? ==> rule.props == r.props)
    ensures rule.loaded == old(rule.loaded) && rule.ver == old(rule.ver) && rule.refs == old(rule.refs)
  {
    ApplyStep(fuel, t, st, str, lx, rule.props);
    if End(lx) || Tx(str, lx) == "}" {
      return PropDone(Advance(str, lx), rule.props, st), false;
    }
    r := ParseProperty(fuel - 1, t, st, str, lx, rule);
    more := r.PropDone?;
  }

  /**
   * `_applyProperties_(lexer, rule)`: declarations into the rule up to the
   * block's `}`.  When a declaration throws, the ones before it stay written.
   */
  method ApplyProperties(fuel0: nat, t: Tables, st0: St, str: string, lx0: Lx, rule: Rules.Rule) returns (r: PropOut)
    requires Settled(lx0) && Valid(st0) && rule.Valid()
    modifies rule
    ensures r == ApplyPropertiesSpec(fuel0, t, st0, str, lx0, old(rule.props))
    ensures rule.Valid() && (r.PropDone? ==> rule.props == r.props)
    ensures rule.loaded == old(rule.loaded) && rule.ver == old(rule.ver) && rule.refs == old(rule.refs)
  {
    var fuel := fuel0;
    var lx := lx0;
    var st := st0;
    ghost var props := rule.props;
    ghost var target := ApplyPropertiesSpec(fuel0, t, st0, str, lx0, props);
    while true
      invariant Settled(lx) && Valid(st) && rule.Valid() && rule.props == props
      invariant ApplyPropertiesSpec(fuel, t, st, str, lx, props) == target
      invariant rule.loaded == old(rule.loaded) && rule.ver == old(rule.ver) && rule.refs == old(rule.refs)
      decreases fuel
    {
      if fuel == 0 {
        return PropNoFuel;
      }
      var more;
      r, more := ApplyPass(fuel, t, st, str, lx, rule);
      if !more {
        return;
      }
      fuel := fuel - 1;
      lx := r.lx;
      st := r.st;
      props := r.props;
    }
  }
}
