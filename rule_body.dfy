/**
 * `CSSSelector` and the synchronous part of `CSSRuleBody.parse`: a style
 * sheet is read as selector lists and rule blocks.  Each selector list is
 * looked up in the body's index and made once; a block's properties go
 * into a new rule, which a selector without a rule takes and a selector
 * with one merges into its own.
 *
 * As corrected, a selector list is indexed by its list of texts; the
 * source indexes it by the texts run together, so two different lists can
 * meet in one entry (see SelectorIdCollides).
 */
module RuleBodies {
  import opened Wrappers
  import opened LexSpec
  import opened LexerValue
  import opened Values
  import opened Leaves
  import opened Compiler
  import opened Selectors
  import opened Properties
  import Rules

  /** `get id()` as written: the selector texts joined with nothing between them. */
  function IdAsWritten(v: seq<string>): string
    decreases |v|
  {
    if |v| == 0 then "" else IdAsWritten(v[..|v| - 1]) + v[|v| - 1]
  }

  /** Two different selector lists whose ids as written are the same: `a, b` and `ab`. */
  lemma SelectorIdCollides()
    ensures ["a", "b"] != ["ab"] && IdAsWritten(["a", "b"]) == IdAsWritten(["ab"])
  {
    assert ["a", "b"][..1] == ["a"];
    assert ["a"][..0] == [];
    assert ["ab"][..0] == [];
  }

  /** A token whose text is `{` starts with that character. */
  lemma BraceToken(str: string, lx: Lx)
    ensures Tx(str, lx) == "{" ==> Ch(str, lx) == '{' as int
  {
    if Tx(str, lx) == "{" {
      var from := ClampIndex(lx.c.off, |str|);
      assert from == lx.c.off;
      assert Tx(str, lx)[0] == str[from];
    }
  }

  /** The scan past a failed `@import`: `next` until a `;` token or the end. */
  function ImportEnd(str: string, lx: Lx): (r: Lx)
    ensures Settled(lx) ==> Settled(r)
    decreases Unsettled(lx), Progress(lx.c)
  {
    if End(lx) then lx
    else
      NextAdvances(str, OwnCtx(None, lx.c), lx.c);
      var l := Advance(str, lx);
      if Tx(str, l) == ";" then l else ImportEnd(str, l)
  }

  /** The scan ends at the end of the input or on a `;`, and only passes over tokens that are not `;`. */
  lemma {:induction false} ImportEndStops(str: string, lx: Lx)
    ensures var r := ImportEnd(str, lx); End(r) || Tx(str, r) == ";"
    decreases Unsettled(lx), Progress(lx.c)
  {
    if !End(lx) {
      NextAdvances(str, OwnCtx(None, lx.c), lx.c);
      var l := Advance(str, lx);
      if Tx(str, l) != ";" {
        ImportEndStops(str, l);
      }
    }
  }

  method SkipImport(str: string, lx0: Lx) returns (lx: Lx)
    ensures lx == ImportEnd(str, lx0)
  {
    lx := lx0;
    while !End(lx)
      invariant ImportEnd(str, lx) == ImportEnd(str, lx0)
      decreases Unsettled(lx), Progress(lx.c)
    {
      NextAdvances(str, OwnCtx(None, lx.c), lx.c);
      lx := Advance(str, lx);
      if Tx(str, lx) == ";" {
        return;
      }
    }
  }

  /** How a body's reading ends: at its `}` or the end, at an `@media` or a fetched `@import` (where reading goes on later), or thrown or out of fuel. */
  datatype BodyOut = BodyDone(lx: Lx, st: St) | AtMedia(lx: Lx, st: St) | AtImport(url: Val, lx: Lx, st: St) | BodyThrew | BodyNoFuel

  /** What the loop makes of a token other than `{`: it stops, or it reads a selector list. */
  datatype Token = Halt(out: BodyOut) | Selected(v: seq<string>, a: seq<seq<Option<Part>>>, lx: Lx)

  /** `parseSelector` at a lexer, its failures stopping the loop. */
  function SelectorsFrom(fuel: nat, str: string, lx: Lx): Token {
    match ParseSelectorSpec(fuel, str, lx)
    case Parsed(v, a, l) => Selected(v, a, l)
    case SelThrew => Halt(BodyThrew)
    case SelNoFuel => Halt(BodyNoFuel)
  }

  /**
   * The switch of the loop on a character other than `{`: a `}` ends the
   * body, `@media` and an `@import` with a URL leave the loop, an
   * `@import` without one is passed over up to its `;`, any other at-rule
   * leaves its name to be read as a selector, a comment is passed over,
   * and a selector list is read from where that leaves the lexer.
   */
  function BodyToken(fuel: nat, st: St, str: string, lx: Lx): Token
    requires Settled(lx)
  {
    var c := Ch(str, lx);
    if c == '}' as int then Halt(BodyDone(Advance(str, lx), st))
    else if c == '@' as int then
      var l1 := Advance(str, lx);
      if Tx(str, l1) == "media" then Halt(AtMedia(l1, st))
      else if Tx(str, l1) == "import" then
        var u := UrlParse(str, Advance(str, l1));
        if u.LeafThrew? then Halt(BodyThrew)
        else if u.v != Null then
          match Expect(str, u.l, ";")
          case None => Halt(BodyThrew)
          case Some(l2) => Halt(AtImport(u.v, l2, st))
        else SelectorsFrom(fuel, str, Advance(str, ImportEnd(str, u.l)))
      else SelectorsFrom(fuel, str, l1)
    else if c == '/' as int then
      match CommentLx(str, lx)
      case None => Halt(BodyThrew)
      case Some(l1) => SelectorsFrom(fuel, str, l1)
    else SelectorsFrom(fuel, str, lx)
  }

  /**
   * A selector list read by the loop has one text per selector and well
   * tagged compounds, and leaves the lexer at its `{` or the end; the
   * loop's ways out carry the definitions state as they found it.
   */
  lemma TokenShaped(fuel: nat, st: St, str: string, lx: Lx)
    requires Settled(lx)
    ensures var tok := BodyToken(fuel, st, str, lx);
      (tok.Selected? ==> Shaped(tok.v, tok.a) && (End(tok.lx) || Tx(str, tok.lx) == "{"))
      && (tok.Halt? && (tok.out.BodyDone? || tok.out.AtMedia? || tok.out.AtImport?) ==> tok.out.st == st)
  {
    var c := Ch(str, lx);
    var l1 := Advance(str, lx);
    if c == '@' as int && Tx(str, l1) == "import" {
      var u := UrlParse(str, Advance(str, l1));
      if u.LeafOut? && u.v == Null {
        SelectorShaped(fuel, str, Advance(str, ImportEnd(str, u.l)));
      }
    } else if c == '@' as int {
      SelectorShaped(fuel, str, l1);
    } else if c == '/' as int {
      match CommentLx(str, lx)
      case None =>
      case Some(l2) => SelectorShaped(fuel, str, l2);
    } else {
      SelectorShaped(fuel, str, lx);
    }
  }

  /** One pass of the loop on a character other than `{`. */
  method ReadToken(fuel: nat, st: St, str: string, lx0: Lx) returns (tok: Token)
    requires Settled(lx0)
    ensures tok == BodyToken(fuel, st, str, lx0)
  {
    var lx := lx0;
    var c := Ch(str, lx);
    if c == '}' as int {
      return Halt(BodyDone(Advance(str, lx), st));
    } else if c == '@' as int {
      lx := Advance(str, lx);
      if Tx(str, lx) == "media" {
        return Halt(AtMedia(lx, st));
      } else if Tx(str, lx) == "import" {
        var u := UrlParse(str, Advance(str, lx));
        if u.LeafThrew? {
          return Halt(BodyThrew);
        } else if u.v != Null {
          var l2 := Expect(str, u.l, ";");
          if l2.None? {
            return Halt(BodyThrew);
          }
          return Halt(AtImport(u.v, l2.value, st));
        }
        lx := SkipImport(str, u.l);
        lx := Advance(str, lx);
      }
    } else if c == '/' as int {
      var l1 := CommentLx(str, lx);
      if l1.None? {
        return Halt(BodyThrew);
      }
      lx := l1.value;
    }
    var sel := ParseSelector(fuel, str, lx);
    if sel.SelThrew? {
      return Halt(BodyThrew);
    } else if sel.SelNoFuel? {
      return Halt(BodyNoFuel);
    }
    return Selected(sel.v, sel.a, sel.lx);
  }

  /** The properties of the block whose `{` is lx's token, read into an empty map. */
  function BlockAfter(fuel: nat, t: Tables, st: St, str: string, lx: Lx): PropOut
    requires Compiler.Valid(st)
  {
    NextAdvances(str, OwnCtx(None, lx.c), lx.c);
    ApplyPropertiesSpec(fuel, t, st, str, Advance(str, lx), map[])
  }

  /** The outcome of one pass of the loop: go on from a lexer, a definitions state and the pending selectors, or leave. */
  datatype Passed = Next(lx: Lx, st: St, pending: seq<Selector>) | Left(out: BodyOut)

  /** `CSSSelector`: the selector texts, their compounds and the rule the selector is bound to. */
  class Selector {
    const v: seq<string>
    const a: seq<seq<Option<Part>>>
    var r: Rules.Rule?

    constructor(v: seq<string>, a: seq<seq<Option<Part>>>)
      ensures this.v == v && this.a == a && r == null
    {
      this.v := v;
      this.a := a;
      r := null;
    }

    /** `removeRule()`: the rule, if any, loses this reference. */
    method RemoveRule()
      modifies this, r
      ensures r == null
      ensures old(r) != null ==> (old(r).refs == old(r.refs) - 1 && old(r).props == old(r.props)
        && old(r).order == old(r.order) && old(r).loaded == old(r.loaded) && old(r).ver == old(r.ver))
    {
      if r != null {
        r.DecrementRef();
      }
      r := null;
    }

    /** `addRule(rule)`: the old rule loses this reference, the new one gains it. */
    method AddRule(rule: Rules.Rule?)
      modifies this, r, rule
      ensures r == rule
      ensures old(r) != null && old(r) != rule ==> old(r).refs == old(r.refs) - 1
      ensures rule != null && rule != old(r) ==> rule.refs == old(rule.refs) + 1
      ensures rule != null && rule == old(r) ==> rule.refs == old(rule.refs)
      ensures old(r) != null ==> (old(r).props == old(r.props) && old(r).order == old(r.order)
        && old(r).loaded == old(r.loaded) && old(r).ver == old(r.ver))
      ensures rule != null ==> (rule.props == old(rule.props) && rule.order == old(rule.order)
        && rule.loaded == old(rule.loaded) && rule.ver == old(rule.ver))
    {
      RemoveRule();
      if rule != null {
        rule.IncrementRef();
      }
      r := rule;
    }
  }

  /**
   * `CSSRuleBody`: its selectors indexed by their texts and in order of
   * appearance, and its rules.  The ghost set holds every rule the body or
   * one of its selectors refers to.
   */
  class RuleBody {
    var index: map<seq<string>, Selector>
    var selA: seq<Selector>
    var rules: seq<Rules.Rule>
    ghost var ruleSet: set<Rules.Rule>

    /**
     * Each selector is listed once and stored under its own texts, the
     * index holds nothing else, and every rule in reach keeps its key list
     * in step with its map.
     */
    ghost predicate Valid()
      reads this, selA, ruleSet
    {
      Indexed() && Bound()
    }

    /** Each selector is listed once and stored under its own texts, and the index holds nothing else. */
    ghost predicate Indexed()
      reads this
    {
      (forall i, j | 0 <= i < j < |selA| :: selA[i] != selA[j])
      && (forall i | 0 <= i < |selA| :: selA[i].v in index && index[selA[i].v] == selA[i])
      && (forall k | k in index :: index[k] in selA && index[k].v == k)
    }

    /**
     * With selectors indexed by their lists of texts, two different
     * selectors never have the same list, and two different lists never
     * share a selector (compare SelectorIdCollides).
     */
    lemma OneSelectorPerList(i: int, j: int)
      requires Indexed() && 0 <= i < |selA| && 0 <= j < |selA|
      ensures selA[i] == selA[j] <==> selA[i].v == selA[j].v
      ensures selA[i] == selA[j] <==> i == j
    {
    }

    /** Every rule in reach is among the tracked rules, and each keeps its key list in step with its map. */
    ghost predicate Bound()
      reads this, selA, ruleSet
    {
      (forall s | s in selA :: s.r == null || s.r in ruleSet)
      && (forall R | R in rules :: R in ruleSet)
      && (forall R | R in ruleSet :: R.Valid())
    }

    constructor()
      ensures Valid() && index == map[] && selA == [] && rules == [] && ruleSet == {}
    {
      index := map[];
      selA := [];
      rules := [];
      ruleSet := {};
    }

    /** One pass of the `{` case's loop: the selector takes the rule, or merges it into its own. */
    static method Bind(s: Selector, rule: Rules.Rule) returns (merged: bool)
      requires rule.Valid() && (s.r == null || s.r.Valid())
      modifies s, s.r, rule
      ensures merged == (old(s.r) != null)
      ensures s.r == (if old(s.r) == null then rule else old(s.r))
      ensures rule.props == old(rule.props) && rule.Valid()
      ensures old(s.r) != null ==> s.r.props == old(s.r.props) + rule.props && s.r.Valid() && s.r.loaded
    {
      if s.r != null {
        s.r.Merge(rule);
        merged := true;
      } else {
        s.AddRule(rule);
        merged := false;
      }
    }

    /**
     * The loop of the `{` case: each pending selector without a rule takes
     * `rule`, each with one merges `rule` into its own; `merged` tells
     * whether any selector had one when its turn came.
     */
    static method BindAll(pending: seq<Selector>, rule: Rules.Rule) returns (merged: bool)
      requires |pending| <= 1 && rule.Valid()
      requires forall s | s in pending :: s.r != rule && (s.r != null ==> s.r.Valid())
      modifies (set s | s in pending), set s | s in pending && s.r != null :: s.r, rule
      ensures forall s | s in pending :: s.r == (if old(s.r) == null then rule else old(s.r))
      ensures forall s | s in pending && old(s.r) != null :: s.r.Valid() && s.r.props == old(s.r.props) + rule.props && s.r.loaded
      ensures rule.props == old(rule.props) && rule.Valid()
      ensures merged <==> exists s | s in pending :: old(s.r) != null
    {
      merged := false;
      var i := 0;
      while i < |pending|
        invariant 0 <= i <= |pending|
        invariant i == 0 ==> !merged && forall s | s in pending :: s.r == old(s.r) && (s.r != null ==> s.r.Valid() && s.r.props == old(s.r.props))
        invariant i == |pending| ==> forall s | s in pending :: s.r == (if old(s.r) == null then rule else old(s.r))
        invariant i == |pending| ==> forall s | s in pending && old(s.r) != null ::
          s.r.Valid() && s.r.props == old(s.r.props) + rule.props && s.r.loaded
        invariant i == |pending| ==> (merged <==> exists s | s in pending :: old(s.r) != null)
        invariant rule.Valid() && rule.props == old(rule.props)
      {
        var s := pending[i];
        var m := Bind(s, rule);
        merged := merged || m;
        i := i + 1;
      }
    }

    /**
     * The `{` case after the block is read into `rule`: the selectors are
     * bound to it, and it joins the body's rules only when no selector
     * merged it into its own.
     */
    method AttachRule(pending: seq<Selector>, rule: Rules.Rule) returns (merged: bool)
      requires Valid() && rule.Valid() && rule !in ruleSet
      requires |pending| <= 1 && forall s | s in pending :: s in selA
      modifies this, (set s | s in pending), set s | s in pending && s.r != null :: s.r, rule
      ensures Valid() && ruleSet == old(ruleSet) + {rule}
      ensures index == old(index) && selA == old(selA)
      ensures forall s | s in pending :: s.r == (if old(s.r) == null then rule else old(s.r))
      ensures forall s | s in pending && old(s.r) != null :: s.r.props == old(s.r.props) + rule.props && s.r.loaded
      ensures rule.props == old(rule.props)
      ensures merged <==> exists s | s in pending :: old(s.r) != null
      ensures rules == old(rules) + (if merged then [] else [rule])
    {
      merged := BindAll(pending, rule);
      if !merged {
        rules := rules + [rule];
      }
      ruleSet := ruleSet + {rule};
    }

    /**
     * A parsed selector list: the selector already indexed under the same
     * texts, or a new one, indexed and listed last.
     */
    method AddSelector(v: seq<string>, a: seq<seq<Option<Part>>>) returns (sel: Selector)
      requires Valid()
      modifies this
      ensures Valid() && sel in selA && sel.v == v
      ensures rules == old(rules) && ruleSet == old(ruleSet)
      ensures v in old(index) ==> sel == old(index[v]) && index == old(index) && selA == old(selA)
      ensures v !in old(index) ==> (fresh(sel) && sel.a == a && sel.r == null
        && index == old(index)[v := sel] && selA == old(selA) + [sel])
    {
      if v in index {
        sel := index[v];
      } else {
        sel := new Selector(v, a);
        index := index[v := sel];
        selA := selA + [sel];
      }
    }

    /** `new CSSRule` and `_applyProperties_` on the lexer past a `{`: the block's properties in a rule of their own. */
    static method ReadBlock(fuel: nat, t: Tables, st: St, str: string, lx: Lx) returns (r: PropOut, rule: Rules.Rule)
      requires Compiler.Valid(st) && Settled(lx)
      ensures fresh(rule) && rule.Valid() && rule.refs == 0 && !rule.loaded
      ensures r == ApplyPropertiesSpec(fuel, t, st, str, lx, map[])
      ensures r.PropDone? ==> rule.props == r.props && Settled(r.lx) && Compiler.Valid(r.st) && Grows(st, r.st)
    {
      rule := new Rules.Rule();
      r := ApplyProperties(fuel, t, st, str, lx, rule);
    }

    /**
     * The `{` case, from the lexer at the `{`: the block is read into a
     * new rule, which the pending selector takes or merges into its own;
     * the rule joins the body's rules unless it was merged.  A block that
     * throws leaves the selectors and rules as they were.
     */
    method OpenBlock(fuel: nat, t: Tables, st: St, str: string, lx: Lx, pending: seq<Selector>) returns (r: PropOut, rule: Rules.Rule)
      requires Valid() && Compiler.Valid(st) && |pending| <= 1 && forall s | s in pending :: s in selA
      modifies this, (set s | s in pending), set s | s in pending && s.r != null :: s.r
      ensures fresh(rule) && Valid() && index == old(index) && selA == old(selA)
      ensures r == BlockAfter(fuel, t, st, str, lx)
      ensures !r.PropDone? ==> rules == old(rules) && ruleSet == old(ruleSet) && forall s | s in pending :: s.r == old(s.r)
      ensures r.PropDone? ==> Settled(r.lx) && Compiler.Valid(r.st) && Grows(st, r.st)
      ensures r.PropDone? ==> rule.props == r.props && ruleSet == old(ruleSet) + {rule}
      ensures r.PropDone? ==> forall s | s in pending :: s.r == (if old(s.r) == null then rule else old(s.r))
      ensures r.PropDone? ==> forall s | s in pending && old(s.r) != null :: s.r.props == old(s.r.props) + r.props && s.r.loaded
      ensures r.PropDone? ==> rules == old(rules) + (if exists s | s in pending :: old(s.r) != null then [] else [rule])
      ensures r.PropDone? && pending == [] ==> rules == old(rules) + [rule]
    {
      NextAdvances(str, OwnCtx(None, lx.c), lx.c);
      r, rule := ReadBlock(fuel, t, st, str, Advance(str, lx));
      if r.PropDone? {
        var _ := AttachRule(pending, rule);
      }
    }

    /** The `{` case of a pass: the block read into a rule that the pending selector takes or merges into its own. */
    method BracePass(fuel: nat, t: Tables, st: St, str: string, lx: Lx, pending: seq<Selector>) returns (o: Passed)
      requires Valid() && Compiler.Valid(st) && !End(lx) && Ch(str, lx) == '{' as int
      requires |pending| <= 1 && forall s | s in pending :: s in selA
      modifies this, (set s | s in selA), ruleSet
      ensures Valid()
      ensures |old(selA)| <= |selA| && selA[..|old(selA)|] == old(selA) && forall s | s in selA :: s in old(selA) || fresh(s)
      ensures |old(rules)| <= |rules| && rules[..|old(rules)|] == old(rules)
      ensures forall R | R in ruleSet :: R in old(ruleSet) || fresh(R)
      ensures forall s | s in old(selA) && old(s.r) != null :: s.r == old(s.r)
      ensures o.Next? ==> (Compiler.Valid(o.st) && Grows(st, o.st) && (End(o.lx) || Settled(o.lx) || Tx(str, o.lx) == "{")
        && |o.pending| <= 1 && (o.pending != [] ==> End(o.lx) || Tx(str, o.lx) == "{") && forall s | s in o.pending :: s in selA)
      ensures o.Left? && (o.out.BodyDone? || o.out.AtMedia? || o.out.AtImport?) ==> o.out.st == st
      ensures index == old(index) && selA == old(selA)
      ensures var b := BlockAfter(fuel, t, st, str, lx);
        (b.PropDone? ==> o == Next(b.lx, b.st, []))
        && (!b.PropDone? ==> o.Left? && rules == old(rules) && forall s | s in pending :: s.r == old(s.r))
      ensures var b := BlockAfter(fuel, t, st, str, lx);
        b.PropDone? ==> forall s | s in pending ::
          (old(s.r) == null ==> fresh(s.r) && s.r.props == b.props && rules == old(rules) + [s.r])
          && (old(s.r) != null ==> s.r == old(s.r) && s.r.props == old(s.r.props) + b.props && s.r.loaded && rules == old(rules))
      ensures var b := BlockAfter(fuel, t, st, str, lx);
        b.PropDone? && pending == [] ==>
          |rules| == |old(rules)| + 1 && rules[..|old(rules)|] == old(rules)
          && fresh(rules[|old(rules)|]) && rules[|old(rules)|].props == b.props
    {
      var r, rule := OpenBlock(fuel, t, st, str, lx, pending);
      if r.PropThrew? {
        return Left(BodyThrew);
      } else if r.PropNoFuel? {
        return Left(BodyNoFuel);
      }
      return Next(r.lx, r.st, []);
    }

    /** Any other case of a pass: the token read, a selector list becoming the pending selector, found in the index or added to it. */
    method TokenPass(fuel: nat, t: Tables, st: St, str: string, lx: Lx) returns (o: Passed)
      requires Valid() && Compiler.Valid(st) && !End(lx) && Settled(lx) && Ch(str, lx) != '{' as int
      modifies this
      ensures Valid() && rules == old(rules) && ruleSet == old(ruleSet)
      ensures |old(selA)| <= |selA| && selA[..|old(selA)|] == old(selA) && forall s | s in selA :: s in old(selA) || fresh(s)
      ensures o.Next? ==> (Compiler.Valid(o.st) && Grows(st, o.st) && (End(o.lx) || Tx(str, o.lx) == "{")
        && |o.pending| == 1 && o.pending[0] in selA)
      ensures o.Left? && (o.out.BodyDone? || o.out.AtMedia? || o.out.AtImport?) ==> o.out.st == st
      ensures var tok := BodyToken(fuel, st, str, lx);
        (tok.Halt? ==> o == Left(tok.out) && index == old(index) && selA == old(selA))
        && (tok.Selected? ==> o.Next? && o.lx == tok.lx && o.st == st && tok.v in index && o.pending == [index[tok.v]])
      ensures var tok := BodyToken(fuel, st, str, lx);
        tok.Selected? && tok.v in old(index) ==> index == old(index) && selA == old(selA)
      ensures var tok := BodyToken(fuel, st, str, lx);
        tok.Selected? && tok.v !in old(index) ==>
          fresh(index[tok.v]) && index[tok.v].a == tok.a && index[tok.v].r == null
          && index == old(index)[tok.v := index[tok.v]] && selA == old(selA) + [index[tok.v]]
    {
      var tok := ReadToken(fuel, st, str, lx);
      TokenShaped(fuel, st, str, lx);
      if tok.Halt? {
        return Left(tok.out);
      }
      var s := AddSelector(tok.v, tok.a);
      GrowsReflexive(st);
      return Next(tok.lx, st, [s]);
    }

    /**
     * One pass of the loop of `parse(lexer)` on a token that is not the
     * end: at a `{` the block's properties go into a new rule bound to the
     * pending selector, and anything else is read by ReadToken, a selector
     * list becoming the pending selector.  Selectors and rules are only
     * ever added, and what is added is new.
     */
    method Pass(fuel: nat, t: Tables, st: St, str: string, lx: Lx, pending: seq<Selector>) returns (o: Passed)
      requires Valid() && Compiler.Valid(st) && !End(lx) && (Settled(lx) || Tx(str, lx) == "{")
      requires |pending| <= 1 && (pending != [] ==> Tx(str, lx) == "{") && forall s | s in pending :: s in selA
      modifies this, (set s | s in selA), ruleSet
      ensures Valid()
      ensures |old(selA)| <= |selA| && selA[..|old(selA)|] == old(selA) && forall s | s in selA :: s in old(selA) || fresh(s)
      ensures |old(rules)| <= |rules| && rules[..|old(rules)|] == old(rules)
      ensures forall R | R in ruleSet :: R in old(ruleSet) || fresh(R)
      ensures forall s | s in old(selA) && old(s.r) != null :: s.r == old(s.r)
      ensures o.Next? ==> (Compiler.Valid(o.st) && Grows(st, o.st) && (End(o.lx) || Settled(o.lx) || Tx(str, o.lx) == "{")
        && |o.pending| <= 1 && (o.pending != [] ==> End(o.lx) || Tx(str, o.lx) == "{") && forall s | s in o.pending :: s in selA)
      ensures o.Left? && (o.out.BodyDone? || o.out.AtMedia? || o.out.AtImport?) ==> o.out.st == st
      // At `{`: the block read into a rule that the pending selector takes or merges into its own.
      ensures Ch(str, lx) == '{' as int ==> index == old(index) && selA == old(selA)
      ensures Ch(str, lx) == '{' as int ==> var b := BlockAfter(fuel, t, st, str, lx);
        (b.PropDone? ==> o == Next(b.lx, b.st, []))
        && (!b.PropDone? ==> o.Left? && rules == old(rules) && forall s | s in pending :: s.r == old(s.r))
      ensures Ch(str, lx) == '{' as int ==> var b := BlockAfter(fuel, t, st, str, lx);
        b.PropDone? ==> forall s | s in pending ::
          (old(s.r) == null ==> fresh(s.r) && s.r.props == b.props && rules == old(rules) + [s.r])
          && (old(s.r) != null ==> s.r == old(s.r) && s.r.props == old(s.r.props) + b.props && s.r.loaded && rules == old(rules))
      ensures Ch(str, lx) == '{' as int ==> var b := BlockAfter(fuel, t, st, str, lx);
        b.PropDone? && pending == [] ==>
          |rules| == |old(rules)| + 1 && rules[..|old(rules)|] == old(rules)
          && fresh(rules[|old(rules)|]) && rules[|old(rules)|].props == b.props
      // Otherwise: the token read, a selector list becoming the pending selector, found in the index or added to it.
      ensures Ch(str, lx) != '{' as int ==> rules == old(rules) && ruleSet == old(ruleSet)
      ensures Ch(str, lx) != '{' as int && Settled(lx) ==> var tok := BodyToken(fuel, st, str, lx);
        (tok.Halt? ==> o == Left(tok.out) && index == old(index) && selA == old(selA))
        && (tok.Selected? ==> o.Next? && o.lx == tok.lx && o.st == st && tok.v in index && o.pending == [index[tok.v]])
      ensures Ch(str, lx) != '{' as int && Settled(lx) ==> var tok := BodyToken(fuel, st, str, lx);
        tok.Selected? && tok.v in old(index) ==> index == old(index) && selA == old(selA)
      ensures Ch(str, lx) != '{' as int && Settled(lx) ==> var tok := BodyToken(fuel, st, str, lx);
        tok.Selected? && tok.v !in old(index) ==>
          fresh(index[tok.v]) && index[tok.v].a == tok.a && index[tok.v].r == null
          && index == old(index)[tok.v := index[tok.v]] && selA == old(selA) + [index[tok.v]]
    {
      if Ch(str, lx) == '{' as int {
        o := BracePass(fuel, t, st, str, lx, pending);
      } else {
        BraceToken(str, lx);
        o := TokenPass(fuel, t, st, str, lx);
      }
    }

    /**
     * One pass, seen by the loop only through what every pass keeps: the
     * selectors, the index and the rules grow, and a selector's rule stays.
     */
    method Round(fuel: nat, t: Tables, st: St, str: string, lx: Lx, pending: seq<Selector>) returns (o: Passed)
      requires Valid() && Compiler.Valid(st) && !End(lx) && (Settled(lx) || Tx(str, lx) == "{")
      requires |pending| <= 1 && (pending != [] ==> Tx(str, lx) == "{") && forall s | s in pending :: s in selA
      modifies this, (set s | s in selA), ruleSet
      ensures Valid()
      ensures |old(selA)| <= |selA| && selA[..|old(selA)|] == old(selA) && forall s | s in selA :: s in old(selA) || fresh(s)
      ensures |old(rules)| <= |rules| && rules[..|old(rules)|] == old(rules)
      ensures old(index).Items <= index.Items
      ensures forall R | R in ruleSet :: R in old(ruleSet) || fresh(R)
      ensures forall s | s in old(selA) && old(s.r) != null :: s.r == old(s.r)
      ensures o.Next? ==> (Compiler.Valid(o.st) && Grows(st, o.st) && (End(o.lx) || Settled(o.lx) || Tx(str, o.lx) == "{")
        && |o.pending| <= 1 && (o.pending != [] ==> End(o.lx) || Tx(str, o.lx) == "{") && forall s | s in o.pending :: s in selA)
      ensures o.Left? && (o.out.BodyDone? || o.out.AtMedia? || o.out.AtImport?) ==> o.out.st == st
    {
      o := Pass(fuel, t, st, str, lx, pending);
    }

    /**
     * The synchronous loop of `parse(lexer)`, up to the end of the input,
     * the body's `}`, an `@media` or a fetched `@import`.  Selectors and
     * rules are only ever added, and the definitions only grow.
     */
    method Parse(fuel0: nat, t: Tables, st0: St, str: string, lx0: Lx) returns (out: BodyOut)
      requires Valid() && Settled(lx0) && Compiler.Valid(st0)
      modifies this, (set s | s in selA), ruleSet
      ensures Valid()
      ensures |old(selA)| <= |selA| && selA[..|old(selA)|] == old(selA)
      ensures |old(rules)| <= |rules| && rules[..|old(rules)|] == old(rules)
      ensures old(index).Items <= index.Items
      ensures out.BodyDone? || out.AtMedia? || out.AtImport? ==> Compiler.Valid(out.st) && Grows(st0, out.st)
    {
      var fuel := fuel0;
      var o := Next(lx0, st0, []);
      ghost var selA0, rules0, ruleSet0, index0 := selA, rules, ruleSet, index;
      GrowsReflexive(st0);
      while o.Next? && !End(o.lx)
        invariant Valid()
        invariant o.Next? ==> Compiler.Valid(o.st) && Grows(st0, o.st) && (End(o.lx) || Settled(o.lx) || Tx(str, o.lx) == "{")
        invariant o.Next? ==> |o.pending| <= 1 && (o.pending != [] ==> End(o.lx) || Tx(str, o.lx) == "{") && forall s | s in o.pending :: s in selA
        invariant o.Left? && (o.out.BodyDone? || o.out.AtMedia? || o.out.AtImport?) ==> Compiler.Valid(o.out.st) && Grows(st0, o.out.st)
        invariant (forall s | s in selA :: s in selA0 || fresh(s)) && (forall R | R in ruleSet :: R in ruleSet0 || fresh(R))
        invariant |selA0| <= |selA| && selA[..|selA0|] == selA0 && |rules0| <= |rules| && rules[..|rules0|] == rules0
        invariant index0.Items <= index.Items
        decreases fuel, if o.Next? then 1 else 0
      {
        if fuel == 0 {
          o := Left(BodyNoFuel);
        } else {
          fuel := fuel - 1;
          var st := o.st;
          o := Round(fuel, t, st, str, o.lx, o.pending);
          if o.Next? {
            GrowsTransitive(st0, st, o.st);
          }
        }
      }
      out := if o.Left? then o.out else BodyDone(o.lx, o.st);
    }
  }
}
