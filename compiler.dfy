/**
 * The notation compiler: `d$1` reads CSS value-definition syntax with a
 * lexer and builds the term graph the evaluator walks, `checkExtensions`
 * reads the multipliers, `foldIntoProduction` wraps terms, and
 * `getPropertyParser` / `CreatePropertyParser` compile the definition
 * tables on first use and keep the result in place of the notation.
 *
 * Terms live in a store and refer to each other by index; the store, the
 * definition table and its lazily made `__virtual` copy are threaded
 * through as one state value.  Compilation is bounded by a fuel count spent
 * one unit per step, so a notation the source would loop on (a lone `&`)
 * or a definition that refers to itself runs out of fuel.
 *
 * Three places of the source are modelled both as written and as evidently
 * intended, selected by a `Build` argument; everything else in the project
 * uses the corrected build.
 */
module Compiler {
  import opened Wrappers
  import opened LexTables
  import opened LexSpec
  import opened LexerValue
  import opened Leaves
  import opened Grammar
  import Js

  /** As written, or with the three corrections of the notation compiler. */
  datatype Build = AsWritten | Corrected

  /** An entry of a definition table: the notation, or the term it has been compiled to. */
  datatype Def = Notation(text: string) | Compiled(id: nat)

  /** A table entry is truthy unless it is the empty notation. */
  predicate DefTruthy(d: Def) {
    d.Compiled? || d.text != ""
  }

  /** A name with a truthy entry in table t. */
  predicate Defined(t: map<string, Def>, name: string) {
    name in t && DefTruthy(t[name])
  }

  /** The term store, the definition table and its `__virtual` copy, absent until first needed. */
  datatype St = St(nodes: seq<Node>, defs: map<string, Def>, virt: Option<map<string, Def>>)

  /** The group flags of `d$1`: compiling a child of a ONE_OF, an OR or an AND. */
  datatype Flags = Flags(oneOf: bool, or: bool, and: bool)

  const NoFlags := Flags(false, false, false)

  /** A compiler step: the term it leaves (or undefined), the state and the lexer; or an exception; or no fuel. */
  datatype Res = Ok(term: Option<nat>, st: St, lx: Lx) | Threw | NoFuel

  /** A lookup by `getPropertyParser`: the term or null, and whether the name was found in the virtual table. */
  datatype Lookup = Found(id: Option<nat>, isVirtual: bool, st: St) | LookupThrew | LookupNoFuel

  /** A term made by the compiler outside the `d$1` loop. */
  datatype Made = Made(id: nat, st: St) | MadeThrew | MadeNoFuel

  /** What the compiler reads besides its state: the virtual property definitions. */
  datatype CEnv = CEnv(virtualTable: map<string, string>)

  const NoAttrs := Attrs(None, "", false, false)

  /** A ValueTerm's fields: `prop` is "", the rest unset. */
  const ValueAttrs := Attrs(Some(""), "", false, false)

  // ---------------------------------------------------------------- the store

  predicate ValidNode(n: Node, size: nat) {
    (n.Group? ==> forall k | 0 <= k < |n.terms| :: n.terms[k].Some? ==> n.terms[k].value < size)
    && (n.Value? && n.target.DefTarget? ==> n.target.id < size)
  }

  predicate ValidTable(t: map<string, Def>, size: nat) {
    forall k | k in t && t[k].Compiled? :: t[k].id < size
  }

  /** Every index in the store, in the definition tables and in the children of a group names a term of the store. */
  predicate Valid(st: St) {
    (forall i | 0 <= i < |st.nodes| :: ValidNode(st.nodes[i], |st.nodes|))
    && ValidTable(st.defs, |st.nodes|)
    && (st.virt.Some? ==> ValidTable(st.virt.value, |st.nodes|))
  }

  /**
   * A definition table after a step: the same names, each entry kept or
   * replaced by a compiled term, and only a truthy entry replaced.
   */
  predicate Kept(t: map<string, Def>, t2: map<string, Def>) {
    t2.Keys == t.Keys && forall k | k in t :: t2[k] == t[k] || (t2[k].Compiled? && DefTruthy(t[k]))
  }

  /**
   * The state a step may leave: valid, no term removed and none turned into
   * or out of a group, each group keeping its kind and the children it had,
   * the tables kept, the virtual copy kept once made.
   */
  predicate Grows(st: St, st2: St) {
    Valid(st2) && |st2.nodes| >= |st.nodes|
    && (forall i | 0 <= i < |st.nodes| :: Extends(st.nodes[i], st2.nodes[i]))
    && Kept(st.defs, st2.defs)
    && (st.virt.Some? ==> st2.virt.Some? && Kept(st.virt.value, st2.virt.value))
  }

  /** A term changed in place keeps its form, and a group its kind and the children it had. */
  predicate Extends(n: Node, n2: Node) {
    n2.Group? == n.Group? && (n.Group? ==> n2.kind == n.kind && n.terms <= n2.terms)
  }

  predicate ValidTerm(st: St, t: Option<nat>) {
    t.Some? ==> t.value < |st.nodes|
  }

  lemma GrowsReflexive(st: St)
    requires Valid(st)
    ensures Grows(st, st)
  {
  }

  lemma GrowsTransitive(st: St, st2: St, st3: St)
    requires Grows(st, st2) && Grows(st2, st3)
    ensures Grows(st, st3)
  {
  }

  lemma ValidGrowing(st: St, n: Node)
    requires Valid(st) && ValidNode(n, |st.nodes|)
    ensures Valid(st.(nodes := st.nodes + [n]))
  {
    var s2 := st.(nodes := st.nodes + [n]);
    forall i | 0 <= i < |s2.nodes|
      ensures ValidNode(s2.nodes[i], |s2.nodes|)
    {
      assert ValidNode(s2.nodes[i], |st.nodes|);
    }
  }

  /** A new term at the end of the store. */
  function Add(st: St, n: Node): (r: (St, nat))
    requires Valid(st) && ValidNode(n, |st.nodes|)
    ensures r.0 == st.(nodes := st.nodes + [n]) && r.1 == |st.nodes|
    ensures Grows(st, r.0) && r.0.nodes[r.1] == n
  {
    ValidGrowing(st, n);
    (st.(nodes := st.nodes + [n]), |st.nodes|)
  }

  /** A term changed in place; every other term is kept. */
  function Update(st: St, id: nat, n: Node): (r: St)
    requires Valid(st) && id < |st.nodes| && ValidNode(n, |st.nodes|) && Extends(st.nodes[id], n)
    ensures r == st.(nodes := st.nodes[id := n]) && Grows(st, r)
  {
    st.(nodes := st.nodes[id := n])
  }

  /** `terms.push(child)` on group g. */
  function Push(st: St, g: nat, child: Option<nat>): (r: St)
    requires Valid(st) && g < |st.nodes| && st.nodes[g].Group? && ValidTerm(st, child)
    ensures r.nodes == st.nodes[g := st.nodes[g].(terms := st.nodes[g].terms + [child])]
    ensures r.defs == st.defs && r.virt == st.virt && Grows(st, r)
  {
    Update(st, g, st.nodes[g].(terms := st.nodes[g].terms + [child]))
  }

  function SetAttrs(st: St, id: nat, a: Attrs): (r: St)
    requires Valid(st) && id < |st.nodes|
    ensures r.nodes == st.nodes[id := WithAttrs(st.nodes[id], a)]
    ensures r.defs == st.defs && r.virt == st.virt && Grows(st, r)
  {
    Update(st, id, WithAttrs(st.nodes[id], a))
  }

  /** `r[0] = lo; r[1] = hi` on group g. */
  function SetBounds(st: St, g: nat, lo: Js.Number, hi: Js.Number): (r: St)
    requires Valid(st) && g < |st.nodes| && st.nodes[g].Group?
    ensures r.nodes == st.nodes[g := st.nodes[g].(r0 := lo, r1 := hi)]
    ensures r.defs == st.defs && r.virt == st.virt && Grows(st, r)
  {
    Update(st, g, st.nodes[g].(r0 := lo, r1 := hi))
  }

  /**
   * `foldIntoProduction(term, newTerm)`: a term that is not a group is first
   * wrapped in a new single-child JUX; newTerm, when given, is pushed onto
   * the group.  With no term, newTerm itself.
   */
  function Fold(st: St, term: Option<nat>, newTerm: Option<nat>): (r: (St, Option<nat>))
    requires Valid(st) && ValidTerm(st, term) && ValidTerm(st, newTerm)
    ensures Grows(st, r.0) && ValidTerm(r.0, r.1) && r.0.defs == st.defs && r.0.virt == st.virt
    ensures term.None? ==> r == (st, newTerm)
    ensures term.Some? ==> r.1.Some? && r.0.nodes[r.1.value].Group?
    ensures term.Some? && st.nodes[term.value].Group? ==>
      r.1 == term && r.0.nodes == (if newTerm.Some? then st.nodes[term.value := st.nodes[term.value].(terms := st.nodes[term.value].terms + [newTerm])] else st.nodes)
    ensures term.Some? && !st.nodes[term.value].Group? ==>
      r.1 == Some(|st.nodes|) && |r.0.nodes| == |st.nodes| + 1 && r.0.nodes[..|st.nodes|] == st.nodes
      && r.0.nodes[|st.nodes|] == NewGroup(Jux, [term] + if newTerm.Some? then [newTerm] else [])
  {
    if term.None? then (st, newTerm)
    else
      var (s1, t) := if st.nodes[term.value].Group? then (st, term.value)
                     else Add(st, NewGroup(Jux, [term]));
      if newTerm.Some? then (Push(s1, t, newTerm), Some(t)) else (s1, Some(t))
  }

  /**
   * The join at the end of the `[`, `<` and default cases of `d$1`: with a
   * term already read, the term is wrapped in a new JUX when `wrap` holds,
   * and the new term v is folded into it; with none, v becomes the term.
   */
  function Join(st: St, term: Option<nat>, v: Option<nat>, wrap: bool): (r: (St, Option<nat>))
    requires Valid(st) && ValidTerm(st, term) && ValidTerm(st, v)
    ensures Grows(st, r.0) && ValidTerm(r.0, r.1) && r.0.defs == st.defs && r.0.virt == st.virt
    ensures term.None? ==> r == (st, v)
  {
    if term.None? then (st, v)
    else
      var (s1, t1) := if wrap then
          var (s0, j) := Add(st, NewGroup(Jux, []));
          Fold(s0, Some(j), term)
        else (st, term);
      Fold(s1, t1, v)
  }

  /**
   * Whether the `[` case wraps the term read so far before appending the
   * bracketed group: as written only a repeating group, so a bracket after
   * `[a | b]` becomes a third alternative of that ONE_OF; corrected, every
   * group, as the `<` and default cases do.
   */
  predicate BracketWraps(b: Build, n: Node) {
    n.Group? && (b.Corrected? ==> true) && (b.AsWritten? ==> IsRepeating(n))
  }

  // ---------------------------------------------------------------- d$1

  /** `d$1(l, ..., flags)`: the loop from an undefined term. */
  function D1(fuel: nat, b: Build, env: CEnv, st: St, str: string, lx: Lx, fl: Flags): (r: Res)
    requires Valid(st)
    ensures r.Ok? ==> Grows(st, r.st) && ValidTerm(r.st, r.term)
    ensures r.Ok? && b.Corrected? ==> StopsAt(str, r.lx, fl)
    ensures r.Ok? ==> AtCombinator(str, r.lx)
    decreases fuel, 1
  {
    D1Loop(fuel, b, env, st, str, lx, fl, None)
  }

  /**
   * Where a compile may stop: the end, a `]`, or a combinator that binds no
   * tighter than the group being compiled, which that group handles.  The
   * lexer then holds the peek lexer the decision was made with: `&&` stops
   * a child of an AND, `||` a child of an OR or an AND, and a single `|` a
   * child of any group.
   */
  predicate StopsAt(str: string, l: Lx, fl: Flags) {
    End(l) || Ch(str, l) == ']' as int
    || (Ch(str, l) == '&' as int && fl.and)
    || (Ch(str, l) == '|' as int && l.p.Some? &&
        if CodeAt(str, l.p.value.c.off) == '|' as int then fl.or || fl.and else fl.oneOf || fl.or || fl.and)
  }

  /** Where a compile may stop as written, which also leaves a group built by `&&`, `||` or `|` at any combinator. */
  predicate AtCombinator(str: string, l: Lx) {
    End(l) || Ch(str, l) == ']' as int || Ch(str, l) == '&' as int || Ch(str, l) == '|' as int
  }

  /** One pass of the `d$1` loop: go on with a new term, state and lexer, or leave `d$1` with a result. */
  datatype Step = Continue(term: Option<nat>, st: St, lx: Lx) | Return(res: Res)

  /** What every case of the switch promises about the step it takes from state st. */
  predicate StepOk(b: Build, st: St, str: string, fl: Flags, s: Step) {
    (s.Continue? ==> Grows(st, s.st) && ValidTerm(s.st, s.term))
    && (s.Return? && s.res.Ok? ==>
          Grows(st, s.res.st) && ValidTerm(s.res.st, s.res.term)
          && (b.Corrected? ==> StopsAt(str, s.res.lx, fl)) && AtCombinator(str, s.res.lx))
  }

  /**
   * The `while (!l.END) switch (l.ch)` loop of `d$1` with the term read so
   * far; one unit of fuel per pass.
   */
  function D1Loop(fuel: nat, b: Build, env: CEnv, st: St, str: string, lx: Lx, fl: Flags, term: Option<nat>): (r: Res)
    requires Valid(st) && ValidTerm(st, term)
    ensures r.Ok? ==> Grows(st, r.st) && ValidTerm(r.st, r.term)
    ensures r.Ok? && b.Corrected? ==> StopsAt(str, r.lx, fl)
    ensures r.Ok? ==> AtCombinator(str, r.lx)
    decreases fuel, 0
  {
    if fuel == 0 then NoFuel
    else if End(lx) then Ok(term, st, lx)
    else
      match SwitchCase(fuel - 1, b, env, st, str, lx, fl, term)
      case Continue(t, st1, l1) => D1Loop(fuel - 1, b, env, st1, str, l1, fl, t)
      case Return(res) => res
  }

  /** The switch on `l.ch`: `]` leaves with the term, the other cases are functions of their own. */
  function SwitchCase(fuel: nat, b: Build, env: CEnv, st: St, str: string, lx: Lx, fl: Flags, term: Option<nat>): (r: Step)
    requires Valid(st) && ValidTerm(st, term) && !End(lx)
    ensures StepOk(b, st, str, fl, r)
    decreases fuel, 3
  {
    var ch := Ch(str, lx);
    if ch == ']' as int then Return(Ok(term, st, lx))
    else if ch == '[' as int then BracketCase(fuel, b, env, st, str, lx, fl, term)
    else if ch == '<' as int then AngleCase(fuel, b, env, st, str, lx, fl, term)
    else if ch == '&' as int then AmpCase(fuel, b, env, st, str, lx, fl, term)
    else if ch == '|' as int then BarCase(fuel, b, env, st, str, lx, fl, term)
    else TokenCase(fuel, b, env, st, str, lx, fl, term)
  }

  /**
   * `[`: compile the bracketed notation, expect `]`, read its multipliers
   * and join the result to the term.
   */
  function BracketCase(fuel: nat, b: Build, env: CEnv, st: St, str: string, lx: Lx, fl: Flags, term: Option<nat>): (r: Step)
    requires Valid(st) && ValidTerm(st, term)
    ensures StepOk(b, st, str, fl, r)
    decreases fuel, 2
  {
    match D1(fuel, b, env, st, str, Advance(str, lx), NoFlags)
    case Ok(v, st1, l1) =>
      (match Expect(str, l1, "]")
       case None => Return(Threw)
       case Some(l2) =>
         match CheckExtensions(fuel, b, st1, str, l2, v)
         case Ok(v2, st2, l3) =>
           var (st3, t) := Join(st2, term, v2, term.Some? && BracketWraps(b, st2.nodes[term.value]));
           GrowsTransitive(st, st1, st2);
           GrowsTransitive(st, st2, st3);
           Continue(t, st3, l3)
         case Threw => Return(Threw)
         case NoFuel => Return(NoFuel))
    case Threw => Return(Threw)
    case NoFuel => Return(NoFuel)
  }
  /** `<name>`: a ValueTerm for the name, then `>`, the multipliers and the join. */
  function AngleCase(fuel: nat, b: Build, env: CEnv, st: St, str: string, lx: Lx, fl: Flags, term: Option<nat>): (r: Step)
    requires Valid(st) && ValidTerm(st, term)
    ensures StepOk(b, st, str, fl, r)
    decreases fuel, 2
  {
    var l1 := Advance(str, lx);
    match ValueTermOf(fuel, b, env, st, Tx(str, l1))
    case Made(v, st1) =>
      (match Expect(str, Advance(str, l1), ">")
       case None => Return(Threw)
       case Some(l2) =>
         match CheckExtensions(fuel, b, st1, str, l2, Some(v))
         case Ok(v2, st2, l3) =>
           var (st3, t) := Join(st2, term, v2, term.Some? && st2.nodes[term.value].Group?);
           GrowsTransitive(st, st1, st2);
           GrowsTransitive(st, st2, st3);
           Continue(t, st3, l3)
         case Threw => Return(Threw)
         case NoFuel => Return(NoFuel))
    case MadeThrew => Return(Threw)
    case MadeNoFuel => Return(NoFuel)
  }

  /** The character of the token after the current one, as the peek lexer reads it. */
  function PeekCh(str: string, l: Lx): int {
    Ch(str, Peek(str, l).p.value)
  }

  /**
   * A `&&`, `||` or `|` case that built a group: the group is a new term of
   * kind k whose first child is the term read before the combinator.  As
   * written `d$1` returns it at once; corrected it is the term the loop goes
   * on with.
   */
  predicate MadeGroup(b: Build, st: St, s: Step, k: Kind, first: Option<nat>) {
    var n := |st.nodes|;
    && (s.Continue? ==>
          b.Corrected? && s.term == Some(n) && n < |s.st.nodes|
          && s.st.nodes[n].Group? && s.st.nodes[n].kind == k && [first] <= s.st.nodes[n].terms)
    && (s.Return? && s.res.Ok? ==>
          b.AsWritten? && s.res.term == Some(n) && n < |s.res.st.nodes|
          && s.res.st.nodes[n].Group? && s.res.st.nodes[n].kind == k && [first] <= s.res.st.nodes[n].terms)
  }

  /**
   * The end of the `&&`, `||` and `|` cases: as written the new group nt
   * is returned from `d$1` at once; corrected it becomes the term and the
   * loop goes on.
   */
  function AfterGroup(b: Build, nt: nat, r: Res): Step {
    match r
    case Ok(_, s2, l2) => if b.AsWritten? then Return(Ok(Some(nt), s2, l2)) else Continue(Some(nt), s2, l2)
    case Threw => Return(Threw)
    case NoFuel => Return(NoFuel)
  }

  /** The children compiled into a new group of kind k after `first` make a MadeGroup step. */
  lemma AfterGroupMade(b: Build, st: St, s1: St, r: Res, k: Kind, first: Option<nat>)
    requires |s1.nodes| == |st.nodes| + 1 && s1.nodes[|st.nodes|] == NewGroup(k, [first])
    requires r.Ok? ==> Grows(s1, r.st) && r.term == Some(|st.nodes|)
    ensures MadeGroup(b, st, AfterGroup(b, |st.nodes|, r), k, first)
  {
    if r.Ok? {
      assert Extends(s1.nodes[|st.nodes|], r.st.nodes[|st.nodes|]);
    }
  }

  /**
   * `&`: on `&&`, a child of an AND returns its term; otherwise the term
   * (which must exist) becomes the first child of a new AND and its
   * children follow.  A lone `&` consumes nothing, and the source loops on
   * it for ever.
   */
  function AmpCase(fuel: nat, b: Build, env: CEnv, st: St, str: string, lx: Lx, fl: Flags, term: Option<nat>): (r: Step)
    requires Valid(st) && ValidTerm(st, term) && Ch(str, lx) == '&' as int
    ensures StepOk(b, st, str, fl, r)
    ensures PeekCh(str, lx) != '&' as int ==> r == Continue(term, st, Peek(str, lx))
    ensures PeekCh(str, lx) == '&' as int && fl.and ==> r == Return(Ok(term, st, Peek(str, lx)))
    ensures PeekCh(str, lx) == '&' as int && !fl.and && term.None? ==> r == Return(Threw)
    ensures PeekCh(str, lx) == '&' as int && !fl.and && term.Some? ==> MadeGroup(b, st, r, And, term)
    decreases fuel, 2
  {
    var lp := Peek(str, lx);
    if Ch(str, lp.p.value) == '&' as int then
      if fl.and then Return(Ok(term, st, lp))
      else if term.None? then Return(Threw)
      else
        var (s1, nt) := Add(st, NewGroup(And, [term]));
        var c := Children(fuel, b, env, s1, str, Advance(str, SyncPeek(lp)), fl.(and := true), nt, And);
        AfterGroupMade(b, st, s1, c, And, term);
        AfterGroup(b, nt, c)
    else
      Continue(term, st, lp)
  }

  /**
   * `|`: on `||`, a child of an OR or an AND returns its term, otherwise the
   * term becomes the first child of a new OR; on a single `|`, a child of
   * any group returns its term, otherwise the term becomes the first
   * alternative of a new ONE_OF.
   */
  function BarCase(fuel: nat, b: Build, env: CEnv, st: St, str: string, lx: Lx, fl: Flags, term: Option<nat>): (r: Step)
    requires Valid(st) && ValidTerm(st, term) && Ch(str, lx) == '|' as int
    ensures StepOk(b, st, str, fl, r)
    ensures PeekCh(str, lx) == '|' as int && (fl.or || fl.and) ==> r == Return(Ok(term, st, Peek(str, lx)))
    ensures PeekCh(str, lx) == '|' as int && !(fl.or || fl.and) ==> MadeGroup(b, st, r, Or, term)
    ensures PeekCh(str, lx) != '|' as int && (fl.oneOf || fl.or || fl.and) ==> r == Return(Ok(term, st, Peek(str, lx)))
    ensures PeekCh(str, lx) != '|' as int && !(fl.oneOf || fl.or || fl.and) ==> MadeGroup(b, st, r, OneOf, term)
    decreases fuel, 2
  {
    var lp := Peek(str, lx);
    if Ch(str, lp.p.value) == '|' as int then
      if fl.or || fl.and then Return(Ok(term, st, lp))
      else
        var (s1, nt) := Add(st, NewGroup(Or, [term]));
        var c := Children(fuel, b, env, s1, str, Advance(str, SyncPeek(lp)), fl.(or := true), nt, Or);
        AfterGroupMade(b, st, s1, c, Or, term);
        AfterGroup(b, nt, c)
    else if fl.oneOf || fl.or || fl.and then Return(Ok(term, st, lp))
    else
      var (s1, nt) := Add(st, NewGroup(OneOf, [term]));
      var c := Children(fuel, b, env, s1, str, Advance(str, lp), fl.(oneOf := true), nt, OneOf);
      AfterGroupMade(b, st, s1, c, OneOf, term);
      AfterGroup(b, nt, c)
  }

  /**
   * The precedence of the combinators, juxtaposition binding tightest, then
   * `&&`, then `||`, then `|`: the loop of `d$1` hands the term read so far
   * back at a `&&` exactly when it compiles a child of an AND, at a `||`
   * exactly when it compiles a child of an OR or an AND, and at a single `|`
   * exactly when it compiles a child of any group.  Otherwise the term is
   * taken into a new group of that combinator (see AmpCase and BarCase).
   */
  lemma CombinatorPrecedence(fuel: nat, b: Build, env: CEnv, st: St, str: string, lx: Lx, fl: Flags, term: Option<nat>)
    requires Valid(st) && ValidTerm(st, term) && !End(lx)
    ensures var handsBack := SwitchCase(fuel, b, env, st, str, lx, fl, term) == Return(Ok(term, st, Peek(str, lx)));
      (Ch(str, lx) == '&' as int && PeekCh(str, lx) == '&' as int ==> (handsBack <==> fl.and))
      && (Ch(str, lx) == '|' as int && PeekCh(str, lx) == '|' as int ==> (handsBack <==> fl.or || fl.and))
      && (Ch(str, lx) == '|' as int && PeekCh(str, lx) != '|' as int ==> (handsBack <==> fl.oneOf || fl.or || fl.and))
  {
    var r := SwitchCase(fuel, b, env, st, str, lx, fl, term);
    if Ch(str, lx) == '&' as int {
      assert r == AmpCase(fuel, b, env, st, str, lx, fl, term);
    } else if Ch(str, lx) == '|' as int {
      assert r == BarCase(fuel, b, env, st, str, lx, fl, term);
    }
  }

  /** A combinator that a group compiling with flags fl handles itself, so that its child stops there. */
  predicate HandsBack(str: string, l: Lx, fl: Flags) {
    (Ch(str, l) == '&' as int && PeekCh(str, l) == '&' as int && fl.and)
    || (Ch(str, l) == '|' as int && PeekCh(str, l) == '|' as int && (fl.or || fl.and))
    || (Ch(str, l) == '|' as int && PeekCh(str, l) != '|' as int && (fl.oneOf || fl.or || fl.and))
  }

  /**
   * `d$1` stops at the first such combinator: there it gives back the term
   * read so far, with the lexer still on the combinator.
   */
  lemma D1HandsBack(fuel: nat, b: Build, env: CEnv, st: St, str: string, lx: Lx, fl: Flags, term: Option<nat>)
    requires Valid(st) && ValidTerm(st, term) && fuel > 0 && !End(lx) && HandsBack(str, lx, fl)
    ensures var r := D1Loop(fuel, b, env, st, str, lx, fl, term);
      r == Ok(term, st, Peek(str, lx)) && r.lx.c == lx.c
  {
    CombinatorPrecedence(fuel - 1, b, env, st, str, lx, fl, term);
  }

  /**
   * Any other token: a SymbolTerm for a symbol token, otherwise a
   * LiteralTerm (a string token without its quotes); then the multipliers
   * and the join.
   */
  function TokenCase(fuel: nat, b: Build, env: CEnv, st: St, str: string, lx: Lx, fl: Flags, term: Option<nat>): (r: Step)
    requires Valid(st) && ValidTerm(st, term)
    ensures StepOk(b, st, str, fl, r)
    decreases fuel, 2
  {
    var tx := Tx(str, lx);
    var n := if lx.c.typ == TokenType.Symbol then Node.Symbol(tx, NoAttrs)
             else Literal(if lx.c.typ == Str then JsSlice(tx, 1, -1) else tx, NoAttrs);
    var (st1, v) := Add(st, n);
    match CheckExtensions(fuel, b, st1, str, Advance(str, lx), Some(v))
    case Ok(v2, st2, l2) =>
      var (st3, t) := Join(st2, term, v2, term.Some? && st2.nodes[term.value].Group?);
      GrowsTransitive(st, st1, st2);
      GrowsTransitive(st, st2, st3);
      Continue(t, st3, l2)
    case Threw => Return(Threw)
    case NoFuel => Return(NoFuel)
  }

  /** The default case on a name with no term before it: the name's LiteralTerm, its extensions, and that is the term. */
  lemma TokenCaseFirst(fuel: nat, b: Build, env: CEnv, st: St, str: string, lx: Lx, fl: Flags)
    requires Valid(st) && lx.c.typ != TokenType.Symbol && lx.c.typ != Str
    ensures var (st1, v) := Add(st, Literal(Tx(str, lx), NoAttrs));
      TokenCase(fuel, b, env, st, str, lx, fl, None)
      == match CheckExtensions(fuel, b, st1, str, Advance(str, lx), Some(v))
         case Ok(v2, st2, l2) => Continue(v2, st2, l2)
         case Threw => Return(Threw)
         case NoFuel => Return(NoFuel)
  {
  }

  /**
   * The separator test at the end of each child of a group of kind k, and
   * the lexer past it: `&&` between the children of an AND, `||` between
   * those of an OR, `|` between the alternatives of a ONE_OF.
   */
  datatype Sep = More(lx: Lx) | Stop(lx: Lx) | SepThrew

  function Separator(str: string, l: Lx, k: Kind): (r: Sep)
    ensures r.Stop? ==> r.lx.c == l.c
    ensures k == OneOf ==>
      (r.Stop? <==> Ch(str, l) != '|' as int)
      && (r.More? ==> Tx(str, l) == "|" && r.lx == Advance(str, l))
    ensures k != OneOf ==>
      var c := if k == And then '&' else '|';
      (r.Stop? <==> Ch(str, l) != c as int || PeekCh(str, l) != c as int)
      && (r.More? ==> Tx(str, l) == [c] && Tx(str, Advance(str, Peek(str, l))) == [c]
                      && r.lx == Advance(str, Advance(str, Peek(str, l))))
  {
    var c := if k == And then '&' else '|';
    if Ch(str, l) != c as int then Stop(l)
    else if k == OneOf then
      (match Expect(str, l, "|") case None => SepThrew case Some(l1) => More(l1))
    else
      var lp := Peek(str, l);
      if Ch(str, lp.p.value) != c as int then Stop(lp)
      else
        match Expect(str, lp, [c])
        case None => SepThrew
        case Some(l1) =>
          match Expect(str, l1, [c])
          case None => SepThrew
          case Some(l2) => More(l2)
  }

  /**
   * The children loop of a group g of kind k: while not at the end, compile
   * a child with the group's flag set, push it, and go on past the
   * separator.
   */
  function Children(fuel: nat, b: Build, env: CEnv, st: St, str: string, lx: Lx, fl: Flags, g: nat, k: Kind): (r: Res)
    requires Valid(st) && g < |st.nodes| && st.nodes[g].Group?
    ensures r.Ok? ==> Grows(st, r.st) && r.term == Some(g) && r.st.nodes[g].Group?
    ensures r.Ok? ==> AtCombinator(str, r.lx)
    decreases fuel, 0
  {
    if fuel == 0 then NoFuel
    else if End(lx) then Ok(Some(g), st, lx)
    else
      match D1(fuel - 1, b, env, st, str, lx, fl)
      case Ok(child, s1, l1) =>
        var s2 := Push(s1, g, child);
        (match Separator(str, l1, k)
         case Stop(l2) => Ok(Some(g), s2, l2)
         case More(l2) => Children(fuel - 1, b, env, s2, str, l2, fl, g, k)
         case SepThrew => Threw)
      case Threw => Threw
      case NoFuel => NoFuel
  }

  // ---------------------------------------------------------------- checkExtensions

  /**
   * `checkExtensions`: any number of `!` marks the term IMPORTANT (on no
   * term it throws), then at most one multiplier follows; one unit of fuel
   * per `!`.
   */
  function CheckExtensions(fuel: nat, b: Build, st: St, str: string, lx: Lx, term: Option<nat>): (r: Res)
    requires Valid(st) && ValidTerm(st, term)
    ensures r.Ok? ==> Grows(st, r.st) && ValidTerm(r.st, r.term) && r.st.defs == st.defs && r.st.virt == st.virt
    decreases fuel, 0
  {
    if fuel == 0 then NoFuel
    else if Ch(str, lx) == '!' as int then
      if term.None? then Threw
      else CheckExtensions(fuel - 1, b, MarkImportant(st, term.value), str, Advance(str, lx), term)
    else Multiplier(b, st, str, lx, term)
  }

  /** `term.IMPORTANT = true`. */
  function MarkImportant(st: St, id: nat): (r: St)
    requires Valid(st) && id < |st.nodes|
    ensures r.defs == st.defs && r.virt == st.virt && Grows(st, r) && |r.nodes| == |st.nodes|
    ensures AttrsOf(r.nodes[id]) == AttrsOf(st.nodes[id]).(important := true)
    ensures forall i | 0 <= i < |st.nodes| && i != id :: r.nodes[i] == st.nodes[i]
  {
    SetAttrs(st, id, AttrsOf(st.nodes[id]).(important := true))
  }

  /** The characters that start a multiplier. */
  predicate IsMultiplier(ch: int) {
    ch == '{' as int || ch == '*' as int || ch == '+' as int || ch == '?' as int || ch == '#' as int
  }

  /** The children of the group a fold of `term` (with no new term) gives. */
  function FoldedTerms(st: St, t: nat): seq<Option<nat>>
    requires t < |st.nodes|
  {
    if st.nodes[t].Group? then st.nodes[t].terms else [Some(t)]
  }

  /**
   * The multiplier after a term, as in section 2.3 of CSS Values and Units
   * Module Level 3: `*` is [0,∞], `+` [1,∞], `?` [0,1], `{m}` [m,m],
   * `{m,n}` [m,n], `{m,}` [m,∞] and `#` [1,∞] with a comma between
   * repetitions.  The term is first folded into a group (a term that is
   * not a group is wrapped in a new single-child JUX), and the bounds are
   * set on that group.  As written `#` also appends a `","` SymbolTerm to
   * the group's children; corrected it does not.
   */
  function Multiplier(b: Build, st: St, str: string, lx: Lx, term: Option<nat>): (r: Res)
    requires Valid(st) && ValidTerm(st, term)
    ensures r.Ok? ==> Grows(st, r.st) && ValidTerm(r.st, r.term) && r.st.defs == st.defs && r.st.virt == st.virt
    ensures !IsMultiplier(Ch(str, lx)) ==> r == Ok(term, st, lx)
    ensures IsMultiplier(Ch(str, lx)) && term.None? ==> r.Threw?
  {
    var ch := Ch(str, lx);
    if !IsMultiplier(ch) then Ok(term, st, lx)
    else
      var (s1, t) := Fold(st, term, None);
      if t.None? then Threw
      else if ch == '{' as int then Braces(s1, t.value, str, lx)
      else if ch == '#' as int then Hash(b, s1, t.value, str, lx)
      else Ok(t, Star(s1, t.value, ch), Advance(str, lx))
  }

  /**
   * The multiplier table: which group the bounds land on, the bounds each
   * multiplier sets, and the children that group holds afterwards.
   */
  lemma MultiplierTable(b: Build, st: St, str: string, lx: Lx, term: Option<nat>)
    requires Valid(st) && ValidTerm(st, term) && term.Some?
    ensures var r := Multiplier(b, st, str, lx, term);
      IsMultiplier(Ch(str, lx)) && r.Ok? ==>
      r.term.Some? && r.st.nodes[r.term.value].Group?
      && (st.nodes[term.value].Group? ==> r.term == term)
      && (!st.nodes[term.value].Group? ==> r.term == Some(|st.nodes|) && r.st.nodes[|st.nodes|].kind == Jux)
    ensures var r := Multiplier(b, st, str, lx, term);
      Ch(str, lx) == '*' as int ==>
      r.Ok? && var n := r.st.nodes[r.term.value];
      n.r0 == Js.Int(0) && n.r1 == Js.Infinity && Optional(n) && n.terms == FoldedTerms(st, term.value)
    ensures var r := Multiplier(b, st, str, lx, term);
      Ch(str, lx) == '+' as int ==>
      r.Ok? && var n := r.st.nodes[r.term.value];
      n.r0 == Js.Int(1) && n.r1 == Js.Infinity && !Optional(n) && n.terms == FoldedTerms(st, term.value)
    ensures var r := Multiplier(b, st, str, lx, term);
      Ch(str, lx) == '?' as int ==>
      r.Ok? && var n := r.st.nodes[r.term.value];
      n.r0 == Js.Int(0) && n.r1 == Js.Int(1) && Optional(n) && n.terms == FoldedTerms(st, term.value)
  {
    var ch := Ch(str, lx);
    if IsMultiplier(ch) {
      var (s1, t) := Fold(st, term, None);
      assert t.Some? && s1.nodes[t.value].terms == FoldedTerms(st, term.value);
    }
  }

  /**
   * The bounds `{m}`, `{m,}` and `{m,n}` set on the group the term is folded
   * into: [m,m], [m,∞] and [m,n], the children being those of the fold.
   */
  lemma MultiplierBraces(b: Build, st: St, str: string, lx: Lx, term: Option<nat>)
    requires Valid(st) && ValidTerm(st, term) && term.Some?
    ensures var r := Multiplier(b, st, str, lx, term);
      Ch(str, lx) == '{' as int && r.Ok? ==>
      var n := r.st.nodes[r.term.value];
      var l1 := Advance(str, lx);
      n.r0 == Js.ParseInt(Tx(str, l1), 0) && n.terms == FoldedTerms(st, term.value)
      && (Ch(str, Advance(str, l1)) != ',' as int ==> n.r1 == n.r0)
      && (Ch(str, Advance(str, l1)) == ',' as int && Ch(str, Peek(str, Advance(str, Advance(str, l1))).p.value) != '}' as int ==> n.r1 == Js.Infinity)
      && (Ch(str, Advance(str, l1)) == ',' as int && Ch(str, Peek(str, Advance(str, Advance(str, l1))).p.value) == '}' as int
          ==> n.r1 == Js.ParseInt(Tx(str, Advance(str, Advance(str, l1))), 0))
  {
    if Ch(str, lx) == '{' as int {
      var (s1, t) := Fold(st, term, None);
      assert t.Some? && s1.nodes[t.value].terms == FoldedTerms(st, term.value);
      assert Multiplier(b, st, str, lx, term) == Braces(s1, t.value, str, lx);
      BracesUpperBound(s1, t.value, str, lx);
    }
  }

  /**
   * `#` on the group the term is folded into: a comma is required, the
   * bounds are [1,∞] unless `{m,n}` follows, and as written a `","`
   * SymbolTerm is appended to the children.
   */
  lemma MultiplierHash(b: Build, st: St, str: string, lx: Lx, term: Option<nat>)
    requires Valid(st) && ValidTerm(st, term) && term.Some?
    ensures var r := Multiplier(b, st, str, lx, term);
      Ch(str, lx) == '#' as int && r.Ok? ==>
      var n := r.st.nodes[r.term.value];
      n.requireComma
      && (Ch(str, Advance(str, lx)) != '{' as int ==> n.r0 == Js.Int(1) && n.r1 == Js.Infinity)
      && (b.Corrected? ==> n.terms == FoldedTerms(st, term.value))
      && (b.AsWritten? ==> n.terms == FoldedTerms(st, term.value) + [Some(|r.st.nodes| - 1)]
                           && r.st.nodes[|r.st.nodes| - 1] == Node.Symbol(",", NoAttrs))
  {
    if Ch(str, lx) == '#' as int {
      MultiplierAtHash(b, st, str, lx, term);
    }
  }

  /** At `#` the multiplier is Hash on the group the term is folded into. */
  lemma MultiplierAtHash(b: Build, st: St, str: string, lx: Lx, term: Option<nat>)
    requires Valid(st) && ValidTerm(st, term) && term.Some? && Ch(str, lx) == '#' as int
    ensures var (s1, t) := Fold(st, term, None);
      t.Some? && t.value < |s1.nodes| && s1.nodes[t.value].Group? && Valid(s1)
      && s1.nodes[t.value].terms == FoldedTerms(st, term.value)
      && Multiplier(b, st, str, lx, term) == Hash(b, s1, t.value, str, lx)
  {
  }

  /** `#{m,n}` after a term: the tokens m, `,`, n and `}` follow, and the folded group's bounds are [m,n]. */
  lemma MultiplierHashBounds(b: Build, st: St, str: string, lx: Lx, term: Option<nat>)
    requires Valid(st) && ValidTerm(st, term) && term.Some?
    ensures var r := Multiplier(b, st, str, lx, term);
      Ch(str, lx) == '#' as int && r.Ok? && Ch(str, Advance(str, lx)) == '{' as int ==>
      var n := r.st.nodes[r.term.value];
      var la := Advance(str, Advance(str, lx));
      Tx(str, Advance(str, la)) == "," && Tx(str, Advance(str, Advance(str, Advance(str, la)))) == "}"
      && n.r0 == Js.ParseInt(Tx(str, la), 0) && n.r1 == Js.ParseInt(Tx(str, Advance(str, Advance(str, la))), 0)
  {
    if Ch(str, lx) == '#' as int {
      MultiplierAtHash(b, st, str, lx, term);
      var (s1, t) := Fold(st, term, None);
      HashBounds(b, s1, t.value, str, lx);
    }
  }

  /** `*`, `+` and `?` on the folded group g. */
  function Star(st: St, g: nat, ch: int): (r: St)
    requires Valid(st) && g < |st.nodes| && st.nodes[g].Group?
    ensures Grows(st, r) && r.defs == st.defs && r.virt == st.virt && |r.nodes| == |st.nodes|
    ensures r.nodes[g] == st.nodes[g].(r0 := r.nodes[g].r0, r1 := r.nodes[g].r1)
    ensures ch == '*' as int ==> r.nodes[g].r0 == Js.Int(0) && r.nodes[g].r1 == Js.Infinity
    ensures ch == '+' as int ==> r.nodes[g].r0 == Js.Int(1) && r.nodes[g].r1 == Js.Infinity
    ensures ch == '?' as int ==> r.nodes[g].r0 == Js.Int(0) && r.nodes[g].r1 == Js.Int(1)
  {
    if ch == '*' as int then SetBounds(st, g, Js.Int(0), Js.Infinity)
    else if ch == '+' as int then SetBounds(st, g, Js.Int(1), Js.Infinity)
    else SetBounds(st, g, Js.Int(0), Js.Int(1))
  }

  /** `{m}`, `{m,n}` and `{m,}` on the folded group g. */
  function Braces(st: St, g: nat, str: string, lx: Lx): (r: Res)
    requires Valid(st) && g < |st.nodes| && st.nodes[g].Group?
    ensures r.Ok? || r.Threw?
    ensures r.Ok? ==> Grows(st, r.st) && r.st.defs == st.defs && r.st.virt == st.virt && r.term == Some(g) && |r.st.nodes| == |st.nodes|
    ensures r.Ok? ==>
      var n := r.st.nodes[g];
      var l1 := Advance(str, lx);
      n == st.nodes[g].(r0 := n.r0, r1 := n.r1) && n.r0 == Js.ParseInt(Tx(str, l1), 0)
      && (Ch(str, Advance(str, l1)) != ',' as int ==> n.r1 == n.r0)
      && (Ch(str, Advance(str, l1)) == ',' as int && Ch(str, Peek(str, Advance(str, Advance(str, l1))).p.value) != '}' as int ==> n.r1 == Js.Infinity)
  {
    var l1 := Advance(str, lx);
    var lo := Js.ParseInt(Tx(str, l1), 0);
    var l2 := Advance(str, l1);
    var (hi, l4) :=
      if Ch(str, l2) == ',' as int then
        var l3 := Advance(str, l2);
        var lp := Peek(str, l3);
        if Ch(str, lp.p.value) == '}' as int then (Js.ParseInt(Tx(str, lp), 0), Advance(str, lp))
        else (Js.Infinity, lp)
      else (lo, l2);
    match Expect(str, l4, "}")
    case None => Threw
    case Some(l5) => Ok(Some(g), SetBounds(st, g, lo, hi), l5)
  }

  /** `{m,n}`: when the token after the comma is followed by `}`, it is the upper bound. */
  lemma BracesUpperBound(st: St, g: nat, str: string, lx: Lx)
    requires Valid(st) && g < |st.nodes| && st.nodes[g].Group?
    ensures var r := Braces(st, g, str, lx);
      var l1 := Advance(str, lx);
      r.Ok? && Ch(str, Advance(str, l1)) == ',' as int && Ch(str, Peek(str, Advance(str, Advance(str, l1))).p.value) == '}' as int
      ==> r.st.nodes[g].r1 == Js.ParseInt(Tx(str, Advance(str, Advance(str, l1))), 0)
  {
  }

  /**
   * `#` on the folded group g: [1,∞] with a comma required between
   * repetitions, and an optional `{m,n}`.  As written a `","` SymbolTerm is
   * also appended to the children.
   */
  function Hash(b: Build, st: St, g: nat, str: string, lx: Lx): (r: Res)
    requires Valid(st) && g < |st.nodes| && st.nodes[g].Group?
    ensures r.Ok? || r.Threw?
    ensures r.Ok? ==> Grows(st, r.st) && r.st.defs == st.defs && r.st.virt == st.virt && r.term == Some(g)
    ensures r.Ok? ==>
      var n := r.st.nodes[g];
      n.requireComma && n.kind == st.nodes[g].kind
      && (Ch(str, Advance(str, lx)) != '{' as int ==> n.r0 == Js.Int(1) && n.r1 == Js.Infinity)
      && (b.Corrected? ==> n.terms == st.nodes[g].terms && |r.st.nodes| == |st.nodes|)
      && (b.AsWritten? ==> n.terms == st.nodes[g].terms + [Some(|st.nodes|)] && |r.st.nodes| == |st.nodes| + 1
                           && r.st.nodes[|st.nodes|] == Node.Symbol(",", NoAttrs))
  {
    var s4 := CommaMarked(b, st, g);
    var l1 := Advance(str, lx);
    if Ch(str, l1) != '{' as int then Ok(Some(g), s4, l1)
    else
      var r := HashRange(s4, g, str, l1);
      if r.Ok? then GrowsTransitive(st, s4, r.st); r else r
  }

  /** What `#` does before looking for `{`: as written a `","` child, then [1,∞] and the comma flag. */
  function CommaMarked(b: Build, st: St, g: nat): (r: St)
    requires Valid(st) && g < |st.nodes| && st.nodes[g].Group?
    ensures Valid(r) && Grows(st, r) && r.defs == st.defs && r.virt == st.virt
    ensures var n := r.nodes[g];
      n.Group? && n.requireComma && n.kind == st.nodes[g].kind && n.r0 == Js.Int(1) && n.r1 == Js.Infinity
      && (b.Corrected? ==> n.terms == st.nodes[g].terms && |r.nodes| == |st.nodes|)
      && (b.AsWritten? ==> n.terms == st.nodes[g].terms + [Some(|st.nodes|)] && |r.nodes| == |st.nodes| + 1
                           && r.nodes[|st.nodes|] == Node.Symbol(",", NoAttrs))
  {
    var s2 := if b.AsWritten? then
        var (s0, c) := Add(st, Node.Symbol(",", NoAttrs));
        Push(s0, g, Some(c))
      else st;
    var s3 := SetBounds(s2, g, Js.Int(1), Js.Infinity);
    Update(s3, g, s3.nodes[g].(requireComma := true))
  }

  /**
   * The `{m,n}` after `#`, the lexer being on the `{`: the tokens m, `,`, n
   * and `}` must follow, and the bounds become [m,n]; anything else throws.
   */
  function HashRange(st: St, g: nat, str: string, l1: Lx): (r: Res)
    requires Valid(st) && g < |st.nodes| && st.nodes[g].Group?
    ensures r.Ok? || r.Threw?
    ensures r.Ok? ==> Grows(st, r.st) && r.st.defs == st.defs && r.st.virt == st.virt && r.term == Some(g) && |r.st.nodes| == |st.nodes|
    ensures r.Ok? ==> var n := r.st.nodes[g]; n == st.nodes[g].(r0 := n.r0, r1 := n.r1)
  {
    var la := Advance(str, l1);
    var lo := Js.ParseInt(Tx(str, la), 0);
    match Expect(str, Advance(str, la), ",")
    case None => Threw
    case Some(lc) =>
      var hi := Js.ParseInt(Tx(str, lc), 0);
      match Expect(str, Advance(str, lc), "}")
      case None => Threw
      case Some(le) => Ok(Some(g), SetBounds(st, g, lo, hi), le)
  }

  /**
   * The `#{m,n}` form: after `#` and `{`, the tokens are m, `,`, n and `}`,
   * and the group's bounds are [m,n].
   */
  lemma HashBounds(b: Build, st: St, g: nat, str: string, lx: Lx)
    requires Valid(st) && g < |st.nodes| && st.nodes[g].Group?
    ensures var r := Hash(b, st, g, str, lx);
      r.Ok? && Ch(str, Advance(str, lx)) == '{' as int ==>
      var n := r.st.nodes[g];
      var la := Advance(str, Advance(str, lx));
      Tx(str, Advance(str, la)) == "," && Tx(str, Advance(str, Advance(str, Advance(str, la)))) == "}"
      && n.r0 == Js.ParseInt(Tx(str, la), 0) && n.r1 == Js.ParseInt(Tx(str, Advance(str, Advance(str, la))), 0)
  {
    if Ch(str, Advance(str, lx)) == '{' as int {
      HashRangeBounds(CommaMarked(b, st, g), g, str, Advance(str, lx));
    }
  }

  /** The `{m,n}` after `#`: the tokens m, `,`, n and `}` follow, and the bounds are [m,n]. */
  lemma HashRangeBounds(st: St, g: nat, str: string, l1: Lx)
    requires Valid(st) && g < |st.nodes| && st.nodes[g].Group?
    ensures var r := HashRange(st, g, str, l1);
      r.Ok? ==>
      var n := r.st.nodes[g];
      var la := Advance(str, l1);
      Tx(str, Advance(str, la)) == "," && Tx(str, Advance(str, Advance(str, Advance(str, la)))) == "}"
      && n.r0 == Js.ParseInt(Tx(str, la), 0) && n.r1 == Js.ParseInt(Tx(str, Advance(str, Advance(str, la))), 0)
  {
    var la := Advance(str, l1);
    var lb := Advance(str, la);
    if Expect(str, lb, ",").Some? {
      var lc := Advance(str, lb);
      var ld := Advance(str, lc);
      assert Expect(str, lb, ",") == Some(lc);
      if Expect(str, ld, "}").Some? {
        assert Expect(str, ld, "}") == Some(Advance(str, ld));
      }
    }
  }

  // ---------------------------------------------------------------- ValueTerm and the definition tables

  /**
   * The ValueTerm constructor for `<name>`: with `-` read as `_`, a `types`
   * entry gives a ValueTerm over that leaf parser; otherwise a definition
   * compiled to a group is that very group (marked virtual when found in
   * the virtual table), any other compiled definition is wrapped in a
   * ValueTerm, and an unknown name becomes a LiteralTerm of the name.
   */
  function ValueTermOf(fuel: nat, b: Build, env: CEnv, st: St, name: string): (r: Made)
    requires Valid(st)
    ensures r.Made? ==> Grows(st, r.st) && r.id < |r.st.nodes|
    ensures fuel > 0 && TypeOf(Js.Underscored(name)).Some? ==>
      r.Made? && r.st.defs == st.defs && r.st.nodes[r.id] == Value(LeafTarget(TypeOf(Js.Underscored(name)).value), ValueAttrs)
    ensures r.Made? && TypeOf(Js.Underscored(name)).None? && Defined(st.defs, Js.Underscored(name)) ==>
      var d := r.st.defs[Js.Underscored(name)];
      d.Compiled? && (r.id == d.id || r.st.nodes[r.id] == Value(DefTarget(d.id), ValueAttrs))
    ensures r.Made? && r.st.nodes[r.id].Literal? ==>
      TypeOf(Js.Underscored(name)).None? && !Defined(st.defs, Js.Underscored(name))
      && r.st.virt.Some? && !Defined(r.st.virt.value, Js.Underscored(name)) && r.st.nodes[r.id] == Literal(name, NoAttrs)
    decreases fuel, 0
  {
    if fuel == 0 then MadeNoFuel
    else
      var u := Js.Underscored(name);
      match TypeOf(u)
      case Some(kind) =>
        var (s1, id) := Add(st, Value(LeafTarget(kind), ValueAttrs));
        Made(id, s1)
      case None =>
        match GetPropertyParser(fuel - 1, b, env, st, u)
        case Found(None, _, s1) =>
          var (s2, id) := Add(s1, Literal(name, NoAttrs));
          Made(id, s2)
        case Found(Some(d), isVirtual, s1) =>
          if s1.nodes[d].Group? then
            Made(d, if isVirtual then SetAttrs(s1, d, AttrsOf(s1.nodes[d]).(virtual := true)) else s1)
          else
            var (s2, id) := Add(s1, Value(DefTarget(d), ValueAttrs));
            Made(id, s2)
        case LookupThrew => MadeThrew
        case LookupNoFuel => MadeNoFuel
  }

  /** `Object.assign({}, virtual_property_definitions)`: every entry still a notation. */
  function VirtualCopy(env: CEnv): (t: map<string, Def>)
    ensures forall k | k in t :: t[k].Notation?
  {
    map k | k in env.virtualTable :: Notation(env.virtualTable[k])
  }

  /**
   * `getPropertyParser(name)`: a truthy entry of the definitions is
   * compiled on first use (named after the property) and stored in place of
   * its notation; otherwise the lazily copied virtual table is consulted the
   * same way (compiled with an empty name, then marked virtual), which sets
   * the IS_VIRTUAL flag; otherwise null.
   */
  function GetPropertyParser(fuel: nat, b: Build, env: CEnv, st: St, name: string): (r: Lookup)
    requires Valid(st)
    ensures r.Found? ==> Grows(st, r.st) && ValidTerm(r.st, r.id)
    ensures r.Found? && Defined(st.defs, name) ==>
      r.id.Some? && !r.isVirtual && r.st.defs[name] == Compiled(r.id.value)
      && AttrsOf(r.st.nodes[r.id.value]).name == name
    ensures r.Found? && !Defined(st.defs, name) ==>
      r.st.virt.Some? && (r.id.Some? <==> Defined(r.st.virt.value, name))
      && (r.id.Some? ==> r.isVirtual && r.st.virt.value[name] == Compiled(r.id.value))
      && (r.id.None? ==> !r.isVirtual && r.st == st.(virt := r.st.virt))
    decreases fuel, 0
  {
    if fuel == 0 then LookupNoFuel
    else if Defined(st.defs, name) then FromDefinitions(fuel - 1, b, env, st, name)
    else FromVirtual(fuel - 1, b, env, st, name)
  }

  /** A name with a truthy entry in the definitions: its term, compiled and stored on first use, named after the property. */
  function FromDefinitions(fuel: nat, b: Build, env: CEnv, st: St, name: string): (r: Lookup)
    requires Valid(st) && Defined(st.defs, name)
    ensures r.Found? ==> Grows(st, r.st) && ValidTerm(r.st, r.id)
    ensures r.Found? ==>
      r.id.Some? && !r.isVirtual && r.st.defs[name] == Compiled(r.id.value)
      && AttrsOf(r.st.nodes[r.id.value]).name == name
    decreases fuel, 1
  {
    match st.defs[name]
    case Compiled(id) =>
      Found(Some(id), false, SetAttrs(st, id, AttrsOf(st.nodes[id]).(name := name)))
    case Notation(s) =>
      match CreatePropertyParser(fuel, b, env, st, s, name)
      case Made(id, s1) =>
        var s2 := s1.(defs := s1.defs[name := Compiled(id)]);
        Found(Some(id), false, SetAttrs(s2, id, AttrsOf(s2.nodes[id]).(name := name)))
      case MadeThrew => LookupThrew
      case MadeNoFuel => LookupNoFuel
  }

  /**
   * Any other name: the virtual table, copied on first need, is consulted
   * the same way (a notation compiled with an empty name, then marked
   * virtual and named); a name missing there too gives null.
   */
  function FromVirtual(fuel: nat, b: Build, env: CEnv, st: St, name: string): (r: Lookup)
    requires Valid(st)
    ensures r.Found? ==> Grows(st, r.st) && ValidTerm(r.st, r.id)
    ensures r.Found? ==>
      r.st.virt.Some? && (r.id.Some? <==> Defined(r.st.virt.value, name))
      && (r.id.Some? ==> r.isVirtual && r.st.virt.value[name] == Compiled(r.id.value))
      && (r.id.None? ==> !r.isVirtual && r.st == st.(virt := r.st.virt))
    decreases fuel, 1, 1
  {
    var virt := if st.virt.Some? then st.virt.value else VirtualCopy(env);
    var st0 := st.(virt := Some(virt));
    if Defined(virt, name) then
      match virt[name]
      case Compiled(id) => Found(Some(id), true, st0)
      case Notation(s) => CompileVirtual(fuel, b, env, st0, name, s)
    else Found(None, false, st0)
  }

  /** A virtual definition met as notation: compiled with an empty name, stored back, marked virtual and named. */
  function CompileVirtual(fuel: nat, b: Build, env: CEnv, st: St, name: string, notation: string): (r: Lookup)
    requires Valid(st) && st.virt.Some? && Defined(st.virt.value, name) && st.virt.value[name] == Notation(notation)
    ensures r.Found? ==> Grows(st, r.st) && r.id.Some? && ValidTerm(r.st, r.id) && r.isVirtual
    ensures r.Found? ==> r.st.virt.Some? && Defined(r.st.virt.value, name) && r.st.virt.value[name] == Compiled(r.id.value)
    decreases fuel, 1, 0
  {
    match CreatePropertyParser(fuel, b, env, st, notation, "")
    case Made(id, s1) =>
      var s2 := s1.(virt := Some(s1.virt.value[name := Compiled(id)]));
      Found(Some(id), true, SetAttrs(s2, id, AttrsOf(s2.nodes[id]).(virtual := true, name := name)))
    case MadeThrew => LookupThrew
    case MadeNoFuel => LookupNoFuel
  }

  /**
   * `CreatePropertyParser(notation, name)`: compile the notation with a new
   * lexer and set the result's `prop` to the name; a notation that yields
   * no term throws when the result is sealed.
   */
  function CreatePropertyParser(fuel: nat, b: Build, env: CEnv, st: St, notation: string, name: string): (r: Made)
    requires Valid(st)
    ensures r.Made? ==> Grows(st, r.st) && r.id < |r.st.nodes| && AttrsOf(r.st.nodes[r.id]).prop == Some(name)
    decreases fuel, 0
  {
    if fuel == 0 then MadeNoFuel
    else
      match D1(fuel - 1, b, env, st, notation, Whind(notation), NoFlags)
      case Ok(Some(n), s1, _) => Made(n, SetAttrs(s1, n, AttrsOf(s1.nodes[n]).(prop := Some(name))))
      case Ok(None, _, _) => MadeThrew
      case Threw => MadeThrew
      case NoFuel => MadeNoFuel
  }

  /**
   * Compilation is memoised: once a lookup has returned a term, a later
   * lookup of the same name in the state it left returns that same term,
   * from the same table, and compiles nothing.
   */
  lemma LookupMemoised(f1: nat, f2: nat, b: Build, env: CEnv, st: St, name: string)
    requires Valid(st) && f2 > 0
    requires GetPropertyParser(f1, b, env, st, name).Found? && GetPropertyParser(f1, b, env, st, name).id.Some?
    ensures var r1 := GetPropertyParser(f1, b, env, st, name);
      var r2 := GetPropertyParser(f2, b, env, r1.st, name);
      r2.Found? && r2.id == r1.id && r2.isVirtual == r1.isVirtual
      && |r2.st.nodes| == |r1.st.nodes| && r2.st.defs == r1.st.defs && r2.st.virt == r1.st.virt
  {
    var r1 := GetPropertyParser(f1, b, env, st, name);
    if !Defined(st.defs, name) {
      assert !Defined(r1.st.defs, name) by {
        assert Kept(st.defs, r1.st.defs);
      }
    }
  }

  // ---------------------------------------------------------------- the loops, step by step

  /** One pass of the `d$1` loop: the switch, and where it leaves the loop. */
  method D1Pass(fuel: nat, b: Build, env: CEnv, st: St, str: string, lx: Lx, fl: Flags, term: Option<nat>) returns (step: Step)
    requires Valid(st) && ValidTerm(st, term) && fuel > 0 && !End(lx)
    ensures step.Continue? ==> Valid(step.st) && ValidTerm(step.st, step.term)
    ensures step.Continue? ==> D1Loop(fuel, b, env, st, str, lx, fl, term) == D1Loop(fuel - 1, b, env, step.st, str, step.lx, fl, step.term)
    ensures step.Return? ==> D1Loop(fuel, b, env, st, str, lx, fl, term) == step.res
  {
    step := SwitchCase(fuel - 1, b, env, st, str, lx, fl, term);
  }

  /** The `while (!l.END)` loop of `d$1`, from an undefined term, with the state updated in place. */
  method CompileNotation(fuel0: nat, b: Build, env: CEnv, st0: St, str: string, lx0: Lx, fl: Flags) returns (r: Res)
    requires Valid(st0)
    ensures r == D1(fuel0, b, env, st0, str, lx0, fl)
  {
    var fuel, st, lx, term := fuel0, st0, lx0, None;
    ghost var target := D1(fuel0, b, env, st0, str, lx0, fl);
    while true
      invariant Valid(st) && ValidTerm(st, term)
      invariant D1Loop(fuel, b, env, st, str, lx, fl, term) == target
      decreases fuel
    {
      if fuel == 0 {
        return NoFuel;
      }
      if End(lx) {
        return Ok(term, st, lx);
      }
      var step := D1Pass(fuel, b, env, st, str, lx, fl, term);
      if step.Return? {
        return step.res;
      }
      fuel, st, lx, term := fuel - 1, step.st, step.lx, step.term;
    }
  }

  /** The children loop of a group g of kind k: compile, push, and go on past each separator. */
  method CompileChildren(fuel0: nat, b: Build, env: CEnv, st0: St, str: string, lx0: Lx, fl: Flags, g: nat, k: Kind) returns (r: Res)
    requires Valid(st0) && g < |st0.nodes| && st0.nodes[g].Group?
    ensures r == Children(fuel0, b, env, st0, str, lx0, fl, g, k)
  {
    var fuel, st, lx := fuel0, st0, lx0;
    ghost var target := Children(fuel0, b, env, st0, str, lx0, fl, g, k);
    while true
      invariant Valid(st) && g < |st.nodes| && st.nodes[g].Group?
      invariant Children(fuel, b, env, st, str, lx, fl, g, k) == target
      decreases fuel
    {
      if fuel == 0 {
        return NoFuel;
      }
      if End(lx) {
        return Ok(Some(g), st, lx);
      }
      var child := D1(fuel - 1, b, env, st, str, lx, fl);
      if !child.Ok? {
        return if child.Threw? then Threw else NoFuel;
      }
      var s2 := Push(child.st, g, child.term);
      var sep := Separator(str, child.lx, k);
      if sep.SepThrew? {
        return Threw;
      }
      if sep.Stop? {
        return Ok(Some(g), s2, sep.lx);
      }
      assert target == Children(fuel - 1, b, env, s2, str, sep.lx, fl, g, k);
      fuel, st, lx := fuel - 1, s2, sep.lx;
    }
  }

  /** A step of `checkExtensions` at a `!`: it marks the term important and moves on, or throws with no term. */
  lemma CheckExtensionsMark(fuel: nat, b: Build, st: St, str: string, lx: Lx, term: Option<nat>)
    requires Valid(st) && ValidTerm(st, term) && fuel > 0 && Ch(str, lx) == '!' as int
    ensures term.None? ==> CheckExtensions(fuel, b, st, str, lx, term) == Threw
    ensures term.Some? ==>
      CheckExtensions(fuel, b, st, str, lx, term) == CheckExtensions(fuel - 1, b, MarkImportant(st, term.value), str, Advance(str, lx), term)
  {
  }

  /** A step of `checkExtensions` at anything but `!`: the multiplier, if any. */
  lemma CheckExtensionsEnd(fuel: nat, b: Build, st: St, str: string, lx: Lx, term: Option<nat>)
    requires Valid(st) && ValidTerm(st, term) && fuel > 0 && Ch(str, lx) != '!' as int
    ensures CheckExtensions(fuel, b, st, str, lx, term) == Multiplier(b, st, str, lx, term)
  {
  }

  /** The `continue outer` loop of `checkExtensions` over `!`, then the multiplier. */
  method ReadExtensions(fuel0: nat, b: Build, st0: St, str: string, lx0: Lx, term: Option<nat>) returns (r: Res)
    requires Valid(st0) && ValidTerm(st0, term)
    ensures r == CheckExtensions(fuel0, b, st0, str, lx0, term)
  {
    var fuel, st, lx := fuel0, st0, lx0;
    ghost var target := CheckExtensions(fuel0, b, st0, str, lx0, term);
    while fuel > 0 && Ch(str, lx) == '!' as int
      invariant Valid(st) && ValidTerm(st, term)
      invariant CheckExtensions(fuel, b, st, str, lx, term) == target
      decreases fuel
    {
      CheckExtensionsMark(fuel, b, st, str, lx, term);
      if term.None? {
        return Threw;
      }
      fuel, st, lx := fuel - 1, MarkImportant(st, term.value), Advance(str, lx);
    }
    if fuel == 0 {
      return NoFuel;
    }
    CheckExtensionsEnd(fuel, b, st, str, lx, term);
    return Multiplier(b, st, str, lx, term);
  }


}
