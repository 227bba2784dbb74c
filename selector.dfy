/**
 * `CSSRuleBody.parseSelector`: reads a selector list up to its `{` (or the
 * end) into one string per selector and one list of compounds per
 * selector.  A compound is read left to right but stored at the front of
 * its selector's list, so each list runs from the subject compound out to
 * the outermost ancestor; the compound that a combinator follows carries
 * that combinator's tag.  With white space ignored, a descendant
 * combinator is seen only where an element name follows a compound that
 * has one.
 */
module Selectors {
  import opened Wrappers
  import opened LexTables
  import opened LexSpec
  import opened LexerValue
  import Js

  datatype Simple = Attribute(v: string) | Pseudo(v: string) | ClassName(v: string) | IdName(v: string)

  /** The `c` tag of a compound: how it relates to the compound stored before it. */
  datatype Combinator = Untagged | Child | Preceded | ImmediatelyPreceded | Descendant

  /** `_selectorPart_`: the element name, the simple selectors, the tag. */
  datatype Part = Part(e: string, ss: seq<Simple>, c: Combinator)

  const NewPart := Part("", [], Untagged)

  /**
   * The loop's variables: the lexer, where the current selector's text
   * starts, the compound being read (`null` after a combinator), the
   * compounds of the current selector, the finished selectors and their texts.
   */
  datatype SelState = SelState(lx: Lx, start: int, sel: Option<Part>, compounds: seq<Option<Part>>,
                               groups: seq<seq<Option<Part>>>, texts: seq<string>)

  datatype SelectorOut = Parsed(v: seq<string>, a: seq<seq<Option<Part>>>, lx: Lx) | SelThrew | SelNoFuel

  /** One pass of the loop: go on from a new state, or leave with a result. */
  datatype SelStep = Go(s: SelState) | Leave(out: SelectorOut)

  function Begin(lx: Lx): SelState {
    SelState(lx, lx.c.off, Some(NewPart), [], [], [])
  }

  /** The compound in hand put at the front, the selector closed and its trimmed text taken. */
  function Close(str: string, s: SelState): SelState {
    SelState(s.lx, s.start, Some(NewPart), [], s.groups + [[s.sel] + s.compounds],
             s.texts + [Js.Trim(SliceFrom(str, s.lx, s.start))])
  }

  /** `parseSelector(lexer)`, one unit of fuel per pass of its loop and per token of an attribute selector. */
  function ParseSelectorSpec(fuel: nat, str: string, lx: Lx): SelectorOut {
    SelectorLoop(fuel, str, Begin(lx))
  }

  function SelectorLoop(fuel: nat, str: string, s: SelState): SelectorOut
    decreases fuel
  {
    if fuel == 0 then SelNoFuel
    else if End(s.lx) then
      var done := Close(str, s);
      Parsed(done.texts, done.groups, s.lx)
    else
      var part := if s.sel.Some? then s.sel.value else NewPart;
      match SelectorStep(fuel - 1, str, s, part)
      case Go(s2) => SelectorLoop(fuel - 1, str, s2)
      case Leave(out) => out
  }

  /** `_eID_`: the token must be an identifier. */
  predicate IsIdent(lx: Lx) { lx.c.typ == Ident }

  /** The switch on `lexer.tx` with the compound in hand. */
  function SelectorStep(fuel: nat, str: string, s: SelState, part: Part): SelStep {
    var s := s.(sel := Some(part));
    var tx := Tx(str, s.lx);
    if tx == "{" || tx == "," then
      var done := Close(str, s);
      if tx == "{" then Leave(Parsed(done.texts, done.groups, s.lx))
      else
        var l1 := Advance(str, s.lx);
        Go(done.(lx := l1, start := l1.c.off))
    else if tx == "[" then
      var lp := Peek(str, s.lx);
      (match AttributeEnd(fuel, str, lp.p.value)
       case None => Leave(SelNoFuel)
       case Some(p) =>
         match Expect(str, p, "]")
         case None => Leave(SelThrew)
         case Some(p2) =>
           if End(p2) then Leave(SelThrew)
           else
             var v := SliceFrom(str, p2, s.lx.c.off);
             Go(s.(lx := Sync(lp.(p := Some(p2)), p2), sel := Some(part.(ss := part.ss + [Attribute(v)])))))
    else if tx == ":" || tx == "." || tx == "#" then
      var l1 := Advance(str, s.lx);
      var v := Tx(str, l1);
      var simple := if tx == ":" then Pseudo(v) else if tx == "." then ClassName(v) else IdName(v);
      if !IsIdent(l1) then Leave(SelThrew)
      else Go(s.(lx := Advance(str, l1), sel := Some(part.(ss := part.ss + [simple]))))
    else if tx == "*" then
      Go(s.(lx := Advance(str, s.lx)))
    else if tx == ">" || tx == "~" || tx == "+" then
      var tag := if tx == ">" then Child else if tx == "~" then Preceded else ImmediatelyPreceded;
      Go(s.(lx := Advance(str, s.lx), sel := None, compounds := [Some(part.(c := tag))] + s.compounds))
    else if part.e != "" then
      Go(s.(sel := None, compounds := [Some(part.(c := Descendant))] + s.compounds))
    else if !IsIdent(s.lx) then Leave(SelThrew)
    else Go(s.(lx := Advance(str, s.lx), sel := Some(part.(e := tx))))
  }

  /** `while (!p.END && p.next().tx !== "]") {}` on the peek lexer, one unit of fuel per token. */
  function AttributeEnd(fuel: nat, str: string, p: Lx): Option<Lx>
    decreases fuel
  {
    if End(p) then Some(p)
    else if fuel == 0 then None
    else
      var p1 := Advance(str, p);
      if Tx(str, p1) == "]" then Some(p1) else AttributeEnd(fuel - 1, str, p1)
  }

  // ---------------------------------------------------------------- shape of the result

  /**
   * A selector's compound list: the subject first, untagged (or `null`
   * when the selector ended right after a combinator), then its ancestors
   * and siblings, each tagged with the combinator that followed it.
   */
  predicate WellTagged(g: seq<Option<Part>>) {
    |g| >= 1 && (g[0].Some? ==> g[0].value.c == Untagged)
    && forall k | 1 <= k < |g| :: g[k].Some? && g[k].value.c != Untagged
  }

  /** A compound tagged as an ancestor by white space has an element name. */
  predicate NamedDescendants(g: seq<Option<Part>>) {
    forall k | 0 <= k < |g| && g[k].Some? && g[k].value.c == Descendant :: g[k].value.e != ""
  }

  predicate Shaped(v: seq<string>, a: seq<seq<Option<Part>>>) {
    |v| == |a| >= 1 && forall i | 0 <= i < |a| :: WellTagged(a[i]) && NamedDescendants(a[i])
  }

  /** What holds of the loop's state between passes. */
  predicate Between(s: SelState) {
    |s.texts| == |s.groups|
    && (forall i | 0 <= i < |s.groups| :: WellTagged(s.groups[i]) && NamedDescendants(s.groups[i]))
    && (s.sel.Some? ==> s.sel.value.c == Untagged)
    && (forall k | 0 <= k < |s.compounds| :: s.compounds[k].Some? && s.compounds[k].value.c != Untagged)
    && NamedDescendants(s.compounds)
  }

  lemma CloseShaped(str: string, s: SelState)
    requires Between(s)
    ensures var d := Close(str, s); Between(d) && |d.groups| >= 1
  {
    var g := [s.sel] + s.compounds;
    assert forall k | 1 <= k < |g| :: g[k] == s.compounds[k - 1];
    assert WellTagged(g) && NamedDescendants(g);
  }

  lemma StepShaped(fuel: nat, str: string, s: SelState, part: Part)
    requires Between(s) && part.c == Untagged
    ensures var r := SelectorStep(fuel, str, s, part);
      (r.Go? ==> Between(r.s))
      && (r.Leave? && r.out.Parsed? ==> Shaped(r.out.v, r.out.a) && Tx(str, r.out.lx) == "{")
  {
    var s1 := s.(sel := Some(part));
    var tx := Tx(str, s1.lx);
    if tx == "{" || tx == "," {
      CloseShaped(str, s1);
    } else if tx == ">" || tx == "~" || tx == "+" || (tx != "[" && tx != ":" && tx != "." && tx != "#" && tx != "*" && part.e != "") {
      var tag := if tx == ">" then Child else if tx == "~" then Preceded else if tx == "+" then ImmediatelyPreceded else Descendant;
      var cs := [Some(part.(c := tag))] + s.compounds;
      assert forall k | 1 <= k < |cs| :: cs[k] == s.compounds[k - 1];
    }
  }

  /**
   * Every selector list `parseSelector` returns has one text per selector,
   * and every selector's compounds run from an untagged subject through
   * tagged compounds; it stops at a `{` or at the end of the input.
   */
  lemma {:induction false} SelectorLoopShaped(fuel: nat, str: string, s: SelState)
    requires Between(s)
    ensures var r := SelectorLoop(fuel, str, s);
      r.Parsed? ==> Shaped(r.v, r.a) && (End(r.lx) || Tx(str, r.lx) == "{")
    decreases fuel
  {
    if fuel > 0 {
      if End(s.lx) {
        CloseShaped(str, s);
      } else {
        var part := if s.sel.Some? then s.sel.value else NewPart;
        var step := SelectorStep(fuel - 1, str, s, part);
        StepShaped(fuel - 1, str, s, part);
        LoopStep(fuel, str, s, step);
        if step.Go? {
          SelectorLoopShaped(fuel - 1, str, step.s);
        }
      }
    }
  }

  lemma SelectorShaped(fuel: nat, str: string, lx: Lx)
    ensures var r := ParseSelectorSpec(fuel, str, lx);
      r.Parsed? ==> Shaped(r.v, r.a) && (End(r.lx) || Tx(str, r.lx) == "{")
  {
    SelectorLoopShaped(fuel, str, Begin(lx));
  }

  /** A token the switch does not treat as punctuation: an element name, or an error when not an identifier. */
  predicate Plain(tx: string) {
    tx !in {"{", ",", "[", ":", ".", "#", "*", ">", "~", "+"}
  }

  /** The tag a combinator token gives the compound before it. */
  function TagOf(tx: string): Combinator {
    if tx == ">" then Child else if tx == "~" then Preceded else if tx == "+" then ImmediatelyPreceded else Descendant
  }

  /**
   * At `>`, `~` or `+` the compound in hand goes to the front of the
   * selector's list tagged with that combinator, and no compound is in hand.
   */
  lemma CombinatorTagsCompound(fuel: nat, str: string, s: SelState, part: Part)
    requires Tx(str, s.lx) in {">", "~", "+"}
    ensures SelectorStep(fuel, str, s, part)
         == Go(s.(lx := Advance(str, s.lx), sel := None, compounds := [Some(part.(c := TagOf(Tx(str, s.lx))))] + s.compounds))
  {
  }

  /**
   * An element name after a compound that has one is a descendant
   * combinator: the compound goes to the front tagged Descendant and the
   * name is read again, on the next pass, as the start of a new compound.
   */
  lemma NameAfterNameIsDescendant(fuel: nat, str: string, s: SelState, part: Part)
    requires Plain(Tx(str, s.lx)) && part.e != ""
    ensures SelectorStep(fuel, str, s, part)
         == Go(s.(sel := None, compounds := [Some(part.(c := Descendant))] + s.compounds))
  {
  }

  /** An identifier starting a compound is its element name. */
  lemma NameStartsCompound(fuel: nat, str: string, s: SelState, part: Part)
    requires Plain(Tx(str, s.lx)) && part.e == "" && IsIdent(s.lx)
    ensures SelectorStep(fuel, str, s, part)
         == Go(s.(lx := Advance(str, s.lx), sel := Some(part.(e := Tx(str, s.lx)))))
  {
  }

  /** At `{` the compound in hand closes the selector and the loop leaves. */
  lemma LastPass(fuel: nat, str: string, s: SelState)
    requires s.sel.Some? && Tx(str, s.lx) == "{"
    ensures var done := Close(str, s);
      SelectorStep(fuel, str, s, s.sel.value) == Leave(Parsed(done.texts, done.groups, s.lx))
  {
  }

  /** `e1 >` then e2: the loop reaches e2's compound with e1 tagged Child in the list. */
  lemma ChildPasses(fuel: nat, str: string, l0: Lx, l1: Lx, l2: Lx)
    requires fuel >= 3 && l1 == Advance(str, l0) && l2 == Advance(str, l1)
    requires !End(l0) && !End(l1) && !End(l2)
    requires IsIdent(l0) && Tx(str, l1) == ">" && IsIdent(l2) && Plain(Tx(str, l0)) && Plain(Tx(str, l2))
    ensures SelectorLoop(fuel, str, Begin(l0))
         == SelectorLoop(fuel - 3, str, SelState(Advance(str, l2), l0.c.off, Some(Part(Tx(str, l2), [], Untagged)),
                                                 [Some(Part(Tx(str, l0), [], Child))], [], []))
  {
    var e1 := Tx(str, l0);
    var s0 := Begin(l0);
    var s1 := s0.(lx := l1, sel := Some(Part(e1, [], Untagged)));
    var s2 := s1.(lx := l2, sel := None, compounds := [Some(Part(e1, [], Child))]);
    var s3 := s2.(lx := Advance(str, l2), sel := Some(Part(Tx(str, l2), [], Untagged)));
    NameStartsCompound(fuel - 1, str, s0, NewPart);
    LoopStep(fuel, str, s0, Go(s1));
    CombinatorTagsCompound(fuel - 2, str, s1, Part(e1, [], Untagged));
    LoopStep(fuel - 1, str, s1, Go(s2));
    NameStartsCompound(fuel - 3, str, s2, NewPart);
    LoopStep(fuel - 2, str, s2, Go(s3));
  }

  /** e2 then e3 and `{`: e2 is tagged Descendant, e3 is the subject, and the loop leaves at the `{`. */
  lemma DescendantCloses(fuel: nat, str: string, s3: SelState, e1: string, e2: string, l4: Lx)
    requires fuel >= 3 && !End(s3.lx) && !End(l4) && l4 == Advance(str, s3.lx)
    requires s3.sel == Some(Part(e2, [], Untagged)) && e2 != "" && s3.compounds == [Some(Part(e1, [], Child))] && s3.groups == [] && s3.texts == []
    requires IsIdent(s3.lx) && Plain(Tx(str, s3.lx)) && Tx(str, l4) == "{"
    ensures SelectorLoop(fuel, str, s3)
         == Parsed([Js.Trim(SliceFrom(str, l4, s3.start))],
                   [[Some(Part(Tx(str, s3.lx), [], Untagged)), Some(Part(e2, [], Descendant)), Some(Part(e1, [], Child))]], l4)
  {
    var e3 := Tx(str, s3.lx);
    var s4 := s3.(sel := None, compounds := [Some(Part(e2, [], Descendant)), Some(Part(e1, [], Child))]);
    var s5 := s4.(lx := l4, sel := Some(Part(e3, [], Untagged)));
    var done := Close(str, s5);
    NameAfterNameIsDescendant(fuel - 1, str, s3, Part(e2, [], Untagged));
    LoopStep(fuel, str, s3, Go(s4));
    NameStartsCompound(fuel - 2, str, s4, NewPart);
    LoopStep(fuel - 1, str, s4, Go(s5));
    LastPass(fuel - 3, str, s5);
    LoopStep(fuel - 2, str, s5, Leave(Parsed(done.texts, done.groups, l4)));
    assert [s5.sel] + s5.compounds == [Some(Part(e3, [], Untagged)), Some(Part(e2, [], Descendant)), Some(Part(e1, [], Child))];
    assert done.groups == [] + [[s5.sel] + s5.compounds];
  }

  /**
   * `e1 > e2 e3 {`, the white space being ignored by the lexer: one
   * selector whose list is e3 (the subject, untagged), then e2 tagged as
   * the ancestor of a descendant, then e1 tagged as the parent of a child.
   */
  lemma ChildThenDescendant(fuel: nat, str: string, l0: Lx, l1: Lx, l2: Lx, l3: Lx, l4: Lx)
    requires fuel >= 6
    requires l1 == Advance(str, l0) && l2 == Advance(str, l1) && l3 == Advance(str, l2) && l4 == Advance(str, l3)
    requires !End(l0) && !End(l1) && !End(l2) && !End(l3) && !End(l4)
    requires IsIdent(l0) && Tx(str, l1) == ">" && IsIdent(l2) && IsIdent(l3) && Tx(str, l4) == "{"
    requires Plain(Tx(str, l0)) && Plain(Tx(str, l2)) && Plain(Tx(str, l3)) && Tx(str, l2) != ""
    ensures ParseSelectorSpec(fuel, str, l0)
         == Parsed([Js.Trim(SliceFrom(str, l4, l0.c.off))],
                   [[Some(Part(Tx(str, l3), [], Untagged)), Some(Part(Tx(str, l2), [], Descendant)), Some(Part(Tx(str, l0), [], Child))]],
                   l4)
  {
    ChildPasses(fuel, str, l0, l1, l2);
    var s3 := SelState(l3, l0.c.off, Some(Part(Tx(str, l2), [], Untagged)), [Some(Part(Tx(str, l0), [], Child))], [], []);
    DescendantCloses(fuel - 3, str, s3, Tx(str, l0), Tx(str, l2), l4);
  }

  // ---------------------------------------------------------------- the loop

  /** The inner loop of the `[` case: the peek lexer moves on to a `]` or the end. */
  method ScanAttribute(fuel0: nat, str: string, p0: Lx) returns (r: Option<Lx>)
    ensures r == AttributeEnd(fuel0, str, p0)
  {
    var p := p0;
    var fuel := fuel0;
    while !End(p)
      invariant AttributeEnd(fuel, str, p) == AttributeEnd(fuel0, str, p0)
      decreases fuel
    {
      if fuel == 0 {
        return None;
      }
      p := Advance(str, p);
      fuel := fuel - 1;
      if Tx(str, p) == "]" {
        return Some(p);
      }
    }
    return Some(p);
  }

  /** The `[` case: scan to the `]`, which must be there and not be the last token; the peek lexer's `]` becomes the current token. */
  method AttributePass(fuel: nat, str: string, s: SelState, part: Part) returns (step: SelStep)
    requires Tx(str, s.lx) == "["
    ensures step == SelectorStep(fuel, str, s, part)
  {
    var lp := Peek(str, s.lx);
    var scan := ScanAttribute(fuel, str, lp.p.value);
    if scan.None? {
      return Leave(SelNoFuel);
    }
    var p2 := Expect(str, scan.value, "]");
    if p2.None? || End(p2.value) {
      return Leave(SelThrew);
    }
    var v := SliceFrom(str, p2.value, s.lx.c.off);
    step := Go(s.(lx := Sync(lp.(p := Some(p2.value)), p2.value), sel := Some(part.(ss := part.ss + [Attribute(v)]))));
  }

  /** One pass of the switch on `lexer.tx`, with the compound in hand. */
  method SelectorPass(fuel: nat, str: string, s: SelState, part: Part) returns (step: SelStep)
    ensures step == SelectorStep(fuel, str, s, part)
  {
    var lx := s.lx;
    var tx := Tx(str, lx);
    var sel := Some(part);
    var compounds := s.compounds;
    if tx == "{" || tx == "," {
      var groups := s.groups + [[sel] + compounds];
      var texts := s.texts + [Js.Trim(SliceFrom(str, lx, s.start))];
      if tx == "{" {
        return Leave(Parsed(texts, groups, lx));
      }
      lx := Advance(str, lx);
      return Go(SelState(lx, lx.c.off, Some(NewPart), [], groups, texts));
    } else if tx == "[" {
      step := AttributePass(fuel, str, s, part);
      return;
    } else if tx == ":" || tx == "." || tx == "#" {
      lx := Advance(str, lx);
      var v := Tx(str, lx);
      var simple := if tx == ":" then Pseudo(v) else if tx == "." then ClassName(v) else IdName(v);
      if !IsIdent(lx) {
        return Leave(SelThrew);
      }
      sel := Some(part.(ss := part.ss + [simple]));
      lx := Advance(str, lx);
    } else if tx == "*" {
      lx := Advance(str, lx);
    } else if tx == ">" || tx == "~" || tx == "+" {
      var tag := if tx == ">" then Child else if tx == "~" then Preceded else ImmediatelyPreceded;
      compounds := [Some(part.(c := tag))] + compounds;
      sel := None;
      lx := Advance(str, lx);
    } else if part.e != "" {
      compounds := [Some(part.(c := Descendant))] + compounds;
      sel := None;
    } else {
      if !IsIdent(lx) {
        return Leave(SelThrew);
      }
      sel := Some(part.(e := tx));
      lx := Advance(str, lx);
    }
    step := Go(s.(lx := lx, sel := sel, compounds := compounds));
  }

  /** The loop's spec past one pass: go on from the new state, or the pass's result. */
  lemma LoopStep(fuel: nat, str: string, s: SelState, step: SelStep)
    requires fuel > 0 && !End(s.lx)
    requires step == SelectorStep(fuel - 1, str, s, if s.sel.Some? then s.sel.value else NewPart)
    ensures step.Go? ==> SelectorLoop(fuel, str, s) == SelectorLoop(fuel - 1, str, step.s)
    ensures step.Leave? ==> SelectorLoop(fuel, str, s) == step.out
  {
  }

  /** One pass of the loop, stated as the loop's progress: the rest of the loop from the new state, or the result. */
  method LoopPass(fuel: nat, str: string, s: SelState) returns (step: SelStep)
    requires fuel > 0 && !End(s.lx)
    ensures step.Go? ==> SelectorLoop(fuel, str, s) == SelectorLoop(fuel - 1, str, step.s)
    ensures step.Leave? ==> SelectorLoop(fuel, str, s) == step.out
  {
    var part := if s.sel.Some? then s.sel.value else NewPart;
    step := SelectorPass(fuel - 1, str, s, part);
    LoopStep(fuel, str, s, step);
  }

  /** `parseSelector(lexer)` as the source writes it: a loop over the tokens, one pass of the switch each time. */
  method ParseSelector(fuel0: nat, str: string, lx0: Lx) returns (r: SelectorOut)
    ensures r == ParseSelectorSpec(fuel0, str, lx0)
  {
    var fuel := fuel0;
    var s := Begin(lx0);
    ghost var target := SelectorLoop(fuel0, str, s);
    while true
      invariant SelectorLoop(fuel, str, s) == target
      decreases fuel
    {
      if fuel == 0 {
        return SelNoFuel;
      }
      if End(s.lx) {
        break;
      }
      var step := LoopPass(fuel, str, s);
      fuel := fuel - 1;
      match step
      case Leave(out) =>
        return out;
      case Go(s2) =>
        s := s2;
    }
    var done := Close(str, s);
    return Parsed(done.texts, done.groups, s.lx);
  }
}
