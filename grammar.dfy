/**
 * The term tree the notation compiler builds and the evaluator walks.
 * Terms live in a store and refer to each other by index, because the
 * compiler shares them: a `<name>` naming a compiled definition is that
 * definition's own term, and a multiplier written after it changes the
 * shared term.
 */
module Grammar {
  import opened Wrappers
  import Js
  import opened Leaves

  /** JUX (juxtaposition), AND (`&&`), OR (`||`) and ONE_OF (`|`). */
  datatype Kind = Jux | And | Or | OneOf

  /**
   * The fields every term may carry: the property it writes (`null`, "" or a
   * name), the definition name, the virtual and IMPORTANT marks.
   */
  datatype Attrs = Attrs(prop: Option<string>, name: string, virtual: bool, important: bool)

  /** What a ValueTerm parses with: a leaf parser of the `types` table, or a compiled definition that is not a group. */
  datatype Target = LeafTarget(kind: LeafKind) | DefTarget(id: nat)

  datatype Node =
    | Group(kind: Kind, terms: seq<Option<nat>>, r0: Js.Number, r1: Js.Number, requireComma: bool, attrs: Attrs)
    | Value(target: Target, attrs: Attrs)
    | Literal(text: string, attrs: Attrs)
    | Symbol(text: string, attrs: Attrs)

  /** A new group holding `terms`: repetition bounds NaN, no comma, no prop, no name, not virtual. */
  function NewGroup(kind: Kind, terms: seq<Option<nat>>): (n: Node)
    ensures n.Group? && n.kind == kind && n.terms == terms && !IsRepeating(n) && !n.requireComma
    ensures AttrsOf(n) == Attrs(None, "", false, false)
  {
    Group(kind, terms, Js.NaN, Js.NaN, false, Attrs(None, "", false, false))
  }

  /** `isRepeating`: a multiplier has set one of the bounds. */
  predicate IsRepeating(n: Node)
    requires n.Group?
  {
    !(n.r0.NaN? && n.r1.NaN?)
  }

  /** The `start` getter: a NaN lower bound reads as 1. */
  function Start(n: Node): (s: Js.Number)
    requires n.Group?
    ensures !s.NaN? && (n.r0.NaN? ==> s == Js.Int(1)) && (!n.r0.NaN? ==> s == n.r0)
  {
    if n.r0.NaN? then Js.Int(1) else n.r0
  }

  /** The `end` getter: a NaN upper bound reads as 1. */
  function EndBound(n: Node): (e: Js.Number)
    requires n.Group?
    ensures !e.NaN? && (n.r1.NaN? ==> e == Js.Int(1)) && (!n.r1.NaN? ==> e == n.r1)
  {
    if n.r1.NaN? then Js.Int(1) else n.r1
  }

  /** `j < end`, where end is an integer or Infinity. */
  predicate Below(j: nat, bound: Js.Number) {
    match bound
    case Int(n) => j < n
    case Infinity => true
    case NaN => false
  }

  /** The OPTIONAL getter: only a group whose lower bound is exactly 0; every other term is required. */
  predicate Optional(n: Node) {
    n.Group? && n.r0 == Js.Int(0)
  }

  function AttrsOf(n: Node): Attrs {
    match n
    case Group(_, _, _, _, _, a) => a
    case Value(_, a) => a
    case Literal(_, a) => a
    case Symbol(_, a) => a
  }

  function WithAttrs(n: Node, a: Attrs): (m: Node)
    ensures AttrsOf(m) == a
    ensures m.Group? == n.Group? && m.Value? == n.Value?
    ensures n.Group? ==> m.kind == n.kind && m.terms == n.terms && m.r0 == n.r0 && m.r1 == n.r1 && m.requireComma == n.requireComma
  {
    match n
    case Group(k, t, r0, r1, c, _) => Group(k, t, r0, r1, c, a)
    case Value(t, _) => Value(t, a)
    case Literal(t, _) => Literal(t, a)
    case Symbol(t, _) => Symbol(t, a)
  }
}
