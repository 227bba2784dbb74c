/**
 * The values a grammar evaluation produces and the objects it writes them
 * into.  A rule's property map and the `{ v }` accumulators are maps from
 * keys to values; a value is JavaScript's null/undefined, a boolean, a
 * string, a parsed leaf object or an array.
 */
module Values {
  import opened Wrappers
  import Js

  /** A number leaf: the sign the parser applied and the token text it converted. */
  datatype Amount = Amount(text: string, negative: bool)

  /** A colour channel: an integer (or NaN), a percentage of 255, or a `parseFloat` of the token text. */
  datatype Channel = Exact(n: Js.Number) | PercentOf(n: Js.Number) | FloatText(text: string) | FloatPercentOf(text: string)

  /** The objects the leaf parsers return.  Each is a JavaScript object, hence truthy. */
  datatype LeafVal =
    | ColorLeaf(r: Channel, g: Channel, b: Channel, a: Channel)
    | LengthLeaf(amount: Amount, unit: string)
    | PercentageLeaf(amount: Amount)
    | NumberLeaf(amount: Amount)
    | IdLeaf(text: string)
    | StringLeaf(text: string)
    | UrlLeaf(text: string)

  datatype Val = Null | Bool(b: bool) | Text(s: string) | Leaf(leaf: LeafVal) | List(items: seq<Val>)

  /** JavaScript truthiness. */
  predicate Truthy(v: Val) {
    match v
    case Null => false
    case Bool(b) => b
    case Text(s) => s != ""
    case Leaf(_) => true
    case List(_) => true
  }

  type Obj = map<string, Val>

  /** Reading a missing key gives undefined. */
  function Get(o: Obj, k: string): Val {
    if k in o then o[k] else Null
  }

  /** A fresh accumulator `{ v: null }`. */
  const Fresh: Obj := map["v" := Null]

  /** The key a property name is stored under: JavaScript turns `null` into "null". */
  function Key(prop: Option<string>): string {
    if prop.Some? then prop.value else "null"
  }

  predicate PropTruthy(prop: Option<string>) { prop.Some? && prop.value != "" }

  /**
   * The accumulation shared by `mergeValues` and the terms that record what
   * they matched: an empty slot takes the value, an array slot gets it
   * appended, any other value becomes a pair.
   */
  function Accumulate(slot: Val, v: Val): (r: Val)
    ensures Truthy(slot) ==> r.List? && |r.items| >= 1 && r.items[|r.items| - 1] == v
    ensures !Truthy(slot) ==> r == v
  {
    if Truthy(slot) then
      if slot.List? then List(slot.items + [v]) else List([slot, v])
    else v
  }

  /**
   * `mergeValues(r, temp)`: the accumulator's `v` takes in the other
   * accumulator's `v` (an empty slot takes it, a list gets it appended, any
   * other value becomes a pair with it); every other key is left alone.
   */
  function MergeValues(r: Obj, temp: Obj): (o: Obj)
    ensures o.Keys == r.Keys + {"v"}
    ensures forall k | k in r && k != "v" :: o[k] == r[k]
    ensures !Truthy(Get(r, "v")) ==> o["v"] == Get(temp, "v")
    ensures Truthy(Get(r, "v")) && Get(r, "v").List? ==> o["v"] == List(Get(r, "v").items + [Get(temp, "v")])
    ensures Truthy(Get(r, "v")) && !Get(r, "v").List? ==> o["v"] == List([Get(r, "v"), Get(temp, "v")])
  {
    r["v" := Accumulate(Get(r, "v"), Get(temp, "v"))]
  }

  /**
   * What a ValueTerm records of a nested result: like Accumulate, except
   * that an array result is spliced in rather than nested unless the term is
   * virtual, and that a virtual term starts an array of its own.
   */
  function AccumulateNested(slot: Val, v: Val, virtual: bool): (r: Val)
    ensures Truthy(slot) ==> r.List?
    ensures !Truthy(slot) ==> r == (if virtual then List([v]) else v)
  {
    if Truthy(slot) then
      var head := if slot.List? then slot.items else [slot];
      if v.List? && !virtual then List(head + v.items) else List(head + [v])
    else if virtual then List([v]) else v
  }

  /** `sp(value, rule)`: a truthy value is stored under a truthy prop; `[[x]]` is stored as `[x]`. */
  function SetProperty(prop: Option<string>, value: Val, rule: Obj): (o: Obj)
    ensures !PropTruthy(prop) || !Truthy(value) ==> o == rule
    ensures PropTruthy(prop) && Truthy(value) ==> o.Keys == rule.Keys + {prop.value}
    ensures forall k | k in rule && (prop.None? || k != prop.value) :: k in o && o[k] == rule[k]
  {
    if PropTruthy(prop) && Truthy(value) then
      if value.List? && |value.items| == 1 && value.items[0].List? then rule[prop.value := value.items[0]]
      else rule[prop.value := value]
    else rule
  }

  /** The slot after accumulating the values one at a time, starting from an empty slot. */
  function AccumulateAll(slot: Val, vs: seq<Val>): Val
    decreases |vs|
  {
    if |vs| == 0 then slot else AccumulateAll(Accumulate(slot, vs[0]), vs[1..])
  }

  /**
   * Accumulating truthy values that are not arrays into an empty slot gives
   * the first as a scalar, and then the array of all of them, in order.
   */
  lemma {:induction false} AccumulateScalarsThenList(vs: seq<Val>)
    requires forall i | 0 <= i < |vs| :: Truthy(vs[i]) && !vs[i].List?
    ensures |vs| == 1 ==> AccumulateAll(Null, vs) == vs[0]
    ensures |vs| >= 2 ==> AccumulateAll(Null, vs) == List(vs)
  {
    if |vs| >= 2 {
      assert Accumulate(Null, vs[0]) == vs[0];
      assert Accumulate(vs[0], vs[1]) == List(vs[..2]);
      AppendRest(vs, 2);
    }
  }

  lemma {:induction false} AppendRest(vs: seq<Val>, k: nat)
    requires 2 <= k <= |vs|
    ensures AccumulateAll(List(vs[..k]), vs[k..]) == List(vs)
    decreases |vs| - k
  {
    if k == |vs| {
      assert vs[..k] == vs;
    } else {
      assert vs[..k] + [vs[k]] == vs[..k + 1];
      assert vs[k..][1..] == vs[k + 1..];
      AppendRest(vs, k + 1);
    }
  }
}
