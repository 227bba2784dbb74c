/**
 * `CSSRule`: the property map a rule block fills in, with the order its
 * keys were first assigned in (the order `for ... in` lists them), the
 * LOADED flag, the version count bumped by each merge and the reference
 * count its selectors keep.
 */
module Rules {
  import opened Values
  import Js

  predicate Distinct(s: seq<string>) {
    forall i, j | 0 <= i < j < |s| :: s[i] != s[j]
  }

  /** A key list that names each key of the map once and nothing else. */
  predicate Listed(order: seq<string>, props: map<string, Val>) {
    Distinct(order) && (forall k | k in props :: k in order) && (forall k | k in order :: k in props)
  }

  /**
   * The key order after assigning the keys one at a time: a key already
   * present keeps its place, a new key goes last.
   */
  function AppendNew(order: seq<string>, keys: seq<string>): (r: seq<string>)
    decreases |keys|
  {
    if |keys| == 0 then order
    else
      var before := AppendNew(order, keys[..|keys| - 1]);
      var k := keys[|keys| - 1];
      if k in before then before else before + [k]
  }

  /** The keys assigned are all listed afterwards, the old order is kept as a prefix, and nothing else is added. */
  lemma {:induction false} AppendNewKeeps(order: seq<string>, keys: seq<string>)
    ensures var r := AppendNew(order, keys);
      |order| <= |r| && r[..|order|] == order
      && (forall k :: k in r <==> k in order || k in keys)
    decreases |keys|
  {
    if |keys| > 0 {
      var init := keys[..|keys| - 1];
      AppendNewKeeps(order, init);
      assert forall k :: k in keys <==> k in init || k == keys[|keys| - 1];
    }
  }

  /** Assigning keys that are all present already changes no place. */
  lemma {:induction false} AppendPresent(order: seq<string>, keys: seq<string>)
    requires forall k | k in keys :: k in order
    ensures AppendNew(order, keys) == order
    decreases |keys|
  {
    if |keys| > 0 {
      AppendPresent(order, keys[..|keys| - 1]);
    }
  }

  /** Assigning keys keeps every key listed once. */
  lemma {:induction false} AppendNewDistinct(order: seq<string>, keys: seq<string>)
    requires forall i, j | 0 <= i < j < |order| :: order[i] != order[j]
    ensures Distinct(AppendNew(order, keys))
    decreases |keys|
  {
    if |keys| > 0 {
      var before := AppendNew(order, keys[..|keys| - 1]);
      AppendNewDistinct(order, keys[..|keys| - 1]);
      var k := keys[|keys| - 1];
      if k !in before {
        var r := before + [k];
        assert AppendNew(order, keys) == r;
        forall i, j | 0 <= i < j < |r|
          ensures r[i] != r[j]
        {
          if j == |before| {
            assert r[i] == before[i] && before[i] in before;
          } else {
            assert r[i] == before[i] && r[j] == before[j];
          }
        }
      }
    }
  }

  /** The map after assigning `src[k]` for each key k in turn. */
  function Overlaid(props: map<string, Val>, src: map<string, Val>, keys: seq<string>): (r: map<string, Val>)
    requires forall k | k in keys :: k in src
    decreases |keys|
  {
    if |keys| == 0 then props
    else
      var k := keys[|keys| - 1];
      Overlaid(props, src, keys[..|keys| - 1])[k := src[k]]
  }

  /** Assigning every key of a map in turn is the map union, the assigned values winning. */
  lemma {:induction false} OverlaidUnion(props: map<string, Val>, src: map<string, Val>, keys: seq<string>)
    requires forall k | k in keys :: k in src
    ensures Overlaid(props, src, keys) == props + map k | k in keys :: src[k]
    decreases |keys|
  {
    if |keys| > 0 {
      var init := keys[..|keys| - 1];
      OverlaidUnion(props, src, init);
      assert forall k :: k in keys <==> k in init || k == keys[|keys| - 1];
    }
  }

  /** A merge keeps the key list in step with the merged map. */
  lemma MergeListed(order: seq<string>, props: map<string, Val>, keys: seq<string>, src: map<string, Val>)
    requires Listed(order, props) && Listed(keys, src)
    ensures Listed(AppendNew(order, keys), props + src)
  {
    AppendNewKeeps(order, keys);
    AppendNewDistinct(order, keys);
  }

  /** Merging the same rule twice leaves what merging it once leaves: the map and the key order. */
  lemma MergeIdempotent(order: seq<string>, props: map<string, Val>, keys: seq<string>, src: map<string, Val>)
    ensures (props + src) + src == props + src
    ensures AppendNew(AppendNew(order, keys), keys) == AppendNew(order, keys)
  {
    AppendNewKeeps(order, keys);
    AppendPresent(AppendNew(order, keys), keys);
  }

  // ---------------------------------------------------------------- text

  /** `String(x)` of an array element as `join` writes it: null and undefined as nothing, an array joined with commas. */
  function ElementText(v: Val, leafText: LeafVal -> string): string
    decreases v, 1
  {
    match v
    case Null => ""
    case Bool(b) => if b then "true" else "false"
    case Text(s) => s
    case Leaf(l) => leafText(l)
    case List(items) => Joined(items, ",", leafText, v)
  }

  /** `items.join(sep)`. */
  function Joined(items: seq<Val>, sep: string, leafText: LeafVal -> string, whole: Val): string
    requires whole.List? && forall i | 0 <= i < |items| :: items[i] < whole
    decreases whole, 0, |items|
  {
    if |items| == 0 then ""
    else if |items| == 1 then ElementText(items[0], leafText)
    else Joined(items[..|items| - 1], sep, leafText, whole) + sep + ElementText(items[|items| - 1], leafText)
  }

  /** The text a property value is written as: an array joined with spaces, anything else as its string. */
  function ValueText(v: Val, leafText: LeafVal -> string): string {
    match v
    case List(items) => Joined(items, " ", leafText, v)
    case _ => ElementText(v, leafText)
  }

  function Indent(off: nat): (s: string)
    ensures |s| == 4 * off
  {
    if off == 0 then "" else Indent(off - 1) + "    "
  }

  /** One `name:value;` line; a null value writes nothing. */
  function Declaration(offset: string, key: string, v: Val, leafText: LeafVal -> string): string {
    if v == Null then "" else offset + Js.Hyphenated(key) + ":" + ValueText(v, leafText) + ";\n"
  }

  /** The lines of the properties listed in order. */
  function Declarations(order: seq<string>, props: map<string, Val>, offset: string, leafText: LeafVal -> string): string
    decreases |order|
  {
    if |order| == 0 then ""
    else
      var k := order[|order| - 1];
      Declarations(order[..|order| - 1], props, offset, leafText) + Declaration(offset, k, Get(props, k), leafText)
  }

  /** `toString(off, rule)`: with a rule name, that property's value (nothing when it is falsy); otherwise every line. */
  function RuleText(order: seq<string>, props: map<string, Val>, off: nat, rule: string, leafText: LeafVal -> string): string {
    if rule != "" then
      if Truthy(Get(props, rule)) then ValueText(props[rule], leafText) else ""
    else Declarations(order, props, Indent(off), leafText)
  }

  /** The text of a key list split in two is the text of each part. */
  lemma {:induction false} DeclarationsAppend(o1: seq<string>, o2: seq<string>, props: map<string, Val>, offset: string, leafText: LeafVal -> string)
    ensures Declarations(o1 + o2, props, offset, leafText) == Declarations(o1, props, offset, leafText) + Declarations(o2, props, offset, leafText)
    decreases |o2|
  {
    if |o2| == 0 {
      assert o1 + o2 == o1;
    } else {
      var o2i := o2[..|o2| - 1];
      var k := o2[|o2| - 1];
      assert (o1 + o2)[..|o1 + o2| - 1] == o1 + o2i && (o1 + o2)[|o1 + o2| - 1] == k;
      DeclarationsAppend(o1, o2i, props, offset, leafText);
      var line := Declaration(offset, k, Get(props, k), leafText);
      TextAssociative(Declarations(o1, props, offset, leafText), Declarations(o2i, props, offset, leafText), line);
    }
  }

  lemma TextAssociative(x: string, y: string, z: string)
    ensures (x + y) + z == x + (y + z)
  {
  }

  /**
   * Merging a rule whose keys are all new writes the old lines (with the
   * old values) followed by the merged rule's own lines.
   */
  lemma MergedText(order: seq<string>, props: map<string, Val>, keys: seq<string>, src: map<string, Val>, offset: string, leafText: LeafVal -> string)
    requires Listed(order, props) && Listed(keys, src)
    requires forall k | k in src :: k !in props
    ensures Declarations(AppendNew(order, keys), props + src, offset, leafText)
         == Declarations(order, props, offset, leafText) + Declarations(keys, src, offset, leafText)
  {
    AppendAllNew(order, keys);
    DeclarationsAppend(order, keys, props + src, offset, leafText);
    SameValues(order, props + src, props, offset, leafText);
    SameValues(keys, props + src, src, offset, leafText);
  }

  lemma {:induction false} AppendAllNew(order: seq<string>, keys: seq<string>)
    requires forall i, j | 0 <= i < j < |keys| :: keys[i] != keys[j]
    requires forall k | k in keys :: k !in order
    ensures AppendNew(order, keys) == order + keys
    decreases |keys|
  {
    if |keys| > 0 {
      var init := keys[..|keys| - 1];
      AppendAllNew(order, init);
      assert keys[|keys| - 1] !in init;
      assert order + init + [keys[|keys| - 1]] == order + keys;
    }
  }

  /** The lines of a key list read only the values of those keys. */
  lemma {:induction false} SameValues(order: seq<string>, p: map<string, Val>, q: map<string, Val>, offset: string, leafText: LeafVal -> string)
    requires forall k | k in order :: Get(p, k) == Get(q, k)
    ensures Declarations(order, p, offset, leafText) == Declarations(order, q, offset, leafText)
    decreases |order|
  {
    if |order| > 0 {
      SameValues(order[..|order| - 1], p, q, offset, leafText);
    }
  }

  /**
   * The name a line writes reads back as its key: a key stored by a
   * property parse has no `-`, and the `_` the line turns into `-` the
   * parse turns back.
   */
  lemma DeclarationNameReadsBack(tx: string)
    ensures Js.Underscored(Js.Hyphenated(Js.Underscored(tx))) == Js.Underscored(tx)
  {
    Js.UnderscoredIdempotent(tx);
    Js.UnderscoredUndoes(Js.Underscored(tx));
  }

  /** The keys of a list that a map still has, in list order. */
  function Kept(order: seq<string>, next: map<string, Val>): (r: seq<string>)
    decreases |order|
  {
    if |order| == 0 then []
    else
      var k := order[|order| - 1];
      Kept(order[..|order| - 1], next) + if k in next then [k] else []
  }

  /** The kept keys are listed once each and are exactly the listed keys the map still has. */
  lemma {:induction false} KeptListed(order: seq<string>, props: map<string, Val>, next: map<string, Val>)
    requires forall i, j | 0 <= i < j < |order| :: order[i] != order[j]
    ensures var r := Kept(order, next);
      (forall i, j | 0 <= i < j < |r| :: r[i] != r[j]) && (forall k :: k in r <==> k in order && k in next)
    decreases |order|
  {
    if |order| > 0 {
      var init := order[..|order| - 1];
      KeptListed(init, props, next);
      assert forall k :: k in order <==> k in init || k == order[|order| - 1];
    }
  }

  /** A map that only gained keys keeps the whole list. */
  lemma {:induction false} KeptAll(order: seq<string>, next: map<string, Val>)
    requires forall k | k in order :: k in next
    ensures Kept(order, next) == order
    decreases |order|
  {
    if |order| > 0 {
      KeptAll(order[..|order| - 1], next);
    }
  }

  /** The listed keys the map still has, in their order. */
  method KeptKeys(order: seq<string>, next: map<string, Val>) returns (kept: seq<string>)
    ensures kept == Kept(order, next)
  {
    kept := [];
    var i := 0;
    while i < |order|
      invariant 0 <= i <= |order|
      invariant kept == Kept(order[..i], next)
    {
      assert order[..i + 1][..i] == order[..i];
      if order[i] in next {
        kept := kept + [order[i]];
      }
      i := i + 1;
    }
    assert order[..i] == order;
  }

  /** The kept keys followed by every other key of the map, once each. */
  method WithNewKeys(kept: seq<string>, next: map<string, Val>) returns (added: seq<string>)
    requires Distinct(kept) && forall k | k in kept :: k in next
    ensures Listed(added, next) && |kept| <= |added| && added[..|kept|] == kept
  {
    var rest := next.Keys - set k | k in kept;
    added := kept;
    while rest != {}
      invariant forall k | k in added :: k in next && k !in rest
      invariant forall k | k in next && k !in rest :: k in added
      invariant Distinct(added)
      invariant |added| >= |kept| && added[..|kept|] == kept
      invariant rest <= next.Keys
      decreases rest
    {
      var k :| k in rest;
      added := added + [k];
      rest := rest - {k};
    }
  }

  // ---------------------------------------------------------------- the object

  class Rule {
    var props: map<string, Val>
    var order: seq<string>
    var loaded: bool
    var ver: int
    var refs: int

    predicate Valid()
      reads this
    {
      Listed(order, props)
    }

    constructor()
      ensures Valid() && props == map[] && order == [] && !loaded && ver == 0 && refs == 0
    {
      props := map[];
      order := [];
      loaded := false;
      ver := 0;
      refs := 0;
    }

    method IncrementRef()
      modifies this
      ensures refs == old(refs) + 1
      ensures props == old(props) && order == old(order) && loaded == old(loaded) && ver == old(ver)
    {
      refs := refs + 1;
    }

    /** `decrementRef`: the count goes down; what the source does at zero is a debugger stop. */
    method DecrementRef()
      modifies this
      ensures refs == old(refs) - 1
      ensures props == old(props) && order == old(order) && loaded == old(loaded) && ver == old(ver)
    {
      refs := refs - 1;
    }

    /**
     * `merge(rule)`: each property of the other rule is assigned into this
     * one, in the other rule's order; the rule is then LOADED and its
     * version goes up by one.
     */
    method Merge(other: Rule)
      requires Valid() && other.Valid()
      modifies this
      ensures Valid()
      ensures props == old(props) + old(other.props)
      ensures order == AppendNew(old(order), old(other.order))
      ensures loaded && ver == old(ver) + 1 && refs == old(refs)
    {
      var src := other.props;
      var keys := other.order;
      var p := props;
      var o := order;
      MergeListed(o, p, keys, src);
      var i := 0;
      while i < |keys|
        invariant 0 <= i <= |keys|
        invariant p == Overlaid(props, src, keys[..i])
        invariant o == AppendNew(order, keys[..i])
      {
        var n := keys[i];
        assert keys[..i + 1][..i] == keys[..i];
        p := p[n := src[n]];
        if n !in o {
          o := o + [n];
        }
        i := i + 1;
      }
      assert keys[..i] == keys;
      OverlaidUnion(props, src, keys);
      assert (map k | k in keys :: src[k]) == src;
      props, order := p, o;
      loaded := true;
      ver := ver + 1;
    }

    /**
     * The property map after a grammar evaluation wrote into it: keys that
     * are still there keep their places, keys it added go last.  The order
     * among the added keys is the order the evaluation assigned them, which
     * the map does not record, so it is left open here.
     */
    method Assign(next: map<string, Val>)
      requires Valid()
      modifies this
      ensures Valid() && props == next
      ensures var kept := Kept(old(order), next); |kept| <= |order| && order[..|kept|] == kept
      ensures loaded == old(loaded) && ver == old(ver) && refs == old(refs)
    {
      var kept := KeptKeys(order, next);
      KeptListed(order, props, next);
      var added := WithNewKeys(kept, next);
      props := next;
      order := added;
    }

    /** `toString(off, rule)`, which pushes the pieces into an array and joins them. */
    method ToString(off: nat, rule: string, leafText: LeafVal -> string) returns (s: string)
      ensures s == RuleText(order, props, off, rule, leafText)
    {
      if rule != "" {
        if Truthy(Get(props, rule)) {
          return ValueText(props[rule], leafText);
        }
        return "";
      }
      var offset := Indent(off);
      s := "";
      var i := 0;
      while i < |order|
        invariant 0 <= i <= |order|
        invariant s == Declarations(order[..i], props, offset, leafText)
      {
        var a := order[i];
        assert order[..i + 1][..i] == order[..i];
        var v := Get(props, a);
        if v != Null {
          s := s + offset + Js.Hyphenated(a) + ":" + ValueText(v, leafText) + ";\n";
        }
        i := i + 1;
      }
      assert order[..i] == order;
    }
  }
}
