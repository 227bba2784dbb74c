/**
 * The combinator evaluator: a term parses from a lexer, writing the
 * property it stands for into the rule object and recording what it
 * matched in an accumulator `{ v }`.  Each group repeats its cycle up to
 * `end` times; a cycle runs on a copy of the lexer, and the caller's lexer
 * is synced with the copy only when the cycle commits.
 *
 * Objects are threaded through as values.  The evaluation is bounded by a
 * fuel count, spent one unit per nested term and one per repetition; an
 * evaluation that runs out says so.
 */
module Evaluator {
  import opened Wrappers
  import opened LexSpec
  import opened LexerObject
  import opened LexerValue
  import opened Values
  import opened Leaves
  import opened Grammar
  import Js

  /** What an evaluation reads besides the lexer: the text, the term store, the colour table and the external leaf parsers. */
  datatype Env = Env(str: string, nodes: seq<Node>, names: map<string, Rgba>, ext: ExternalParser)

  /**
   * The result of `parse`: whether it matched, the lexer it leaves behind,
   * the rule object and the accumulator; or an exception, or no fuel left.
   */
  datatype Outcome = Done(ok: bool, lx: Lx, rule: Obj, out: Obj) | Threw | NoFuel

  /** What the target of a ValueTerm gives back. */
  datatype Reply = Reply(v: Val, lx: Lx, rule: Obj, rn: Obj) | ReplyThrew | ReplyNoFuel

  /** A scan over the children of an AND or OR cycle: one child matched (the scan restarts), or none did. */
  datatype Scan = Hit(hit: seq<int>, lx: Lx, a: Obj, b: Obj) | Exhausted(hit: seq<int>, lx: Lx, a: Obj, b: Obj) | ScanThrew | ScanNoFuel

  /** A whole AND or OR cycle: the HIT flags, the OR's NO_HIT flag, the copy and the two objects. */
  datatype Cycle = Cycled(hit: seq<int>, noHit: bool, lx: Lx, a: Obj, b: Obj) | CycleThrew | CycleNoFuel

  const DefaultKeywords: set<string> := {"initial", "inherit", "unset", "revert"}

  /**
   * `checkDefaults` as written: a CSS-wide keyword is valid (1) when the
   * token two places after it is the end, and invalid (0) otherwise; any
   * other token gives 2.  Asking for the peek lexer's own peek sets both.
   */
  function CheckDefaultsAsWritten(str: string, lx: Lx): (r: (int, Lx))
    ensures Tx(str, lx) !in DefaultKeywords ==> r == (2, lx)
    ensures r.1.c == lx.c
  {
    if Tx(str, lx) in DefaultKeywords then
      var l1 := Peek(str, lx);
      var p1 := Peek(str, l1.p.value);
      (if End(p1.p.value) then 1 else 0, l1.(p := Some(p1)))
    else (2, lx)
  }

  /**
   * `checkDefaults` looking at the token right after the keyword, which is
   * the model's.  The peek lexer reads past the caller's bound, so a token
   * it finds at or beyond that bound (the `;` or `}` a declaration value is
   * fenced at) counts as the end of the value.
   */
  function CheckDefaults(str: string, lx: Lx): (r: (int, Lx))
    ensures Tx(str, lx) !in DefaultKeywords ==> r == (2, lx)
    ensures r.1.c == lx.c
  {
    if Tx(str, lx) in DefaultKeywords then
      var l1 := Peek(str, lx);
      (if PastValue(l1.p.value, lx) then 1 else 0, l1)
    else (2, lx)
  }

  /** The peeked token p lies beyond the value lx reads: p is at its own end, or at or past lx's bound. */
  predicate PastValue(p: Lx, lx: Lx) {
    End(p) || p.c.off >= lx.c.sl
  }

  /**
   * A keyword that is the last token before the caller's bound is valid for
   * the corrected test, whatever lies past the bound.
   */
  lemma KeywordLastIsValid(str: string, lx: Lx)
    requires Tx(str, lx) in DefaultKeywords && lx.c.off + lx.c.tl >= lx.c.sl
    ensures CheckDefaults(str, lx).0 == 1
  {
    var bound := if lx.p.Some? then lx.p.value.c.sl else |str|;
    if 1 <= bound {
      NextWithinBound(str, OwnCtx(None, lx.c), PeekStart(lx.c, bound));
    }
  }

  /**
   * The keyword test as written accepts a keyword followed by exactly one
   * more token ("inherit red"), which the corrected test rejects; both
   * accept a keyword alone.
   */
  lemma DefaultsOneTokenLate(str: string, lx: Lx)
    requires Tx(str, lx) in DefaultKeywords
    ensures var p := Peek(str, lx).p.value;
      CheckDefaults(str, lx).0 == (if PastValue(p, lx) then 1 else 0)
      && CheckDefaultsAsWritten(str, lx).0 == (if End(Peek(str, p).p.value) then 1 else 0)
    ensures var p := Peek(str, lx).p.value;
      !PastValue(p, lx) && End(Peek(str, p).p.value) ==> CheckDefaultsAsWritten(str, lx).0 == 1 && CheckDefaults(str, lx).0 == 0
  {
  }

  /** The accumulator after recording one matched value: `r.v` becomes a scalar, a pair or a longer array. */
  function Record(out: Obj, v: Val): (o: Obj)
    ensures Get(o, "v") == Accumulate(Get(out, "v"), v)
    ensures forall k | k in out && k != "v" :: k in o && o[k] == out[k]
  {
    out["v" := Accumulate(Get(out, "v"), v)]
  }

  /** The accumulator after a cycle: the cycle's own `{ v }` is merged in when it holds a value. */
  function MergeCycle(r: Obj, temp: Obj): (o: Obj)
    ensures !Truthy(Get(temp, "v")) ==> o == r
  {
    if Truthy(Get(temp, "v")) then MergeValues(r, temp) else r
  }

  /** `checkForComma` after a committed cycle: the lexer past the comma, or None to stop repeating. */
  function AfterComma(str: string, requireComma: bool, lx: Lx): (r: Option<Lx>)
    ensures !requireComma ==> r == Some(lx)
    ensures requireComma ==> (r.Some? <==> Ch(str, lx) == ',' as int)
  {
    if !requireComma then Some(lx)
    else if Ch(str, lx) == ',' as int then Some(Advance(str, lx))
    else None
  }

  /** `parse` on term `id`, with `root` the ROOT flag. */
  function Parse(fuel: nat, e: Env, id: nat, lx: Lx, rule: Obj, out: Obj, root: bool): (r: Outcome)
    decreases fuel, 0, 0
  {
    if fuel == 0 then NoFuel
    else if id >= |e.nodes| then Threw
    else
      match e.nodes[id]
      case Symbol(text, _) =>
        if Tx(e.str, lx) == text then Done(true, Advance(e.str, lx), rule, out) else Done(false, lx, rule, out)
      case Literal(text, a) =>
        var (cd, l1) := if root then CheckDefaults(e.str, lx) else (2, lx);
        if cd == 1 then Done(true, l1, rule[Key(a.prop) := Text(Tx(e.str, l1))], out)
        else if cd == 0 then Done(false, l1, rule, out)
        else if Tx(e.str, l1) == text then
          var v := Text(text);
          Done(true, Advance(e.str, l1), if PropTruthy(a.prop) && !a.virtual && root then rule[a.prop.value := v] else rule,
               Record(out, v))
        else Done(false, l1, rule, out)
      case Value(target, a) =>
        var (cd, l1) := if root then CheckDefaults(e.str, lx) else (2, lx);
        if cd == 1 then Done(true, l1, rule[Key(a.prop) := Text(Tx(e.str, l1))], out)
        else if cd == 0 then Done(false, l1, rule, out)
        else
          (match TargetParse(fuel - 1, e, target, l1, rule)
          case Reply(v, l2, rule2, rn) =>
            var nested := Get(rn, "v");
            if Truthy(nested) then
              Done(true, l2, if PropTruthy(a.prop) && !a.virtual then rule2[a.prop.value := nested] else rule2,
                   out["v" := AccumulateNested(Get(out, "v"), nested, a.virtual)])
            else if Truthy(v) then
              Done(true, l2, if PropTruthy(a.prop) && !a.virtual && root then rule2[a.prop.value := v] else rule2, Record(out, v))
            else Done(false, l2, rule2, out)
          case ReplyThrew => Threw
          case ReplyNoFuel => NoFuel)
      case Group(_, _, _, _, _, a) =>
        var g := e.nodes[id];
        var (cd, l1) := if root then CheckDefaults(e.str, lx) else (2, lx);
        if cd == 1 then Done(true, l1, SetProperty(a.prop, Text(Tx(e.str, l1)), rule), out)
        else if cd == 0 then Done(false, l1, rule, out)
        else
          match Repeat(fuel - 1, e, g, 0, l1, rule, out, false, true)
          case Done(ok, l2, rule2, r2) => Done(ok, l2, if root then SetProperty(a.prop, Get(r2, "v"), rule2) else rule2, r2)
          case other => other
  }

  /**
   * The `value.parse(l, rule, rn)` call of a ValueTerm: the value it
   * returns, the lexer, the rule object and `rn`.  A leaf parser returns its
   * object and leaves `rn` alone; a compiled definition parses as a root
   * term, returns whether it matched and records into `rn`.
   */
  function TargetParse(fuel: nat, e: Env, target: Target, lx: Lx, rule: Obj): (r: Reply)
    ensures target.LeafTarget? && r.Reply? ==> r.rn == Fresh && r.rule == rule
    decreases fuel, 1, 0
  {
    match target
    case LeafTarget(kind) =>
      (match ParseLeaf(kind, e.str, e.names, e.ext, lx)
      case LeafThrew => ReplyThrew
      case LeafOut(v, l2) => Reply(v, l2, rule, Fresh))
    case DefTarget(d) =>
      match Parse(fuel, e, d, lx, rule, Fresh, true)
      case Done(ok, l2, rule2, rn) => Reply(Bool(ok), l2, rule2, rn)
      case Threw => ReplyThrew
      case NoFuel => ReplyNoFuel
  }

  /**
   * `innerParser` from cycle j on: the repetition loop of the group's kind,
   * with `committed` the flag it returns and `noHit` the OR's NO_HIT flag.
   */
  function Repeat(fuel: nat, e: Env, g: Node, j: nat, lx: Lx, rule: Obj, r: Obj, committed: bool, noHit: bool): (res: Outcome)
    requires g.Group?
    decreases fuel, 4, 0
  {
    match g.kind
    case Jux => JuxRepeat(fuel, e, g, j, lx, rule, r, committed)
    case And => AndRepeat(fuel, e, g, j, lx, rule, r, committed)
    case Or => OrRepeat(fuel, e, g, j, lx, rule, r, committed, noHit)
    case OneOf => OneOfRepeat(fuel, e, g, j, lx, rule, r, committed)
  }

  /** The end of a committed cycle: sync, merge, and either stop or go on to cycle j + 1. */
  function Commit(fuel: nat, e: Env, g: Node, j: nat, lx: Lx, copy: Lx, rule: Obj, r: Obj, temp: Obj, noHit: bool): (res: Outcome)
    requires g.Group?
    decreases fuel, 2, 0
  {
    var synced := Sync(lx, copy);
    var merged := MergeCycle(r, temp);
    match AfterComma(e.str, g.requireComma, synced)
    case None => Done(true, synced, rule, merged)
    case Some(next) =>
      if fuel == 0 then NoFuel
      else Repeat(fuel - 1, e, g, j + 1, next, rule, merged, true, noHit)
  }

  /** Child k of a group is a term of the store whose OPTIONAL getter is true. */
  predicate OptionalChild(e: Env, terms: seq<Option<nat>>, k: nat)
    requires k < |terms|
  {
    terms[k].Some? && terms[k].value < |e.nodes| && Optional(e.nodes[terms[k].value])
  }

  // ---------------------------------------------------------------- JUX

  /** One JUX cycle over the children from i on: a required child that fails ends it with false. */
  function JuxTerms(fuel: nat, e: Env, terms: seq<Option<nat>>, i: nat, copy: Lx, rule: Obj, temp: Obj): (res: Outcome)
    decreases fuel, 1, |terms| - i
  {
    if i >= |terms| then Done(true, copy, rule, temp)
    else match terms[i]
      case None => Threw
      case Some(t) =>
        match Parse(fuel, e, t, copy, rule, temp, false)
        case Done(ok, c2, rule2, temp2) =>
          if !ok && !OptionalChild(e, terms, i) then Done(false, c2, rule2, temp2)
          else JuxTerms(fuel, e, terms, i + 1, c2, rule2, temp2)
        case other => other
  }

  function JuxRepeat(fuel: nat, e: Env, g: Node, j: nat, lx: Lx, rule: Obj, r: Obj, committed: bool): (res: Outcome)
    requires g.Group?
    decreases fuel, 3, 0
  {
    if !Below(j, EndBound(g)) || End(lx) then Done(committed, lx, rule, r)
    else
      match JuxTerms(fuel, e, g.terms, 0, Copy(lx), rule, Fresh)
      case Done(ok, copy, rule2, temp) =>
        if !ok then Done(committed, lx, rule2, r)
        else Commit(fuel, e, g, j, lx, copy, rule2, r, temp, false)
      case other => other
  }

  // ---------------------------------------------------------------- AND and OR

  /** The number of HIT entries that are not 2: children an AND or OR cycle may still try. */
  function Unhit(hit: seq<int>): nat {
    if |hit| == 0 then 0 else (if hit[0] != 2 then 1 else 0) + Unhit(hit[1..])
  }

  lemma {:induction false} UnhitMark(hit: seq<int>, i: nat, x: int)
    requires i < |hit| && hit[i] != 2
    ensures x == 2 ==> Unhit(hit[i := x]) == Unhit(hit) - 1
    ensures x != 2 ==> Unhit(hit[i := x]) == Unhit(hit)
  {
    if i > 0 {
      assert hit[i := x][1..] == hit[1..][i - 1 := x];
      UnhitMark(hit[1..], i - 1, x);
    }
  }

  function Zeros(n: nat): (z: seq<int>)
    ensures |z| == n && forall k | 0 <= k < n :: z[k] == 0
  {
    if n == 0 then [] else Zeros(n - 1) + [0]
  }

  /** `HIT.reduce((a, v) => a * v, 1)`. */
  function Product(hit: seq<int>): int {
    if |hit| == 0 then 1 else hit[0] * Product(hit[1..])
  }

  /** HIT flags: 0 not matched, 1 optional and failed, 2 matched. */
  predicate Flags(hit: seq<int>) {
    forall k | 0 <= k < |hit| :: 0 <= hit[k] <= 2
  }

  /**
   * The scan of an AND or OR cycle from child i: children already matched
   * are skipped; the first one that matches ends the scan with its flag set
   * to 2.  An AND child gets `(copy, rule, temp)` and a failed optional one
   * flag 1; an OR child gets `(copy, temp, r)`.
   */
  function ScanTerms(fuel: nat, e: Env, isAnd: bool, terms: seq<Option<nat>>, i: nat, hit: seq<int>, copy: Lx, a: Obj, b: Obj): (res: Scan)
    requires |hit| == |terms|
    ensures res.Hit? ==> |res.hit| == |hit| && Unhit(res.hit) < Unhit(hit)
    ensures res.Exhausted? ==> |res.hit| == |hit| && Unhit(res.hit) == Unhit(hit)
    ensures (res.Hit? || res.Exhausted?) ==> forall k | 0 <= k < |hit| :: hit[k] == 2 ==> res.hit[k] == 2
    ensures (res.Hit? || res.Exhausted?) && Flags(hit) ==> Flags(res.hit)
    ensures (res.Hit? || res.Exhausted?) && !isAnd ==> forall k | 0 <= k < |hit| && hit[k] != 2 :: res.hit[k] == hit[k] || res.hit[k] == 2
    ensures res.Exhausted? && !isAnd ==> res.hit == hit
    ensures (res.Hit? || res.Exhausted?) ==>
      forall k | 0 <= k < |hit| :: res.hit[k] == 1 ==> hit[k] == 1 || (isAnd && OptionalChild(e, terms, k))
    decreases fuel, 1, |terms| - i
  {
    if i >= |terms| then Exhausted(hit, copy, a, b)
    else if hit[i] == 2 then ScanTerms(fuel, e, isAnd, terms, i + 1, hit, copy, a, b)
    else match terms[i]
      case None => ScanThrew
      case Some(t) =>
        match Parse(fuel, e, t, copy, a, b, false)
        case Done(ok, c2, a2, b2) =>
          if ok then
            UnhitMark(hit, i, 2);
            Hit(hit[i := 2], c2, a2, b2)
          else
            var flag := if isAnd && OptionalChild(e, terms, i) then 1 else hit[i];
            UnhitMark(hit, i, flag);
            ScanTerms(fuel, e, isAnd, terms, i + 1, hit[i := flag], c2, a2, b2)
        case Threw => ScanThrew
        case NoFuel => ScanNoFuel
  }

  /** The `and:` / `or:` loop: scan, and restart after every match, until a scan matches nothing. */
  function RunCycle(fuel: nat, e: Env, isAnd: bool, terms: seq<Option<nat>>, hit: seq<int>, noHit: bool, copy: Lx, a: Obj, b: Obj): (res: Cycle)
    requires |hit| == |terms|
    ensures res.Cycled? ==> |res.hit| == |hit| && (res.noHit ==> noHit)
    ensures res.Cycled? ==> forall k | 0 <= k < |hit| :: hit[k] == 2 ==> res.hit[k] == 2
    ensures res.Cycled? && Flags(hit) ==> Flags(res.hit)
    ensures res.Cycled? ==> Unhit(res.hit) <= Unhit(hit)
    ensures res.Cycled? && !isAnd ==> (res.noHit <==> noHit && res.hit == hit)
    ensures res.Cycled? ==>
      forall k | 0 <= k < |hit| :: res.hit[k] == 1 ==> hit[k] == 1 || (isAnd && OptionalChild(e, terms, k))
    decreases fuel, 2, Unhit(hit)
  {
    match ScanTerms(fuel, e, isAnd, terms, 0, hit, copy, a, b)
    case Hit(h2, c2, a2, b2) => RunCycle(fuel, e, isAnd, terms, h2, false, c2, a2, b2)
    case Exhausted(h2, c2, a2, b2) => Cycled(h2, noHit, c2, a2, b2)
    case ScanThrew => CycleThrew
    case ScanNoFuel => CycleNoFuel
  }

  function AndRepeat(fuel: nat, e: Env, g: Node, j: nat, lx: Lx, rule: Obj, r: Obj, committed: bool): (res: Outcome)
    requires g.Group?
    decreases fuel, 3, 0
  {
    if !Below(j, EndBound(g)) || End(lx) then Done(committed, lx, rule, r)
    else
      match RunCycle(fuel, e, true, g.terms, Zeros(|g.terms|), true, Copy(lx), rule, Fresh)
      case Cycled(hit, _, copy, rule2, temp) =>
        if Product(hit) == 0 then Done(committed, lx, rule2, r)
        else Commit(fuel, e, g, j, lx, copy, rule2, r, temp, false)
      case CycleThrew => Threw
      case CycleNoFuel => NoFuel
  }

  /** OR: NO_HIT starts true for the whole loop and is only ever cleared. */
  function OrRepeat(fuel: nat, e: Env, g: Node, j: nat, lx: Lx, rule: Obj, r: Obj, committed: bool, noHit: bool): (res: Outcome)
    requires g.Group?
    decreases fuel, 3, 0
  {
    if !Below(j, EndBound(g)) || End(lx) then Done(committed, lx, rule, r)
    else
      match RunCycle(fuel, e, false, g.terms, Zeros(|g.terms|), noHit, Copy(lx), Fresh, r)
      case Cycled(_, noHit2, copy, temp, r2) =>
        if noHit2 then Done(committed, lx, rule, r2)
        else Commit(fuel, e, g, j, lx, copy, rule, r2, temp, noHit2)
      case CycleThrew => Threw
      case CycleNoFuel => NoFuel
  }

  // ---------------------------------------------------------------- ONE_OF

  /** A ONE_OF cycle from child i: the first child that matches. */
  function FirstMatch(fuel: nat, e: Env, terms: seq<Option<nat>>, i: nat, copy: Lx, rule: Obj, temp: Obj): (res: Outcome)
    decreases fuel, 1, |terms| - i
  {
    if i >= |terms| then Done(false, copy, rule, temp)
    else match terms[i]
      case None => Threw
      case Some(t) =>
        match Parse(fuel, e, t, copy, rule, temp, false)
        case Done(ok, c2, rule2, temp2) =>
          if ok then Done(true, c2, rule2, temp2) else FirstMatch(fuel, e, terms, i + 1, c2, rule2, temp2)
        case other => other
  }

  function OneOfRepeat(fuel: nat, e: Env, g: Node, j: nat, lx: Lx, rule: Obj, r: Obj, committed: bool): (res: Outcome)
    requires g.Group?
    decreases fuel, 3, 0
  {
    if !Below(j, EndBound(g)) || End(lx) then Done(committed, lx, rule, r)
    else
      match FirstMatch(fuel, e, g.terms, 0, Copy(lx), rule, Fresh)
      case Done(ok, copy, rule2, temp) =>
        if !ok then Done(committed, lx, rule2, r)
        else Commit(fuel, e, g, j, lx, copy, rule2, r, temp, false)
      case other => other
  }

  // ---------------------------------------------------------------- properties

  /** External leaf parsers that, like the built-in ones, leave the token where it was when they match nothing. */
  ghost predicate WellBehaved(ext: ExternalParser) {
    forall name, str, l :: ext(name, str, l).LeafOut? && !Truthy(ext(name, str, l).v) ==> ext(name, str, l).l.c == l.c
  }

  /**
   * A repetition loop returns true once a cycle has committed, and returns
   * false only with the caller's lexer exactly as it was: every cycle runs
   * on a copy, and the lexer is synced only on commit.
   */
  lemma {:induction false} RepeatOutcome(fuel: nat, e: Env, g: Node, j: nat, lx: Lx, rule: Obj, r: Obj, committed: bool, noHit: bool)
    requires g.Group?
    ensures var res := Repeat(fuel, e, g, j, lx, rule, r, committed, noHit);
      res.Done? ==> (committed ==> res.ok) && (!res.ok ==> res.lx == lx)
    decreases fuel, 1
  {
    if Below(j, EndBound(g)) && !End(lx) {
      match g.kind
      case Jux =>
        match JuxTerms(fuel, e, g.terms, 0, Copy(lx), rule, Fresh) {
          case Done(ok, copy, rule2, temp) =>
            if ok { CommitOutcome(fuel, e, g, j, lx, copy, rule2, r, temp, false); }
          case _ =>
        }
      case And =>
        match RunCycle(fuel, e, true, g.terms, Zeros(|g.terms|), true, Copy(lx), rule, Fresh) {
          case Cycled(hit, _, copy, rule2, temp) =>
            if Product(hit) != 0 { CommitOutcome(fuel, e, g, j, lx, copy, rule2, r, temp, false); }
          case _ =>
        }
      case Or =>
        match RunCycle(fuel, e, false, g.terms, Zeros(|g.terms|), noHit, Copy(lx), Fresh, r) {
          case Cycled(_, noHit2, copy, temp, r2) =>
            if !noHit2 { CommitOutcome(fuel, e, g, j, lx, copy, rule, r2, temp, noHit2); }
          case _ =>
        }
      case OneOf =>
        match FirstMatch(fuel, e, g.terms, 0, Copy(lx), rule, Fresh) {
          case Done(ok, copy, rule2, temp) =>
            if ok { CommitOutcome(fuel, e, g, j, lx, copy, rule2, r, temp, false); }
          case _ =>
        }
    }
  }

  /**
   * The cycle numbered `end - 1` is the last one: once it commits, the loop
   * returns true after the comma check without trying another cycle, so a
   * group commits at most `end` cycles (one when `r[1]` is NaN).
   */
  lemma LastCycle(fuel: nat, e: Env, g: Node, j: nat, lx: Lx, copy: Lx, rule: Obj, r: Obj, temp: Obj, noHit: bool)
    requires g.Group? && !Below(j + 1, EndBound(g))
    ensures var res := Commit(fuel, e, g, j, lx, copy, rule, r, temp, noHit);
      var after := AfterComma(e.str, g.requireComma, Sync(lx, copy));
      res.Done? ==> res == Done(true, if after.Some? then after.value else Sync(lx, copy), rule, MergeCycle(r, temp))
  {
    var after := AfterComma(e.str, g.requireComma, Sync(lx, copy));
    if after.Some? && fuel > 0 {
      StopsAtEnd(fuel - 1, e, g, j + 1, after.value, rule, MergeCycle(r, temp), true, noHit);
    }
  }

  /** From cycle `end` on, whatever the kind, the loop reads nothing and returns what it has. */
  lemma StopsAtEnd(fuel: nat, e: Env, g: Node, j: nat, lx: Lx, rule: Obj, r: Obj, committed: bool, noHit: bool)
    requires g.Group? && !Below(j, EndBound(g))
    ensures Repeat(fuel, e, g, j, lx, rule, r, committed, noHit) == Done(committed, lx, rule, r)
  {
  }

  /** A committed cycle makes the loop's answer true, whatever the later cycles do. */
  lemma {:induction false} CommitOutcome(fuel: nat, e: Env, g: Node, j: nat, lx: Lx, copy: Lx, rule: Obj, r: Obj, temp: Obj, noHit: bool)
    requires g.Group?
    ensures var res := Commit(fuel, e, g, j, lx, copy, rule, r, temp, noHit); res.Done? ==> res.ok
    decreases fuel, 0
  {
    var synced := Sync(lx, copy);
    match AfterComma(e.str, g.requireComma, synced)
    case None =>
    case Some(next) =>
      if fuel > 0 {
        RepeatOutcome(fuel - 1, e, g, j + 1, next, rule, MergeCycle(r, temp), true, noHit);
      }
  }

  /**
   * A term that fails leaves the lexer on the token it started from, given
   * external leaf parsers that do the same.  (Only the token position is
   * kept: a CSS-wide keyword test may leave its peek lexer behind.)
   */
  lemma {:induction false} FailureKeepsPosition(fuel: nat, e: Env, id: nat, lx: Lx, rule: Obj, out: Obj, root: bool)
    requires WellBehaved(e.ext)
    ensures var res := Parse(fuel, e, id, lx, rule, out, root); res.Done? && !res.ok ==> res.lx.c == lx.c
    decreases fuel
  {
    if fuel > 0 && id < |e.nodes| {
      match e.nodes[id]
      case Symbol(_, _) =>
      case Literal(_, _) =>
      case Value(target, a) =>
        var (cd, l1) := if root then CheckDefaults(e.str, lx) else (2, lx);
        if cd == 2 {
          match target
          case LeafTarget(kind) =>
          case DefTarget(d) => FailureKeepsPosition(fuel - 1, e, d, l1, rule, Fresh, true);
        }
      case Group(_, _, _, _, _, _) =>
        var (cd, l1) := if root then CheckDefaults(e.str, lx) else (2, lx);
        RepeatOutcome(fuel - 1, e, e.nodes[id], 0, l1, rule, out, false, true);
    }
  }

  /**
   * Whether the cycle at j commits: the loop has not reached `end` or the
   * end of input, and the kind's cycle succeeds (JUX: every required child
   * matched in order; AND: the product of the HIT flags is non-zero; OR:
   * NO_HIT has been cleared; ONE_OF: some child matched).
   */
  ghost predicate CycleCommits(fuel: nat, e: Env, g: Node, j: nat, lx: Lx, rule: Obj, r: Obj, noHit: bool)
    requires g.Group?
  {
    Below(j, EndBound(g)) && !End(lx) &&
    match g.kind
    case Jux => var c := JuxTerms(fuel, e, g.terms, 0, Copy(lx), rule, Fresh); c.Done? && c.ok
    case And => var c := RunCycle(fuel, e, true, g.terms, Zeros(|g.terms|), true, Copy(lx), rule, Fresh); c.Cycled? && Product(c.hit) != 0
    case Or => var c := RunCycle(fuel, e, false, g.terms, Zeros(|g.terms|), noHit, Copy(lx), Fresh, r); c.Cycled? && !c.noHit
    case OneOf => var c := FirstMatch(fuel, e, g.terms, 0, Copy(lx), rule, Fresh); c.Done? && c.ok
  }

  /** A group matches exactly when its first cycle commits: later cycles can only add to the match. */
  lemma GroupMatchesIffFirstCycle(fuel: nat, e: Env, g: Node, lx: Lx, rule: Obj, r: Obj)
    requires g.Group?
    ensures var res := Repeat(fuel, e, g, 0, lx, rule, r, false, true);
      res.Done? ==> (res.ok <==> CycleCommits(fuel, e, g, 0, lx, rule, r, true))
  {
    RepeatOutcome(fuel, e, g, 0, lx, rule, r, false, true);
    if CycleCommits(fuel, e, g, 0, lx, rule, r, true) {
      match g.kind
      case Jux =>
        var c := JuxTerms(fuel, e, g.terms, 0, Copy(lx), rule, Fresh);
        CommitOutcome(fuel, e, g, 0, lx, c.lx, c.rule, r, c.out, false);
      case And =>
        var c := RunCycle(fuel, e, true, g.terms, Zeros(|g.terms|), true, Copy(lx), rule, Fresh);
        CommitOutcome(fuel, e, g, 0, lx, c.lx, c.a, r, c.b, false);
      case Or =>
        var c := RunCycle(fuel, e, false, g.terms, Zeros(|g.terms|), true, Copy(lx), Fresh, r);
        CommitOutcome(fuel, e, g, 0, lx, c.lx, rule, c.b, c.a, c.noHit);
      case OneOf =>
        var c := FirstMatch(fuel, e, g.terms, 0, Copy(lx), rule, Fresh);
        CommitOutcome(fuel, e, g, 0, lx, c.lx, c.rule, r, c.out, false);
    }
  }

  /** The product of HIT flags is zero exactly when some flag is zero. */
  lemma {:induction false} ProductZero(hit: seq<int>)
    requires Flags(hit)
    ensures Product(hit) == 0 <==> exists k :: 0 <= k < |hit| && hit[k] == 0
    ensures Product(hit) >= 0
  {
    if |hit| > 0 {
      ProductZero(hit[1..]);
      if hit[0] != 0 && Product(hit[1..]) == 0 {
        var k :| 0 <= k < |hit[1..]| && hit[1..][k] == 0;
        assert hit[k + 1] == 0;
      }
      if exists k :: 0 <= k < |hit| && hit[k] == 0 {
        var k :| 0 <= k < |hit| && hit[k] == 0;
        if k > 0 { assert hit[1..][k - 1] == 0; }
      }
    }
  }

  /**
   * An AND cycle commits exactly when every child either matched or is
   * optional and failed: a required child left unmatched makes the
   * product zero.
   */
  lemma AndCycleCommits(fuel: nat, e: Env, terms: seq<Option<nat>>, copy: Lx, rule: Obj)
    ensures var c := RunCycle(fuel, e, true, terms, Zeros(|terms|), true, copy, rule, Fresh);
      c.Cycled? ==>
        (Product(c.hit) != 0 <==> forall k | 0 <= k < |terms| :: c.hit[k] == 2 || (c.hit[k] == 1 && OptionalChild(e, terms, k)))
  {
    var c := RunCycle(fuel, e, true, terms, Zeros(|terms|), true, copy, rule, Fresh);
    if c.Cycled? {
      ProductZero(c.hit);
    }
  }

  /**
   * The OR's NO_HIT flag is never reset between cycles: once a child has
   * matched in some cycle, every later cycle commits, matched or not.
   */
  lemma OrCommitsOnceHit(fuel: nat, e: Env, terms: seq<Option<nat>>, hit: seq<int>, copy: Lx, a: Obj, b: Obj)
    requires |hit| == |terms|
    ensures var c := RunCycle(fuel, e, false, terms, hit, false, copy, a, b); c.Cycled? ==> !c.noHit
  {
  }

  /**
   * So an unbounded OR group without commas, after its first match, stops
   * repeating only at the end of the input: where no child matches it
   * commits empty cycles without moving until the fuel runs out.
   */
  lemma {:induction false} OrRunsToEnd(fuel: nat, e: Env, g: Node, j: nat, lx: Lx, rule: Obj, r: Obj, committed: bool)
    requires g.Group? && g.kind == Or && !g.requireComma && EndBound(g) == Js.Infinity
    ensures var res := Repeat(fuel, e, g, j, lx, rule, r, committed, false); res.Done? ==> End(res.lx)
    decreases fuel
  {
    if !End(lx) {
      match RunCycle(fuel, e, false, g.terms, Zeros(|g.terms|), false, Copy(lx), Fresh, r)
      case Cycled(_, noHit2, copy, temp, r2) =>
        assert !noHit2;
        assert Repeat(fuel, e, g, j, lx, rule, r, committed, false) == Commit(fuel, e, g, j, lx, copy, rule, r2, temp, false);
        if fuel > 0 {
          var next := Sync(lx, copy);
          assert AfterComma(e.str, g.requireComma, next) == Some(next);
          OrRunsToEnd(fuel - 1, e, g, j + 1, next, rule, MergeCycle(r2, temp), true);
        }
      case _ =>
    }
  }

  /**
   * The lower repetition bound is never consulted: a group behaves the same
   * whatever its `r[0]` holds (a `{2,3}` group accepts one repetition).
   */
  lemma {:induction false} LowerBoundIgnored(fuel: nat, e: Env, g: Node, x: Js.Number, j: nat, lx: Lx, rule: Obj, r: Obj, committed: bool, noHit: bool)
    requires g.Group?
    ensures Repeat(fuel, e, g, j, lx, rule, r, committed, noHit) == Repeat(fuel, e, g.(r0 := x), j, lx, rule, r, committed, noHit)
    decreases fuel, 1
  {
    var h := g.(r0 := x);
    if Below(j, EndBound(g)) && !End(lx) {
      match g.kind
      case Jux =>
        match JuxTerms(fuel, e, g.terms, 0, Copy(lx), rule, Fresh) {
          case Done(ok, copy, rule2, temp) =>
            if ok { LowerBoundCommit(fuel, e, g, x, j, lx, copy, rule2, r, temp, false); }
          case _ =>
        }
      case And =>
        match RunCycle(fuel, e, true, g.terms, Zeros(|g.terms|), true, Copy(lx), rule, Fresh) {
          case Cycled(hit, _, copy, rule2, temp) =>
            if Product(hit) != 0 { LowerBoundCommit(fuel, e, g, x, j, lx, copy, rule2, r, temp, false); }
          case _ =>
        }
      case Or =>
        match RunCycle(fuel, e, false, g.terms, Zeros(|g.terms|), noHit, Copy(lx), Fresh, r) {
          case Cycled(_, noHit2, copy, temp, r2) =>
            if !noHit2 { LowerBoundCommit(fuel, e, g, x, j, lx, copy, rule, r2, temp, noHit2); }
          case _ =>
        }
      case OneOf =>
        match FirstMatch(fuel, e, g.terms, 0, Copy(lx), rule, Fresh) {
          case Done(ok, copy, rule2, temp) =>
            if ok { LowerBoundCommit(fuel, e, g, x, j, lx, copy, rule2, r, temp, false); }
          case _ =>
        }
    }
  }

  lemma {:induction false} LowerBoundCommit(fuel: nat, e: Env, g: Node, x: Js.Number, j: nat, lx: Lx, copy: Lx, rule: Obj, r: Obj, temp: Obj, noHit: bool)
    requires g.Group?
    ensures Commit(fuel, e, g, j, lx, copy, rule, r, temp, noHit) == Commit(fuel, e, g.(r0 := x), j, lx, copy, rule, r, temp, noHit)
    decreases fuel, 0
  {
    match AfterComma(e.str, g.requireComma, Sync(lx, copy))
    case None =>
    case Some(next) =>
      if fuel > 0 {
        LowerBoundIgnored(fuel - 1, e, g, x, j + 1, next, rule, MergeCycle(r, temp), true, noHit);
      }
  }

  // ---------------------------------------------------------------- the loops

  /** The children loop of a JUX cycle: each child parses from the copy; a required child that fails breaks out. */
  method JuxCycle(fuel: nat, e: Env, terms: seq<Option<nat>>, copy0: Lx, rule0: Obj) returns (res: Outcome)
    ensures res == JuxTerms(fuel, e, terms, 0, copy0, rule0, Fresh)
  {
    var copy, rule, temp := copy0, rule0, Fresh;
    for i := 0 to |terms|
      invariant JuxTerms(fuel, e, terms, i, copy, rule, temp) == JuxTerms(fuel, e, terms, 0, copy0, rule0, Fresh)
    {
      if terms[i].None? {
        return Threw;
      }
      var p := Parse(fuel, e, terms[i].value, copy, rule, temp, false);
      if !p.Done? || (!p.ok && !OptionalChild(e, terms, i)) {
        return p;
      }
      copy, rule, temp := p.lx, p.rule, p.out;
    }
    return Done(true, copy, rule, temp);
  }

  /** The children loop of a ONE_OF cycle: stop at the first child that matches. */
  method FirstMatchCycle(fuel: nat, e: Env, terms: seq<Option<nat>>, copy0: Lx, rule0: Obj) returns (res: Outcome)
    ensures res == FirstMatch(fuel, e, terms, 0, copy0, rule0, Fresh)
  {
    var copy, rule, temp := copy0, rule0, Fresh;
    for i := 0 to |terms|
      invariant FirstMatch(fuel, e, terms, i, copy, rule, temp) == FirstMatch(fuel, e, terms, 0, copy0, rule0, Fresh)
    {
      if terms[i].None? {
        return Threw;
      }
      var p := Parse(fuel, e, terms[i].value, copy, rule, temp, false);
      if !p.Done? || p.ok {
        return p;
      }
      copy, rule, temp := p.lx, p.rule, p.out;
    }
    return Done(false, copy, rule, temp);
  }

  /** One pass of the `for` loop inside `and:` / `or:` over the HIT array. */
  method ScanPass(fuel: nat, e: Env, isAnd: bool, terms: seq<Option<nat>>, hit: array<int>, copy0: Lx, a0: Obj, b0: Obj) returns (res: Scan)
    requires hit.Length == |terms|
    modifies hit
    ensures res == ScanTerms(fuel, e, isAnd, terms, 0, old(hit[..]), copy0, a0, b0)
    ensures res.Hit? || res.Exhausted? ==> hit[..] == res.hit
  {
    var copy, a, b := copy0, a0, b0;
    for i := 0 to hit.Length
      invariant ScanTerms(fuel, e, isAnd, terms, i, hit[..], copy, a, b) == ScanTerms(fuel, e, isAnd, terms, 0, old(hit[..]), copy0, a0, b0)
    {
      ghost var h := hit[..];
      if hit[i] != 2 {
        if terms[i].None? {
          return ScanThrew;
        }
        var p := Parse(fuel, e, terms[i].value, copy, a, b, false);
        match p {
          case Threw => return ScanThrew;
          case NoFuel => return ScanNoFuel;
          case Done(ok, c2, a2, b2) =>
            if ok {
              hit[i] := 2;
              return Hit(hit[..], c2, a2, b2);
            }
            if isAnd && OptionalChild(e, terms, i) {
              hit[i] := 1;
            }
            assert hit[..] == h[i := if isAnd && OptionalChild(e, terms, i) then 1 else h[i]];
            copy, a, b := c2, a2, b2;
        }
      }
    }
    return Exhausted(hit[..], copy, a, b);
  }

  /** The `and:` / `or:` loop: `continue` after a match, leave after a pass that matches nothing. */
  method CyclePasses(fuel: nat, e: Env, isAnd: bool, terms: seq<Option<nat>>, hit: array<int>, noHit0: bool, copy0: Lx, a0: Obj, b0: Obj)
    returns (res: Cycle)
    requires hit.Length == |terms|
    modifies hit
    ensures res == RunCycle(fuel, e, isAnd, terms, old(hit[..]), noHit0, copy0, a0, b0)
  {
    var noHit, copy, a, b := noHit0, copy0, a0, b0;
    while true
      invariant RunCycle(fuel, e, isAnd, terms, hit[..], noHit, copy, a, b) == RunCycle(fuel, e, isAnd, terms, old(hit[..]), noHit0, copy0, a0, b0)
      decreases Unhit(hit[..])
    {
      var s := ScanPass(fuel, e, isAnd, terms, hit, copy, a, b);
      match s {
        case Hit(_, c2, a2, b2) => noHit, copy, a, b := false, c2, a2, b2;
        case Exhausted(h, c2, a2, b2) => return Cycled(h, noHit, c2, a2, b2);
        case ScanThrew => return CycleThrew;
        case ScanNoFuel => return CycleNoFuel;
      }
    }
  }

  /** One cycle of `innerParser`: the outcome it stops with, or what the cycle produced for committing. */
  datatype Round = Stopped(res: Outcome) | Committed(copy: Lx, rule: Obj, r: Obj, temp: Obj)

  /** The JUX and ONE_OF cycles: the children in order on a copy of the lexer. */
  method ListRound(fuel: nat, e: Env, g: Node, j: nat, lx: Lx, rule: Obj, r: Obj, committed: bool, noHit: bool) returns (o: Round)
    requires g.Group? && (g.kind == Jux || g.kind == OneOf) && Below(j, EndBound(g)) && !End(lx)
    ensures o.Stopped? ==> o.res == Repeat(fuel, e, g, j, lx, rule, r, committed, noHit)
    ensures o.Committed? ==> Repeat(fuel, e, g, j, lx, rule, r, committed, noHit) == Commit(fuel, e, g, j, lx, o.copy, o.rule, o.r, o.temp, false)
  {
    var c;
    if g.kind == Jux {
      c := JuxCycle(fuel, e, g.terms, Copy(lx), rule);
    } else {
      c := FirstMatchCycle(fuel, e, g.terms, Copy(lx), rule);
    }
    if !c.Done? {
      return Stopped(c);
    }
    if !c.ok {
      return Stopped(Done(committed, lx, c.rule, r));
    }
    return Committed(c.lx, c.rule, r, c.out);
  }

  /** The AND and OR cycles: passes over the children with the hit marks cleared. */
  method SetRound(fuel: nat, e: Env, g: Node, j: nat, lx: Lx, rule: Obj, r: Obj, committed: bool, noHit: bool, hit: array<int>)
    returns (o: Round)
    requires g.Group? && (g.kind == And || g.kind == Or) && Below(j, EndBound(g)) && !End(lx)
    requires hit.Length == |g.terms|
    modifies hit
    ensures o.Stopped? ==> o.res == Repeat(fuel, e, g, j, lx, rule, r, committed, noHit)
    ensures o.Committed? ==> Repeat(fuel, e, g, j, lx, rule, r, committed, noHit) == Commit(fuel, e, g, j, lx, o.copy, o.rule, o.r, o.temp, false)
  {
    forall k | 0 <= k < hit.Length {
      hit[k] := 0;
    }
    assert hit[..] == Zeros(|g.terms|);
    var isAnd := g.kind == And;
    var c;
    if isAnd {
      c := CyclePasses(fuel, e, true, g.terms, hit, true, Copy(lx), rule, Fresh);
    } else {
      c := CyclePasses(fuel, e, false, g.terms, hit, noHit, Copy(lx), Fresh, r);
    }
    if c.CycleThrew? {
      return Stopped(Threw);
    }
    if c.CycleNoFuel? {
      return Stopped(NoFuel);
    }
    if isAnd {
      if Product(c.hit) == 0 {
        return Stopped(Done(committed, lx, c.a, r));
      }
      return Committed(c.lx, c.a, r, c.b);
    }
    if c.noHit {
      return Stopped(Done(committed, lx, rule, c.b));
    }
    return Committed(c.lx, rule, c.b, c.a);
  }

  /**
   * `innerParser` of all four kinds: cycles on a copy of the lexer until
   * `end`, the end of input, a cycle that does not commit, or a missing
   * comma; the flag says whether any cycle committed.
   */
  method InnerParser(fuel0: nat, e: Env, g: Node, lx0: Lx, rule0: Obj, r0: Obj) returns (res: Outcome)
    requires g.Group?
    ensures res == Repeat(fuel0, e, g, 0, lx0, rule0, r0, false, true)
  {
    var hit := new int[|g.terms|];
    var fuel, j, lx, rule, r, committed, noHit := fuel0, 0, lx0, rule0, r0, false, true;
    while Below(j, EndBound(g)) && !End(lx)
      invariant hit.Length == |g.terms|
      invariant Repeat(fuel, e, g, j, lx, rule, r, committed, noHit) == Repeat(fuel0, e, g, 0, lx0, rule0, r0, false, true)
      decreases fuel
    {
      var o;
      if g.kind == Jux || g.kind == OneOf {
        o := ListRound(fuel, e, g, j, lx, rule, r, committed, noHit);
      } else {
        o := SetRound(fuel, e, g, j, lx, rule, r, committed, noHit, hit);
      }
      if o.Stopped? {
        return o.res;
      }
      ghost var target := Commit(fuel, e, g, j, lx, o.copy, o.rule, o.r, o.temp, false);
      lx, rule, r, committed := Sync(lx, o.copy), o.rule, MergeCycle(o.r, o.temp), true;
      var next := AfterComma(e.str, g.requireComma, lx);
      if next.None? {
        return Done(true, lx, rule, r);
      }
      if fuel == 0 {
        return NoFuel;
      }
      assert target == Repeat(fuel - 1, e, g, j + 1, next.value, rule, r, true, false);
      fuel, j, lx, noHit := fuel - 1, j + 1, next.value, false;
    }
    return Done(committed, lx, rule, r);
  }
}
