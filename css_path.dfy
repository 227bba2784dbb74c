/**
 * `CSS_Path.ToString`: an SVG path held as a flat array of numbers, each
 * command an opcode followed by its operands, written back as text.  The
 * opcodes are the `PathSym` table; a `pairs` opcode carries two more
 * operands of the command before it and writes no letter.  Numbers are
 * integers here.
 */
module CssPaths {
  import Js

  /** `PathSym`: the opcode is the index of the command's letter. */
  const Letters: string := "MmLlhHVvCcSsQqTtAaZz"
  const Pairs := 20
  const ArcUpper := 16
  const ArcLower := 17

  /** What `ToString` pushes: a command letter, a number, or `undefined` read past the end. */
  datatype Piece = Letter(c: char) | Value(n: int) | Missing

  /** A command the serializer writes: a letter opcode other than an arc, or `pairs`. */
  predicate Written(op: int) {
    0 <= op <= Pairs && op != ArcUpper && op != ArcLower
  }

  /** How many operands follow a written opcode. */
  function Arity(op: int): (k: nat)
    requires Written(op)
    ensures k <= 6
  {
    if op <= 3 || op == 14 || op == 15 || op == Pairs then 2
    else if op <= 7 then 1
    else if op <= 9 then 6
    else if op <= 13 then 4
    else 0
  }

  /** The `k` operands at the front of `a`, `undefined` where the array has run out. */
  function Operands(a: seq<int>, k: nat): (r: seq<Piece>)
    ensures |r| == k
    ensures forall m | 0 <= m < k :: r[m] == (if m < |a| then Value(a[m]) else Missing)
  {
    seq(k, m requires 0 <= m < k => if m < |a| then Value(a[m]) else Missing)
  }

  /** The pieces one opcode at the front of `a` pushes. */
  function Head(a: seq<int>): seq<Piece>
    requires |a| > 0
  {
    var op := a[0];
    if !Written(op) then []
    else if op == Pairs then Operands(a[1..], Arity(op))
    else [Letter(Letters[op])] + Operands(a[1..], Arity(op))
  }

  /** How far the loop's index moves past one opcode. */
  function Width(a: seq<int>): (w: nat)
    requires |a| > 0
    ensures w >= 1
  {
    if Written(a[0]) then 1 + Arity(a[0]) else 2
  }

  /**
   * The pieces `ToString` pushes for the array from its front: a written
   * opcode pushes its letter (but for `pairs`) and its operands; an arc or
   * an unknown opcode is dropped together with the element after it.
   */
  function PathPieces(a: seq<int>): seq<Piece>
    decreases |a|
  {
    if |a| == 0 then []
    else if Width(a) <= |a| then Head(a) + PathPieces(a[Width(a)..])
    else Head(a)
  }

  /** A JavaScript number as `join` writes it, for integers. */
  function NumberText(n: int): string {
    if n < 0 then "-" + Js.DecimalText(-n) else Js.DecimalText(n)
  }

  function PieceText(p: Piece): string {
    match p
    case Letter(c) => [c]
    case Value(n) => NumberText(n)
    case Missing => ""
  }

  /** `join(" ")`: `undefined` becomes the empty string. */
  function JoinPieces(ps: seq<Piece>): string
    decreases |ps|
  {
    if |ps| == 0 then ""
    else if |ps| == 1 then PieceText(ps[0])
    else PieceText(ps[0]) + " " + JoinPieces(ps[1..])
  }

  lemma Associative(x: seq<Piece>, y: seq<Piece>, z: seq<Piece>)
    ensures (x + y) + z == x + (y + z)
  {
  }

  /** `CSS_Path.ToString(array)`: the loop over the array, pushing pieces. */
  method ToString(a: seq<int>) returns (text: string)
    ensures text == JoinPieces(PathPieces(a))
  {
    var pieces: seq<Piece> := [];
    var i := 0;
    while i < |a|
      invariant i <= |a| ==> pieces + PathPieces(a[i..]) == PathPieces(a)
      invariant i > |a| ==> pieces == PathPieces(a)
      decreases |a| - i
    {
      var op := a[i];
      var step: seq<Piece>;
      var w: nat;
      if Written(op) {
        var k := Arity(op);
        step := if op == Pairs then [] else [Letter(Letters[op])];
        step := step + Operands(a[i + 1..], k);
        w := 1 + k;
      } else {
        step := [];
        w := 2;
      }
      assert a[i..][1..] == a[i + 1..];
      assert step == Head(a[i..]) && w == Width(a[i..]);
      if i + w <= |a| {
        assert a[i..][w..] == a[i + w..];
        var rest := PathPieces(a[i + w..]);
        assert PathPieces(a[i..]) == step + rest;
        Associative(pieces, step, rest);
      } else {
        assert PathPieces(a[i..]) == step;
      }
      pieces := pieces + step;
      i := i + w;
    }
    if i == |a| {
      assert a[i..] == [];
      assert pieces + [] == pieces;
    }
    text := JoinPieces(pieces);
  }

  // ---------------------------------------------------------------- what `FromString` builds

  /** A command as `FromString` stores it: a written opcode and exactly its operands. */
  datatype Command = Command(op: int, args: seq<int>)

  predicate WellFormed(cmds: seq<Command>) {
    forall j | 0 <= j < |cmds| :: Written(cmds[j].op) && |cmds[j].args| == Arity(cmds[j].op)
  }

  /** The flat array: each opcode followed by its operands. */
  function Flatten(cmds: seq<Command>): seq<int>
    decreases |cmds|
  {
    if |cmds| == 0 then [] else [cmds[0].op] + cmds[0].args + Flatten(cmds[1..])
  }

  function Values(args: seq<int>): (r: seq<Piece>)
    ensures |r| == |args| && forall m | 0 <= m < |args| :: r[m] == Value(args[m])
  {
    seq(|args|, m requires 0 <= m < |args| => Value(args[m]))
  }

  /** What a command should read as: its letter, but for `pairs`, then its numbers. */
  function Render(cmds: seq<Command>): seq<Piece>
    requires WellFormed(cmds)
    decreases |cmds|
  {
    if |cmds| == 0 then []
    else
      var c := cmds[0];
      (if c.op == Pairs then [] else [Letter(Letters[c.op])]) + Values(c.args) + Render(cmds[1..])
  }

  /**
   * Writing out a well-formed command array gives each command's letter
   * followed by its own numbers, in order, and nothing read past the end.
   */
  lemma {:induction false} PiecesOfCommands(cmds: seq<Command>)
    requires WellFormed(cmds)
    ensures PathPieces(Flatten(cmds)) == Render(cmds)
    decreases |cmds|
  {
    if |cmds| > 0 {
      var c := cmds[0];
      var a := Flatten(cmds);
      var k := Arity(c.op);
      assert a[0] == c.op && Width(a) == 1 + k;
      assert a[1..][..k] == c.args;
      assert Operands(a[1..], k) == Values(c.args);
      assert a[1 + k..] == Flatten(cmds[1..]);
      PiecesOfCommands(cmds[1..]);
    }
  }

  /** An `M` with one number: the missing second number is written as nothing, after a space. */
  lemma ShortMove()
    ensures JoinPieces(PathPieces([0, 5])) == "M 5 "
  {
    var a := [0, 5];
    assert a[1..] == [5];
    assert Operands(a[1..], 2) == [Value(5), Missing];
    assert PathPieces(a) == [Letter('M'), Value(5), Missing];
    assert Js.DecimalText(5) == "5";
  }
}
