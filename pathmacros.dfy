/**
 * The filler macros of hilbertpiet/path.py: the U-turns that follow the bends of the curve
 * and the no-ops that pad a straight stretch of codels. Both leave the stack as they found it
 * and both refuse to start over a context value other than 1.
 */
module PathMacros {
  import opened Outcomes
  import opened Contexts
  import Ops
  import opened Macros

  /** The set-up of a U-turn: push the pending value and copy it twice. */
  const SetupCodes: seq<Code> := [Prim(Ops.Push), Prim(Ops.Duplicate), Prim(Ops.Duplicate)]

  /** The turn proper: turn by the top, drop a copy, turn by the top again. */
  const TurnBackCodes: seq<Code> := [Prim(Ops.Pointer), Prim(Ops.Pop), Prim(Ops.Pointer)]

  /** The primitives of a U-turn: `[Push(), Duplicate(), Duplicate(), Pointer(), Pop(), Pointer()]`. */
  const TurnCodes: seq<Code> := SetupCodes + TurnBackCodes

  /** `UTurnClockwise()` / `UTurnAntiClockwise()`: the anticlockwise one first resizes to 3. */
  function UTurn(clockwise: bool): Code {
    Macro(ValueMustBeOne, if clockwise then TurnCodes else [Resize(3)] + TurnCodes)
  }

  /** The quarter turns of one Pointer in the U-turn: 1 clockwise, 3 (one anticlockwise) otherwise. */
  function Quarter(clockwise: bool): int {
    if clockwise then 1 else 3
  }

  /** The codels spent before the first turn: push and two copies, plus a resize to 3. */
  function SetupCost(clockwise: bool): int {
    if clockwise then 3 else 5
  }

  /**
   * The context after a U-turn: `setup` codels along dp, two along the side direction, one
   * back against the original dp, which ends reversed; stack, value and output are kept.
   */
  function AfterUTurn(s: State, clockwise: bool): State {
    var side := Rotate(s.dp, Quarter(clockwise));
    s.(dp := Rotate(s.dp, 2),
       position := Move(Move(Move(s.position, s.dp, SetupCost(clockwise)), side, 2), s.dp, -1))
  }

  /** Add: the two top elements are replaced by their sum. */
  lemma AddStep(s: State, rest: seq<int>, a: int, b: int)
    requires s.stack == rest + [a, b]
    ensures Call(Prim(Ops.Add), s) == Ok(s.(stack := rest + [a + b], value := 1, position := Move(s.position, s.dp, 1)))
  {
    BinaryStep(Ops.Add, s, rest, a, b);
  }

  /** Push and two copies of k leave three copies of k and value 1, three codels further. */
  lemma SetupSpec(s: State, k: int)
    requires s.value == k && k > 0
    ensures CallSeq(SetupCodes, s)
            == Ok(s.(stack := s.stack + [k, k, k], value := 1, position := Move(s.position, s.dp, 3)))
  {
    var d, p, st := s.dp, s.position, s.stack;
    var s1 := s.(stack := st + [k], value := 1, position := Move(p, d, 1));
    var s2 := s1.(stack := st + [k, k], position := Move(p, d, 2));
    var s3 := s2.(stack := st + [k, k, k], position := Move(p, d, 3));
    PushStep(s);
    DuplicateStep(s1, st, k);
    assert st + [k] + [k] == st + [k, k];
    DuplicateStep(s2, st + [k], k);
    assert st + [k] + [k, k] == st + [k, k, k];
    CallThree(Prim(Ops.Push), Prim(Ops.Duplicate), Prim(Ops.Duplicate), s, s1, s2, s3);
  }

  /** Turning by k, dropping one k and turning by k again consumes three copies of k. */
  lemma TurnBackSpec(s: State, st: seq<int>, k: int)
    requires s.value == 1 && s.stack == st + [k, k, k]
    ensures CallSeq(TurnBackCodes, s)
            == Ok(s.(stack := st, dp := Rotate(Rotate(s.dp, k), k),
                     position := Move(Move(s.position, Rotate(s.dp, k), 2), Rotate(Rotate(s.dp, k), k), 1)))
  {
    var d, p := s.dp, s.position;
    var r := Rotate(d, k);
    var s4 := s.(stack := st + [k, k], dp := r, position := Move(p, r, 1));
    var s5 := s4.(stack := st + [k], position := Move(p, r, 2));
    var s6 := s5.(stack := st, dp := Rotate(r, k), position := Move(s5.position, Rotate(r, k), 1));
    assert s.stack == (st + [k, k]) + [k];
    PointerStep(s, st + [k, k], k);
    assert s4.stack == (st + [k]) + [k];
    PopStep(s4, st + [k], k);
    MoveAdds(p, r, 1, 1);
    PointerStep(s5, st, k);
    CallThree(Prim(Ops.Pointer), Prim(Ops.Pop), Prim(Ops.Pointer), s, s4, s5, s6);
  }

  /** The six primitives of a U-turn starting from value k > 0 turn twice by k quarter turns. */
  lemma TurnCodesSpec(s: State, k: int)
    requires s.value == k && k > 0
    ensures CallSeq(TurnCodes, s)
            == Ok(s.(value := 1, dp := Rotate(Rotate(s.dp, k), k),
                     position := Move(Move(Move(s.position, s.dp, 3), Rotate(s.dp, k), 2), Rotate(Rotate(s.dp, k), k), 1)))
  {
    SetupSpec(s, k);
    var s3 := s.(stack := s.stack + [k, k, k], value := 1, position := Move(s.position, s.dp, 3));
    TurnBackSpec(s3, s.stack, k);
    CallSeqAppend(SetupCodes, TurnBackCodes, s);
  }

  /** Two turns by three quarters are a half turn, and moving along the reversed dp goes backwards. */
  lemma HalfTurns(d: Dir, p: Vec)
    ensures Rotate(Rotate(d, 1), 1) == Rotate(d, 2) && Rotate(Rotate(d, 3), 3) == Rotate(d, 2)
    ensures Move(p, Rotate(d, 2), 1) == Move(p, d, -1)
    ensures Unit(Rotate(d, 2)) == Unit(d).Scale(-1)
  {
  }

  /** The U-turn primitives cover six codels, and the anticlockwise resize two more. */
  lemma UTurnSize(clockwise: bool)
    ensures Size(UTurn(clockwise)) == SetupCost(clockwise) + 3
  {
    SizeThree(Prim(Ops.Push), Prim(Ops.Duplicate), Prim(Ops.Duplicate));
    SizeThree(Prim(Ops.Pointer), Prim(Ops.Pop), Prim(Ops.Pointer));
    SizeSeqAppend(SetupCodes, TurnBackCodes);
    SizeSeqCons(Resize(3), TurnCodes);
  }

  lemma SizeThree(a: Code, b: Code, c: Code)
    ensures SizeSeq([a, b, c]) == Size(a) + Size(b) + Size(c)
  {
    assert [a, b, c] == [a] + [b, c];
    assert [b, c] == [b] + [c];
    SizeSeqCons(a, [b, c]);
    SizeSeqCons(b, [c]);
    SizeSeqCons(c, []);
  }

  /**
   * A U-turn costs 6 codels clockwise and 8 anticlockwise, raises RuntimeError unless the value
   * is 1, and otherwise reverses dp, keeps stack, value and output, and ends at the position of
   * `AfterUTurn`.
   */
  lemma UTurnSpec(clockwise: bool, s: State)
    ensures Size(UTurn(clockwise)) == SetupCost(clockwise) + 3
    ensures Call(UTurn(clockwise), s).Err? <==> s.value != 1
    ensures Call(UTurn(clockwise), s).Err? ==> Call(UTurn(clockwise), s).error == NonUnitValue
    ensures s.value == 1 ==> Call(UTurn(clockwise), s) == Ok(AfterUTurn(s, clockwise))
    ensures s.value == 1 ==> AfterUTurn(s, clockwise).stack == s.stack && Unit(AfterUTurn(s, clockwise).dp) == Unit(s.dp).Scale(-1)
  {
    UTurnSize(clockwise);
    HalfTurns(s.dp, s.position);
    if s.value == 1 {
      if clockwise {
        UTurnClockwise(s);
      } else {
        UTurnAnticlockwise(s);
      }
    }
  }

  lemma UTurnClockwise(s: State)
    requires s.value == 1
    ensures Call(UTurn(true), s) == Ok(AfterUTurn(s, true))
  {
    TurnCodesSpec(s, 1);
    TurnEnd(s, s, 1, 3);
  }

  lemma UTurnAnticlockwise(s: State)
    requires s.value == 1
    ensures Call(UTurn(false), s) == Ok(AfterUTurn(s, false))
  {
    var r := s.(value := 3, position := Move(s.position, s.dp, 2));
    ResizeStep(3, s);
    GuardedStep(Resize(3), TurnCodes, s, r);
    TurnCodesSpec(r, 3);
    MoveAdds(s.position, s.dp, 2, 3);
    TurnEnd(s, r, 3, 5);
  }

  /** A macro guarded by value 1 whose first code succeeds continues with the rest from its result. */
  lemma GuardedStep(c: Code, rest: seq<Code>, s: State, s1: State)
    requires s.value == 1 && Call(c, s) == Ok(s1)
    ensures Call(Macro(ValueMustBeOne, [c] + rest), s) == CallSeq(rest, s1)
  {
    CallSeqStep(c, rest, s, s1);
  }

  /** Where the turn codes leave a context that had already moved `setup - 3` codels: the U-turn's end. */
  lemma TurnEnd(s: State, r: State, k: int, setup: int)
    requires (k == 1 && setup == 3) || (k == 3 && setup == 5)
    requires s.value == 1 && r.stack == s.stack && r.dp == s.dp && r.output == s.output
    requires Move(r.position, r.dp, 3) == Move(s.position, s.dp, setup)
    ensures r.(value := 1, dp := Rotate(Rotate(r.dp, k), k),
               position := Move(Move(Move(r.position, r.dp, 3), Rotate(r.dp, k), 2), Rotate(Rotate(r.dp, k), k), 1))
            == AfterUTurn(s, k == 1)
  {
    var clockwise := k == 1;
    assert Quarter(clockwise) == k && SetupCost(clockwise) == setup;
    HalfTurns(s.dp, Move(Move(s.position, s.dp, setup), Rotate(s.dp, k), 2));
  }

  /** `[Duplicate(), Add()] * n` */
  function DupAdds(n: int): seq<Code>
    decreases if n <= 0 then 0 else n
  {
    if n <= 0 then [] else [Prim(Ops.Duplicate), Prim(Ops.Add)] + DupAdds(n - 1)
  }

  /** a doubled n times. */
  function Doubled(a: int, n: int): int
    decreases if n <= 0 then 0 else n
  {
    if n <= 0 then a else Doubled(2 * a, n - 1)
  }

  /** The resize to 2 that an odd length needs. */
  function OddResize(length: int): seq<Code> {
    if length % 2 == 1 then [Resize(2)] else []
  }

  /** `NoOp(length).ops`: push 1, resize to 2 for an odd length, double n times, pop. */
  function NoOpCodes(length: int): seq<Code> {
    [Prim(Ops.Push)] + OddResize(length) + DupAdds(length / 2 - 1) + [Prim(Ops.Pop)]
  }

  /** `NoOp(length)`: ValueError for a length of 1 or less. */
  function MakeNoOp(length: int): (r: Result<Code>)
    ensures r.Err? <==> length <= 1
    ensures r.Err? ==> r.error == InvalidNoOpLength
    ensures r.Ok? ==> r.value == Macro(ValueMustBeOne, NoOpCodes(length))
  {
    if length <= 1 then Err(InvalidNoOpLength) else Ok(Macro(ValueMustBeOne, NoOpCodes(length)))
  }

  /** The no-op of a length already known to be valid. */
  function NoOp(length: int): Code
    requires length >= 2
  {
    Macro(ValueMustBeOne, NoOpCodes(length))
  }

  /** n duplicate-and-add pairs double the top n times and move 2n codels. */
  lemma {:induction false} DupAddsSpec(n: nat, s: State, rest: seq<int>, a: int)
    requires s.stack == rest + [a]
    ensures SizeSeq(DupAdds(n)) == 2 * n
    ensures CallSeq(DupAdds(n), s)
            == Ok(s.(stack := rest + [Doubled(a, n)], value := if n == 0 then s.value else 1,
                     position := Move(s.position, s.dp, 2 * n)))
  {
    if n > 0 {
      var s1 := s.(stack := rest + [a, a], value := 1, position := Move(s.position, s.dp, 1));
      var s2 := s1.(stack := rest + [2 * a], position := Move(s.position, s.dp, 2));
      DuplicateStep(s, rest, a);
      AddStep(s1, rest, a, a);
      var tail := DupAdds(n - 1);
      DupAddsSpec(n - 1, s2, rest, 2 * a);
      DupAddsUnfold(n, s, s1, s2);
    }
  }

  /** One duplicate-and-add pair in front of the rest. */
  lemma DupAddsUnfold(n: nat, s: State, s1: State, s2: State)
    requires n > 0
    requires Call(Prim(Ops.Duplicate), s) == Ok(s1) && Call(Prim(Ops.Add), s1) == Ok(s2)
    ensures CallSeq(DupAdds(n), s) == CallSeq(DupAdds(n - 1), s2)
    ensures SizeSeq(DupAdds(n)) == 2 + SizeSeq(DupAdds(n - 1))
  {
    var tail := DupAdds(n - 1);
    assert DupAdds(n) == [Prim(Ops.Duplicate)] + ([Prim(Ops.Add)] + tail);
    CallSeqStep(Prim(Ops.Duplicate), [Prim(Ops.Add)] + tail, s, s1);
    CallSeqStep(Prim(Ops.Add), tail, s1, s2);
    SizeSeqCons(Prim(Ops.Duplicate), [Prim(Ops.Add)] + tail);
    SizeSeqCons(Prim(Ops.Add), tail);
  }

  /** A valid no-op covers exactly `length` codels. */
  lemma NoOpSize(length: int)
    requires length >= 2
    ensures Size(NoOp(length)) == length
  {
    var mid := OddResize(length);
    DupAddsSpec(length / 2 - 1, Default().(stack := [0]), [], 0);
    SizeSeqAppend([Prim(Ops.Push)] + mid, DupAdds(length / 2 - 1));
    SizeSeqAppend([Prim(Ops.Push)] + mid + DupAdds(length / 2 - 1), [Prim(Ops.Pop)]);
    SizeSeqAppend([Prim(Ops.Push)], mid);
    SizeSeqCons(Prim(Ops.Pop), []);
    SizeSeqCons(Prim(Ops.Push), []);
    SizeSeqCons(Resize(2), []);
  }

  /**
   * A no-op raises RuntimeError unless the value is 1, and otherwise only moves `length`
   * codels along dp: stack, value, dp and output are as they were.
   */
  lemma NoOpSpec(length: int, s: State)
    requires length >= 2
    ensures Size(NoOp(length)) == length
    ensures Call(NoOp(length), s).Err? <==> s.value != 1
    ensures Call(NoOp(length), s).Err? ==> Call(NoOp(length), s).error == NonUnitValue
    ensures s.value == 1 ==> Call(NoOp(length), s) == Ok(Moved(s, length))
  {
    NoOpSize(length);
    if s.value == 1 {
      NoOpRun(length, s);
    }
  }

  /** The codes of a no-op, run from value 1, move `length` codels and change nothing else. */
  lemma NoOpRun(length: int, s: State)
    requires length >= 2 && s.value == 1
    ensures CallSeq(NoOpCodes(length), s) == Ok(Moved(s, length))
  {
    var n := length / 2 - 1;
    var body := [Prim(Ops.Push)] + OddResize(length) + DupAdds(n);
    NoOpBody(length, s);
    var t := CallSeq(body, s).value;
    var t' := t.(stack := s.stack, value := 1, position := Move(t.position, t.dp, 1));
    PopStep(t, s.stack, Doubled(1, n));
    MoveAdds(s.position, s.dp, length - 1, 1);
    assert t' == Moved(s, length);
    assert [Prim(Ops.Pop)] + [] == [Prim(Ops.Pop)];
    CallSeqStep(Prim(Ops.Pop), [], t, t');
    CallSeqChain(body, [Prim(Ops.Pop)], s, t, t');
    NoOpCodesSplit(length);
  }

  /** Everything but the final Pop: the doubled 1 on top, `length - 1` codels further. */
  lemma NoOpBody(length: int, s: State)
    requires length >= 2 && s.value == 1
    ensures var n := length / 2 - 1;
            var r := CallSeq([Prim(Ops.Push)] + OddResize(length) + DupAdds(n), s);
            r.Ok? && r.value.stack == s.stack + [Doubled(1, n)] && r.value.dp == s.dp
            && r.value.position == Move(s.position, s.dp, length - 1) && r.value.output == s.output
  {
    var k := if length % 2 == 1 then 2 else 1;
    var n := length / 2 - 1;
    var p, d := s.position, s.dp;
    var s2 := s.(stack := s.stack + [1], value := k, position := Move(p, d, k));
    NoOpHead(length, s);
    DupAddsSpec(n, s2, s.stack, 1);
    var s3 := s2.(stack := s.stack + [Doubled(1, n)], value := if n == 0 then k else 1,
                  position := Move(p, d, k + 2 * n));
    HeadAndPairs(length);
    MoveAdds(p, d, k, 2 * n);
    CallSeqChain([Prim(Ops.Push)] + OddResize(length), DupAdds(n), s, s2, s3);
  }

  /** The head of a no-op takes one or two codels and the pairs the rest but the final Pop. */
  lemma HeadAndPairs(length: int)
    requires length >= 2
    ensures (if length % 2 == 1 then 2 else 1) + 2 * (length / 2 - 1) == length - 1
  {
  }

  lemma NoOpCodesSplit(length: int)
    ensures NoOpCodes(length) == [Prim(Ops.Push)] + OddResize(length) + DupAdds(length / 2 - 1) + [Prim(Ops.Pop)]
  {
  }

  /** Push 1, and resize to 2 for an odd length: value k on the stack, k codels further. */
  lemma NoOpHead(length: int, s: State)
    requires s.value == 1
    ensures var k := if length % 2 == 1 then 2 else 1;
            CallSeq([Prim(Ops.Push)] + OddResize(length), s)
            == Ok(s.(stack := s.stack + [1], value := k, position := Move(s.position, s.dp, k)))
  {
    var s1 := s.(stack := s.stack + [1], position := Move(s.position, s.dp, 1));
    PushStep(s);
    CallSeqStep(Prim(Ops.Push), OddResize(length), s, s1);
    if length % 2 == 1 {
      ResizeSpec(2, s1);
      CallSeqStep(Resize(2), [], s1, s1.(value := 2, position := Move(s.position, s.dp, 2)));
    }
  }

  /** hilbertpiet tests: no-ops of length 2 to 5 are as long as asked and keep the stack. */
  lemma NoOpExamples()
    ensures NoOpCodes(2) == [Prim(Ops.Push), Prim(Ops.Pop)]
    ensures NoOpCodes(3) == [Prim(Ops.Push), Resize(2), Prim(Ops.Pop)]
    ensures NoOpCodes(5) == [Prim(Ops.Push), Resize(2), Prim(Ops.Duplicate), Prim(Ops.Add), Prim(Ops.Pop)]
  {
    assert DupAdds(1) == [Prim(Ops.Duplicate), Prim(Ops.Add)] + DupAdds(0);
  }
}
