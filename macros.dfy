/**
 * Macros (hilbertpiet/macros.py): lists of operations run in sequence, flattened to
 * primitives by `expanded_ops`, with a size that adds up their children's sizes.
 *
 * A piece of program is a `Code`: a primitive, a `Resize(v)` (a macro of v - 1 Extends whose
 * call insists on value 1), or a macro with a list of children. The guard of a macro says
 * whether its own call first insists on value 1, as the U-turn and no-op macros of
 * hilbertpiet/path.py do.
 */
module Macros {
  import opened Outcomes
  import opened Text
  import opened Contexts
  import opened Ops

  /** The values `Resize` accepts. */
  type ResizeValue = v: int | v >= 2 witness 2

  datatype Guard = Unguarded | ValueMustBeOne

  datatype Code =
    | Prim(op: Op)
    | Resize(v: ResizeValue)
    | Macro(guard: Guard, children: seq<Code>)

  /** `Resize(value)`: ValueError for a value of 1 or less. */
  function MakeResize(v: int): (r: Result<Code>)
    ensures r.Err? <==> v <= 1
    ensures r.Err? ==> r.error == InvalidResize
    ensures r.Ok? ==> r.value.Resize? && r.value.v == v
  {
    if v <= 1 then Err(InvalidResize) else Ok(Resize(v))
  }

  /** `expanded_ops`: the primitives of a piece of code, depth first and in order. */
  function Expanded(c: Code): seq<Op>
    decreases c, 1
  {
    match c
    case Prim(op) => [op]
    case Resize(v) => Repeat(Extend, v - 1)
    case Macro(_, cs) => ExpandedSeq(cs)
  }

  function ExpandedSeq(cs: seq<Code>): seq<Op>
    decreases cs, 0
  {
    if cs == [] then [] else Expanded(cs[0]) + ExpandedSeq(cs[1..])
  }

  /** `size`: one per primitive, v - 1 for `Resize(v)`, the sum of the children for a macro. */
  function Size(c: Code): int
    decreases c, 1
  {
    match c
    case Prim(_) => Ops.Size
    case Resize(v) => v - 1
    case Macro(_, cs) => SizeSeq(cs)
  }

  function SizeSeq(cs: seq<Code>): int
    decreases cs, 0
  {
    if cs == [] then 0 else Size(cs[0]) + SizeSeq(cs[1..])
  }

  /** Running a list of primitives, each receiving the previous one's result. */
  function RunOps(ops: seq<Op>, s: State): Result<State>
    decreases |ops|
  {
    if ops == [] then Ok(s)
    else
      var t :- Apply(ops[0], s);
      RunOps(ops[1..], t)
  }

  /** Continues a run that may already have failed. */
  function ThenRun(r: Result<State>, ops: seq<Op>): Result<State> {
    if r.Err? then r else RunOps(ops, r.value)
  }

  /** `code(context)`: the guard of a Resize or guarded macro, then its children in order. */
  function Call(c: Code, s: State): Result<State>
    decreases c, 1
  {
    match c
    case Prim(op) => Apply(op, s)
    case Resize(v) => if s.value != 1 then Err(NonUnitValue) else RunOps(Repeat(Extend, v - 1), s)
    case Macro(g, cs) => if g == ValueMustBeOne && s.value != 1 then Err(NonUnitValue) else CallSeq(cs, s)
  }

  function CallSeq(cs: seq<Code>, s: State): Result<State>
    decreases cs, 0
  {
    if cs == [] then Ok(s)
    else
      var t :- Call(cs[0], s);
      CallSeq(cs[1..], t)
  }

  function ThenCall(r: Result<State>, cs: seq<Code>): Result<State> {
    if r.Err? then r else CallSeq(cs, r.value)
  }

  lemma SizeSeqCons(c: Code, rest: seq<Code>)
    ensures SizeSeq([c] + rest) == Size(c) + SizeSeq(rest)
  {
    assert ([c] + rest)[0] == c;
    assert ([c] + rest)[1..] == rest;
  }

  lemma {:induction false} SizeSeqAppend(a: seq<Code>, b: seq<Code>)
    ensures SizeSeq(a + b) == SizeSeq(a) + SizeSeq(b)
    decreases |a|
  {
    if a == [] {
      assert a + b == b;
    } else {
      assert (a + b)[0] == a[0];
      assert (a + b)[1..] == a[1..] + b;
      SizeSeqAppend(a[1..], b);
    }
  }

  lemma CallSeqCons(c: Code, rest: seq<Code>, s: State)
    ensures CallSeq([c] + rest, s) == ThenCall(Call(c, s), rest)
  {
    assert ([c] + rest)[0] == c;
    assert ([c] + rest)[1..] == rest;
  }

  /** The size of a piece of code is the number of primitives it expands to. */
  lemma {:induction false} SizeIsExpandedLength(c: Code)
    ensures Size(c) == |Expanded(c)|
    decreases c, 1
  {
    match c
    case Prim(_) =>
    case Resize(_) =>
    case Macro(_, cs) => SizeSeqIsExpandedLength(cs);
  }

  lemma {:induction false} SizeSeqIsExpandedLength(cs: seq<Code>)
    ensures SizeSeq(cs) == |ExpandedSeq(cs)|
    decreases cs, 0
  {
    if cs != [] {
      SizeIsExpandedLength(cs[0]);
      SizeSeqIsExpandedLength(cs[1..]);
    }
  }

  /** Expanding a concatenation expands each part. */
  lemma {:induction false} ExpandedSeqAppend(a: seq<Code>, b: seq<Code>)
    ensures ExpandedSeq(a + b) == ExpandedSeq(a) + ExpandedSeq(b)
    decreases |a|
  {
    if a == [] {
      assert a + b == b;
    } else {
      assert (a + b)[0] == a[0];
      assert (a + b)[1..] == a[1..] + b;
      ExpandedSeqAppend(a[1..], b);
    }
  }

  /** Running a concatenation runs the first part, then the second from where it left off. */
  lemma {:induction false} RunOpsAppend(a: seq<Op>, b: seq<Op>, s: State)
    ensures RunOps(a + b, s) == ThenRun(RunOps(a, s), b)
    decreases |a|
  {
    if a == [] {
      assert a + b == b;
    } else {
      assert (a + b)[0] == a[0];
      assert (a + b)[1..] == a[1..] + b;
      if Apply(a[0], s).Ok? {
        RunOpsAppend(a[1..], b, Apply(a[0], s).value);
      }
    }
  }

  lemma {:induction false} CallSeqAppend(a: seq<Code>, b: seq<Code>, s: State)
    ensures CallSeq(a + b, s) == ThenCall(CallSeq(a, s), b)
    decreases |a|
  {
    if a == [] {
      assert a + b == b;
    } else {
      assert (a + b)[0] == a[0];
      assert (a + b)[1..] == a[1..] + b;
      if Call(a[0], s).Ok? {
        CallSeqAppend(a[1..], b, Call(a[0], s).value);
      }
    }
  }

  /** k Extends add k to value and move k codels, and touch nothing else. */
  lemma {:induction false} RunExtends(k: nat, s: State)
    ensures RunOps(Repeat(Extend, k), s) == Ok(s.(value := s.value + k, position := Move(s.position, s.dp, k)))
  {
    if k > 0 {
      assert Repeat(Extend, k)[1..] == Repeat(Extend, k - 1);
      var t := Apply(Extend, s).value;
      RunExtends(k - 1, t);
    }
  }

  /**
   * The guards are the only difference between calling a piece of code and running its
   * expansion: a call that succeeds agrees with the expansion, and a call that fails either
   * fails as the expansion does or was stopped by a guard.
   */
  lemma {:induction false} CallAgreesWithExpansion(c: Code, s: State)
    ensures Call(c, s).Ok? ==> RunOps(Expanded(c), s) == Call(c, s)
    ensures Call(c, s).Err? ==> Call(c, s).error == NonUnitValue || RunOps(Expanded(c), s) == Call(c, s)
    decreases c, 1
  {
    match c
    case Prim(op) =>
      assert Expanded(c) == [op];
    case Resize(_) =>
    case Macro(_, cs) =>
      CallSeqAgreesWithExpansion(cs, s);
  }

  lemma {:induction false} CallSeqAgreesWithExpansion(cs: seq<Code>, s: State)
    ensures CallSeq(cs, s).Ok? ==> RunOps(ExpandedSeq(cs), s) == CallSeq(cs, s)
    ensures CallSeq(cs, s).Err? ==> CallSeq(cs, s).error == NonUnitValue || RunOps(ExpandedSeq(cs), s) == CallSeq(cs, s)
    decreases cs, 0
  {
    if cs != [] {
      CallAgreesWithExpansion(cs[0], s);
      RunOpsAppend(Expanded(cs[0]), ExpandedSeq(cs[1..]), s);
      if Call(cs[0], s).Ok? {
        CallSeqAgreesWithExpansion(cs[1..], Call(cs[0], s).value);
      }
    }
  }

  /** `Resize(v)` insists on value 1 and leaves value v, having moved v - 1 codels. */
  lemma ResizeSpec(v: ResizeValue, s: State)
    ensures Call(Resize(v), s).Err? <==> s.value != 1
    ensures Call(Resize(v), s).Err? ==> Call(Resize(v), s).error == NonUnitValue
    ensures s.value == 1 ==> Call(Resize(v), s) == Ok(s.(value := v, position := Move(s.position, s.dp, v - 1)))
    ensures Size(Resize(v)) == v - 1 && Expanded(Resize(v)) == Repeat(Extend, v - 1)
  {
    RunExtends(v - 1, s);
  }

  /** A code that succeeds hands its result to the codes after it. */
  lemma CallSeqStep(c: Code, rest: seq<Code>, s: State, s1: State)
    requires Call(c, s) == Ok(s1)
    ensures CallSeq([c] + rest, s) == CallSeq(rest, s1)
  {
    CallSeqCons(c, rest, s);
  }

  /** Two runs of codes, the second from where the first ended. */
  lemma CallSeqChain(a: seq<Code>, b: seq<Code>, s: State, s1: State, s2: State)
    requires CallSeq(a, s) == Ok(s1) && CallSeq(b, s1) == Ok(s2)
    ensures CallSeq(a + b, s) == Ok(s2)
  {
    CallSeqAppend(a, b, s);
  }

  /** Three codes run one after the other. */
  lemma CallThree(a: Code, b: Code, c: Code, s: State, s1: State, s2: State, s3: State)
    requires Call(a, s) == Ok(s1) && Call(b, s1) == Ok(s2) && Call(c, s2) == Ok(s3)
    ensures CallSeq([a, b, c], s) == Ok(s3)
  {
    assert [a, b, c] == [a] + ([b] + ([c] + []));
    CallSeqStep(c, [], s2, s3);
    CallSeqStep(b, [c] + [], s1, s2);
    CallSeqStep(a, [b] + ([c] + []), s, s1);
  }

  /** Resize(v) from value 1: value v, v - 1 codels further. */
  lemma ResizeStep(v: ResizeValue, s: State)
    requires s.value == 1
    ensures Call(Resize(v), s) == Ok(s.(value := v, position := Move(s.position, s.dp, v - 1)))
  {
    ResizeSpec(v, s);
  }

  /** Push: the value goes on the stack. */
  lemma PushStep(s: State)
    requires s.value > 0
    ensures Call(Prim(Push), s) == Ok(s.(stack := s.stack + [s.value], value := 1, position := Move(s.position, s.dp, 1)))
  {
  }

  /** Duplicate: the top is copied. */
  lemma DuplicateStep(s: State, rest: seq<int>, a: int)
    requires s.stack == rest + [a]
    ensures Call(Prim(Duplicate), s) == Ok(s.(stack := rest + [a, a], value := 1, position := Move(s.position, s.dp, 1)))
  {
    assert Top(s.stack) == a && s.stack + [a] == rest + [a, a];
  }

  /** A binary primitive that succeeds: the two top elements are replaced by its result. */
  lemma BinaryStep(op: Op, s: State, rest: seq<int>, a: int, b: int)
    requires op.IsBinary() && BinaryResult(op, a, b).Ok? && s.stack == rest + [a, b]
    ensures Call(Prim(op), s)
            == Ok(s.(stack := rest + [BinaryResult(op, a, b).value], value := 1, position := Move(s.position, s.dp, 1)))
  {
    BinarySpec(op, s, rest, a, b);
  }

  /** Pop: the top is dropped. */
  lemma PopStep(s: State, rest: seq<int>, a: int)
    requires s.stack == rest + [a]
    ensures Call(Prim(Pop), s) == Ok(s.(stack := rest, value := 1, position := Move(s.position, s.dp, 1)))
  {
    assert DropTop(s.stack) == rest;
  }

  /** Pointer: the top is popped and dp turns by it before the move. */
  lemma PointerStep(s: State, rest: seq<int>, k: int)
    requires s.stack == rest + [k]
    ensures Call(Prim(Pointer), s)
            == Ok(s.(stack := rest, value := 1, dp := Rotate(s.dp, k), position := Move(s.position, Rotate(s.dp, k), 1)))
  {
    PointerSpec(s, rest, k);
  }

  /**
   * Nested macros flatten depth first: with primitives standing for A, B and C, the macro
   * [C, [A, [B, C]], B] expands to C, A, B, C, B and has size 5.
   */
  lemma NestedExpansionExample()
    ensures var a, b, c := Prim(Push), Prim(Pop), Prim(Duplicate);
            var nested := Macro(Unguarded, [c, Macro(Unguarded, [a, Macro(Unguarded, [b, c])]), b]);
            Expanded(nested) == [Duplicate, Push, Pop, Duplicate, Pop] && Size(nested) == 5
  {
    var a, b, c := Prim(Push), Prim(Pop), Prim(Duplicate);
    var bc := Macro(Unguarded, [b, c]);
    var abc := Macro(Unguarded, [a, bc]);
    var all := [c, abc, b];
    assert [b, c][1..] == [c] && [c][1..] == [] && [b][1..] == [];
    assert [a, bc][1..] == [bc] && [bc][1..] == [];
    assert all[1..] == [abc, b] && all[1..][1..] == [b];
    assert ExpandedSeq([c]) == [Duplicate] && SizeSeq([c]) == 1;
    assert ExpandedSeq([b]) == [Pop] && SizeSeq([b]) == 1;
    assert Expanded(bc) == [Pop, Duplicate] && Size(bc) == 2;
    assert ExpandedSeq([bc]) == [Pop, Duplicate] && SizeSeq([bc]) == 2;
    assert ExpandedSeq([a, bc]) == [Push] + ExpandedSeq([bc]) && SizeSeq([a, bc]) == 1 + SizeSeq([bc]);
    assert Expanded(abc) == [Push, Pop, Duplicate] && Size(abc) == 3;
    assert ExpandedSeq(all[1..]) == [Push, Pop, Duplicate, Pop] && SizeSeq(all[1..]) == 4;
  }

  /** `expanded_ops` as the source computes it: a loop accumulating each child's expansion. */
  method ExpandedOps(c: Code) returns (ops: seq<Op>)
    ensures ops == Expanded(c)
    decreases c
  {
    match c {
      case Prim(op) =>
        ops := [op];
      case Resize(v) =>
        ops := [];
        for i := 0 to v - 1
          invariant ops == Repeat(Extend, i)
        {
          RepeatAdd(Extend, i, 1);
          ops := ops + [Extend];
        }
      case Macro(_, cs) =>
        ops := [];
        for i := 0 to |cs|
          invariant ops == ExpandedSeq(cs[..i])
        {
          var sub := ExpandedOps(cs[i]);
          assert cs[..i + 1] == cs[..i] + [cs[i]];
          ExpandedSeqAppend(cs[..i], [cs[i]]);
          ops := ops + sub;
        }
        assert cs[..|cs|] == cs;
    }
  }

  /**
   * `code(context)` on a mutable context: the guard, then each child in turn on the same
   * context object.
   */
  method Execute(c: Code, ctx: Context) returns (r: Outcome)
    modifies ctx
    ensures r.Pass? <==> Call(c, old(ctx.Snapshot())).Ok?
    ensures r.Pass? ==> ctx.Snapshot() == Call(c, old(ctx.Snapshot())).value
    ensures r.Fail? ==> r.error == Call(c, old(ctx.Snapshot())).error
    decreases c
  {
    ghost var s0 := ctx.Snapshot();
    match c {
      case Prim(op) =>
        r := Ops.Call(op, ctx);
      case Resize(v) =>
        if ctx.value != 1 {
          return Fail(NonUnitValue);
        }
        for i := 0 to v - 1
          invariant ctx.Snapshot() == s0.(value := s0.value + i, position := Move(s0.position, s0.dp, i))
        {
          var _ := Ops.Call(Extend, ctx);
        }
        RunExtends(v - 1, s0);
        r := Pass;
      case Macro(g, cs) =>
        if g == ValueMustBeOne && ctx.value != 1 {
          return Fail(NonUnitValue);
        }
        for i := 0 to |cs|
          invariant CallSeq(cs[..i], s0) == Ok(ctx.Snapshot())
        {
          ghost var before := ctx.Snapshot();
          var step := Execute(cs[i], ctx);
          assert cs[..i + 1] == cs[..i] + [cs[i]];
          CallSeqAppend(cs[..i], [cs[i]], s0);
          assert CallSeq([cs[i]], before) == ThenCall(Call(cs[i], before), []);
          if step.Fail? {
            assert cs == cs[..i] + cs[i..];
            CallSeqAppend(cs[..i], cs[i..], s0);
            return step;
          }
        }
        assert cs[..|cs|] == cs;
        r := Pass;
    }
  }
}
