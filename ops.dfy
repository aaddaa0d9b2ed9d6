/**
 * The twelve primitive Piet operations (hilbertpiet/ops.py). Each one transforms a
 * Context in place (`_call`), after which the common `__call__` resets the value register
 * to 1 (except for Extend) and advances the position by the operation's size along the
 * direction pointer in force after the transform.
 */
module Ops {
  import opened Outcomes
  import opened Text
  import opened Contexts

  datatype Op =
    | Init | Extend | Push | Pop | Duplicate
    | Add | Substract | Multiply | Divide
    | Pointer | OutNumber | OutChar
  {
    predicate IsBinary() {
      this in {Add, Substract, Multiply, Divide}
    }
  }

  /** Every primitive is a codel of size 1. */
  const Size: nat := 1

  /** A change of colour: lightness steps and hue steps, the real and imaginary parts of `color_change`. */
  datatype ColorChange = ColorChange(lightness: int, hue: int) {
    function Plus(other: ColorChange): ColorChange {
      ColorChange(lightness + other.lightness, hue + other.hue)
    }
  }

  const NoChange := ColorChange(0, 0)

  /** `color_change` of each primitive. */
  function ColorChangeOf(op: Op): ColorChange {
    match op
    case Init => ColorChange(0, 0)
    case Extend => ColorChange(0, 0)
    case Push => ColorChange(1, 0)
    case Pop => ColorChange(2, 0)
    case Duplicate => ColorChange(0, 4)
    case Add => ColorChange(0, 1)
    case Substract => ColorChange(1, 1)
    case Multiply => ColorChange(2, 1)
    case Divide => ColorChange(0, 2)
    case Pointer => ColorChange(1, 3)
    case OutNumber => ColorChange(1, 5)
    case OutChar => ColorChange(0, 5)
  }

  /** Python's `a // b`: the quotient rounded towards minus infinity. */
  function FloorDiv(a: int, b: int): int
    requires b != 0
  {
    if b > 0 then a / b else (-a) / (-b)
  }

  /** The quotient of FloorDiv is the floor of the exact quotient, whatever the signs. */
  lemma FloorDivIsFloor(a: int, b: int)
    requires b != 0
    ensures b > 0 ==> FloorDiv(a, b) * b <= a < FloorDiv(a, b) * b + b
    ensures b < 0 ==> FloorDiv(a, b) * b + b < a <= FloorDiv(a, b) * b
  {
    if b < 0 {
      var q := (-a) / (-b);
      assert (-b) * q <= -a < (-b) * q + (-b);
      assert q * b == -((-b) * q);
    }
  }

  /** `binary_op(a, b)` where b was on top of the stack and a beneath it. */
  function BinaryResult(op: Op, a: int, b: int): (r: Result<int>)
    requires op.IsBinary()
    ensures r.Err? <==> op == Divide && b == 0
    ensures r.Err? ==> r.error == ZeroDivision
  {
    match op
    case Add => Ok(a + b)
    case Substract => Ok(a - b)
    case Multiply => Ok(a * b)
    case Divide => if b == 0 then Err(ZeroDivision) else Ok(FloorDiv(a, b))
  }

  /** Code points `chr` accepts. */
  predicate IsCodePoint(x: int) {
    0 <= x <= 0x10FFFF
  }

  function Top(stack: seq<int>): int
    requires |stack| > 0
  {
    stack[|stack| - 1]
  }

  function DropTop(stack: seq<int>): seq<int>
    requires |stack| > 0
  {
    stack[..|stack| - 1]
  }

  /** `_call`: the transformation proper, before the common value reset and move. */
  function Transform(op: Op, s: State): Result<State> {
    match op
    case Init =>
      if s != Default() then Err(NonEmptyContext) else Ok(s)
    case Extend =>
      Ok(s.(value := s.value + 1))
    case Push =>
      if s.value <= 0 then Err(NonPositivePush) else Ok(s.(stack := s.stack + [s.value]))
    case Pop =>
      if |s.stack| == 0 then Err(EmptyStack) else Ok(s.(stack := DropTop(s.stack)))
    case Duplicate =>
      if |s.stack| == 0 then Err(EmptyStack) else Ok(s.(stack := s.stack + [Top(s.stack)]))
    case Pointer =>
      if |s.stack| == 0 then Err(EmptyStack)
      else Ok(Turned(s.(stack := DropTop(s.stack)), Top(s.stack)))
    case OutNumber =>
      if |s.stack| == 0 then Err(EmptyStack)
      else Ok(s.(stack := DropTop(s.stack), output := s.output + CodePoints(Decimal(Top(s.stack)) + " ")))
    case OutChar =>
      if |s.stack| == 0 then Err(EmptyStack)
      else if !IsCodePoint(Top(s.stack)) then Err(InvalidChar)
      else Ok(s.(stack := DropTop(s.stack), output := s.output + [Top(s.stack)]))
    case _ =>
      if |s.stack| < 2 then Err(EmptyStack)
      else
        var n := |s.stack|;
        var x :- BinaryResult(op, s.stack[n - 2], s.stack[n - 1]);
        Ok(s.(stack := s.stack[..n - 2] + [x]))
  }

  /**
   * `op(context)`: the transform, then value 1 unless the op is Extend, then a move of
   * one codel along the dp the transform left.
   */
  function Apply(op: Op, s: State): (r: Result<State>)
    ensures r.Err? <==> Transform(op, s).Err?
    ensures r.Ok? && op != Extend ==> r.value.value == 1
    ensures r.Ok? ==> r.value.position == Move(s.position, r.value.dp, Size)
    ensures r.Ok? && op != Pointer ==> r.value.dp == s.dp
    ensures r.Ok? && op !in {OutNumber, OutChar} ==> r.value.output == s.output
  {
    var t :- Transform(op, s);
    var t' := if op == Extend then t else t.(value := 1);
    Ok(Moved(t', Size))
  }

  /** Init accepts exactly the fresh context and leaves value 1 one codel east of the origin. */
  lemma InitSpec(s: State)
    ensures Apply(Init, s).Err? <==> s != Default()
    ensures Apply(Init, s).Err? ==> Apply(Init, s).error == NonEmptyContext
    ensures s == Default() ==> Apply(Init, s) == Ok(State([], 1, Vec(1, 0), East, []))
  {
  }

  /** Extend is exempt from the reset: it adds one to value and keeps it. */
  lemma ExtendSpec(s: State)
    ensures Apply(Extend, s) == Ok(Moved(s.(value := s.value + 1), 1))
  {
  }

  lemma PushSpec(s: State)
    ensures Apply(Push, s).Err? <==> s.value <= 0
    ensures Apply(Push, s).Err? ==> Apply(Push, s).error == NonPositivePush
    ensures s.value > 0 ==> Apply(Push, s).value.stack == s.stack + [s.value]
  {
  }

  lemma PopSpec(s: State)
    ensures Apply(Pop, s).Err? <==> s.stack == []
    ensures Apply(Pop, s).Err? ==> Apply(Pop, s).error == EmptyStack
    ensures s.stack != [] ==> Apply(Pop, s).value.stack + [Top(s.stack)] == s.stack
  {
  }

  lemma DuplicateSpec(s: State)
    ensures Apply(Duplicate, s).Err? <==> s.stack == []
    ensures Apply(Duplicate, s).Err? ==> Apply(Duplicate, s).error == EmptyStack
    ensures s.stack != [] ==> Apply(Duplicate, s).value.stack == s.stack + [Top(s.stack)]
  {
  }

  /** With b on top and a beneath, a binary op leaves `a op b` in their place. */
  lemma BinarySpec(op: Op, s: State, rest: seq<int>, a: int, b: int)
    requires op.IsBinary()
    requires s.stack == rest + [a, b]
    ensures Apply(op, s).Err? <==> op == Divide && b == 0
    ensures Apply(op, s).Ok? ==> Apply(op, s).value.stack == rest + [BinaryResult(op, a, b).value]
  {
    assert s.stack[..|s.stack| - 2] == rest;
  }

  /** A binary op needs two operands. */
  lemma BinaryUnderflow(op: Op, s: State)
    requires op.IsBinary() && |s.stack| < 2
    ensures Apply(op, s) == Err(EmptyStack)
  {
  }

  /** Pointer pops k, turns dp by k quarter turns and moves along the new dp. */
  lemma PointerSpec(s: State, rest: seq<int>, k: int)
    requires s.stack == rest + [k]
    ensures Apply(Pointer, s).Ok?
    ensures Apply(Pointer, s).value.stack == rest
    ensures Apply(Pointer, s).value.dp == Rotate(s.dp, k)
    ensures Apply(Pointer, s).value.position == Move(s.position, Rotate(s.dp, k), 1)
  {
    assert DropTop(s.stack) == rest;
  }

  /** OutNumber appends the decimal text of the top followed by a space; the text reads back as the number. */
  lemma OutNumberSpec(s: State, rest: seq<int>, x: int)
    requires s.stack == rest + [x]
    ensures Apply(OutNumber, s).Ok?
    ensures Apply(OutNumber, s).value.stack == rest
    ensures Apply(OutNumber, s).value.output == s.output + CodePoints(Decimal(x) + " ")
    ensures DecimalValue(Decimal(x)) == x
  {
    assert DropTop(s.stack) == rest;
    DecimalRoundTrip(x);
  }

  /** OutChar appends `chr(top)` and fails outside the code point range. */
  lemma OutCharSpec(s: State, rest: seq<int>, x: int)
    requires s.stack == rest + [x]
    ensures Apply(OutChar, s).Err? <==> !IsCodePoint(x)
    ensures Apply(OutChar, s).Err? ==> Apply(OutChar, s).error == InvalidChar
    ensures Apply(OutChar, s).Ok? ==> Apply(OutChar, s).value.output == s.output + [x]
                                      && Apply(OutChar, s).value.stack == rest
  {
    assert DropTop(s.stack) == rest;
  }

  /** `op._call(context)` on a mutable context: the context is updated in place to `Transform(op, ·)`. */
  method CallTransform(op: Op, ctx: Context) returns (r: Outcome)
    modifies ctx
    ensures r.Pass? <==> Transform(op, old(ctx.Snapshot())).Ok?
    ensures r.Pass? ==> ctx.Snapshot() == Transform(op, old(ctx.Snapshot())).value
    ensures r.Fail? ==> r.error == Transform(op, old(ctx.Snapshot())).error
  {
    var n := |ctx.stack|;
    if op == Init {
      if ctx.Snapshot() != Default() {
        return Fail(NonEmptyContext);
      }
    } else if op == Extend {
      ctx.value := ctx.value + 1;
    } else if op == Push {
      if ctx.value <= 0 {
        return Fail(NonPositivePush);
      }
      ctx.stack := ctx.stack + [ctx.value];
    } else if op.IsBinary() {
      if n < 2 {
        return Fail(EmptyStack);
      }
      var b, a := ctx.stack[n - 1], ctx.stack[n - 2];
      var x := BinaryResult(op, a, b);
      if x.Err? {
        return Fail(x.error);
      }
      ctx.stack := ctx.stack[..n - 2] + [x.value];
    } else {
      if n == 0 {
        return Fail(EmptyStack);
      }
      var top := ctx.stack[n - 1];
      if op == Duplicate {
        ctx.stack := ctx.stack + [top];
      } else {
        if op == OutChar && !IsCodePoint(top) {
          return Fail(InvalidChar);
        }
        ctx.stack := ctx.stack[..n - 1];
        if op == Pointer {
          ctx.RotateDp(top);
        } else if op == OutNumber {
          ctx.output := ctx.output + CodePoints(Decimal(top) + " ");
        } else if op == OutChar {
          ctx.output := ctx.output + [top];
        }
      }
    }
    r := Pass;
  }

  /** `op(context)` on a mutable context: the context is updated in place to `Apply(op, ·)`. */
  method Call(op: Op, ctx: Context) returns (r: Outcome)
    modifies ctx
    ensures r.Pass? <==> Apply(op, old(ctx.Snapshot())).Ok?
    ensures r.Pass? ==> ctx.Snapshot() == Apply(op, old(ctx.Snapshot())).value
    ensures r.Fail? ==> r.error == Apply(op, old(ctx.Snapshot())).error
  {
    r := CallTransform(op, ctx);
    if r.Fail? {
      return;
    }
    if op != Extend {
      ctx.value := 1;
    }
    ctx.UpdatePosition(Size);
  }
}
