/**
 * The older operations (piet/ops.py): a binary operation pops the top of the stack and then
 * the element beneath it, and pushes `binary_op(top, second)`. `purify_call` makes every
 * operation work on a deep copy, so the caller's context is never changed.
 */
module LegacyOps {
  import opened Outcomes
  import opened Contexts
  import opened LegacyContexts
  import Ops

  /**
   * The stack after a binary operation: the two top elements are replaced by `f(top, second)`.
   * Fewer than two elements make one of the two `pop` calls raise IndexError.
   */
  function BinaryStack(f: (int, int) -> int, stack: seq<int>): (r: Result<seq<int>>)
    ensures r.Err? <==> |stack| < 2
    ensures r.Err? ==> r.error == EmptyStack
    ensures r.Ok? ==> |r.value| == |stack| - 1 && r.value[..|stack| - 2] == stack[..|stack| - 2]
    ensures r.Ok? ==> r.value[|r.value| - 1] == f(stack[|stack| - 1], stack[|stack| - 2])
  {
    if |stack| < 2 then Err(EmptyStack)
    else
      var n := |stack|;
      Ok(stack[..n - 2] + [f(stack[n - 1], stack[n - 2])])
  }

  /** `Add.binary_op`: `operator.add`. */
  function Plus(top: int, second: int): int {
    top + second
  }

  /** Add on the stack [1, 2, 3] leaves [1, 5]. */
  lemma AddExample()
    ensures BinaryStack(Plus, [1, 2, 3]) == Ok([1, 5])
  {
    var stack := [1, 2, 3];
    assert stack[..1] == [1];
    assert Plus(stack[2], stack[1]) == 5;
    assert [1] + [5] == [1, 5];
    assert BinaryStack(Plus, stack) == Ok([1] + [5]);
  }

  /**
   * The piet operation applies its function to (top, second), whereas the hilbertpiet one
   * computes `second op top`: the two agree for Add, which is commutative, and a piet
   * operation built on subtraction would compute the opposite difference.
   */
  lemma OperandOrder(stack: seq<int>, s: State)
    requires |stack| >= 2 && s.stack == stack
    ensures BinaryStack(Plus, stack) == Ok(Ops.Apply(Ops.Add, s).value.stack)
    ensures BinaryStack((top, second) => top - second, stack).value[|stack| - 2]
            == -Ops.BinaryResult(Ops.Substract, stack[|stack| - 2], stack[|stack| - 1]).value
  {
    var n := |stack|;
    Ops.BinarySpec(Ops.Add, s, stack[..n - 2], stack[n - 2], stack[n - 1]);
  }

  /**
   * `BinaryOp.__call__` behind `purify_call`: the context is deep-copied, the copy's stack is
   * popped twice and pushed once, and the copy is returned. The caller's context is not
   * modified, on success as on failure.
   */
  method BinaryCall(f: (int, int) -> int, ctx: LegacyContext) returns (r: Result<LegacyContext>)
    ensures r.Err? <==> BinaryStack(f, ctx.stack).Err?
    ensures r.Err? ==> r.error == EmptyStack
    ensures r.Ok? ==> fresh(r.value)
    ensures r.Ok? ==> r.value.Snapshot() == ctx.Snapshot().(stack := BinaryStack(f, ctx.stack).value)
  {
    var copy := ctx.DeepCopy();
    if |copy.stack| < 2 {
      return Err(EmptyStack);
    }
    var top := copy.stack[|copy.stack| - 1];
    copy.stack := copy.stack[..|copy.stack| - 1];
    var second := copy.stack[|copy.stack| - 1];
    copy.stack := copy.stack[..|copy.stack| - 1];
    copy.stack := copy.stack + [f(top, second)];
    r := Ok(copy);
  }

  /** `Add()(context)` */
  method Add(ctx: LegacyContext) returns (r: Result<LegacyContext>)
    ensures r.Err? <==> |ctx.stack| < 2
    ensures r.Ok? ==> fresh(r.value)
    ensures r.Ok? ==> r.value.Snapshot() == ctx.Snapshot().(stack := BinaryStack(Plus, ctx.stack).value)
  {
    r := BinaryCall(Plus, ctx);
  }
}
