/**
 * A Piet program and its run (hilbertpiet/run.py). `Program.ops` puts `Init` before the
 * program's own code; `run` expands every macro, applies the primitives one after the other
 * to a single fresh context, and records, for the coordinate each primitive starts on, the
 * colour change accumulated from the first codel up to and including that primitive.
 */
module Programs {
  import opened Outcomes
  import opened Contexts
  import Ops
  import opened Macros

  /** `Program.ops`: Init, then the program's own code. */
  function ProgramCode(code: seq<Code>): (r: seq<Code>)
    ensures |r| == |code| + 1 && r[0] == Prim(Ops.Init) && r[1..] == code
  {
    [Prim(Ops.Init)] + code
  }

  /** The primitives `run` applies: every piece of the program's code, macros expanded. */
  function Flattened(code: seq<Code>): seq<Ops.Op> {
    ExpandedSeq(ProgramCode(code))
  }

  /** The colour change accumulated over a run of primitives: the sum of theirs. */
  function Cumulative(ops: seq<Ops.Op>): Ops.ColorChange {
    if ops == [] then Ops.NoChange
    else Cumulative(ops[..|ops| - 1]).Plus(Ops.ColorChangeOf(ops[|ops| - 1]))
  }

  /**
   * The context each primitive of a run receives, from the first one up to the one that
   * raises (its codel is recorded before it executes) or to the last one.
   */
  function Befores(ops: seq<Ops.Op>, s: State): (r: seq<State>)
    ensures |r| <= |ops|
    ensures ops != [] ==> |r| > 0 && r[0] == s
    decreases |ops|
  {
    if ops == [] then []
    else
      match Ops.Apply(ops[0], s)
      case Err(_) => [s]
      case Ok(t) => [s] + Befores(ops[1..], t)
  }

  /** The map that writing `keys[i] := values[i]`, for i = 0, 1, ... in turn, builds from an empty one. */
  function Written<K, V>(keys: seq<K>, values: seq<V>): map<K, V>
    requires |keys| == |values|
    decreases |keys|
  {
    if keys == [] then map[]
    else Written(keys[..|keys| - 1], values[..|keys| - 1])[keys[|keys| - 1] := values[|keys| - 1]]
  }

  /** No key after the i-th is the same as it. */
  predicate LastAt<K(==)>(keys: seq<K>, i: nat)
    requires i < |keys|
  {
    forall j :: i < j < |keys| ==> keys[j] != keys[i]
  }

  /** The coordinates the recorded contexts stand on. */
  function Positions(states: seq<State>): seq<Vec> {
    seq(|states|, i requires 0 <= i < |states| => states[i].position)
  }

  /** For each primitive, the colour change accumulated up to and including it. */
  function Changes(ops: seq<Ops.Op>): seq<Ops.ColorChange> {
    seq(|ops|, i requires 0 <= i < |ops| => Cumulative(ops[..i + 1]))
  }

  /** The coordinate map after recording, in order, each primitive's starting position. */
  function Codels(ops: seq<Ops.Op>, states: seq<State>): map<Vec, Ops.ColorChange>
    requires |states| == |ops|
  {
    Written(Positions(states), Changes(ops))
  }

  /** `self.codels` after `run`: one entry per primitive reached. */
  function RunCodels(ops: seq<Ops.Op>, s: State): map<Vec, Ops.ColorChange> {
    var b := Befores(ops, s);
    Codels(ops[..|b|], b)
  }

  /** The accumulated colour change is additive: its lightness and hue are sums. */
  lemma {:induction false} CumulativeAppend(a: seq<Ops.Op>, b: seq<Ops.Op>)
    ensures Cumulative(a + b) == Cumulative(a).Plus(Cumulative(b))
    decreases |b|
  {
    if b == [] {
      assert a + b == a;
    } else {
      var b' := b[..|b| - 1];
      assert (a + b)[..|a + b| - 1] == a + b';
      CumulativeAppend(a, b');
    }
  }

  /** Each recorded context is what the primitive before it returned. */
  predicate Chained(ops: seq<Ops.Op>, b: seq<State>)
    requires |b| <= |ops|
  {
    forall i, j :: 0 <= i < |b| && 0 <= j < |b| && j == i + 1 ==> Ops.Apply(ops[i], b[i]) == Ok(b[j])
  }

  /**
   * The recorded contexts are those of the run: the first is the starting context and
   * each next one is what the previous primitive returned.
   */
  lemma {:induction false} BeforesSteps(ops: seq<Ops.Op>, s: State)
    ensures Chained(ops, Befores(ops, s))
    decreases |ops|
  {
    if ops != [] && Ops.Apply(ops[0], s).Ok? {
      var t := Ops.Apply(ops[0], s).value;
      var b := Befores(ops, s);
      var b' := Befores(ops[1..], t);
      BeforesSteps(ops[1..], t);
      assert Chained(ops[1..], b');
      assert b == [s] + b';
      forall i, j | 0 <= i < |b| && 0 <= j < |b| && j == i + 1
        ensures Ops.Apply(ops[i], b[i]) == Ok(b[j])
      {
        if i > 0 {
          assert ops[i] == ops[1..][i - 1] && b[i] == b'[i - 1] && b[j] == b'[j - 1];
        } else {
          assert ops[1..] != [] && b[j] == b'[0] == t;
        }
      }
    }
  }

  /**
   * The run raises exactly when the primitive on the last recorded context raises, and
   * with its error; otherwise every primitive was reached and the last one returned the
   * run's result.
   */
  lemma {:induction false} BeforesOutcome(ops: seq<Ops.Op>, s: State)
    ensures var b := Befores(ops, s);
      RunOps(ops, s).Err? <==> |b| > 0 && Ops.Apply(ops[|b| - 1], b[|b| - 1]).Err?
    ensures var b := Befores(ops, s);
      RunOps(ops, s).Err? ==> RunOps(ops, s).error == Ops.Apply(ops[|b| - 1], b[|b| - 1]).error
    ensures var b := Befores(ops, s);
      RunOps(ops, s).Ok? ==> |b| == |ops| && RunOps(ops, s).value == (if ops == [] then s else Ops.Apply(ops[|b| - 1], b[|b| - 1]).value)
    decreases |ops|
  {
    if ops != [] && Ops.Apply(ops[0], s).Ok? {
      var t := Ops.Apply(ops[0], s).value;
      BeforesOutcome(ops[1..], t);
      var b := Befores(ops, s);
      var b' := Befores(ops[1..], t);
      assert b == [s] + b';
      if |b'| > 0 {
        assert b[|b| - 1] == b'[|b'| - 1] && ops[|b| - 1] == ops[1..][|b'| - 1];
      }
    }
  }

  /** Writing a sequence of keys makes an entry for exactly those keys. */
  lemma {:induction false} WrittenKeys<K, V>(keys: seq<K>, values: seq<V>)
    requires |keys| == |values|
    ensures forall k :: k in Written(keys, values) <==> k in keys
    decreases |keys|
  {
    if keys != [] {
      var n := |keys| - 1;
      WrittenKeys(keys[..n], values[..n]);
      assert keys == keys[..n] + [keys[n]];
    }
  }

  /** Writing a sequence of keys leaves at each the value written last. */
  lemma {:induction false} WrittenLast<K, V>(keys: seq<K>, values: seq<V>)
    requires |keys| == |values|
    ensures forall i :: 0 <= i < |keys| && LastAt(keys, i) ==>
      keys[i] in Written(keys, values) && Written(keys, values)[keys[i]] == values[i]
    decreases |keys|
  {
    if keys != [] {
      var n := |keys| - 1;
      WrittenLast(keys[..n], values[..n]);
      forall i | 0 <= i < n && LastAt(keys, i)
        ensures LastAt(keys[..n], i)
      {
      }
    }
  }

  lemma WrittenSnoc<K, V>(keys: seq<K>, values: seq<V>, k: K, v: V)
    requires |keys| == |values|
    ensures Written(keys + [k], values + [v]) == Written(keys, values)[k := v]
  {
    assert (keys + [k])[..|keys|] == keys;
    assert (values + [v])[..|keys|] == values;
  }

  /**
   * What `run` records: an entry for exactly the coordinates the reached primitives start
   * on, and at each the colour change accumulated up to and including the last primitive
   * that started there.
   */
  lemma RunCodelsSpec(ops: seq<Ops.Op>, s: State)
    ensures forall q :: q in RunCodels(ops, s) <==> q in Positions(Befores(ops, s))
    ensures var b := Befores(ops, s);
      forall i :: 0 <= i < |b| && LastAt(Positions(b), i) ==>
        b[i].position in RunCodels(ops, s) && RunCodels(ops, s)[b[i].position] == Cumulative(ops[..i + 1])
  {
    var b := Befores(ops, s);
    WrittenKeys(Positions(b), Changes(ops[..|b|]));
    WrittenLast(Positions(b), Changes(ops[..|b|]));
    ChangesPrefix(ops, |b|);
  }

  lemma ChangesPrefix(ops: seq<Ops.Op>, n: nat)
    requires n <= |ops|
    ensures forall i :: 0 <= i < n ==> Changes(ops[..n])[i] == Cumulative(ops[..i + 1])
  {
    forall i | 0 <= i < n
      ensures Changes(ops[..n])[i] == Cumulative(ops[..i + 1])
    {
      assert ops[..n][..i + 1] == ops[..i + 1];
    }
  }

  /**
   * Each primitive starts one codel further along the direction the previous one left, so
   * consecutive entries of the map are neighbours.
   */
  lemma RunAdvances(ops: seq<Ops.Op>, s: State)
    ensures var b := Befores(ops, s);
      forall i, j :: 0 <= i < |b| && 0 <= j < |b| && j == i + 1 ==> b[j].position == Move(b[i].position, b[j].dp, 1)
  {
    BeforesSteps(ops, s);
  }

  /**
   * `run` executes the expansion, so the guards of Resize, UTurn and NoOp are not
   * evaluated: where calling the code succeeds the run agrees with it, and where the call
   * fails other than by a guard, the run fails alike.
   */
  lemma RunAgreesWithCall(code: seq<Code>)
    ensures CallSeq(ProgramCode(code), Default()).Ok? ==> RunOps(Flattened(code), Default()) == CallSeq(ProgramCode(code), Default())
    ensures CallSeq(ProgramCode(code), Default()).Err? ==>
      CallSeq(ProgramCode(code), Default()).error == NonUnitValue ||
      RunOps(Flattened(code), Default()) == CallSeq(ProgramCode(code), Default())
  {
    CallSeqAgreesWithExpansion(ProgramCode(code), Default());
  }

  /**
   * A guard that `run` skips: after Init and an Extend the value is 2, so calling
   * `Resize(2)` raises, but running its expansion extends the value to 3.
   */
  lemma GuardNotExecuted()
    ensures CallSeq(ProgramCode([Prim(Ops.Extend), Resize(2)]), Default()) == Err(NonUnitValue)
    ensures RunOps(Flattened([Prim(Ops.Extend), Resize(2)]), Default()).Ok?
    ensures RunOps(Flattened([Prim(Ops.Extend), Resize(2)]), Default()).value.value == 3
  {
    var code := ProgramCode([Prim(Ops.Extend), Resize(2)]);
    var s1 := Ops.Apply(Ops.Init, Default()).value;
    var s2 := Ops.Apply(Ops.Extend, s1).value;
    assert s2.value == 2;
    assert Expanded(Resize(2)) == [Ops.Extend];
    assert Flattened([Prim(Ops.Extend), Resize(2)]) == [Ops.Init, Ops.Extend, Ops.Extend];
    assert CallSeq(code[2..], s2) == Err(NonUnitValue);
  }

  /**
   * Where `run` stands after the primitives `p`: each was applied in turn to the fresh
   * context, which is now `st`, none raised, `previous` is their accumulated colour change
   * and `codels` holds what recording their coordinates gives.
   */
  ghost predicate Reached(p: seq<Ops.Op>, st: State, previous: Ops.ColorChange, codels: map<Vec, Ops.ColorChange>) {
    RunOps(p, Default()) == Ok(st) && |Befores(p, Default())| == |p| &&
    previous == Cumulative(p) && codels == Codels(p, Befores(p, Default()))
  }

  /** A primitive that succeeds: its coordinate is recorded and the run moves on. */
  lemma Advance(p: seq<Ops.Op>, op: Ops.Op, st: State, previous: Ops.ColorChange, codels: map<Vec, Ops.ColorChange>)
    requires Reached(p, st, previous, codels) && Ops.Apply(op, st).Ok?
    ensures var change := previous.Plus(Ops.ColorChangeOf(op));
      Reached(p + [op], Ops.Apply(op, st).value, change, codels[st.position := change])
  {
    var b := Befores(p, Default());
    RunOpsAppend(p, [op], Default());
    RunOne(op, st);
    BeforesAppend(p, [op], Default());
    BeforesOne(op, st);
    RecordOne(p, b, op, st);
  }

  /**
   * A primitive that raises: the whole run raises its error, and the map ends with the
   * entry recorded for it.
   */
  lemma Stop(p: seq<Ops.Op>, op: Ops.Op, rest: seq<Ops.Op>, st: State, previous: Ops.ColorChange, codels: map<Vec, Ops.ColorChange>)
    requires Reached(p, st, previous, codels) && Ops.Apply(op, st).Err?
    ensures RunOps(p + [op] + rest, Default()) == Err(Ops.Apply(op, st).error)
    ensures RunCodels(p + [op] + rest, Default()) == codels[st.position := previous.Plus(Ops.ColorChangeOf(op))]
  {
    var b := Befores(p, Default());
    RunOpsAppend(p, [op], Default());
    RunOne(op, st);
    BeforesAppend(p, [op], Default());
    BeforesOne(op, st);
    RecordOne(p, b, op, st);
    StopHere(p + [op], rest, b + [st]);
  }

  /** Once the run has raised, the primitives after the failing one change nothing. */
  lemma StopHere(q: seq<Ops.Op>, rest: seq<Ops.Op>, b: seq<State>)
    requires RunOps(q, Default()).Err? && Befores(q, Default()) == b && |b| == |q|
    ensures RunOps(q + rest, Default()) == RunOps(q, Default())
    ensures RunCodels(q + rest, Default()) == Codels(q, b)
  {
    RunOpsAppend(q, rest, Default());
    BeforesAppend(q, rest, Default());
    assert (q + rest)[..|q|] == q;
  }

  lemma RunOne(op: Ops.Op, st: State)
    ensures RunOps([op], st) == Ops.Apply(op, st)
  {
    assert [op][1..] == [];
  }

  lemma BeforesOne(op: Ops.Op, st: State)
    ensures Befores([op], st) == [st]
  {
    assert [op][1..] == [];
  }

  /** Recording one more primitive: its coordinate gets the change accumulated through it. */
  lemma RecordOne(p: seq<Ops.Op>, b: seq<State>, op: Ops.Op, st: State)
    requires |b| == |p|
    ensures Cumulative(p + [op]) == Cumulative(p).Plus(Ops.ColorChangeOf(op))
    ensures Codels(p + [op], b + [st]) == Codels(p, b)[st.position := Cumulative(p + [op])]
  {
    CumulativeSnoc(p, op);
    PositionsSnoc(b, st);
    ChangesSnoc(p, op);
    WrittenSnoc(Positions(b), Changes(p), st.position, Cumulative(p + [op]));
  }

  lemma CumulativeSnoc(p: seq<Ops.Op>, op: Ops.Op)
    ensures Cumulative(p + [op]) == Cumulative(p).Plus(Ops.ColorChangeOf(op))
  {
    assert (p + [op])[..|p|] == p;
  }

  lemma PositionsSnoc(b: seq<State>, st: State)
    ensures Positions(b + [st]) == Positions(b) + [st.position]
  {
  }

  lemma ChangesSnoc(p: seq<Ops.Op>, op: Ops.Op)
    ensures Changes(p + [op]) == Changes(p) + [Cumulative(p + [op])]
  {
    var q := p + [op];
    forall i | 0 <= i < |q|
      ensures Changes(q)[i] == (Changes(p) + [Cumulative(q)])[i]
    {
      if i < |p| {
        assert q[..i + 1] == p[..i + 1];
      } else {
        assert q[..i + 1] == q;
      }
    }
  }

  /** The contexts recorded over a concatenation: those of the first part, then the second's. */
  lemma BeforesAppend(a: seq<Ops.Op>, b: seq<Ops.Op>, s: State)
    ensures RunOps(a, s).Ok? ==> Befores(a + b, s) == Befores(a, s) + Befores(b, RunOps(a, s).value)
    ensures RunOps(a, s).Err? ==> Befores(a + b, s) == Befores(a, s)
  {
    if RunOps(a, s).Ok? {
      BeforesAppendOk(a, b, s);
    } else {
      BeforesAppendErr(a, b, s);
    }
  }

  lemma {:induction false} BeforesAppendOk(a: seq<Ops.Op>, b: seq<Ops.Op>, s: State)
    requires RunOps(a, s).Ok?
    ensures Befores(a + b, s) == Befores(a, s) + Befores(b, RunOps(a, s).value)
    decreases |a|
  {
    if a == [] {
      assert a + b == b;
    } else {
      assert (a + b)[0] == a[0];
      assert (a + b)[1..] == a[1..] + b;
      var t := Ops.Apply(a[0], s).value;
      BeforesAppendOk(a[1..], b, t);
      assert [s] + (Befores(a[1..], t) + Befores(b, RunOps(a, s).value))
          == [s] + Befores(a[1..], t) + Befores(b, RunOps(a, s).value);
    }
  }

  lemma {:induction false} BeforesAppendErr(a: seq<Ops.Op>, b: seq<Ops.Op>, s: State)
    requires RunOps(a, s).Err?
    ensures Befores(a + b, s) == Befores(a, s)
    decreases |a|
  {
    assert (a + b)[0] == a[0];
    if Ops.Apply(a[0], s).Ok? {
      assert (a + b)[1..] == a[1..] + b;
      BeforesAppendErr(a[1..], b, Ops.Apply(a[0], s).value);
    }
  }

  /** The flattened code around one of its pieces: the code before it, its own primitives, the rest. */
  lemma FlatAround(code: seq<Code>, i: nat)
    requires i < |code|
    ensures ExpandedSeq(code) == ExpandedSeq(code[..i]) + Expanded(code[i]) + ExpandedSeq(code[i + 1..])
  {
    assert code == code[..i] + code[i..];
    ExpandedSeqAppend(code[..i], code[i..]);
    assert code[i..][0] == code[i] && code[i..][1..] == code[i + 1..];
  }

  /** The primitives around the j-th one of a piece of code. */
  lemma SplitAt(p: seq<Ops.Op>, ops: seq<Ops.Op>, j: nat, rest: seq<Ops.Op>)
    requires j < |ops|
    ensures p + ops + rest == (p + ops[..j]) + [ops[j]] + (ops[j + 1..] + rest)
  {
    assert ops == ops[..j] + [ops[j]] + ops[j + 1..];
  }

  lemma PrefixNext<T>(p: seq<T>, s: seq<T>, j: nat)
    requires j < |s|
    ensures p + s[..j] + [s[j]] == p + s[..j + 1]
  {
    assert s[..j + 1] == s[..j] + [s[j]];
  }

  lemma FlatNext(code: seq<Code>, i: nat)
    requires i < |code|
    ensures ExpandedSeq(code[..i + 1]) == ExpandedSeq(code[..i]) + Expanded(code[i])
  {
    assert code[..i + 1] == code[..i] + [code[i]];
    ExpandedSeqAppend(code[..i], [code[i]]);
    assert [code[i]][1..] == [];
  }

  /** `Program`: the program's code and the codels map its last run recorded. */
  class Program {
    const code: seq<Code>
    var codels: map<Vec, Ops.ColorChange>

    /** `Program(_ops)`: no run yet, so no codels. */
    constructor(code: seq<Code>)
      ensures this.code == code && codels == map[]
    {
      this.code := code;
      codels := map[];
    }

    /**
     * `run`: a fresh context goes through every primitive of the expanded program in
     * turn; before each one executes, its starting coordinate is mapped to the colour
     * change accumulated so far, that primitive included. On an error the run stops, and
     * the map keeps what was recorded up to and including the failing primitive.
     */
    method Run() returns (ctx: Context, r: Outcome)
      modifies this
      ensures fresh(ctx)
      ensures r.Pass? <==> RunOps(Flattened(code), Default()).Ok?
      ensures r.Pass? ==> ctx.Snapshot() == RunOps(Flattened(code), Default()).value
      ensures r.Fail? ==> r.error == RunOps(Flattened(code), Default()).error
      ensures codels == RunCodels(Flattened(code), Default())
    {
      ctx := new Context.Fresh();
      codels := map[];
      var previous := Ops.NoChange;
      var all := ProgramCode(code);
      for i := 0 to |all|
        invariant fresh(ctx)
        invariant Reached(ExpandedSeq(all[..i]), ctx.Snapshot(), previous, codels)
      {
        FlatAround(all, i);
        var step;
        step, previous := RunCode(all[i], ctx, previous, ExpandedSeq(all[..i]), ExpandedSeq(all[i + 1..]));
        if step.Fail? {
          return ctx, step;
        }
        FlatNext(all, i);
      }
      assert all[..|all|] == all;
      assert Flattened(code)[..|Flattened(code)|] == Flattened(code);
      r := Pass;
    }

    /**
     * The body of `run`'s loop for one piece of the program's code: a macro is expanded,
     * then each primitive has its coordinate recorded and is applied to the context.
     * `p` are the primitives run before, `rest` those that come after.
     */
    method RunCode(c: Code, ctx: Context, previous: Ops.ColorChange, ghost p: seq<Ops.Op>, ghost rest: seq<Ops.Op>)
      returns (step: Outcome, next: Ops.ColorChange)
      requires Reached(p, ctx.Snapshot(), previous, codels)
      modifies this, ctx
      ensures step.Pass? ==> Reached(p + Expanded(c), ctx.Snapshot(), next, codels)
      ensures step.Fail? ==> RunOps(p + Expanded(c) + rest, Default()) == Err(step.error)
      ensures step.Fail? ==> codels == RunCodels(p + Expanded(c) + rest, Default())
    {
      var ops: seq<Ops.Op>;
      if c.Prim? {
        ops := [c.op];
      } else {
        ops := ExpandedOps(c);
      }
      next := previous;
      assert p + ops[..0] == p;
      for j := 0 to |ops|
        invariant Reached(p + ops[..j], ctx.Snapshot(), next, codels)
      {
        var op := ops[j];
        var x, y := ctx.position.x, ctx.position.y;
        var change := next.Plus(Ops.ColorChangeOf(op));
        ghost var st, before, recorded := ctx.Snapshot(), next, codels;
        next := change;
        codels := codels[Vec(x, y) := change];
        step := Ops.Call(op, ctx);
        if step.Fail? {
          SplitAt(p, ops, j, rest);
          Stop(p + ops[..j], op, ops[j + 1..] + rest, st, before, recorded);
          return;
        }
        Advance(p + ops[..j], op, st, before, recorded);
        PrefixNext(p, ops, j);
      }
      assert ops[..|ops|] == ops;
      step := Pass;
    }
  }
}
