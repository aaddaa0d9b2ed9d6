/**
 * Running a program laid on a path (tests/test_path.py:229-232). The U-turns and no-ops that
 * `map_program_to_path` inserts between the program's ops start where the value register is
 * 1, so each of them leaves the stack, the value and the output as it found them and moves
 * nothing but the position and the dp, which no primitive reads. Running the mapped program
 * therefore ends as running the program itself does, with the same stack.
 */
module MappedRuns {
  import opened Outcomes
  import opened Contexts
  import Ops
  import Text
  import opened Macros
  import opened PathMacros
  import opened PathTokens
  import opened Packer
  import opened Programs

  /** Two contexts with the same stack, value and output, the value at least 1; position and dp may differ. */
  predicate Agree(s: State, t: State) {
    s.stack == t.stack && s.value == t.value && s.output == t.output && s.value >= 1
  }

  /** Two outcomes that cannot be told apart by stack, value and output: the same error, or agreeing contexts. */
  predicate OutcomesAgree(a: Result<State>, b: Result<State>) {
    (a.Err? <==> b.Err?) && (a.Err? ==> a.error == b.error) && (a.Ok? ==> Agree(a.value, b.value))
  }

  /** A primitive reads the position and dp of neither context, and Init fails on both since value is not 0. */
  lemma ApplyAgrees(op: Ops.Op, s: State, t: State)
    requires Agree(s, t)
    ensures OutcomesAgree(Ops.Apply(op, s), Ops.Apply(op, t))
  {
    assert s != Default() && t != Default();
  }

  /** Runs of the same primitives from agreeing contexts agree. */
  lemma {:induction false} RunOpsAgree(ops: seq<Ops.Op>, s: State, t: State)
    requires Agree(s, t)
    ensures OutcomesAgree(RunOps(ops, s), RunOps(ops, t))
    decreases |ops|
  {
    if ops != [] {
      ApplyAgrees(ops[0], s, t);
      if Ops.Apply(ops[0], s).Ok? {
        RunOpsAgree(ops[1..], Ops.Apply(ops[0], s).value, Ops.Apply(ops[0], t).value);
      }
    }
  }

  /** An inserted item: a U-turn, or a no-op of at least two codels. */
  predicate IsFiller(item: Item) {
    item.UTurnItem? || (item.NoOpItem? && item.length >= 2)
  }

  /** Started at value 1, a filler succeeds and keeps the stack, the value and the output. */
  lemma FillerKeeps(item: Item, t: State)
    requires IsFiller(item) && t.value == 1
    ensures RunOps(Expanded(ItemCode(item)), t).Ok?
    ensures Agree(t, RunOps(Expanded(ItemCode(item)), t).value)
  {
    CallAgreesWithExpansion(ItemCode(item), t);
    if item.UTurnItem? {
      UTurnSpec(item.clockwise, t);
    } else {
      NoOpSpec(item.length, t);
    }
  }

  /** An item after which the value is 1: a filler, or a primitive other than Extend. */
  predicate LeavesOne(item: Item) {
    !item.OpItem? || (item.code.Prim? && item.code.op != Ops.Extend)
  }

  /**
   * Every item that is not an op of the program is a filler, and each filler starts where the
   * value is 1: at the front when `atOne` says so, otherwise right after an item that leaves 1.
   */
  predicate FillersAtOne(m: seq<Item>, atOne: bool) {
    m == [] ||
    ((!m[0].OpItem? ==> atOne && IsFiller(m[0])) && FillersAtOne(m[1..], LeavesOne(m[0])))
  }

  /** The mapped items split at their head. */
  lemma ItemsCons(m: seq<Item>)
    requires m != []
    ensures Codes(m) == [ItemCode(m[0])] + Codes(m[1..])
    ensures Placed(m) == Placed([m[0]]) + Placed(m[1..])
    ensures ExpandedSeq(Codes(m)) == Expanded(ItemCode(m[0])) + ExpandedSeq(Codes(m[1..]))
  {
    assert m == [m[0]] + m[1..];
    PlacedAppend([m[0]], m[1..]);
    assert Placed([m[0]]) == Placed([]) + (if m[0].OpItem? then [m[0].code] else []);
  }

  /**
   * The program's ops run on their own and the mapped items run in their place agree at
   * every step: the ops are the same, and every filler in between keeps what they read.
   */
  lemma {:induction false} ItemsRunAgree(m: seq<Item>, atOne: bool, s: State, t: State)
    requires Agree(s, t) && FillersAtOne(m, atOne) && (atOne ==> t.value == 1)
    ensures OutcomesAgree(RunOps(ExpandedSeq(Placed(m)), s), RunOps(ExpandedSeq(Codes(m)), t))
    decreases |m|
  {
    if m != [] {
      var item, rest := m[0], m[1..];
      ItemsCons(m);
      var e := Expanded(ItemCode(item));
      RunOpsAppend(e, ExpandedSeq(Codes(rest)), t);
      if item.OpItem? {
        assert Placed([item]) == [item.code];
        ExpandedSeqAppend([item.code], Placed(rest));
        RunOpsAppend(e, ExpandedSeq(Placed(rest)), s);
        RunOpsAgree(e, s, t);
        if RunOps(e, s).Ok? {
          var t1 := RunOps(e, t).value;
          if LeavesOne(item) {
            assert e == [item.code.op] && RunOps(e, t) == Ops.Apply(item.code.op, t);
          }
          ItemsRunAgree(rest, LeavesOne(item), RunOps(e, s).value, t1);
        }
      } else {
        assert Placed([item]) == [] && Placed(m) == Placed(rest);
        FillerKeeps(item, t);
        ItemsRunAgree(rest, true, s, RunOps(e, t).value);
      }
    }
  }

  /** An op of the program: a packer unit that is not a bare Extend, so the value after it is 1 unless it is a Resize. */
  predicate SizedByResize(c: Code) {
    IsUnit(c) && c != Prim(Ops.Extend)
  }

  /**
   * Items whose ops are all sized by Resize, whose every Resize is followed by another op and
   * whose no-ops are valid leave value 1 wherever a filler starts.
   */
  lemma {:induction false} SettersGiveOne(m: seq<Item>, atOne: bool)
    requires forall c :: c in Placed(m) ==> SizedByResize(c)
    requires SettersFollowed(m) && NoOpsValid(m)
    requires m != [] && !m[0].OpItem? ==> atOne
    ensures FillersAtOne(m, atOne)
    decreases |m|
  {
    if m != [] {
      var rest := m[1..];
      ItemsCons(m);
      if m[0].OpItem? {
        assert m[0].code in Placed(m);
      }
      if |m| >= 2 {
        assert rest[0] == m[1];
        assert IsSetter(m[0]) ==> m[1].OpItem?;
      }
      assert NoOpsValid(m) ==> (m[0].NoOpItem? ==> m[0].length >= 2);
      assert forall i :: 0 <= i < |rest| ==> rest[i] == m[i + 1];
      assert LastNotSetter(rest);
      SettersGiveOne(rest, LeavesOne(m[0]));
    }
  }

  /**
   * `Program(map_program_to_path(program, path)).run()` against `Program(program).run()`: for
   * a program sized only by Resize, the two runs fail with the same error or end with the same
   * stack, value and output.
   */
  lemma MappedRunKeepsStack(program: seq<Code>, path: seq<Token>)
    requires |path| >= 1 && LegalTokens(path)
    requires forall c :: c in UnitsSeq(program) ==> c != Prim(Ops.Extend)
    ensures Pack(ProgramUnits(program), path).Ok? ==>
      OutcomesAgree(RunOps(Flattened(program), Default()),
                    RunOps(Flattened(Codes(Pack(ProgramUnits(program), path).value)), Default()))
  {
    var ops := ProgramUnits(program);
    UnitsSeqSpec(program);
    AllUnitsAppend([Prim(Ops.Init)], UnitsSeq(program));
    PackTheorem(ops, path);
    if Pack(ops, path).Ok? {
      var m := Pack(ops, path).value;
      assert ops[1..] == UnitsSeq(program);
      assert forall c :: c in Placed(m) ==> SizedByResize(c);
      SettersGiveOne(m, true);
      var s1 := State([], 1, Vec(1, 0), East, []);
      Ops.InitSpec(Default());
      RunOpsFromInit(program);
      RunOpsFromInit(Codes(m));
      ItemsRunAgree(m, true, s1, s1);
    }
  }

  /** A program's run is Init on the fresh context, then its code from value 1 one codel east. */
  lemma RunOpsFromInit(code: seq<Code>)
    ensures RunOps(Flattened(code), Default()) == RunOps(ExpandedSeq(code), State([], 1, Vec(1, 0), East, []))
  {
    var all := ProgramCode(code);
    assert ExpandedSeq(all) == [Ops.Init] + ExpandedSeq(code);
    Ops.InitSpec(Default());
  }

  /** The primitives of a program as codes, the form `expanded_ops` hands to the packer. */
  function AsPrims(ops: seq<Ops.Op>): (r: seq<Code>)
    ensures |r| == |ops| && forall i :: 0 <= i < |r| ==> r[i] == Prim(ops[i])
  {
    seq(|ops|, i requires 0 <= i < |ops| => Prim(ops[i]))
  }

  /** The program of the packer tests, `[Push(), Resize(3), Push()]`, and a path of two slots around a U-turn. */
  const ResizeProgram: seq<Code> := [Prim(Ops.Push), Resize(3), Prim(Ops.Push)]
  const TwoSlots: seq<Token> := [InitToken, Slot(5), Clockwise, Slot(6)]

  /** The layout the packer makes of the program's expanded primitives on `TwoSlots`. */
  const ExpandedLayout: seq<Item> :=
    [OpItem(Prim(Ops.Push)), OpItem(Prim(Ops.Extend)), OpItem(Prim(Ops.Extend)), NoOpItem(2),
     UTurnItem(true), OpItem(Prim(Ops.Push)), NoOpItem(5)]

  /** The program itself runs to the stack [1, 3]. */
  lemma ResizeProgramRun()
    ensures RunOps(Flattened(ResizeProgram), Default()).Ok?
    ensures RunOps(Flattened(ResizeProgram), Default()).value.stack == [1, 3]
  {
    RunOpsFromInit(ResizeProgram);
    var ext := Text.Repeat(Ops.Extend, 2);
    assert ext == [Ops.Extend, Ops.Extend];
    assert ExpandedSeq(ResizeProgram[2..]) == [Ops.Push];
    assert ExpandedSeq(ResizeProgram[1..]) == ext + [Ops.Push];
    assert ExpandedSeq(ResizeProgram) == [Ops.Push] + (ext + [Ops.Push]);
    PushResizePush(State([], 1, Vec(1, 0), East, []));
  }

  /** From an empty stack at value 1: push, two extends and push leave the stack [1, 3]. */
  lemma PushResizePush(s: State)
    requires s.value == 1 && s.stack == []
    ensures RunOps([Ops.Push] + (Text.Repeat(Ops.Extend, 2) + [Ops.Push]), s).Ok?
    ensures RunOps([Ops.Push] + (Text.Repeat(Ops.Extend, 2) + [Ops.Push]), s).value.stack == [1, 3]
  {
    var ext := Text.Repeat(Ops.Extend, 2);
    Ops.PushSpec(s);
    var s1 := Ops.Apply(Ops.Push, s).value;
    assert s1.stack == [1] && s1.value == 1;
    RunExtends(2, s1);
    var s3 := s1.(value := 3, position := Move(s1.position, s1.dp, 2));
    RunOpsAppend(ext, [Ops.Push], s1);
    Ops.PushSpec(s3);
    assert RunOps([Ops.Push], s3) == Ops.Apply(Ops.Push, s3);
    assert ([Ops.Push] + (ext + [Ops.Push]))[1..] == ext + [Ops.Push];
  }

  /** From value 1, a push and two extends leave value 3, where a no-op's guard raises. */
  lemma ExtendsThenNoOp(s: State, rest: seq<Code>)
    requires s.value == 1
    ensures CallSeq([Prim(Ops.Push), Prim(Ops.Extend), Prim(Ops.Extend), NoOp(2)] + rest, s) == Err(NonUnitValue)
  {
    var P, E := Prim(Ops.Push), Prim(Ops.Extend);
    Ops.PushSpec(s);
    var s2 := Ops.Apply(Ops.Push, s).value;
    Ops.ExtendSpec(s2);
    var s3 := Ops.Apply(Ops.Extend, s2).value;
    Ops.ExtendSpec(s3);
    var s4 := Ops.Apply(Ops.Extend, s3).value;
    assert s4.value == 3;
    CallSeqCons(NoOp(2), rest, s4);
    assert [E, NoOp(2)] + rest == [E] + ([NoOp(2)] + rest);
    CallSeqStep(E, [NoOp(2)] + rest, s3, s4);
    assert [E, E, NoOp(2)] + rest == [E] + ([E, NoOp(2)] + rest);
    CallSeqStep(E, [E, NoOp(2)] + rest, s2, s3);
    assert [P, E, E, NoOp(2)] + rest == [P] + ([E, E, NoOp(2)] + rest);
    CallSeqStep(P, [E, E, NoOp(2)] + rest, s, s2);
  }

  /** Called with its guards, the expanded layout raises at its first no-op, which starts at value 3. */
  lemma ExpandedLayoutRaises()
    ensures CallSeq(MappedProgram(ExpandedLayout), Default()) == Err(NonUnitValue)
  {
    var P, E := Prim(Ops.Push), Prim(Ops.Extend);
    var rest := [UTurn(true), P, NoOp(5)];
    var codes := Codes(ExpandedLayout);
    assert codes[0] == P && codes[1] == E && codes[2] == E && codes[3] == NoOp(2);
    assert codes[4] == UTurn(true) && codes[5] == P && codes[6] == NoOp(5);
    assert codes == [P, E, E, NoOp(2)] + rest;
    Ops.InitSpec(Default());
    ExtendsThenNoOp(State([], 1, Vec(1, 0), East, []), rest);
    CallSeqStep(Prim(Ops.Init), codes, Default(), State([], 1, Vec(1, 0), East, []));
  }

  /**
   * As written, the packer receives `expanded_ops`, where the Resize is already two Extends, so
   * its `isinstance(..., Resize)` test never holds: the Extends end the first slot and the no-op
   * padding it starts where value is 3. Called with its guards, the mapped program raises there,
   * where the program itself runs to the stack [1, 3].
   */
  lemma ExpandedPackingLosesResize()
    ensures AsPrims(Flattened(ResizeProgram))
      == [Prim(Ops.Init), Prim(Ops.Push), Prim(Ops.Extend), Prim(Ops.Extend), Prim(Ops.Push)]
    ensures Pack(AsPrims(Flattened(ResizeProgram)), TwoSlots) == Ok(ExpandedLayout)
    ensures CallSeq(MappedProgram(ExpandedLayout), Default()) == Err(NonUnitValue)
    ensures RunOps(Flattened(ResizeProgram), Default()).Ok?
    ensures RunOps(Flattened(ResizeProgram), Default()).value.stack == [1, 3]
  {
    ExpandedPackingLayout();
    ExpandedLayoutRaises();
    ResizeProgramRun();
  }

  /** The packing steps over the expanded primitives: four ops fill slot 5, the repair gives one back. */
  lemma ExpandedPackingLayout()
    ensures AsPrims(Flattened(ResizeProgram))
      == [Prim(Ops.Init), Prim(Ops.Push), Prim(Ops.Extend), Prim(Ops.Extend), Prim(Ops.Push)]
    ensures Pack(AsPrims(Flattened(ResizeProgram)), TwoSlots) == Ok(ExpandedLayout)
  {
    var P, E := Prim(Ops.Push), Prim(Ops.Extend);
    var ops := AsPrims(Flattened(ResizeProgram));
    assert ops == [Prim(Ops.Init), P, E, E, P];
    assert Size(P) == 1 && Size(E) == 1;
    var m4 := [OpItem(P), OpItem(E), OpItem(E), OpItem(P)];
    assert ops[1] == P && ops[2] == E && ops[3] == E && ops[4] == P;
    assert m4[..3] + [OpItem(P)] == m4 && m4[..2] + [OpItem(E)] == m4[..3];
    assert m4[..1] + [OpItem(E)] == m4[..2] && [] + [OpItem(P)] == m4[..1];
    assert Fill(ops, 5, 1, m4) == Ok(Cursor(5, 1, m4));
    assert Fill(ops, 4, 2, m4[..3]) == Fill(ops, 5, 1, m4);
    assert Fill(ops, 3, 3, m4[..2]) == Fill(ops, 4, 2, m4[..3]);
    assert Fill(ops, 2, 4, m4[..1]) == Fill(ops, 3, 3, m4[..2]);
    assert Fill(ops, 1, 5, []) == Fill(ops, 2, 4, m4[..1]);
    assert !NeedsRepair(2, m4[..3]);
    assert Repair(Cursor(5, 1, m4)) == Ok(Cursor(4, 2, m4[..3]));
    var first := m4[..3] + [NoOpItem(2)];
    assert PlaceSlot(ops, 5, 1, []) == Ok(Cursor(4, 2, first));
    var turned := first + [UTurnItem(true)];
    assert Fill(ops, 5, 5, turned + [OpItem(P)]) == Ok(Cursor(5, 5, turned + [OpItem(P)]));
    assert Fill(ops, 4, 6, turned) == Ok(Cursor(5, 5, turned + [OpItem(P)]));
    assert !NeedsRepair(5, turned + [OpItem(P)]);
    var last := turned + [OpItem(P), NoOpItem(5)];
    assert turned + [OpItem(P)] + [NoOpItem(5)] == last;
    assert PlaceSlot(ops, 6, 4, turned) == Ok(Cursor(5, 5, last));
    assert PackFrom(ops, TwoSlots, 4, 5, last) == Ok(last);
    assert PackFrom(ops, TwoSlots, 3, 4, turned) == PackFrom(ops, TwoSlots, 4, 5, last);
    assert PackFrom(ops, TwoSlots, 2, 4, first) == PackFrom(ops, TwoSlots, 3, 4, turned);
    assert PackFrom(ops, TwoSlots, 1, 1, []) == PackFrom(ops, TwoSlots, 2, 4, first);
    assert last == ExpandedLayout;
  }

  /** The layout of tests/test_path.py's `resize_3` case on `TwoSlots`, the Resize placed whole. */
  const WholeLayout: seq<Item> :=
    [OpItem(Prim(Ops.Push)), NoOpItem(4), UTurnItem(true), OpItem(Resize(3)), OpItem(Prim(Ops.Push)), NoOpItem(3)]

  /**
   * Packed as units, the Resize is a size-setter: the repair gives back the Push after it and
   * then the Resize itself, which opens the next slot, and the mapped program runs as the program does.
   */
  lemma WholeResizePacking()
    ensures Pack(ProgramUnits(ResizeProgram), TwoSlots) == Ok(WholeLayout)
    ensures OutcomesAgree(RunOps(Flattened(ResizeProgram), Default()), RunOps(Flattened(Codes(WholeLayout)), Default()))
  {
    WholePackingLayout();
    assert UnitsSeq(ResizeProgram) == ResizeProgram by {
      assert UnitsSeq(ResizeProgram[2..]) == ResizeProgram[2..];
      assert UnitsSeq(ResizeProgram[1..]) == ResizeProgram[1..];
    }
    MappedRunKeepsStack(ResizeProgram, TwoSlots);
  }

  lemma WholePackingLayout()
    ensures Pack(ProgramUnits(ResizeProgram), TwoSlots) == Ok(WholeLayout)
  {
    var P, R := Prim(Ops.Push), Resize(3);
    assert UnitsSeq(ResizeProgram[2..]) == [P];
    assert UnitsSeq(ResizeProgram[1..]) == [R, P];
    var ops := ProgramUnits(ResizeProgram);
    assert ops == [Prim(Ops.Init), P, R, P];
    assert Size(P) == 1 && Size(R) == 2;
    var m3 := [OpItem(P), OpItem(R), OpItem(P)];
    assert m3[..2] + [OpItem(P)] == m3 && m3[..1] + [OpItem(R)] == m3[..2] && [] + [OpItem(P)] == m3[..1];
    assert Fill(ops, 4, 1, m3) == Ok(Cursor(4, 1, m3));
    assert Fill(ops, 3, 2, m3[..2]) == Fill(ops, 4, 1, m3);
    assert Fill(ops, 2, 4, m3[..1]) == Fill(ops, 3, 2, m3[..2]);
    assert Fill(ops, 1, 5, []) == Fill(ops, 2, 4, m3[..1]);
    assert Repair(Cursor(4, 1, m3)) == Repair(Cursor(3, 2, m3[..2]));
    assert m3[..2][..1] == m3[..1];
    assert Repair(Cursor(3, 2, m3[..2])) == Repair(Cursor(2, 4, m3[..1]));
    assert !NeedsRepair(4, m3[..1]);
    var first := m3[..1] + [NoOpItem(4)];
    assert PlaceSlot(ops, 5, 1, []) == Ok(Cursor(2, 4, first));
    var turned := first + [UTurnItem(true)];
    var filled := turned + [OpItem(R), OpItem(P)];
    assert turned + [OpItem(R)] + [OpItem(P)] == filled;
    assert Fill(ops, 4, 3, filled) == Ok(Cursor(4, 3, filled));
    assert Fill(ops, 3, 4, turned + [OpItem(R)]) == Fill(ops, 4, 3, filled);
    assert Fill(ops, 2, 6, turned) == Fill(ops, 3, 4, turned + [OpItem(R)]);
    assert !NeedsRepair(3, filled);
    var last := filled + [NoOpItem(3)];
    assert PlaceSlot(ops, 6, 2, turned) == Ok(Cursor(4, 3, last));
    assert PackFrom(ops, TwoSlots, 4, 4, last) == Ok(last);
    assert PackFrom(ops, TwoSlots, 3, 2, turned) == PackFrom(ops, TwoSlots, 4, 4, last);
    assert PackFrom(ops, TwoSlots, 2, 2, first) == PackFrom(ops, TwoSlots, 3, 2, turned);
    assert PackFrom(ops, TwoSlots, 1, 1, []) == PackFrom(ops, TwoSlots, 2, 2, first);
    assert last == WholeLayout;
  }
}
