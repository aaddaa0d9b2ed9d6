/**
 * Packing a program into the slots of a path (`map_program_to_path`, hilbertpiet/path.py).
 *
 * The input is the program's list of units after the leading Init: primitives and whole
 * `Resize` size-setters. U-turn tokens receive a U-turn macro; each slot is filled greedily
 * with the next units, then repaired (a slot may not end with a size-setter, and a single
 * spare codel cannot hold a no-op) and padded with a no-op.
 *
 * `PackFrom` follows the code step by step, including what it does on inputs the tokenizer
 * never produces (popping into earlier slots, Python's negative list indices, pops from an
 * empty list). `SlotSpec` and `PackSpec` say what it computes on the paths the tokenizer does
 * produce.
 */
module Packer {
  import opened Outcomes
  import opened Macros
  import Ops
  import opened PathMacros
  import opened PathTokens
  import Curve

  /** A unit of the packer: a primitive, or a `Resize` kept whole as one size-setter. */
  predicate IsUnit(c: Code) {
    c.Prim? || c.Resize?
  }

  predicate AllUnits(ops: seq<Code>) {
    forall i :: 0 <= i < |ops| ==> IsUnit(ops[i])
  }

  /** `expanded_ops` with every `Resize` kept whole. */
  function Units(c: Code): seq<Code>
    decreases c, 1
  {
    match c
    case Prim(_) => [c]
    case Resize(_) => [c]
    case Macro(_, cs) => UnitsSeq(cs)
  }

  function UnitsSeq(cs: seq<Code>): seq<Code>
    decreases cs, 0
  {
    if cs == [] then [] else Units(cs[0]) + UnitsSeq(cs[1..])
  }

  /** The packer's input for a program: Init followed by the units of its ops. */
  function ProgramUnits(program: seq<Code>): seq<Code> {
    [Prim(Ops.Init)] + UnitsSeq(program)
  }

  lemma {:induction false} AllUnitsAppend(a: seq<Code>, b: seq<Code>)
    requires AllUnits(a) && AllUnits(b)
    ensures AllUnits(a + b)
  {
    forall i | 0 <= i < |a + b| ensures IsUnit((a + b)[i]) {
      if i >= |a| {
        assert (a + b)[i] == b[i - |a|];
      }
    }
  }

  /**
   * Keeping `Resize` whole changes neither the primitives the program expands to nor its
   * size, and leaves only units.
   */
  lemma {:induction false} UnitsSpec(c: Code)
    ensures AllUnits(Units(c))
    ensures ExpandedSeq(Units(c)) == Expanded(c)
    ensures SizeSeq(Units(c)) == Size(c)
    decreases c, 1
  {
    match c
    case Prim(_) =>
      assert [c][1..] == [];
      assert Expanded(c) + [] == Expanded(c);
    case Resize(_) =>
      assert [c][1..] == [];
      assert Expanded(c) + [] == Expanded(c);
    case Macro(_, cs) =>
      UnitsSeqSpec(cs);
  }

  lemma {:induction false} UnitsSeqSpec(cs: seq<Code>)
    ensures AllUnits(UnitsSeq(cs))
    ensures ExpandedSeq(UnitsSeq(cs)) == ExpandedSeq(cs)
    ensures SizeSeq(UnitsSeq(cs)) == SizeSeq(cs)
    decreases cs, 0
  {
    if cs != [] {
      UnitsSpec(cs[0]);
      UnitsSeqSpec(cs[1..]);
      AllUnitsAppend(Units(cs[0]), UnitsSeq(cs[1..]));
      ExpandedSeqAppend(Units(cs[0]), UnitsSeq(cs[1..]));
      SizeSeqAppend(Units(cs[0]), UnitsSeq(cs[1..]));
    }
  }

  /**
   * An entry of the mapped list, told apart by its class as the repair loop's `isinstance`
   * test does: an op of the program placed as it is, a U-turn, or a no-op.
   */
  datatype Item =
    | OpItem(code: Code)
    | UTurnItem(clockwise: bool)
    | NoOpItem(length: int)

  /** The macro or op an item stands for. */
  function ItemCode(item: Item): Code {
    match item
    case OpItem(c) => c
    case UTurnItem(clockwise) => UTurn(clockwise)
    case NoOpItem(length) => Macro(ValueMustBeOne, NoOpCodes(length))
  }

  function Codes(items: seq<Item>): seq<Code> {
    seq(|items|, i requires 0 <= i < |items| => ItemCode(items[i]))
  }

  function Lift(ops: seq<Code>): seq<Item> {
    seq(|ops|, i requires 0 <= i < |ops| => OpItem(ops[i]))
  }

  /** `item.size`: a U-turn takes 6 or 8 codels, a no-op its length (see `ItemSizeAgrees`). */
  function ItemSize(item: Item): int {
    match item
    case OpItem(c) => Size(c)
    case UTurnItem(clockwise) => if clockwise then 6 else 8
    case NoOpItem(length) => length
  }

  /** The codels the items cover. */
  function ItemsSize(m: seq<Item>): int {
    if m == [] then 0 else ItemsSize(m[..|m| - 1]) + ItemSize(m[|m| - 1])
  }

  /** `isinstance(item, Resize)` */
  predicate IsSetter(item: Item) {
    item.OpItem? && item.code.Resize?
  }

  /** The packer's cursors: next op index, codels left in the slot, items mapped so far. */
  datatype Cursor = Cursor(io: int, avail: int, mapped: seq<Item>)

  /**
   * The fill loop: place `ops[io]` while it fits. A negative index counts from the end, as in
   * Python, and one below `-len(ops)` raises IndexError.
   */
  function Fill(ops: seq<Code>, io: int, avail: int, mapped: seq<Item>): Result<Cursor>
    decreases |ops| - io
  {
    if io >= |ops| then Ok(Cursor(io, avail, mapped))
    else if io < -|ops| then Err(IndexOutOfRange)
    else
      var c := ops[if io >= 0 then io else |ops| + io];
      if Size(c) <= avail then Fill(ops, io + 1, avail - Size(c), mapped + [OpItem(c)])
      else Ok(Cursor(io, avail, mapped))
  }

  /** The repair condition: the last mapped item is a size-setter, or exactly one codel is left. */
  predicate NeedsRepair(avail: int, mapped: seq<Item>) {
    (|mapped| > 0 && IsSetter(mapped[|mapped| - 1])) || avail == 1
  }

  /** The repair loop: give back the last mapped item while the slot needs repair. */
  function Repair(cur: Cursor): (r: Result<Cursor>)
    ensures r.Ok? ==> !NeedsRepair(r.value.avail, r.value.mapped)
    decreases |cur.mapped|
  {
    if !NeedsRepair(cur.avail, cur.mapped) then Ok(cur)
    else if cur.mapped == [] then Err(PopFromEmptyList)
    else
      var last := cur.mapped[|cur.mapped| - 1];
      Repair(Cursor(cur.io - 1, cur.avail + ItemSize(last), cur.mapped[..|cur.mapped| - 1]))
  }

  /** Pads the rest of a repaired slot with a no-op, which is then at least two codels long. */
  function Padded(cur: Cursor): (r: Cursor)
    requires !NeedsRepair(cur.avail, cur.mapped)
    ensures forall i :: |cur.mapped| <= i < |r.mapped| ==> r.mapped[i] == NoOpItem(cur.avail) && cur.avail >= 2
  {
    if cur.avail > 0 then Cursor(cur.io, cur.avail, cur.mapped + [NoOpItem(cur.avail)]) else cur
  }

  /** One slot of n codels: fill, repair, pad. */
  function PlaceSlot(ops: seq<Code>, n: int, io: int, mapped: seq<Item>): Result<Cursor> {
    var filled :- Fill(ops, io, n, mapped);
    var repaired :- Repair(filled);
    Ok(Padded(repaired))
  }

  /** The main loop from token `ip` on, then the check that every op was placed. */
  function PackFrom(ops: seq<Code>, path: seq<Token>, ip: nat, io: int, mapped: seq<Item>): Result<seq<Item>>
    decreases |path| - ip
  {
    if ip >= |path| then
      if io < |ops| then Err(NotEnoughSpace) else Ok(mapped)
    else
      match path[ip]
      case Clockwise => PackFrom(ops, path, ip + 1, io, mapped + [UTurnItem(true)])
      case Anticlockwise => PackFrom(ops, path, ip + 1, io, mapped + [UTurnItem(false)])
      case InitToken => Err(UnexpectedToken)
      case Slot(n) =>
        var placed :- PlaceSlot(ops, n, io, mapped);
        PackFrom(ops, path, ip + 1, placed.io, placed.mapped)
  }

  /** What `map_program_to_path` returns (the items mapped after the Init) or raises. */
  function Pack(ops: seq<Code>, path: seq<Token>): Result<seq<Item>> {
    PackFrom(ops, path, 1, 1, [])
  }

  /** The ops of the program `map_program_to_path` builds: Init, then the mapped items. */
  function MappedProgram(items: seq<Item>): seq<Code> {
    [Prim(Ops.Init)] + Codes(items)
  }

  /** `map_program_to_path(program, path)`, returning the mapped items. */
  method MapProgramToPath(program: seq<Code>, path: seq<Token>) returns (r: Result<seq<Item>>)
    ensures r == Pack(ProgramUnits(program), path)
  {
    var ops := ProgramUnits(program);
    var mapped: seq<Item> := [];
    var ip: nat, io := 1, 1;
    while ip < |path|
      invariant PackFrom(ops, path, ip, io, mapped) == Pack(ops, path)
      decreases |path| - ip
    {
      var token := path[ip];
      if token == Clockwise || token == Anticlockwise {
        mapped := mapped + [UTurnItem(token == Clockwise)];
      } else if token.Slot? {
        var avail := token.n;
        ghost var start := Cursor(io, avail, mapped);
        var full := false;
        while io < |ops| && !full
          invariant Fill(ops, io, avail, mapped) == Fill(ops, start.io, start.avail, start.mapped)
          invariant full ==> Fill(ops, io, avail, mapped) == Ok(Cursor(io, avail, mapped))
          decreases |ops| - io, if full then 0 else 1
        {
          if io < -|ops| {
            return Err(IndexOutOfRange);
          }
          var c := ops[if io >= 0 then io else |ops| + io];
          if Size(c) <= avail {
            mapped := mapped + [OpItem(c)];
            avail := avail - Size(c);
            io := io + 1;
          } else {
            full := true;
          }
        }
        ghost var filled := Cursor(io, avail, mapped);
        assert Fill(ops, start.io, start.avail, start.mapped) == Ok(filled);
        while (|mapped| > 0 && IsSetter(mapped[|mapped| - 1])) || avail == 1
          invariant Repair(Cursor(io, avail, mapped)) == Repair(filled)
          decreases |mapped|
        {
          if mapped == [] {
            return Err(PopFromEmptyList);
          }
          avail := avail + ItemSize(mapped[|mapped| - 1]);
          mapped := mapped[..|mapped| - 1];
          io := io - 1;
        }
        if avail > 0 {
          mapped := mapped + [NoOpItem(avail)];
        }
      } else {
        return Err(UnexpectedToken);
      }
      ip := ip + 1;
    }
    if io < |ops| {
      return Err(NotEnoughSpace);
    }
    r := Ok(mapped);
  }

  // The slots of a path the tokenizer produces.

  /** The codels taken by the k ops from `io` on. */
  function Span(ops: seq<Code>, io: nat, k: nat): int
    requires io + k <= |ops|
  {
    SizeSeq(ops[io..io + k])
  }

  /** A unit covers at least one codel. */
  lemma UnitSize(c: Code)
    requires IsUnit(c)
    ensures Size(c) >= 1
  {
  }

  lemma SpanStep(ops: seq<Code>, io: nat, k: nat)
    requires io + k < |ops|
    ensures Span(ops, io, k + 1) == Span(ops, io, k) + Size(ops[io + k])
  {
    assert ops[io..io + k + 1] == ops[io..io + k] + [ops[io + k]];
    SizeSeqAppend(ops[io..io + k], [ops[io + k]]);
    SizeSeqCons(ops[io + k], []);
  }

  /** With units only, a longer prefix takes more codels. */
  lemma SpanGrows(ops: seq<Code>, io: nat, k1: nat, k2: nat)
    requires AllUnits(ops) && k1 <= k2 && io + k2 <= |ops|
    ensures Span(ops, io, k1) + (k2 - k1) <= Span(ops, io, k2)
  {
    var k := k1;
    while k < k2
      invariant k1 <= k <= k2
      invariant Span(ops, io, k1) + (k - k1) <= Span(ops, io, k)
    {
      SpanStep(ops, io, k);
      UnitSize(ops[io + k]);
      k := k + 1;
    }
  }

  /**
   * The k next ops may fill a slot of n codels: they fit, they do not leave exactly one
   * codel, and the last of them is not a size-setter.
   */
  predicate Acceptable(ops: seq<Code>, io: nat, n: int, k: nat)
    requires io + k <= |ops|
  {
    Span(ops, io, k) <= n && n - Span(ops, io, k) != 1 && (k == 0 || !ops[io + k - 1].Resize?)
  }

  /** The no-op that pads the rest of a slot, if anything is left. */
  function Filler(rest: int): seq<Item> {
    if rest > 0 then [NoOpItem(rest)] else []
  }

  predicate LastNotSetter(mapped: seq<Item>) {
    mapped == [] || !IsSetter(mapped[|mapped| - 1])
  }

  /** The items mapped for a run of the program's ops. */
  lemma LiftStep(ops: seq<Code>, io: nat, k: nat)
    requires io + k < |ops|
    ensures Lift(ops[io..io + k + 1]) == Lift(ops[io..io + k]) + [OpItem(ops[io + k])]
  {
  }

  /** The fill loop places the longest run of next ops that fits. */
  lemma {:induction false} FillSpec(ops: seq<Code>, io: nat, n: int, mapped: seq<Item>, j: nat) returns (k0: nat)
    requires AllUnits(ops) && io + j <= |ops| && Span(ops, io, j) <= n
    ensures j <= k0 && io + k0 <= |ops| && Span(ops, io, k0) <= n
    ensures io + k0 < |ops| ==> Span(ops, io, k0 + 1) > n
    ensures Fill(ops, io + j, n - Span(ops, io, j), mapped + Lift(ops[io..io + j]))
            == Ok(Cursor(io + k0, n - Span(ops, io, k0), mapped + Lift(ops[io..io + k0])))
    decreases |ops| - io - j
  {
    if io + j == |ops| {
      k0 := j;
    } else {
      SpanStep(ops, io, j);
      var c := ops[io + j];
      if Size(c) <= n - Span(ops, io, j) {
        LiftStep(ops, io, j);
        assert mapped + Lift(ops[io..io + j]) + [OpItem(c)] == mapped + Lift(ops[io..io + j + 1]);
        k0 := FillSpec(ops, io, n, mapped, j + 1);
      } else {
        k0 := j;
      }
    }
  }

  /** Given the span fits, the repair condition is exactly the failure of `Acceptable`. */
  lemma NeedsRepairIff(ops: seq<Code>, io: nat, n: int, mapped: seq<Item>, k: nat)
    requires io + k <= |ops| && Span(ops, io, k) <= n && LastNotSetter(mapped)
    ensures NeedsRepair(n - Span(ops, io, k), mapped + Lift(ops[io..io + k])) <==> !Acceptable(ops, io, n, k)
  {
    var m := mapped + Lift(ops[io..io + k]);
    if k > 0 {
      assert m[|m| - 1] == OpItem(ops[io + k - 1]);
    } else {
      assert m == mapped;
    }
  }

  /** When a run of k + 1 ops needs repair, giving back its last op leaves the run of k. */
  lemma GiveBack(ops: seq<Code>, io: nat, n: int, mapped: seq<Item>, j: nat)
    requires io + j < |ops| && NeedsRepair(n - Span(ops, io, j + 1), mapped + Lift(ops[io..io + j + 1]))
    ensures Repair(Holding(ops, io, n, mapped, j + 1)) == Repair(Holding(ops, io, n, mapped, j))
  {
    var m := mapped + Lift(ops[io..io + j + 1]);
    LiftStep(ops, io, j);
    assert m[..|m| - 1] == mapped + Lift(ops[io..io + j]);
    SpanStep(ops, io, j);
    RepairPop(Holding(ops, io, n, mapped, j + 1), Holding(ops, io, n, mapped, j));
  }

  /** Counting down from k, the first acceptable run is the longest acceptable one up to k0. */
  lemma {:induction false} LongestAcceptable(ops: seq<Code>, io: nat, n: nat, k0: nat, k: nat) returns (kk: nat)
    requires AllUnits(ops) && io + k0 <= |ops| && Span(ops, io, k0) <= n && k <= k0 && n != 1
    requires forall k' :: k < k' <= k0 ==> !Acceptable(ops, io, n, k')
    ensures kk <= k && Acceptable(ops, io, n, kk)
    ensures forall k' :: kk < k' <= k0 ==> !Acceptable(ops, io, n, k')
    decreases k
  {
    if Acceptable(ops, io, n, k) {
      kk := k;
    } else {
      assert k > 0 by {
        assert Span(ops, io, 0) == 0;
      }
      kk := LongestAcceptable(ops, io, n, k0, k - 1);
    }
  }

  /** One round of the repair loop gives back the last mapped item. */
  lemma RepairPop(cur: Cursor, popped: Cursor)
    requires NeedsRepair(cur.avail, cur.mapped) && cur.mapped != []
    requires popped == Cursor(cur.io - 1, cur.avail + ItemSize(cur.mapped[|cur.mapped| - 1]), cur.mapped[..|cur.mapped| - 1])
    ensures Repair(cur) == Repair(popped)
  {
  }

  lemma RepairDone(cur: Cursor)
    requires !NeedsRepair(cur.avail, cur.mapped)
    ensures Repair(cur) == Ok(cur)
  {
  }

  /** The cursor of a slot holding the first k of the next ops. */
  function Holding(ops: seq<Code>, io: nat, n: int, mapped: seq<Item>, k: nat): Cursor
    requires io + k <= |ops|
  {
    Cursor(io + k, n - Span(ops, io, k), mapped + Lift(ops[io..io + k]))
  }

  /** The repair loop gives back ops of the current slot until the rest is acceptable. */
  lemma {:induction false} RepairSpec(ops: seq<Code>, io: nat, n: int, mapped: seq<Item>, k: nat, kk: nat)
    requires AllUnits(ops) && io + k <= |ops| && Span(ops, io, k) <= n && kk <= k
    requires LastNotSetter(mapped) && Acceptable(ops, io, n, kk)
    requires forall k' :: kk < k' <= k ==> !Acceptable(ops, io, n, k')
    ensures Repair(Holding(ops, io, n, mapped, k)) == Ok(Holding(ops, io, n, mapped, kk))
    decreases k
  {
    if k > kk {
      RepairBack(ops, io, n, mapped, k);
      RepairSpec(ops, io, n, mapped, k - 1, kk);
    } else {
      NeedsRepairIff(ops, io, n, mapped, k);
      RepairDone(Holding(ops, io, n, mapped, k));
    }
  }

  /** A run that is not acceptable gives back its last op, and the repair goes on from there. */
  lemma RepairBack(ops: seq<Code>, io: nat, n: int, mapped: seq<Item>, k: nat)
    requires AllUnits(ops) && 0 < k && io + k <= |ops| && Span(ops, io, k) <= n
    requires LastNotSetter(mapped) && !Acceptable(ops, io, n, k)
    ensures Span(ops, io, k - 1) <= n
    ensures Repair(Holding(ops, io, n, mapped, k)) == Repair(Holding(ops, io, n, mapped, k - 1))
  {
    NeedsRepairIff(ops, io, n, mapped, k);
    SpanGrows(ops, io, k - 1, k);
    GiveBack(ops, io, n, mapped, k - 1);
  }

  lemma PlaceSlotOf(ops: seq<Code>, n: int, io: int, mapped: seq<Item>, filled: Cursor, repaired: Cursor)
    requires Fill(ops, io, n, mapped) == Ok(filled) && Repair(filled) == Ok(repaired)
    ensures PlaceSlot(ops, n, io, mapped) == Ok(Padded(repaired))
  {
  }

  /** Fill then repair: the run kept is the longest acceptable one. */
  lemma SlotChoice(ops: seq<Code>, n: nat, io: nat, mapped: seq<Item>) returns (filled: Cursor, k: nat)
    requires AllUnits(ops) && io <= |ops| && n != 1 && LastNotSetter(mapped)
    ensures io + k <= |ops| && Acceptable(ops, io, n, k)
    ensures forall k' :: k < k' <= |ops| - io ==> !Acceptable(ops, io, n, k')
    ensures Fill(ops, io, n, mapped) == Ok(filled)
    ensures Repair(filled) == Ok(Holding(ops, io, n, mapped, k))
  {
    assert Span(ops, io, 0) == 0;
    assert mapped + Lift(ops[io..io]) == mapped;
    var k0 := FillSpec(ops, io, n, mapped, 0);
    filled := Holding(ops, io, n, mapped, k0);
    k := LongestAcceptable(ops, io, n, k0, k0);
    RepairSpec(ops, io, n, mapped, k0, k);
    forall k' | k0 < k' <= |ops| - io ensures !Acceptable(ops, io, n, k') {
      SpanGrows(ops, io, k0 + 1, k');
    }
  }

  lemma {:induction false} ItemsSizeAppend(a: seq<Item>, b: seq<Item>)
    ensures ItemsSize(a + b) == ItemsSize(a) + ItemsSize(b)
    decreases |b|
  {
    if b == [] {
      assert a + b == a;
    } else {
      var b' := b[..|b| - 1];
      assert (a + b)[..|a + b| - 1] == a + b';
      ItemsSizeAppend(a, b');
    }
  }

  /** The items of a run of ops cover what the ops cover. */
  lemma {:induction false} LiftSize(u: seq<Code>)
    ensures ItemsSize(Lift(u)) == SizeSeq(u)
    decreases |u|
  {
    if u != [] {
      var u' := u[..|u| - 1];
      assert Lift(u)[..|u| - 1] == Lift(u');
      LiftSize(u');
      assert u' + [u[|u| - 1]] == u;
      SizeSeqAppend(u', [u[|u| - 1]]);
      SizeSeqCons(u[|u| - 1], []);
    }
  }

  /** An item covers as many codels as the macro or op it stands for. */
  lemma ItemSizeAgrees(item: Item)
    requires item.NoOpItem? ==> item.length >= 2
    ensures ItemSize(item) == Size(ItemCode(item))
  {
    match item
    case OpItem(_) =>
    case UTurnItem(clockwise) => UTurnSize(clockwise);
    case NoOpItem(length) => NoOpSize(length);
  }

  /** A run that fits, padded with its filler, covers the slot exactly. */
  lemma SegmentSize(ops: seq<Code>, io: nat, n: int, k: nat)
    requires io + k <= |ops| && Acceptable(ops, io, n, k)
    ensures ItemsSize(Lift(ops[io..io + k]) + Filler(n - Span(ops, io, k))) == n
  {
    var rest := n - Span(ops, io, k);
    var run := ops[io..io + k];
    LiftSize(run);
    ItemsSizeAppend(Lift(run), Filler(rest));
    if rest > 0 {
      assert Filler(rest)[..0] == [];
    }
  }

  /**
   * One slot of n codels (n is not 1): the slot takes the longest run k of the next ops that
   * is acceptable (it fits, leaves no single codel and does not end with a size-setter),
   * repair gives back only ops of this slot, and the run plus its no-op fill exactly n codels.
   */
  lemma SlotSpec(ops: seq<Code>, n: nat, io: nat, mapped: seq<Item>) returns (k: nat)
    requires AllUnits(ops) && io <= |ops| && n != 1 && LastNotSetter(mapped)
    ensures io + k <= |ops| && Acceptable(ops, io, n, k)
    ensures forall k' :: k < k' <= |ops| - io ==> !Acceptable(ops, io, n, k')
    ensures PlaceSlot(ops, n, io, mapped)
            == Ok(Cursor(io + k, n - Span(ops, io, k), mapped + (Lift(ops[io..io + k]) + Filler(n - Span(ops, io, k)))))
    ensures ItemsSize(Lift(ops[io..io + k]) + Filler(n - Span(ops, io, k))) == n
  {
    var filled;
    filled, k := SlotChoice(ops, n, io, mapped);
    var rest := n - Span(ops, io, k);
    var repaired := Cursor(io + k, rest, mapped + Lift(ops[io..io + k]));
    PlaceSlotOf(ops, n, io, mapped, filled, repaired);
    assert Padded(repaired) == Cursor(io + k, rest, mapped + Lift(ops[io..io + k]) + Filler(rest));
    assert mapped + Lift(ops[io..io + k]) + Filler(rest) == mapped + (Lift(ops[io..io + k]) + Filler(rest));
    SegmentSize(ops, io, n, k);
  }

  // The whole path.

  /** The paths the tokenizer produces: after the leading Init, no Init and no slot of one codel. */
  predicate LegalTokens(path: seq<Token>) {
    forall j :: 1 <= j < |path| ==> path[j] != InitToken && (path[j].Slot? ==> path[j].n != 1)
  }

  /** What the tokenizer makes of a path of turtle instructions is a legal path for the packer. */
  lemma UTurnTokensLegal(path: string)
    requires Curve.Instructions(path)
    ensures UTurnTokens(path).Ok? ==> |UTurnTokens(path).value| >= 1 && LegalTokens(UTurnTokens(path).value)
  {
    UTurnTokensSpec(path);
    UTurnInitOnlyFirst(path);
  }

  /** Every size-setter is followed by another op: none ends a slot or the program. */
  predicate SettersFollowed(m: seq<Item>) {
    LastNotSetter(m) &&
    forall i, j :: 0 <= i < |m| && 0 <= j < |m| && j == i + 1 && IsSetter(m[i]) ==> m[j].OpItem?
  }

  /** Every no-op is at least two codels long, as `NoOp` demands. */
  predicate NoOpsValid(m: seq<Item>) {
    forall i :: 0 <= i < |m| && m[i].NoOpItem? ==> m[i].length >= 2
  }

  /** The program's own ops among the mapped items, in order. */
  function Placed(m: seq<Item>): seq<Code> {
    if m == [] then []
    else Placed(m[..|m| - 1]) + (if m[|m| - 1].OpItem? then [m[|m| - 1].code] else [])
  }

  /** The U-turns among the mapped items, clockwise as true, in order. */
  function TurnsOf(m: seq<Item>): seq<bool> {
    if m == [] then []
    else TurnsOf(m[..|m| - 1]) + (if m[|m| - 1].UTurnItem? then [m[|m| - 1].clockwise] else [])
  }

  function TokenTurn(t: Token): seq<bool> {
    match t
    case Clockwise => [true]
    case Anticlockwise => [false]
    case _ => []
  }

  /** The U-turn tokens of a path, clockwise as true, in order. */
  function TokenTurns(path: seq<Token>): seq<bool> {
    if path == [] then [] else TokenTurn(path[0]) + TokenTurns(path[1..])
  }

  function TokenCodels(t: Token): int {
    match t
    case Clockwise => 6
    case Anticlockwise => 8
    case Slot(n) => n
    case InitToken => 0
  }

  /** The codels a path offers: its slots and its two kinds of bends. */
  function Capacity(path: seq<Token>): int {
    if path == [] then 0 else TokenCodels(path[0]) + Capacity(path[1..])
  }

  lemma {:induction false} PlacedAppend(a: seq<Item>, b: seq<Item>)
    ensures Placed(a + b) == Placed(a) + Placed(b)
    ensures TurnsOf(a + b) == TurnsOf(a) + TurnsOf(b)
    decreases |b|
  {
    if b == [] {
      assert a + b == a;
    } else {
      var b' := b[..|b| - 1];
      assert (a + b)[..|a + b| - 1] == a + b';
      PlacedAppend(a, b');
    }
  }

  /** With valid no-ops, the items cover as many codels as the mapped program's ops. */
  lemma {:induction false} ItemsSizeAgrees(m: seq<Item>)
    requires NoOpsValid(m)
    ensures ItemsSize(m) == SizeSeq(Codes(m))
    decreases |m|
  {
    if m != [] {
      var m' := m[..|m| - 1];
      ItemsSizeAgrees(m');
      ItemSizeAgrees(m[|m| - 1]);
      assert Codes(m) == Codes(m') + [ItemCode(m[|m| - 1])];
      SizeSeqAppend(Codes(m'), [ItemCode(m[|m| - 1])]);
      SizeSeqCons(ItemCode(m[|m| - 1]), []);
    }
  }

  /** A run of the program's ops is placed as it is and holds no U-turn. */
  lemma {:induction false} LiftPlaced(u: seq<Code>)
    ensures Placed(Lift(u)) == u && TurnsOf(Lift(u)) == []
    decreases |u|
  {
    if u != [] {
      var u' := u[..|u| - 1];
      assert Lift(u)[..|u| - 1] == Lift(u');
      LiftPlaced(u');
      assert u' + [u[|u| - 1]] == u;
    }
  }

  lemma FillerPlaced(rest: int)
    ensures Placed(Filler(rest)) == [] && TurnsOf(Filler(rest)) == []
    ensures SettersFollowed(Filler(rest))
    ensures rest != 1 ==> NoOpsValid(Filler(rest))
  {
    if rest > 0 {
      assert Filler(rest)[..0] == [];
    }
  }

  lemma TurnPlaced(clockwise: bool)
    ensures Placed([UTurnItem(clockwise)]) == [] && TurnsOf([UTurnItem(clockwise)]) == [clockwise]
    ensures ItemsSize([UTurnItem(clockwise)]) == (if clockwise then 6 else 8)
  {
    assert [UTurnItem(clockwise)][..0] == [];
  }

  lemma {:induction false} SettersAppend(a: seq<Item>, b: seq<Item>)
    requires SettersFollowed(a) && SettersFollowed(b)
    ensures SettersFollowed(a + b)
  {
    var m := a + b;
    forall i, j | 0 <= i < |m| && 0 <= j < |m| && j == i + 1 && IsSetter(m[i]) ensures m[j].OpItem? {
      if j < |a| {
        assert m[i] == a[i] && m[j] == a[j];
      } else if i >= |a| {
        assert m[i] == b[i - |a|] && m[j] == b[j - |a|];
      }
    }
    if b == [] {
      assert m == a;
    } else {
      assert m[|m| - 1] == b[|b| - 1];
    }
  }

  lemma NoOpsAppend(a: seq<Item>, b: seq<Item>)
    requires NoOpsValid(a) && NoOpsValid(b)
    ensures NoOpsValid(a + b)
  {
    var m := a + b;
    forall i | 0 <= i < |m| && m[i].NoOpItem? ensures m[i].length >= 2 {
      if i >= |a| {
        assert m[i] == b[i - |a|];
      }
    }
  }

  /** A run kept by a slot leaves every size-setter in it followed by an op. */
  lemma RunSetters(ops: seq<Code>, io: nat, k: nat)
    requires io + k <= |ops| && (k == 0 || !ops[io + k - 1].Resize?)
    ensures SettersFollowed(Lift(ops[io..io + k])) && NoOpsValid(Lift(ops[io..io + k]))
  {
    var r := Lift(ops[io..io + k]);
    if k > 0 {
      assert r[|r| - 1] == OpItem(ops[io + k - 1]);
    }
  }

  lemma TokensHead(path: seq<Token>, ip: nat)
    requires ip < |path|
    ensures TokenTurns(path[ip..]) == TokenTurn(path[ip]) + TokenTurns(path[ip + 1..])
    ensures Capacity(path[ip..]) == TokenCodels(path[ip]) + Capacity(path[ip + 1..])
  {
    assert path[ip..][1..] == path[ip + 1..];
  }

  /** What packing the tokens from ip on adds to `mapped`. */
  predicate PackedFrom(ops: seq<Code>, path: seq<Token>, ip: nat, io: nat, mapped: seq<Item>, m: seq<Item>)
    requires ip <= |path| && io <= |ops|
  {
    Placed(m) == Placed(mapped) + ops[io..] &&
    TurnsOf(m) == TurnsOf(mapped) + TokenTurns(path[ip..]) &&
    ItemsSize(m) == ItemsSize(mapped) + Capacity(path[ip..]) &&
    SettersFollowed(m) && NoOpsValid(m)
  }

  /** Appending a segment adds its placed ops... */
  lemma SegmentPlaced(seg: seq<Item>, run: seq<Code>, tail: seq<Code>, mapped: seq<Item>, m: seq<Item>)
    requires Placed(seg) == run && Placed(m) == Placed(mapped + seg) + tail
    ensures Placed(m) == Placed(mapped) + (run + tail)
  {
    PlacedAppend(mapped, seg);
    assert Placed(mapped) + run + tail == Placed(mapped) + (run + tail);
  }

  /** ...its U-turns... */
  lemma SegmentTurns(path: seq<Token>, ip: nat, seg: seq<Item>, mapped: seq<Item>, m: seq<Item>)
    requires ip < |path| && TurnsOf(seg) == TokenTurn(path[ip])
    requires TurnsOf(m) == TurnsOf(mapped + seg) + TokenTurns(path[ip + 1..])
    ensures TurnsOf(m) == TurnsOf(mapped) + TokenTurns(path[ip..])
  {
    TokensHead(path, ip);
    PlacedAppend(mapped, seg);
    Associates(TurnsOf(mapped), TokenTurn(path[ip]), TokenTurns(path[ip + 1..]));
  }

  lemma Associates<T>(a: seq<T>, b: seq<T>, c: seq<T>)
    ensures a + b + c == a + (b + c)
  {
  }

  /** ...and its codels. */
  lemma SegmentSize2(path: seq<Token>, ip: nat, seg: seq<Item>, mapped: seq<Item>, m: seq<Item>)
    requires ip < |path| && ItemsSize(seg) == TokenCodels(path[ip])
    requires ItemsSize(m) == ItemsSize(mapped + seg) + Capacity(path[ip + 1..])
    ensures ItemsSize(m) == ItemsSize(mapped) + Capacity(path[ip..])
  {
    TokensHead(path, ip);
    ItemsSizeAppend(mapped, seg);
  }

  lemma SegmentStep(path: seq<Token>, ip: nat, seg: seq<Item>, run: seq<Code>, tail: seq<Code>, mapped: seq<Item>, m: seq<Item>)
    requires ip < |path|
    requires Placed(seg) == run && TurnsOf(seg) == TokenTurn(path[ip]) && ItemsSize(seg) == TokenCodels(path[ip])
    requires Placed(m) == Placed(mapped + seg) + tail
    requires TurnsOf(m) == TurnsOf(mapped + seg) + TokenTurns(path[ip + 1..])
    requires ItemsSize(m) == ItemsSize(mapped + seg) + Capacity(path[ip + 1..])
    ensures Placed(m) == Placed(mapped) + (run + tail)
    ensures TurnsOf(m) == TurnsOf(mapped) + TokenTurns(path[ip..])
    ensures ItemsSize(m) == ItemsSize(mapped) + Capacity(path[ip..])
  {
    SegmentPlaced(seg, run, tail, mapped, m);
    SegmentTurns(path, ip, seg, mapped, m);
    SegmentSize2(path, ip, seg, mapped, m);
  }

  lemma PackTurnUnfold(ops: seq<Code>, path: seq<Token>, ip: nat, io: nat, mapped: seq<Item>, clockwise: bool)
    requires ip < |path| && path[ip] == (if clockwise then Clockwise else Anticlockwise)
    ensures PackFrom(ops, path, ip, io, mapped) == PackFrom(ops, path, ip + 1, io, mapped + [UTurnItem(clockwise)])
  {
  }

  lemma PackSlotUnfold(ops: seq<Code>, path: seq<Token>, ip: nat, io: nat, mapped: seq<Item>, k: nat, avail: int, seg: seq<Item>)
    requires ip < |path| && path[ip].Slot?
    requires PlaceSlot(ops, path[ip].n, io, mapped) == Ok(Cursor(io + k, avail, mapped + seg))
    ensures PackFrom(ops, path, ip, io, mapped) == PackFrom(ops, path, ip + 1, io + k, mapped + seg)
  {
  }

  /**
   * On a path the tokenizer produces, packing fails only for lack of space; otherwise every
   * op of the program is placed once and in order, there is one U-turn per bend token and in
   * the same order, the mapped items fill the path's codels exactly, no size-setter ends a
   * slot and every no-op is at least two codels long.
   */
  lemma {:induction false} PackSpec(ops: seq<Code>, path: seq<Token>, ip: nat, io: nat, mapped: seq<Item>)
    requires AllUnits(ops) && LegalTokens(path) && 1 <= ip <= |path| && io <= |ops|
    requires SettersFollowed(mapped) && NoOpsValid(mapped)
    ensures PackFrom(ops, path, ip, io, mapped).Ok? || PackFrom(ops, path, ip, io, mapped) == Err(NotEnoughSpace)
    ensures PackFrom(ops, path, ip, io, mapped).Ok? ==> PackedFrom(ops, path, ip, io, mapped, PackFrom(ops, path, ip, io, mapped).value)
    decreases |path| - ip, 1
  {
    if ip == |path| {
      assert mapped + [] == mapped;
    } else if path[ip].Slot? {
      PackSlotCase(ops, path, ip, io, mapped);
    } else {
      PackTurnCase(ops, path, ip, io, mapped);
    }
  }

  /** `SlotSpec` without the maximality of the run. */
  lemma SlotPlaced(ops: seq<Code>, n: nat, io: nat, mapped: seq<Item>) returns (k: nat)
    requires AllUnits(ops) && io <= |ops| && n != 1 && LastNotSetter(mapped)
    ensures io + k <= |ops| && Acceptable(ops, io, n, k)
    ensures PlaceSlot(ops, n, io, mapped)
            == Ok(Cursor(io + k, n - Span(ops, io, k), mapped + (Lift(ops[io..io + k]) + Filler(n - Span(ops, io, k)))))
    ensures ItemsSize(Lift(ops[io..io + k]) + Filler(n - Span(ops, io, k))) == n
  {
    k := SlotSpec(ops, n, io, mapped);
  }

  /** What a slot appends: a run of the program's ops kept by the slot and its filler. */
  lemma SlotSegment(ops: seq<Code>, n: nat, io: nat, k: nat, mapped: seq<Item>)
    requires io + k <= |ops| && Acceptable(ops, io, n, k) && SettersFollowed(mapped) && NoOpsValid(mapped)
    ensures ops[io..] == ops[io..io + k] + ops[io + k..]
    ensures var seg := Lift(ops[io..io + k]) + Filler(n - Span(ops, io, k));
      Placed(seg) == ops[io..io + k] && TurnsOf(seg) == [] &&
      SettersFollowed(mapped + seg) && NoOpsValid(mapped + seg)
  {
    RunSetters(ops, io, k);
    SegmentFacts(ops[io..io + k], n - Span(ops, io, k), mapped);
    SliceSplit(ops, io, io + k);
  }

  /** A run of ops and its filler hold the run's ops, no U-turn, and keep the mapped list well formed. */
  lemma SegmentFacts(run: seq<Code>, rest: int, mapped: seq<Item>)
    requires rest != 1 && SettersFollowed(Lift(run)) && NoOpsValid(Lift(run))
    requires SettersFollowed(mapped) && NoOpsValid(mapped)
    ensures Placed(Lift(run) + Filler(rest)) == run && TurnsOf(Lift(run) + Filler(rest)) == []
    ensures SettersFollowed(mapped + (Lift(run) + Filler(rest))) && NoOpsValid(mapped + (Lift(run) + Filler(rest)))
  {
    var seg := Lift(run) + Filler(rest);
    FillerPlaced(rest);
    LiftPlaced(run);
    PlacedAppend(Lift(run), Filler(rest));
    SettersAppend(Lift(run), Filler(rest));
    SettersAppend(mapped, seg);
    NoOpsAppend(Lift(run), Filler(rest));
    NoOpsAppend(mapped, seg);
  }

  lemma SliceSplit<T>(s: seq<T>, a: nat, b: nat)
    requires a <= b <= |s|
    ensures s[a..] == s[a..b] + s[b..]
  {
  }

  lemma {:induction false} PackSlotCase(ops: seq<Code>, path: seq<Token>, ip: nat, io: nat, mapped: seq<Item>)
    requires AllUnits(ops) && LegalTokens(path) && 1 <= ip < |path| && io <= |ops| && path[ip].Slot?
    requires SettersFollowed(mapped) && NoOpsValid(mapped)
    ensures PackFrom(ops, path, ip, io, mapped).Ok? || PackFrom(ops, path, ip, io, mapped) == Err(NotEnoughSpace)
    ensures PackFrom(ops, path, ip, io, mapped).Ok? ==> PackedFrom(ops, path, ip, io, mapped, PackFrom(ops, path, ip, io, mapped).value)
    decreases |path| - ip, 0
  {
    var k, seg := SlotStep(ops, path, ip, io, mapped);
    PackSpec(ops, path, ip + 1, io + k, mapped + seg);
    var r := PackFrom(ops, path, ip, io, mapped);
    if r.Ok? {
      SlotPacked(ops, path, ip, io, k, mapped, seg, r.value);
    }
  }

  /** One slot token: packing moves on past the run of ops the slot keeps and its filler. */
  lemma SlotStep(ops: seq<Code>, path: seq<Token>, ip: nat, io: nat, mapped: seq<Item>) returns (k: nat, seg: seq<Item>)
    requires AllUnits(ops) && LegalTokens(path) && 1 <= ip < |path| && io <= |ops| && path[ip].Slot?
    requires SettersFollowed(mapped) && NoOpsValid(mapped)
    ensures io + k <= |ops| && ops[io..] == ops[io..io + k] + ops[io + k..]
    ensures PackFrom(ops, path, ip, io, mapped) == PackFrom(ops, path, ip + 1, io + k, mapped + seg)
    ensures Placed(seg) == ops[io..io + k] && TurnsOf(seg) == [] && ItemsSize(seg) == path[ip].n
    ensures SettersFollowed(mapped + seg) && NoOpsValid(mapped + seg)
  {
    var n := path[ip].n;
    k := SlotPlaced(ops, n, io, mapped);
    seg := Lift(ops[io..io + k]) + Filler(n - Span(ops, io, k));
    SlotSegment(ops, n, io, k, mapped);
    PackSlotUnfold(ops, path, ip, io, mapped, k, n - Span(ops, io, k), seg);
  }

  lemma SlotPacked(ops: seq<Code>, path: seq<Token>, ip: nat, io: nat, k: nat, mapped: seq<Item>, seg: seq<Item>, m: seq<Item>)
    requires ip < |path| && path[ip].Slot? && io + k <= |ops| && ops[io..] == ops[io..io + k] + ops[io + k..]
    requires Placed(seg) == ops[io..io + k] && TurnsOf(seg) == [] && ItemsSize(seg) == path[ip].n
    requires PackedFrom(ops, path, ip + 1, io + k, mapped + seg, m)
    ensures PackedFrom(ops, path, ip, io, mapped, m)
  {
    SegmentStep(path, ip, seg, ops[io..io + k], ops[io + k..], mapped, m);
  }

  lemma {:induction false} PackTurnCase(ops: seq<Code>, path: seq<Token>, ip: nat, io: nat, mapped: seq<Item>)
    requires AllUnits(ops) && LegalTokens(path) && 1 <= ip < |path| && io <= |ops| && !path[ip].Slot?
    requires SettersFollowed(mapped) && NoOpsValid(mapped)
    ensures PackFrom(ops, path, ip, io, mapped).Ok? || PackFrom(ops, path, ip, io, mapped) == Err(NotEnoughSpace)
    ensures PackFrom(ops, path, ip, io, mapped).Ok? ==> PackedFrom(ops, path, ip, io, mapped, PackFrom(ops, path, ip, io, mapped).value)
    decreases |path| - ip, 0
  {
    var clockwise := path[ip] == Clockwise;
    var seg := [UTurnItem(clockwise)];
    assert path[ip] == (if clockwise then Clockwise else Anticlockwise);
    TurnSegment(clockwise, path[ip], mapped);
    PackTurnUnfold(ops, path, ip, io, mapped, clockwise);
    PackSpec(ops, path, ip + 1, io, mapped + seg);
    var r := PackFrom(ops, path, ip, io, mapped);
    if r.Ok? {
      TurnPacked(ops, path, ip, io, mapped, seg, r.value);
    }
  }

  /** What a U-turn token appends: one U-turn item, which keeps the mapped list well formed. */
  lemma TurnSegment(clockwise: bool, t: Token, mapped: seq<Item>)
    requires t == (if clockwise then Clockwise else Anticlockwise)
    requires SettersFollowed(mapped) && NoOpsValid(mapped)
    ensures var seg := [UTurnItem(clockwise)];
      Placed(seg) == [] && TurnsOf(seg) == TokenTurn(t) && ItemsSize(seg) == TokenCodels(t) &&
      SettersFollowed(mapped + seg) && NoOpsValid(mapped + seg)
  {
    var seg := [UTurnItem(clockwise)];
    TurnPlaced(clockwise);
    assert SettersFollowed(seg) && NoOpsValid(seg);
    SettersAppend(mapped, seg);
    NoOpsAppend(mapped, seg);
  }

  lemma TurnPacked(ops: seq<Code>, path: seq<Token>, ip: nat, io: nat, mapped: seq<Item>, seg: seq<Item>, m: seq<Item>)
    requires ip < |path| && io <= |ops|
    requires Placed(seg) == [] && TurnsOf(seg) == TokenTurn(path[ip]) && ItemsSize(seg) == TokenCodels(path[ip])
    requires PackedFrom(ops, path, ip + 1, io, mapped + seg, m)
    ensures PackedFrom(ops, path, ip, io, mapped, m)
  {
    SegmentStep(path, ip, seg, [], ops[io..], mapped, m);
    assert [] + ops[io..] == ops[io..];
  }

  /**
   * `map_program_to_path` on a path the tokenizer produces: the result is the mapped items or
   * NotEnoughSpace, and the items hold the program's ops after Init, in order, with one U-turn
   * per bend token, filling the codels of the path after its first.
   */
  lemma PackTheorem(ops: seq<Code>, path: seq<Token>)
    requires AllUnits(ops) && |ops| >= 1 && |path| >= 1 && LegalTokens(path)
    ensures Pack(ops, path).Ok? || Pack(ops, path) == Err(NotEnoughSpace)
    ensures Pack(ops, path).Ok? ==>
      Placed(Pack(ops, path).value) == ops[1..] &&
      TurnsOf(Pack(ops, path).value) == TokenTurns(path[1..]) &&
      SizeSeq(Codes(Pack(ops, path).value)) == Capacity(path[1..]) &&
      SettersFollowed(Pack(ops, path).value) && NoOpsValid(Pack(ops, path).value)
  {
    PackSpec(ops, path, 1, 1, []);
    assert Placed([]) + ops[1..] == ops[1..];
    if Pack(ops, path).Ok? {
      ItemsSizeAgrees(Pack(ops, path).value);
    }
  }

}
