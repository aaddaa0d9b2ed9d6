/**
 * Number trees (piet/numbers.py): ways of pushing a positive number with few codels. A leaf
 * pushes the size of a resized codel; an inner node combines the numbers of its children
 * with one of five operators. Every tree has a number `n`, an expansion into operations,
 * a cost (the size of that expansion) and an infix rendering.
 */
module Numbers {
  import opened Outcomes
  import opened Text
  import opened Contexts
  import opened Macros
  import Ops

  /** The five inner-node classes: Add, Sub, Mult, Div and Pow number trees. */
  datatype Kind = AddNode | SubNode | MultNode | DivNode | PowNode

  datatype Tree = Leaf(n: int) | Bin(kind: Kind, left: Tree, right: Tree)

  /** `a ** k` for a non-negative exponent. */
  function Power(a: int, k: nat): int {
    if k == 0 then 1 else a * Power(a, k - 1)
  }

  /**
   * The number `n` computed when the tree is built: the operator applied to the children's
   * numbers. Floor division by zero raises; a negative exponent, for which Python produces a
   * float, is rejected as well.
   */
  function Value(t: Tree): Result<int> {
    match t
    case Leaf(n) => Ok(n)
    case Bin(kind, l, r) =>
      var a :- Value(l);
      var b :- Value(r);
      Combine(kind, a, b)
  }

  function Combine(kind: Kind, a: int, b: int): (r: Result<int>)
    ensures r.Err? <==> (kind == DivNode && b == 0) || (kind == PowNode && b < 0)
  {
    match kind
    case AddNode => Ok(a + b)
    case SubNode => Ok(a - b)
    case MultNode => Ok(a * b)
    case DivNode => if b == 0 then Err(ZeroDivision) else Ok(Ops.FloorDiv(a, b))
    case PowNode => if b < 0 then Err(NegativeExponent) else Ok(Power(a, b))
  }

  /** A tree the constructors can build. */
  predicate Constructible(t: Tree) {
    Value(t).Ok?
  }

  function N(t: Tree): int
    requires Constructible(t)
  {
    Value(t).value
  }

  /** The primitive each of the four arithmetic nodes ends with. */
  function OpOf(kind: Kind): Ops.Op
    requires kind != PowNode
  {
    match kind
    case AddNode => Ops.Add
    case SubNode => Ops.Substract
    case MultNode => Ops.Multiply
    case DivNode => Ops.Divide
  }

  /**
   * `ops`: a leaf is a resize to n followed by a push (a bare push for n = 1, the size the
   * previous codel already has); an arithmetic node emits both children then its operator;
   * a power node emits its left child, then k - 1 duplicates and k - 1 multiplications,
   * where k is the right child's number. The right child of a power node is never emitted.
   * A leaf of n <= 0 cannot be expanded: `Resize` rejects it.
   */
  function TreeCode(t: Tree): (r: Result<Code>)
    requires Constructible(t)
  {
    match t
    case Leaf(n) =>
      if n <= 0 then Err(InvalidResize)
      else if n == 1 then Ok(Macro(Unguarded, [Prim(Ops.Push)]))
      else Ok(Macro(Unguarded, [Resize(n), Prim(Ops.Push)]))
    case Bin(PowNode, l, r) =>
      var lc :- TreeCode(l);
      var k := N(r);
      Ok(Macro(Unguarded, [lc] + (Repeat(Prim(Ops.Duplicate), k - 1) + Repeat(Prim(Ops.Multiply), k - 1))))
    case Bin(kind, l, r) =>
      var lc :- TreeCode(l);
      var rc :- TreeCode(r);
      Ok(Macro(Unguarded, [lc, rc, Prim(OpOf(kind))]))
  }

  /** Every leaf that gets expanded holds a positive number (the right child of ** is not expanded). */
  predicate Expandable(t: Tree) {
    match t
    case Leaf(n) => n >= 1
    case Bin(PowNode, l, _) => Expandable(l)
    case Bin(_, l, r) => Expandable(l) && Expandable(r)
  }

  /** A tree that can be built, expanded and run: positive leaves and positive exponents. */
  predicate WellFormed(t: Tree) {
    Constructible(t) && Expandable(t) &&
    match t
    case Leaf(_) => true
    case Bin(kind, l, r) => WellFormed(l) && WellFormed(r) && (kind == PowNode ==> N(r) >= 1)
  }

  /** `_cost`: the size of the expansion. */
  function Cost(t: Tree): int
    requires Constructible(t) && TreeCode(t).Ok?
  {
    Macros.Size(TreeCode(t).value)
  }

  /** The cost the tests spell out: n for a leaf, l + r + 1 for + - * //, l + 2 max(k - 1, 0) for **. */
  function CostFormula(t: Tree): int
    requires Constructible(t)
  {
    match t
    case Leaf(n) => n
    case Bin(PowNode, l, r) => CostFormula(l) + 2 * (if N(r) >= 1 then N(r) - 1 else 0)
    case Bin(_, l, r) => CostFormula(l) + CostFormula(r) + 1
  }

  lemma SizeSeqRepeat(c: Code, m: int)
    ensures SizeSeq(Repeat(c, m)) == (if m <= 0 then 0 else m) * Macros.Size(c)
    decreases if m <= 0 then 0 else m
  {
    if m > 0 {
      assert Repeat(c, m)[1..] == Repeat(c, m - 1);
      SizeSeqRepeat(c, m - 1);
    }
  }

  /** Expansion fails exactly when a non-positive leaf would be expanded. */
  lemma {:induction false} TreeCodeDefined(t: Tree)
    requires Constructible(t)
    ensures TreeCode(t).Ok? <==> Expandable(t)
    ensures TreeCode(t).Err? ==> TreeCode(t).error == InvalidResize
  {
    match t
    case Leaf(_) =>
    case Bin(kind, l, r) =>
      TreeCodeDefined(l);
      if kind != PowNode {
        TreeCodeDefined(r);
      }
  }

  /** The cost of a tree is the size the formula predicts. */
  lemma {:induction false} CostIsFormula(t: Tree)
    requires Constructible(t) && Expandable(t)
    ensures TreeCode(t).Ok?
    ensures Cost(t) == CostFormula(t)
  {
    TreeCodeDefined(t);
    match t
    case Leaf(n) =>
      LeafSize(n);
    case Bin(kind, l, r) =>
      CostIsFormula(l);
      var lc := TreeCode(l).value;
      if kind == PowNode {
        PowerChainSize(lc, N(r) - 1);
      } else {
        CostIsFormula(r);
        OperandsThenOpSize(lc, TreeCode(r).value, OpOf(kind));
      }
  }

  lemma LeafSize(n: int)
    requires n >= 1
    ensures TreeCode(Leaf(n)).Ok? && Macros.Size(TreeCode(Leaf(n)).value) == n
  {
    SizeSeqCons(Prim(Ops.Push), []);
    if n > 1 {
      SizeSeqCons(Resize(n), [Prim(Ops.Push)]);
    }
  }

  /** A leaf's `ops` exactly as written: `[Resize(n), Push()]`, whose `Resize` rejects n <= 1. */
  function LeafCodeAsWritten(n: int): (r: Result<Code>)
    ensures r.Err? <==> n <= 1
    ensures r.Err? ==> r.error == InvalidResize
  {
    var resize :- MakeResize(n);
    Ok(Macro(Unguarded, [resize, Prim(Ops.Push)]))
  }

  /** From 2 on, the leaf as written and the leaf of `TreeCode` are the same code. */
  lemma LeafAsWrittenAgrees(n: int)
    requires n >= 2
    ensures LeafCodeAsWritten(n) == TreeCode(Leaf(n))
  {
  }

  /**
   * As written, the leaf for 1 raises ValueError when its ops are built, whereas the leaf of
   * `TreeCode` costs one codel and pushes 1.
   */
  lemma LeafOneAsWritten(s: State)
    requires s.value == 1
    ensures LeafCodeAsWritten(1) == Err(InvalidResize)
    ensures TreeCode(Leaf(1)).Ok? && Cost(Leaf(1)) == 1
    ensures Call(TreeCode(Leaf(1)).value, s) == Ok(Pushed(s, [1], 1))
  {
    RunLeaf(1, s);
    LeafSize(1);
  }

  lemma PowerChainSize(lc: Code, m: int)
    ensures SizeSeq([lc] + (Repeat(Prim(Ops.Duplicate), m) + Repeat(Prim(Ops.Multiply), m)))
            == Macros.Size(lc) + 2 * (if m <= 0 then 0 else m)
  {
    var dups, muls := Repeat(Prim(Ops.Duplicate), m), Repeat(Prim(Ops.Multiply), m);
    SizeSeqCons(lc, dups + muls);
    SizeSeqAppend(dups, muls);
    SizeSeqRepeat(Prim(Ops.Duplicate), m);
    SizeSeqRepeat(Prim(Ops.Multiply), m);
  }

  lemma OperandsThenOpSize(lc: Code, rc: Code, op: Ops.Op)
    ensures SizeSeq([lc, rc, Prim(op)]) == Macros.Size(lc) + Macros.Size(rc) + 1
  {
    assert [lc, rc, Prim(op)] == [lc] + ([rc] + [Prim(op)]);
    SizeSeqCons(lc, [rc] + [Prim(op)]);
    SizeSeqCons(rc, [Prim(op)]);
    SizeSeqCons(Prim(op), []);
  }

  /** The state reached after pushing x with `steps` codels, from a state with value 1. */
  function Pushed(s: State, x: seq<int>, steps: int): State {
    s.(stack := s.stack + x, value := 1, position := Move(s.position, s.dp, steps))
  }

  lemma PushedTwice(s: State, x: seq<int>, y: seq<int>, a: int, b: int)
    ensures Pushed(Pushed(s, x, a), y, b) == Pushed(s, x + y, a + b)
  {
    assert s.stack + x + y == s.stack + (x + y);
  }

  /** m duplicates of the top a leave m + 1 copies of a. */
  lemma {:induction false} Duplicates(m: nat, s: State, rest: seq<int>, a: int)
    requires s.value == 1 && s.stack == rest + [a]
    ensures CallSeq(Repeat(Prim(Ops.Duplicate), m), s) == Ok(Pushed(s, Repeat(a, m), m))
  {
    if m > 0 {
      var t := Pushed(s, [a], 1);
      DuplicateStep(s, rest, a);
      assert rest + [a, a] == s.stack + [a];
      assert Repeat(Prim(Ops.Duplicate), m) == [Prim(Ops.Duplicate)] + Repeat(Prim(Ops.Duplicate), m - 1);
      CallSeqStep(Prim(Ops.Duplicate), Repeat(Prim(Ops.Duplicate), m - 1), s, t);
      Duplicates(m - 1, t, rest + [a], a);
      RepeatAdd(a, 1, m - 1);
      assert Repeat(a, 1) == [a];
      PushedTwice(s, [a], Repeat(a, m - 1), 1, m - 1);
    } else {
      assert s.stack + [] == s.stack;
      assert Move(s.position, s.dp, 0) == s.position;
    }
  }

  /** m multiplications fold m copies of a into the top x, leaving a^m * x. */
  lemma {:induction false} Multiplications(m: nat, s: State, rest: seq<int>, a: int, x: int)
    requires s.value == 1 && s.stack == rest + Repeat(a, m) + [x]
    ensures CallSeq(Repeat(Prim(Ops.Multiply), m), s)
            == Ok(s.(stack := rest + [Power(a, m) * x], position := Move(s.position, s.dp, m)))
  {
    if m > 0 {
      var t := s.(stack := rest + Repeat(a, m - 1) + [a * x], position := Move(s.position, s.dp, 1));
      MultiplyOnCopies(m, s, rest, a, x);
      CallSeqStep(Prim(Ops.Multiply), Repeat(Prim(Ops.Multiply), m - 1), s, t);
      Multiplications(m - 1, t, rest, a, a * x);
      PowerStep(a, m, x);
      MoveAdds(s.position, s.dp, 1, m - 1);
    } else {
      assert s.stack == rest + [x];
    }
  }

  /** One multiplication folds the top copy of a into x. */
  lemma MultiplyOnCopies(m: nat, s: State, rest: seq<int>, a: int, x: int)
    requires m > 0 && s.value == 1 && s.stack == rest + Repeat(a, m) + [x]
    ensures Call(Prim(Ops.Multiply), s)
            == Ok(s.(stack := rest + Repeat(a, m - 1) + [a * x], position := Move(s.position, s.dp, 1)))
  {
    var below := rest + Repeat(a, m - 1);
    RepeatAdd(a, m - 1, 1);
    assert Repeat(a, 1) == [a];
    assert s.stack == below + [a, x];
    BinaryStep(Ops.Multiply, s, below, a, x);
  }

  lemma PowerStep(a: int, m: nat, x: int)
    requires m > 0
    ensures Power(a, m - 1) * (a * x) == Power(a, m) * x
  {
    var p := Power(a, m - 1);
    assert Power(a, m) == a * p;
    assert p * (a * x) == (a * p) * x;
  }

  /** The claim of RunPushesValue for one tree and one starting state. */
  predicate PushesValue(t: Tree, s: State)
    requires WellFormed(t)
  {
    TreeCode(t).Ok? && Call(TreeCode(t).value, s) == Ok(Pushed(s, [N(t)], CostFormula(t)))
  }

  /**
   * Running a well-formed tree from a context whose value is 1 pushes exactly its number,
   * leaves value 1 and moves one codel per unit of cost; nothing else changes.
   */
  lemma {:induction false} RunPushesValue(t: Tree, s: State)
    requires WellFormed(t) && s.value == 1
    ensures TreeCode(t).Ok?
    ensures Call(TreeCode(t).value, s) == Ok(Pushed(s, [N(t)], Cost(t)))
  {
    CostIsFormula(t);
    match t
    case Leaf(n) =>
      RunLeaf(n, s);
    case Bin(kind, l, r) =>
      RunPushesValue(l, s);
      CostIsFormula(l);
      if kind == PowNode {
        RunPow(l, r, s);
      } else {
        var s1 := Pushed(s, [N(l)], CostFormula(l));
        RunPushesValue(r, s1);
        CostIsFormula(r);
        RunArith(kind, l, r, s);
      }
  }

  /**
   * A power node whose exponent is 0: `range(1, 0)` is empty, so its ops are its base alone.
   * The node's number is 1, yet running it pushes the base's number, so `WellFormed` asks for
   * an exponent of at least 1.
   */
  lemma PowZeroPushesBase(l: Tree, r: Tree, s: State)
    requires WellFormed(l) && Constructible(r) && N(r) == 0 && s.value == 1
    ensures Constructible(Bin(PowNode, l, r)) && N(Bin(PowNode, l, r)) == 1
    ensures TreeCode(Bin(PowNode, l, r)).Ok?
    ensures Call(TreeCode(Bin(PowNode, l, r)).value, s) == Ok(Pushed(s, [N(l)], Cost(l)))
  {
    RunPushesValue(l, s);
    var lc := TreeCode(l).value;
    assert TreeCode(Bin(PowNode, l, r)) == Ok(Macro(Unguarded, [lc] + (Repeat(Prim(Ops.Duplicate), -1) + Repeat(Prim(Ops.Multiply), -1))));
    assert [lc] + (Repeat(Prim(Ops.Duplicate), -1) + Repeat(Prim(Ops.Multiply), -1)) == [lc] + [];
    CallSeqStep(lc, [], s, Pushed(s, [N(l)], Cost(l)));
  }

  lemma RunLeaf(n: int, s: State)
    requires n >= 1 && s.value == 1
    ensures PushesValue(Leaf(n), s)
  {
    var pushed := Pushed(s, [n], n);
    assert [Prim(Ops.Push)] == [Prim(Ops.Push)] + [];
    if n == 1 {
      PushStep(s);
      CallSeqStep(Prim(Ops.Push), [], s, pushed);
    } else {
      var u := s.(value := n, position := Move(s.position, s.dp, n - 1));
      ResizeStep(n, s);
      PushStep(u);
      MoveAdds(s.position, s.dp, n - 1, 1);
      CallSeqStep(Prim(Ops.Push), [], u, pushed);
      CallSeqStep(Resize(n), [Prim(Ops.Push)], s, u);
    }
  }

  /** The four arithmetic nodes compute what their primitive computes on the stack. */
  lemma CombineIsBinaryResult(kind: Kind, a: int, b: int)
    requires kind != PowNode
    ensures Combine(kind, a, b) == Ops.BinaryResult(OpOf(kind), a, b)
  {
  }

  /** Two codes that each push one number, followed by a binary primitive. */
  lemma RunOperandsThenOp(lc: Code, rc: Code, op: Ops.Op, s: State, a: int, b: int, ca: int, cb: int)
    requires op.IsBinary() && Ops.BinaryResult(op, a, b).Ok?
    requires Call(lc, s) == Ok(Pushed(s, [a], ca))
    requires Call(rc, Pushed(s, [a], ca)) == Ok(Pushed(Pushed(s, [a], ca), [b], cb))
    ensures CallSeq([lc, rc, Prim(op)], s) == Ok(Pushed(s, [Ops.BinaryResult(op, a, b).value], ca + cb + 1))
  {
    var s1 := Pushed(s, [a], ca);
    OpAfterOperands(op, s, a, b, ca, cb);
    CallThree(lc, rc, Prim(op), s, s1, Pushed(s1, [b], cb), Pushed(s, [Ops.BinaryResult(op, a, b).value], ca + cb + 1));
  }

  /** A binary primitive run after its two operands were pushed replaces them by its result. */
  lemma OpAfterOperands(op: Ops.Op, s: State, a: int, b: int, ca: int, cb: int)
    requires op.IsBinary() && Ops.BinaryResult(op, a, b).Ok?
    ensures Call(Prim(op), Pushed(Pushed(s, [a], ca), [b], cb))
            == Ok(Pushed(s, [Ops.BinaryResult(op, a, b).value], ca + cb + 1))
  {
    var s2 := Pushed(Pushed(s, [a], ca), [b], cb);
    PushedTwice(s, [a], [b], ca, cb);
    assert s2.stack == s.stack + [a, b];
    BinaryStep(op, s2, s.stack, a, b);
    MoveAdds(s.position, s.dp, ca + cb, 1);
  }

  lemma RunArith(kind: Kind, l: Tree, r: Tree, s: State)
    requires kind != PowNode && WellFormed(Bin(kind, l, r)) && s.value == 1
    requires PushesValue(l, s)
    requires PushesValue(r, Pushed(s, [N(l)], CostFormula(l)))
    ensures PushesValue(Bin(kind, l, r), s)
  {
    CombineIsBinaryResult(kind, N(l), N(r));
    RunOperandsThenOp(TreeCode(l).value, TreeCode(r).value, OpOf(kind), s, N(l), N(r), CostFormula(l), CostFormula(r));
  }

  /** From a on top, m duplicates then m multiplications leave a^(m + 1) in its place. */
  lemma DuplicatesThenMultiplications(s: State, rest: seq<int>, a: int, m: nat)
    requires s.value == 1 && s.stack == rest + [a]
    ensures CallSeq(Repeat(Prim(Ops.Duplicate), m) + Repeat(Prim(Ops.Multiply), m), s)
            == Ok(s.(stack := rest + [Power(a, m + 1)], position := Move(s.position, s.dp, 2 * m)))
  {
    var dups, muls := Repeat(Prim(Ops.Duplicate), m), Repeat(Prim(Ops.Multiply), m);
    var s2 := Pushed(s, Repeat(a, m), m);
    Duplicates(m, s, rest, a);
    RepeatAdd(a, m, 1);
    assert Repeat(a, 1) == [a];
    assert s2.stack == rest + Repeat(a, m) + [a];
    Multiplications(m, s2, rest, a, a);
    PowerCommutes(a, m);
    MoveAdds(s.position, s.dp, m, m);
    CallSeqAppend(dups, muls, s);
  }

  /** After a push of a with ca codels, k - 1 duplicates then k - 1 multiplications leave a^k instead. */
  lemma PowerChain(b: State, a: int, ca: int, k: int)
    requires k >= 1 && b.value == 1
    ensures CallSeq(Repeat(Prim(Ops.Duplicate), k - 1) + Repeat(Prim(Ops.Multiply), k - 1), Pushed(b, [a], ca))
            == Ok(Pushed(b, [Power(a, k)], ca + 2 * (k - 1)))
  {
    DuplicatesThenMultiplications(Pushed(b, [a], ca), b.stack, a, k - 1);
    MoveAdds(b.position, b.dp, ca, 2 * (k - 1));
  }

  /** A code that pushes a, then k - 1 duplicates and k - 1 multiplications, pushes a^k. */
  lemma RunPowerChain(lc: Code, s: State, a: int, ca: int, k: int)
    requires k >= 1 && s.value == 1
    requires Call(lc, s) == Ok(Pushed(s, [a], ca))
    ensures CallSeq([lc] + (Repeat(Prim(Ops.Duplicate), k - 1) + Repeat(Prim(Ops.Multiply), k - 1)), s)
            == Ok(Pushed(s, [Power(a, k)], ca + 2 * (k - 1)))
  {
    var dups, muls := Repeat(Prim(Ops.Duplicate), k - 1), Repeat(Prim(Ops.Multiply), k - 1);
    CallSeqCons(lc, dups + muls, s);
    PowerChain(s, a, ca, k);
  }

  lemma RunPow(l: Tree, r: Tree, s: State)
    requires WellFormed(Bin(PowNode, l, r)) && s.value == 1
    requires PushesValue(l, s)
    ensures PushesValue(Bin(PowNode, l, r), s)
  {
    RunPowerChain(TreeCode(l).value, s, N(l), CostFormula(l), N(r));
  }

  lemma {:induction false} PowerCommutes(a: int, k: nat)
    ensures Power(a, k) * a == Power(a, k + 1)
  {
    if k > 0 {
      PowerCommutes(a, k - 1);
    }
  }

  /** `_precedence`: 10 for a leaf, 1 for + and -, 2 for * and //, 3 for **. */
  function Precedence(t: Tree): int {
    match t
    case Leaf(_) => 10
    case Bin(AddNode, _, _) => 1
    case Bin(SubNode, _, _) => 1
    case Bin(MultNode, _, _) => 2
    case Bin(DivNode, _, _) => 2
    case Bin(PowNode, _, _) => 3
  }

  function Symbol(kind: Kind): string {
    match kind
    case AddNode => "+"
    case SubNode => "-"
    case MultNode => "*"
    case DivNode => "//"
    case PowNode => "**"
  }

  /** A child's rendering, parenthesised when it binds no tighter than its parent. */
  function Operand(child: Tree, parent: Tree): string
    decreases child, 1
  {
    if Precedence(child) <= Precedence(parent) then "(" + Render(child) + ")" else Render(child)
  }

  /** `__str__`: the tree as a Python arithmetic expression. */
  function Render(t: Tree): string
    decreases t, 0
  {
    match t
    case Leaf(n) => Decimal(n)
    case Bin(kind, l, r) => Operand(l, t) + " " + Symbol(kind) + " " + Operand(r, t)
  }

  /** The renderings the tests expect for the sums and products. */
  lemma RenderSumProductExamples()
    ensures Render(Bin(AddNode, Leaf(16), Leaf(4))) == "16 + 4"
    ensures Render(Bin(SubNode, Leaf(16), Leaf(4))) == "16 - 4"
    ensures Render(Bin(MultNode, Leaf(16), Leaf(4))) == "16 * 4"
  {
    assert Render(Leaf(16)) == "16" && Render(Leaf(4)) == "4";
  }

  /** The renderings the tests expect for floor division and power. */
  lemma RenderDivPowExamples()
    ensures Render(Bin(DivNode, Leaf(20), Leaf(3))) == "20 // 3"
    ensures Render(Bin(PowNode, Leaf(3), Leaf(4))) == "3 ** 4"
  {
    assert Render(Leaf(20)) == "20" && Render(Leaf(3)) == "3" && Render(Leaf(4)) == "4";
  }

  /** A child that binds no tighter than its parent is parenthesised, on either side. */
  lemma RenderParenthesesExamples()
    ensures Render(Bin(SubNode, Leaf(7), Bin(SubNode, Leaf(3), Leaf(1)))) == "7 - (3 - 1)"
    ensures Render(Bin(MultNode, Bin(AddNode, Leaf(2), Leaf(3)), Leaf(4))) == "(2 + 3) * 4"
    ensures Render(Bin(AddNode, Bin(MultNode, Leaf(2), Leaf(3)), Leaf(4))) == "2 * 3 + 4"
  {
    assert Render(Leaf(7)) == "7" && Render(Leaf(3)) == "3" && Render(Leaf(1)) == "1";
    assert Render(Leaf(2)) == "2" && Render(Leaf(4)) == "4";
    assert Render(Bin(SubNode, Leaf(3), Leaf(1))) == "3 - 1";
    assert Render(Bin(AddNode, Leaf(2), Leaf(3))) == "2 + 3";
    assert Render(Bin(MultNode, Leaf(2), Leaf(3))) == "2 * 3";
  }

  /**
   * The rule for every node: each operand `Render` puts on either side of the operator is in
   * parentheses exactly when its precedence is at most the node's. So a leaf is never
   * parenthesised, and a child of the same level always is, on the left as on the right.
   */
  lemma RenderParenthesisRule(kind: Kind, l: Tree, r: Tree)
    ensures Operand(l, Bin(kind, l, r)) == "(" + Render(l) + ")" <==> Precedence(l) <= Precedence(Bin(kind, l, r))
    ensures Operand(r, Bin(kind, l, r)) == "(" + Render(r) + ")" <==> Precedence(r) <= Precedence(Bin(kind, l, r))
    ensures Operand(l, Bin(kind, l, r)) == Render(l) <==> Precedence(l) > Precedence(Bin(kind, l, r))
    ensures Operand(r, Bin(kind, l, r)) == Render(r) <==> Precedence(r) > Precedence(Bin(kind, l, r))
    ensures l.Leaf? ==> Operand(l, Bin(kind, l, r)) == Render(l)
    ensures Precedence(r) == Precedence(Bin(kind, l, r)) ==> Operand(r, Bin(kind, l, r)) == "(" + Render(r) + ")"
  {
    assert |"(" + Render(l) + ")"| != |Render(l)|;
    assert |"(" + Render(r) + ")"| != |Render(r)|;
  }

  /** The numbers and costs the tests expect. */
  lemma ValueAndCostExamples()
    ensures N(Bin(AddNode, Leaf(16), Leaf(4))) == 20 && Cost(Bin(AddNode, Leaf(16), Leaf(4))) == 21
    ensures N(Bin(SubNode, Leaf(16), Leaf(4))) == 12 && Cost(Bin(SubNode, Leaf(16), Leaf(4))) == 21
    ensures N(Bin(MultNode, Leaf(16), Leaf(4))) == 64 && Cost(Bin(MultNode, Leaf(16), Leaf(4))) == 21
    ensures N(Bin(DivNode, Leaf(20), Leaf(3))) == 6 && Cost(Bin(DivNode, Leaf(20), Leaf(3))) == 24
    ensures N(Bin(PowNode, Leaf(3), Leaf(4))) == 81 && Cost(Bin(PowNode, Leaf(3), Leaf(4))) == 9
    ensures Cost(Leaf(1)) == 1 && Cost(Leaf(2)) == 2 && Cost(Leaf(3)) == 3
  {
    CostIsFormula(Bin(AddNode, Leaf(16), Leaf(4)));
    CostIsFormula(Bin(SubNode, Leaf(16), Leaf(4)));
    CostIsFormula(Bin(MultNode, Leaf(16), Leaf(4)));
    CostIsFormula(Bin(DivNode, Leaf(20), Leaf(3)));
    CostIsFormula(Bin(PowNode, Leaf(3), Leaf(4)));
    CostIsFormula(Leaf(1));
    CostIsFormula(Leaf(2));
    CostIsFormula(Leaf(3));
  }

  /** A table of trees in which each entry's tree is well formed and pushes its key. */
  predicate Consistent(table: map<int, Tree>) {
    forall k :: k in table ==> WellFormed(table[k]) && N(table[k]) == k
  }

  /** `PushNumber(n)._tree`: the table's tree for n if there is one, a leaf otherwise. */
  function TreeFor(table: map<int, Tree>, n: int): (t: Tree)
    ensures n in table ==> t == table[n]
    ensures n !in table ==> t == Leaf(n)
  {
    if n in table then table[n] else Leaf(n)
  }

  /** `PushNumber(n)`: a macro holding the chosen tree. */
  function PushNumber(table: map<int, Tree>, n: int): Result<Code>
    requires Constructible(TreeFor(table, n))
  {
    var c :- TreeCode(TreeFor(table, n));
    Ok(Macro(Unguarded, [c]))
  }

  /** `decomposition`: the chosen tree's rendering. */
  function Decomposition(table: map<int, Tree>, n: int): string {
    Render(TreeFor(table, n))
  }

  /**
   * With a consistent table, `PushNumber(n)` for a positive n costs what its tree costs and,
   * from value 1, pushes exactly n.
   */
  lemma PushNumberSpec(table: map<int, Tree>, n: int, s: State)
    requires Consistent(table) && n >= 1 && s.value == 1
    ensures Constructible(TreeFor(table, n)) && PushNumber(table, n).Ok?
    ensures Macros.Size(PushNumber(table, n).value) == Cost(TreeFor(table, n))
    ensures Call(PushNumber(table, n).value, s) == Ok(Pushed(s, [n], Cost(TreeFor(table, n))))
  {
    var t := TreeFor(table, n);
    RunPushesValue(t, s);
    var c := TreeCode(t).value;
    assert [c] + [] == [c];
    CallSeqCons(c, [], s);
    SizeSeqCons(c, []);
    assert N(t) == n;
    assert PushNumber(table, n) == Ok(Macro(Unguarded, [c]));
  }
}
