/**
 * The number-tree optimizer (`PushNumberOptimizer` of hilbertpiet/cli/optimize_numbers.py and
 * of its older copy piet/cli/optimize_numbers.py, which differ in the name of the tree
 * attribute: the older copy reads `._ast`, which piet/numbers.py never defines, so its `_step`
 * would raise AttributeError; this model follows the newer copy). A table maps every number 1..max to a tree pushing it; five sweeps try to
 * rebuild each entry as `op(tree(i), tree(j))` and keep the candidate when it is strictly
 * cheaper.
 */
module Optimizer {
  import opened Outcomes
  import opened Numbers

  /** The cost of a well-formed tree, the `_cost` of the source: the size of its expansion. */
  function TreeCost(t: Tree): int
    requires WellFormed(t)
  {
    CostIsFormula(t);
    Cost(t)
  }

  /** The table invariant: keys exactly 1..max, each entry a well-formed tree for its key. */
  ghost predicate Table(t: map<int, Tree>, max: int) {
    (forall k :: k in t <==> 1 <= k <= max) && Consistent(t)
  }

  /** No entry of `t'` costs more than the same entry of `t`, and both have the same keys. */
  predicate NoCostlier(t': map<int, Tree>, t: map<int, Tree>)
    requires Consistent(t') && Consistent(t)
  {
    t'.Keys == t.Keys && forall k :: k in t ==> TreeCost(t'[k]) <= TreeCost(t[k])
  }

  /** The costs of entries 1..max, in key order. */
  function CostList(t: map<int, Tree>, max: int): (r: seq<int>)
    requires forall k :: 1 <= k <= max ==> k in t && WellFormed(t[k])
    ensures |r| == if max <= 0 then 0 else max
    ensures forall k :: 0 <= k < |r| ==> r[k] == TreeCost(t[k + 1])
  {
    seq(if max <= 0 then 0 else max, k requires 0 <= k < max => TreeCost(t[k + 1]))
  }

  function Sum(xs: seq<int>): int {
    if xs == [] then 0 else Sum(xs[..|xs| - 1]) + xs[|xs| - 1]
  }

  /** `_cost`: the sum of the entry costs over 1..max. */
  function SumCosts(t: map<int, Tree>, max: int): int
    requires forall k :: 1 <= k <= max ==> k in t && WellFormed(t[k])
  {
    Sum(CostList(t, max))
  }

  /** `range(a, b)` */
  function Range(a: int, b: int): (r: seq<int>)
    ensures forall k :: 0 <= k < |r| ==> a <= r[k] < b
  {
    seq(if b > a then b - a else 0, k => a + k)
  }

  /** `range(a, b, -1)` */
  function DownRange(a: int, b: int): (r: seq<int>)
    ensures forall k :: 0 <= k < |r| ==> b < r[k] <= a
  {
    seq(if a > b then a - b else 0, k => a - k)
  }

  /** The integer square root, standing for `int(sqrt(n))`. */
  function ISqrt(n: nat): (r: nat)
    ensures r * r <= n < (r + 1) * (r + 1)
  {
    if n == 0 then 0
    else
      var r := ISqrt(n - 1);
      if (r + 1) * (r + 1) <= n then r + 1 else r
  }

  /** The integer logarithm, standing for `int(log(n, b))`: the largest e with b^e <= n. */
  function ILog(n: int, b: int): (e: nat)
    requires n >= 1 && b >= 2
    ensures Power(b, e) <= n < Power(b, e + 1)
    decreases n
  {
    if n < b then 0
    else
      var e := ILog(n / b, b);
      ILogStep(n, b, e);
      e + 1
  }

  /** If b^e <= n // b < b^(e + 1) then b^(e + 1) <= n < b^(e + 2). */
  lemma ILogStep(n: int, b: int, e: nat)
    requires n >= 1 && b >= 2
    requires Power(b, e) <= n / b < Power(b, e + 1)
    ensures Power(b, e + 1) <= n < Power(b, e + 2)
  {
    var q := n / b;
    DivBounds(n, b);
    MulMonotone(b, Power(b, e), q);
    MulMonotone(b, q + 1, Power(b, e + 1));
    assert Power(b, e + 1) == b * Power(b, e);
    assert Power(b, e + 2) == b * Power(b, e + 1);
  }

  lemma DivBounds(n: int, b: int)
    requires b >= 1
    ensures b * (n / b) <= n < b * (n / b + 1)
  {
  }

  lemma MulMonotone(b: int, x: int, y: int)
    requires b >= 0 && x <= y
    ensures b * x <= b * y
  {
  }

  /** The outer range of each sweep. */
  function Outer(kind: Kind, max: int): seq<int> {
    match kind
    case AddNode => Range(2, max - 2 + 1)
    case SubNode => DownRange(max, 1)
    case MultNode => Range(2, max / 2 + 1)
    case DivNode => DownRange(max, 1)
    case PowNode => if max < 0 then [] else Range(2, ISqrt(max) + 1)
  }

  /** The inner range of each sweep, for one value i of the outer loop. */
  function Inner(kind: Kind, max: int, i: int): seq<int> {
    match kind
    case AddNode => Range(i, max - i + 1)
    case SubNode => Range(1, i)
    case MultNode => if i >= 1 then Range(i, max / i + 1) else []
    case DivNode => Range(2, i / 2)
    case PowNode => if max >= 1 && i >= 2 then Range(2, ILog(max, i) + 1) else []
  }

  /** `binary_op(i, j)`, the key a step may rewrite. */
  function Key(kind: Kind, i: int, j: int): Result<int> {
    Combine(kind, i, j)
  }

  /** What `_step(op, i, j)` needs to find in the table so that none of its lookups fails. */
  predicate CanStep(t: map<int, Tree>, kind: Kind, i: int, j: int) {
    Consistent(t) && i in t && j in t && Key(kind, i, j).Ok? && Key(kind, i, j).value in t
    && (kind == PowNode ==> j >= 1)
  }

  /** i, j and `op(i, j)` all lie in 1..max; an exponent is positive. */
  predicate InRange(kind: Kind, max: int, i: int, j: int) {
    1 <= i <= max && 1 <= j <= max && Key(kind, i, j).Ok? && 1 <= Key(kind, i, j).value <= max
    && (kind == PowNode ==> j >= 2)
  }

  /** In a table, a pair in range can be stepped. */
  lemma InRangeCanStep(t: map<int, Tree>, max: int, kind: Kind, i: int, j: int)
    requires Table(t, max) && InRange(kind, max, i, j)
    ensures CanStep(t, kind, i, j)
  {
  }

  /** `op(nums[i], nums[j])`: a well-formed tree for the key. */
  lemma CandidateWellFormed(t: map<int, Tree>, kind: Kind, i: int, j: int)
    requires CanStep(t, kind, i, j)
    ensures WellFormed(Bin(kind, t[i], t[j]))
    ensures N(Bin(kind, t[i], t[j])) == Key(kind, i, j).value
  {
  }

  /** The table after `_step(op, i, j)`: the key's entry takes the candidate only if strictly cheaper. */
  function Stepped(t: map<int, Tree>, kind: Kind, i: int, j: int): map<int, Tree> {
    if !CanStep(t, kind, i, j) then t
    else
      var key := Key(kind, i, j).value;
      var candidate := Bin(kind, t[i], t[j]);
      CandidateWellFormed(t, kind, i, j);
      if TreeCost(candidate) < TreeCost(t[key]) then t[key := candidate] else t
  }

  /**
   * A step keeps the table invariant, raises no cost, touches at most the entry `op(i, j)`,
   * and replaces that entry exactly when the candidate is strictly cheaper (a tie keeps it).
   */
  lemma StepSpec(t: map<int, Tree>, max: int, kind: Kind, i: int, j: int)
    requires Table(t, max) && CanStep(t, kind, i, j)
    ensures Table(Stepped(t, kind, i, j), max)
    ensures NoCostlier(Stepped(t, kind, i, j), t)
    ensures forall k :: k in t && k != Key(kind, i, j).value ==> Stepped(t, kind, i, j)[k] == t[k]
    ensures Stepped(t, kind, i, j) != t
            <==> TreeCost(Bin(kind, t[i], t[j])) < TreeCost(t[Key(kind, i, j).value])
    ensures Stepped(t, kind, i, j) != t ==> Stepped(t, kind, i, j)[Key(kind, i, j).value] == Bin(kind, t[i], t[j])
  {
    CandidateWellFormed(t, kind, i, j);
    var key := Key(kind, i, j).value;
    var candidate := Bin(kind, t[i], t[j]);
    if TreeCost(candidate) < TreeCost(t[key]) {
      assert Stepped(t, kind, i, j)[key] != t[key];
    }
  }

  /** The candidate costs l + r + 1 for + - * //, and l + 2 (j - 1) for **. */
  lemma CandidateCost(t: map<int, Tree>, kind: Kind, i: int, j: int)
    requires CanStep(t, kind, i, j)
    ensures WellFormed(Bin(kind, t[i], t[j]))
    ensures kind != PowNode ==> TreeCost(Bin(kind, t[i], t[j])) == TreeCost(t[i]) + TreeCost(t[j]) + 1
    ensures kind == PowNode ==> TreeCost(Bin(kind, t[i], t[j])) == TreeCost(t[i]) + 2 * (j - 1)
  {
    CandidateWellFormed(t, kind, i, j);
    var l, r := t[i], t[j];
    CostIsFormula(Bin(kind, l, r));
    CostIsFormula(l);
    if kind != PowNode {
      CostIsFormula(r);
    }
  }

  /** Every pair a sweep visits finds i, j and `op(i, j)` in 1..max, so no lookup misses. */
  lemma PairInRange(kind: Kind, max: int, a: int, b: int)
    requires 0 <= a < |Outer(kind, max)| && 0 <= b < |Inner(kind, max, Outer(kind, max)[a])|
    ensures InRange(kind, max, Outer(kind, max)[a], Inner(kind, max, Outer(kind, max)[a])[b])
  {
    var i := Outer(kind, max)[a];
    var j := Inner(kind, max, i)[b];
    match kind
    case AddNode =>
      assert i == 2 + a && i <= max - 2 && j == i + b && j <= max - i;
    case SubNode =>
      assert i == max - a && 2 <= i && j == 1 + b && j < i;
    case MultNode =>
      assert i == 2 + a && i <= max / 2 && j == i + b && j <= max / i;
      MultPairInRange(max, i, j);
    case DivNode =>
      assert i == max - a && 2 <= i && j == 2 + b && j < i / 2;
      DivPairInRange(max, i, j);
    case PowNode =>
      assert i == 2 + a && i <= ISqrt(max) && j == 2 + b && j <= ILog(max, i);
      PowerMonotone(i, j, ILog(max, i));
      MulMonotone(i, i, ISqrt(max));
      MulMonotone(ISqrt(max), i, ISqrt(max));
      PowPairInRange(max, i, j);
  }

  /** A larger exponent gives a larger power, for a base of at least 1. */
  lemma {:induction false} PowerMonotone(i: int, j: nat, e: nat)
    requires i >= 1 && j <= e
    ensures Power(i, j) <= Power(i, e)
    decreases e
  {
    if j < e {
      PowerMonotone(i, j, e - 1);
      PowerPositive(i, e - 1);
      MulMonotone(Power(i, e - 1), 1, i);
    }
  }

  lemma {:induction false} PowerPositive(i: int, e: nat)
    requires i >= 1
    ensures Power(i, e) >= 1
  {
    if e > 0 {
      PowerPositive(i, e - 1);
      MulMonotone(i, 1, Power(i, e - 1));
    }
  }

  lemma MultPairInRange(max: int, i: int, j: int)
    requires 2 <= i <= max / 2 && i <= j <= max / i
    ensures 1 <= j <= max && 1 <= i * j <= max
  {
    MulMonotone(i, j, max / i);
    assert i * (max / i) <= max;
    MulMonotone(j, 1, i);
  }

  lemma DivPairInRange(max: int, i: int, j: int)
    requires 2 <= i <= max && 2 <= j < i / 2
    ensures Key(DivNode, i, j) == Ok(i / j) && 1 <= i / j <= max
  {
    assert j * (i / j) <= i;
    assert i < j * (i / j + 1);
  }

  lemma PowPairInRange(max: int, i: int, j: int)
    requires 2 <= i && i * i <= max && 2 <= j && Power(i, j) <= max
    ensures 1 <= i <= max && 1 <= j <= max && 1 <= Power(i, j)
  {
    PowerBelow(i, j);
  }

  /** With a base of at least 2, an exponent stays below its power, which is at least the base. */
  lemma {:induction false} PowerBelow(i: int, j: nat)
    requires i >= 2 && j >= 1
    ensures j < Power(i, j) && i <= Power(i, j)
  {
    if j > 1 {
      PowerBelow(i, j - 1);
    }
  }

  /** The steps of one row, in loop order; the last step is applied last. */
  function StepRow(t: map<int, Tree>, kind: Kind, i: int, js: seq<int>): map<int, Tree>
    decreases |js|
  {
    if js == [] then t else Stepped(StepRow(t, kind, i, js[..|js| - 1]), kind, i, js[|js| - 1])
  }

  /** The rows of a sweep, in loop order. */
  function StepRows(t: map<int, Tree>, kind: Kind, max: int, xs: seq<int>): map<int, Tree>
    decreases |xs|
  {
    if xs == [] then t
    else
      var i := xs[|xs| - 1];
      StepRow(StepRows(t, kind, max, xs[..|xs| - 1]), kind, i, Inner(kind, max, i))
  }

  /** The table after `_optimize_add`, `_optimize_sub`, `_optimize_mult`, `_optimize_div` or `_optimize_pow`. */
  function Swept(t: map<int, Tree>, kind: Kind, max: int): map<int, Tree> {
    StepRows(t, kind, max, Outer(kind, max))
  }

  /** `[pow, mult, div, add, sub] * 2` */
  const Schedule: seq<Kind> := [PowNode, MultNode, DivNode, AddNode, SubNode] + [PowNode, MultNode, DivNode, AddNode, SubNode]

  function SweptAll(t: map<int, Tree>, max: int, kinds: seq<Kind>): map<int, Tree>
    decreases |kinds|
  {
    if kinds == [] then t else Swept(SweptAll(t, max, kinds[..|kinds| - 1]), kinds[|kinds| - 1], max)
  }

  lemma NoCostlierTransitive(t3: map<int, Tree>, t2: map<int, Tree>, t1: map<int, Tree>)
    requires Consistent(t3) && Consistent(t2) && Consistent(t1)
    requires NoCostlier(t3, t2) && NoCostlier(t2, t1)
    ensures NoCostlier(t3, t1)
  {
  }

  lemma {:induction false} StepRowSpec(t: map<int, Tree>, max: int, kind: Kind, i: int, js: seq<int>)
    requires Table(t, max)
    ensures Table(StepRow(t, kind, i, js), max) && NoCostlier(StepRow(t, kind, i, js), t)
    decreases |js|
  {
    if js != [] {
      var prev := StepRow(t, kind, i, js[..|js| - 1]);
      StepRowSpec(t, max, kind, i, js[..|js| - 1]);
      var j := js[|js| - 1];
      if CanStep(prev, kind, i, j) {
        StepSpec(prev, max, kind, i, j);
        NoCostlierTransitive(Stepped(prev, kind, i, j), prev, t);
      }
    }
  }

  lemma {:induction false} StepRowsSpec(t: map<int, Tree>, max: int, kind: Kind, xs: seq<int>)
    requires Table(t, max)
    ensures Table(StepRows(t, kind, max, xs), max) && NoCostlier(StepRows(t, kind, max, xs), t)
    decreases |xs|
  {
    if xs != [] {
      var prev := StepRows(t, kind, max, xs[..|xs| - 1]);
      StepRowsSpec(t, max, kind, xs[..|xs| - 1]);
      var i := xs[|xs| - 1];
      StepRowSpec(prev, max, kind, i, Inner(kind, max, i));
      NoCostlierTransitive(StepRow(prev, kind, i, Inner(kind, max, i)), prev, t);
    }
  }

  /** The whole schedule keeps the table invariant and raises neither any entry's cost nor the total. */
  lemma {:induction false} ScheduleSpec(t: map<int, Tree>, max: int, kinds: seq<Kind>)
    requires Table(t, max)
    ensures Table(SweptAll(t, max, kinds), max) && NoCostlier(SweptAll(t, max, kinds), t)
    ensures SumCosts(SweptAll(t, max, kinds), max) <= SumCosts(t, max)
    decreases |kinds|
  {
    if kinds != [] {
      var prev := SweptAll(t, max, kinds[..|kinds| - 1]);
      ScheduleSpec(t, max, kinds[..|kinds| - 1]);
      StepRowsSpec(prev, max, kinds[|kinds| - 1], Outer(kinds[|kinds| - 1], max));
      NoCostlierTransitive(SweptAll(t, max, kinds), prev, t);
    }
    SumCostsMonotone(SweptAll(t, max, kinds), t, max);
  }

  /** Lowering entry costs lowers the total. */
  lemma SumCostsMonotone(t': map<int, Tree>, t: map<int, Tree>, max: int)
    requires Table(t', max) && Table(t, max) && NoCostlier(t', t)
    ensures SumCosts(t', max) <= SumCosts(t, max)
  {
    CostListBelow(t', t, max);
    SumBelow(CostList(t', max), CostList(t, max));
  }

  lemma CostListBelow(t': map<int, Tree>, t: map<int, Tree>, max: int)
    requires Table(t', max) && Table(t, max) && NoCostlier(t', t)
    ensures var xs, ys := CostList(t', max), CostList(t, max);
      |xs| == |ys| && forall k :: 0 <= k < |xs| ==> xs[k] <= ys[k]
  {
    var xs, ys := CostList(t', max), CostList(t, max);
    forall k | 0 <= k < |xs| ensures xs[k] <= ys[k] {
      assert k + 1 in t;
    }
  }

  lemma {:induction false} SumBelow(xs: seq<int>, ys: seq<int>)
    requires |xs| == |ys| && forall k :: 0 <= k < |xs| ==> xs[k] <= ys[k]
    ensures Sum(xs) <= Sum(ys)
    decreases |xs|
  {
    if xs != [] {
      SumBelow(xs[..|xs| - 1], ys[..|ys| - 1]);
    }
  }

  /** Pointwise no larger and strictly smaller somewhere gives a strictly smaller sum. */
  lemma {:induction false} SumStrict(xs: seq<int>, ys: seq<int>, at: int)
    requires |xs| == |ys| && forall k :: 0 <= k < |xs| ==> xs[k] <= ys[k]
    requires 0 <= at < |xs| && xs[at] < ys[at]
    ensures Sum(xs) < Sum(ys)
    decreases |xs|
  {
    var n := |xs| - 1;
    if at == n {
      SumBelow(xs[..n], ys[..n]);
    } else {
      SumStrict(xs[..n], ys[..n], at);
    }
  }

  /** A step that replaces an entry lowers the total strictly; otherwise the table is the same. */
  lemma StepLowersTotal(t: map<int, Tree>, max: int, kind: Kind, i: int, j: int)
    requires Table(t, max) && CanStep(t, kind, i, j)
    ensures Table(Stepped(t, kind, i, j), max)
    ensures Stepped(t, kind, i, j) != t ==> SumCosts(Stepped(t, kind, i, j), max) < SumCosts(t, max)
  {
    StepSpec(t, max, kind, i, j);
    var t' := Stepped(t, kind, i, j);
    if t' != t {
      CostListBelow(t', t, max);
      SumStrict(CostList(t', max), CostList(t, max), Key(kind, i, j).value - 1);
    }
  }

  /** The table `__init__` builds: a leaf for every n in 1..max. */
  function Leaves(max: int): (t: map<int, Tree>)
    ensures Table(t, max)
  {
    map n | 1 <= n <= max :: Leaf(n)
  }

  /** Every leaf of the initial table costs its number, so the initial total is 1 + 2 + ... + max. */
  lemma LeavesTotal(max: int)
    requires max >= 0
    ensures forall n :: 1 <= n <= max ==> TreeCost(Leaves(max)[n]) == n
    ensures 2 * SumCosts(Leaves(max), max) == max * (max + 1)
  {
    var xs := CostList(Leaves(max), max);
    forall k | 0 <= k < |xs| ensures xs[k] == k + 1 {
      assert Leaves(max)[k + 1] == Leaf(k + 1);
      CostIsFormula(Leaf(k + 1));
    }
    forall n | 1 <= n <= max ensures TreeCost(Leaves(max)[n]) == n {
      assert xs[n - 1] == n;
    }
    SumOfFirst(xs);
  }

  lemma {:induction false} SumOfFirst(xs: seq<int>)
    requires forall k :: 0 <= k < |xs| ==> xs[k] == k + 1
    ensures 2 * Sum(xs) == |xs| * (|xs| + 1)
    decreases |xs|
  {
    if xs != [] {
      SumOfFirst(xs[..|xs| - 1]);
    }
  }

  /** One more row of a sweep. */
  lemma StepRowsNext(t: map<int, Tree>, kind: Kind, max: int, xs: seq<int>, a: nat)
    requires a < |xs|
    ensures StepRows(t, kind, max, xs[..a + 1]) == StepRow(StepRows(t, kind, max, xs[..a]), kind, xs[a], Inner(kind, max, xs[a]))
  {
    assert xs[..a + 1][..a] == xs[..a];
  }

  /** One more step of a row. */
  lemma StepRowNext(t: map<int, Tree>, kind: Kind, i: int, js: seq<int>, b: nat)
    requires b < |js|
    ensures StepRow(t, kind, i, js[..b + 1]) == Stepped(StepRow(t, kind, i, js[..b]), kind, i, js[b])
  {
    assert js[..b + 1][..b] == js[..b];
  }

  class PushNumberOptimizer {
    const maxNum: int
    var nums: map<int, Tree>

    ghost predicate Valid()
      reads this
    {
      Table(nums, maxNum)
    }

    /** `PushNumberOptimizer(max_num)`: every number 1..max_num starts as a leaf. */
    constructor (maxNum: int)
      ensures this.maxNum == maxNum && nums == Leaves(maxNum) && Valid()
    {
      this.maxNum := maxNum;
      nums := map n | 1 <= n <= maxNum :: Leaf(n);
    }

    /** `_cost`: total cost of the table. */
    function TotalCost(): int
      reads this
      requires Valid()
    {
      SumCosts(nums, maxNum)
    }

    /** `_step(op, i, j)`, called with pairs whose lookups all succeed. */
    method Step(kind: Kind, i: int, j: int)
      modifies this
      requires Valid() && InRange(kind, maxNum, i, j)
      ensures Valid() && nums == Stepped(old(nums), kind, i, j)
    {
      InRangeCanStep(nums, maxNum, kind, i, j);
      var key := Key(kind, i, j).value;
      var oldCost := TreeCost(nums[key]);
      CandidateWellFormed(nums, kind, i, j);
      var candidate := Bin(kind, nums[i], nums[j]);
      var newCost := TreeCost(candidate);
      if newCost < oldCost {
        nums := nums[key := candidate];
      }
      StepSpec(old(nums), maxNum, kind, i, j);
    }

    /**
     * One sweep: `for i in outer: for j in inner(i): _step(op, i, j)`. The power sweep takes
     * the square root of max_num first, which fails for a negative bound.
     */
    method Sweep(kind: Kind) returns (r: Outcome)
      modifies this
      requires Valid()
      ensures Valid()
      ensures r.Fail? <==> kind == PowNode && maxNum < 0
      ensures r.Fail? ==> r.error == MathDomain && nums == old(nums)
      ensures r.Pass? ==> nums == Swept(old(nums), kind, maxNum)
    {
      if kind == PowNode && maxNum < 0 {
        return Fail(MathDomain);
      }
      var xs := Outer(kind, maxNum);
      var a := 0;
      while a < |xs|
        invariant 0 <= a <= |xs| && Valid()
        invariant nums == StepRows(old(nums), kind, maxNum, xs[..a])
      {
        SweepRow(kind, a);
        StepRowsNext(old(nums), kind, maxNum, xs, a);
        a := a + 1;
      }
      assert xs[..a] == xs;
      r := Pass;
    }

    /** The inner loop of a sweep, for the a-th value i of the outer range. */
    method SweepRow(kind: Kind, a: int)
      modifies this
      requires Valid() && 0 <= a < |Outer(kind, maxNum)|
      ensures Valid()
      ensures var i := Outer(kind, maxNum)[a]; nums == StepRow(old(nums), kind, i, Inner(kind, maxNum, i))
    {
      var i := Outer(kind, maxNum)[a];
      var js := Inner(kind, maxNum, i);
      var b := 0;
      while b < |js|
        invariant 0 <= b <= |js| && Valid()
        invariant nums == StepRow(old(nums), kind, i, js[..b])
      {
        var j := js[b];
        PairInRange(kind, maxNum, a, b);
        Step(kind, i, j);
        StepRowNext(old(nums), kind, i, js, b);
        b := b + 1;
      }
      assert js[..b] == js;
    }

    method OptimizeAdd() returns (r: Outcome)
      modifies this
      requires Valid()
      ensures Valid() && r == Pass && nums == Swept(old(nums), AddNode, maxNum)
    {
      r := Sweep(AddNode);
    }

    method OptimizeSub() returns (r: Outcome)
      modifies this
      requires Valid()
      ensures Valid() && r == Pass && nums == Swept(old(nums), SubNode, maxNum)
    {
      r := Sweep(SubNode);
    }

    method OptimizeMult() returns (r: Outcome)
      modifies this
      requires Valid()
      ensures Valid() && r == Pass && nums == Swept(old(nums), MultNode, maxNum)
    {
      r := Sweep(MultNode);
    }

    method OptimizeDiv() returns (r: Outcome)
      modifies this
      requires Valid()
      ensures Valid() && r == Pass && nums == Swept(old(nums), DivNode, maxNum)
    {
      r := Sweep(DivNode);
    }

    method OptimizePow() returns (r: Outcome)
      modifies this
      requires Valid()
      ensures Valid()
      ensures r.Fail? <==> maxNum < 0
      ensures r.Pass? ==> nums == Swept(old(nums), PowNode, maxNum)
    {
      r := Sweep(PowNode);
    }
  }

  /**
   * The optimisation rounds of `main`: the schedule run in order on one optimizer. For a
   * non-negative bound it completes with the table ScheduleSpec describes.
   */
  method RunSchedule(opt: PushNumberOptimizer) returns (r: Outcome)
    modifies opt
    requires opt.Valid()
    ensures opt.Valid()
    ensures r.Fail? <==> opt.maxNum < 0
    ensures r.Pass? ==> opt.nums == SweptAll(old(opt.nums), opt.maxNum, Schedule)
  {
    assert Schedule[0] == PowNode;
    r := RunSweeps(opt, Schedule);
  }

  /** Sweeps of the given kinds in order; a power sweep over a negative bound stops the run. */
  method RunSweeps(opt: PushNumberOptimizer, kinds: seq<Kind>) returns (r: Outcome)
    modifies opt
    requires opt.Valid()
    ensures opt.Valid()
    ensures r.Fail? <==> opt.maxNum < 0 && PowNode in kinds
    ensures r.Pass? ==> opt.nums == SweptAll(old(opt.nums), opt.maxNum, kinds)
  {
    ghost var start := opt.nums;
    var n := 0;
    r := Pass;
    while n < |kinds|
      invariant 0 <= n <= |kinds| && opt.Valid()
      invariant opt.nums == SweptAll(start, opt.maxNum, kinds[..n])
      invariant opt.maxNum < 0 ==> forall k :: 0 <= k < n ==> kinds[k] != PowNode
    {
      r := opt.Sweep(kinds[n]);
      if r.Fail? {
        assert kinds[n] in kinds;
        return;
      }
      SweptAllNext(start, opt.maxNum, kinds, n);
      n := n + 1;
    }
    assert kinds[..n] == kinds;
    assert opt.maxNum < 0 ==> PowNode !in kinds;
    r := Pass;
  }

  /** One more sweep of the schedule. */
  lemma SweptAllNext(t: map<int, Tree>, max: int, kinds: seq<Kind>, n: nat)
    requires n < |kinds|
    ensures SweptAll(t, max, kinds[..n + 1]) == Swept(SweptAll(t, max, kinds[..n]), kinds[n], max)
  {
    var k := kinds[..n + 1];
    assert k[..|k| - 1] == kinds[..n] && k[|k| - 1] == kinds[n];
  }
}
