/**
 * The execution context of a Piet program (hilbertpiet/context.py): stack, value register,
 * position of the next codel, direction pointer and output.
 *
 * The source encodes positions and directions as complex numbers whose imaginary axis
 * points south. Here a position is an integer pair and the direction pointer is an index
 * into the clockwise sequence East, South, West, North, so that a quarter turn clockwise
 * (multiplication by 1j) adds one modulo 4.
 */
module Contexts {
  import opened Outcomes

  /** 0 East, 1 South, 2 West, 3 North. */
  type Dir = d: int | 0 <= d < 4

  const East: Dir := 0
  const South: Dir := 1
  const West: Dir := 2
  const North: Dir := 3

  /** An integer pair; as a Gaussian integer x + y·1j it stands for a Python complex. */
  datatype Vec = Vec(x: int, y: int) {
    function Plus(other: Vec): Vec {
      Vec(x + other.x, y + other.y)
    }

    function Scale(k: int): Vec {
      Vec(k * x, k * y)
    }
  }

  const Origin := Vec(0, 0)

  /** The unit step of a direction: 1, 1j, -1 or -1j. */
  function Unit(d: Dir): Vec {
    if d == 0 then Vec(1, 0) else if d == 1 then Vec(0, 1) else if d == 2 then Vec(-1, 0) else Vec(0, -1)
  }

  /** Multiplication of a complex number by 1j: a quarter turn clockwise on screen. */
  function QuarterTurn(v: Vec): Vec {
    Vec(-v.y, v.x)
  }

  /** `v * 1j ** k` for a non-negative k. */
  function QuarterTurns(v: Vec, k: nat): Vec {
    if k == 0 then v else QuarterTurn(QuarterTurns(v, k - 1))
  }

  /** The direction a complex dp value denotes, if it is one of the four admitted ones. */
  function DirOf(v: Vec): (r: Option<Dir>)
    ensures r.Some? <==> v in {Vec(1, 0), Vec(0, 1), Vec(-1, 0), Vec(0, -1)}
    ensures r.Some? ==> Unit(r.value) == v
  {
    if v == Vec(1, 0) then Some(East)
    else if v == Vec(0, 1) then Some(South)
    else if v == Vec(-1, 0) then Some(West)
    else if v == Vec(0, -1) then Some(North)
    else None
  }

  /** `dp * 1j ** k`: k quarter turns clockwise, anticlockwise when k is negative. */
  function Rotate(d: Dir, k: int): Dir {
    (d + k) % 4
  }

  /** `position + steps * dp`, written per direction so that it stays linear. */
  function Move(p: Vec, d: Dir, steps: int): Vec {
    if d == 0 then Vec(p.x + steps, p.y)
    else if d == 1 then Vec(p.x, p.y + steps)
    else if d == 2 then Vec(p.x - steps, p.y)
    else Vec(p.x, p.y - steps)
  }

  /** Moving a steps then b steps along the same direction is moving a + b steps. */
  lemma MoveAdds(p: Vec, d: Dir, a: int, b: int)
    ensures Move(Move(p, d, a), d, b) == Move(p, d, a + b)
  {
  }

  /** Move is the complex update `position += steps * dp` of the source. */
  lemma MoveIsScaledUnit(p: Vec, d: Dir, steps: int)
    ensures Move(p, d, steps) == p.Plus(Unit(d).Scale(steps))
  {
  }

  /** The fields of a Context at one moment. */
  datatype State = State(stack: seq<int>, value: int, position: Vec, dp: Dir, output: seq<int>)

  /** `Context()`: the context every program run starts from. */
  function Default(): State {
    State([], 0, Origin, East, [])
  }

  /** `Context()` is the constructor applied to its default arguments, which pass the dp check. */
  lemma DefaultIsMake()
    ensures Make([], 0, Origin, Vec(1, 0), []) == Ok(Default())
  {
  }

  /** `Context(stack, value, position, dp, output)`, which rejects any other dp than the four units. */
  function Make(stack: seq<int>, value: int, position: Vec, dp: Vec, output: seq<int>): (r: Result<State>)
    ensures r.Err? <==> dp !in {Vec(1, 0), Vec(0, 1), Vec(-1, 0), Vec(0, -1)}
    ensures r.Err? ==> r.error == InvalidDp
    ensures r.Ok? ==> r.value.stack == stack && r.value.value == value && r.value.position == position
                      && Unit(r.value.dp) == dp && r.value.output == output
  {
    match DirOf(dp)
    case None => Err(InvalidDp)
    case Some(d) => Ok(State(stack, value, position, d, output))
  }

  /** The state after `update_position(steps)`. */
  function Moved(s: State, steps: int): State {
    s.(position := Move(s.position, s.dp, steps))
  }

  /** The state after `rotate_dp(steps)`. */
  function Turned(s: State, steps: int): State {
    s.(dp := Rotate(s.dp, steps))
  }

  /** Moving by a then by b is moving by a + b, and nothing but the position changes. */
  lemma UpdatePositionAdds(s: State, a: int, b: int)
    ensures Moved(Moved(s, a), b) == Moved(s, a + b)
    ensures Moved(s, a).(position := s.position) == s
  {
  }

  /** rotate_dp agrees with the complex multiplication `dp * 1j ** k` of the source. */
  lemma RotateIsComplexPower(d: Dir, k: nat)
    ensures Unit(Rotate(d, k)) == QuarterTurns(Unit(d), k)
  {
    RotateZero(d);
    var i := 0;
    while i < k
      invariant i <= k
      invariant Unit(Rotate(d, i)) == QuarterTurns(Unit(d), i)
    {
      i := i + 1;
      RotateOneMore(d, i);
    }
  }

  lemma RotateZero(d: Dir)
    ensures Rotate(d, 0) == d
  {
  }

  /** The inductive step: one more quarter turn of the vector is one more step of the index. */
  lemma RotateOneMore(d: Dir, k: nat)
    requires k >= 1
    requires Unit(Rotate(d, k - 1)) == QuarterTurns(Unit(d), k - 1)
    ensures Unit(Rotate(d, k)) == QuarterTurns(Unit(d), k)
  {
    var r := Rotate(d, k - 1);
    RotateStep(d, k - 1);
    QuarterTurnIsRotate(r);
  }

  lemma RotateStep(d: Dir, k: int)
    ensures Rotate(d, k + 1) == Rotate(Rotate(d, k), 1)
  {
    var q := (d + k) / 4;
    assert d + k == 4 * q + Rotate(d, k);
    assert d + k + 1 == 4 * q + (Rotate(d, k) + 1);
  }

  /** One quarter turn of a unit vector is the unit of the next direction clockwise. */
  lemma QuarterTurnIsRotate(d: Dir)
    ensures Unit(Rotate(d, 1)) == QuarterTurn(Unit(d))
  {
    if d == 3 {
      assert Rotate(d, 1) == 0;
    } else {
      assert Rotate(d, 1) == d + 1;
    }
  }

  /** A negative count turns anticlockwise: `1j ** -k` is `1j ** (4 - k % 4)`. */
  lemma RotateNegative(d: Dir, k: int)
    ensures Rotate(d, -k) == Rotate(d, (4 - k % 4) % 4)
  {
  }

  /** Turning k times and then back -k times restores dp; four quarter turns are a full turn. */
  lemma RotateInverse(d: Dir, k: int)
    ensures Rotate(Rotate(d, k), -k) == d
    ensures Rotate(d, 4) == d
    ensures Rotate(d, k + 4) == Rotate(d, k)
  {
  }

  /** A mutable Context, as the operations of the source update it in place. */
  class Context {
    var stack: seq<int>
    var value: int
    var position: Vec
    var dp: Dir
    var output: seq<int>

    function Snapshot(): State
      reads this
    {
      State(stack, value, position, dp, output)
    }

    /** A context holding the given fields. */
    constructor FromState(s: State)
      ensures Snapshot() == s
    {
      stack, value, position, dp, output := s.stack, s.value, s.position, s.dp, s.output;
    }

    /** `Context()` */
    constructor Fresh()
      ensures Snapshot() == Default()
    {
      stack, value, position, dp, output := [], 0, Origin, East, [];
    }

    /** `Context(stack, value, position, dp, output)`: ValueError unless dp is a unit direction. */
    static method New(stack: seq<int>, value: int, position: Vec, dp: Vec, output: seq<int>)
      returns (r: Result<Context>)
      ensures r.Err? <==> Make(stack, value, position, dp, output).Err?
      ensures r.Err? ==> r.error == InvalidDp
      ensures r.Ok? ==> fresh(r.value) && r.value.Snapshot() == Make(stack, value, position, dp, output).value
    {
      var d := DirOf(dp);
      if d.None? {
        r := Err(InvalidDp);
      } else {
        var c := new Context.FromState(State(stack, value, position, d.value, output));
        r := Ok(c);
      }
    }

    /** `update_position(steps)`: position moves `steps` units along dp. */
    method UpdatePosition(steps: int)
      modifies this
      ensures Snapshot() == Moved(old(Snapshot()), steps)
    {
      position := Move(position, dp, steps);
    }

    /** `rotate_dp(steps)`: dp turns `steps` quarter turns clockwise. */
    method RotateDp(steps: int)
      modifies this
      ensures Snapshot() == Turned(old(Snapshot()), steps)
    {
      dp := Rotate(dp, steps);
    }

    /** Dataclass equality: two contexts are equal exactly when all five fields are. */
    method Equals(other: Context) returns (eq: bool)
      ensures eq <==> Snapshot() == other.Snapshot()
    {
      eq := stack == other.stack && value == other.value && position == other.position
            && dp == other.dp && output == other.output;
    }
  }
}
