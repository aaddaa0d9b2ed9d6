/**
 * The older execution context (piet/context.py): a stack, a value register, the position
 * of the next codel and the direction pointer, with no output field. Positions and
 * directions are encoded as in the Contexts module.
 */
module LegacyContexts {
  import opened Outcomes
  import opened Contexts

  /** The four fields of a piet Context at one moment; dataclass equality compares exactly these. */
  datatype Frame = Frame(stack: seq<int>, value: int, position: Vec, dp: Dir)

  /** `Context()`: empty stack, value 0, position 0 and dp 1 (East). */
  function DefaultFrame(): Frame {
    Frame([], 0, Origin, East)
  }

  /** `Context(stack, value, position, dp)`: ValueError for a dp other than 1, 1j, -1 and -1j. */
  function MakeFrame(stack: seq<int>, value: int, position: Vec, dp: Vec): (r: Result<Frame>)
    ensures r.Err? <==> DirOf(dp).None?
    ensures r.Err? ==> r.error == InvalidDp
    ensures r.Ok? ==> r.value.stack == stack && r.value.value == value && r.value.position == position
                      && Unit(r.value.dp) == dp
  {
    match DirOf(dp)
    case None => Err(InvalidDp)
    case Some(d) => Ok(Frame(stack, value, position, d))
  }

  /** The default arguments pass the dp check and give the default context. */
  lemma DefaultFrameIsMake()
    ensures MakeFrame([], 0, Origin, Vec(1, 0)) == Ok(DefaultFrame())
  {
  }

  /** Exactly the four unit directions are accepted as dp. */
  lemma MakeFrameAcceptsUnits(dp: Vec)
    ensures MakeFrame([], 0, Origin, dp).Ok? <==> dp in {Vec(1, 0), Vec(0, 1), Vec(-1, 0), Vec(0, -1)}
  {
  }

  /** The frame after `update_position(steps)`: `position += steps * dp`. */
  function Stepped(f: Frame, steps: int): Frame {
    f.(position := Move(f.position, f.dp, steps))
  }

  /** The frame after `rotate_dp(steps)`: `dp *= 1j ** steps`. */
  function Rotated(f: Frame, steps: int): Frame {
    f.(dp := Rotate(f.dp, steps))
  }

  /** Two moves add up; a move changes nothing but the position. */
  lemma SteppedAdds(f: Frame, a: int, b: int)
    ensures Stepped(Stepped(f, a), b) == Stepped(f, a + b)
    ensures Stepped(f, a).(position := f.position) == f
    ensures Stepped(f, a).position == f.position.Plus(Unit(f.dp).Scale(a))
  {
    MoveAdds(f.position, f.dp, a, b);
    MoveIsScaledUnit(f.position, f.dp, a);
  }

  /** Turning k and then -k restores the frame; four quarter turns are a full turn; a turn changes nothing but dp. */
  lemma RotatedInverse(f: Frame, k: int)
    ensures Rotated(Rotated(f, k), -k) == f
    ensures Rotated(f, 4) == f
    ensures Rotated(f, k).(dp := f.dp) == f
  {
    RotateInverse(f.dp, k);
  }

  /** A mutable piet Context. */
  class LegacyContext {
    var stack: seq<int>
    var value: int
    var position: Vec
    var dp: Dir

    function Snapshot(): Frame
      reads this
    {
      Frame(stack, value, position, dp)
    }

    constructor FromFrame(f: Frame)
      ensures Snapshot() == f
    {
      stack, value, position, dp := f.stack, f.value, f.position, f.dp;
    }

    /** `Context(stack, value, position, dp)`, raising ValueError on an invalid dp. */
    static method New(stack: seq<int>, value: int, position: Vec, dp: Vec) returns (r: Result<LegacyContext>)
      ensures r.Err? <==> MakeFrame(stack, value, position, dp).Err?
      ensures r.Err? ==> r.error == InvalidDp
      ensures r.Ok? ==> fresh(r.value) && r.value.Snapshot() == MakeFrame(stack, value, position, dp).value
    {
      var d := DirOf(dp);
      if d.None? {
        r := Err(InvalidDp);
      } else {
        var c := new LegacyContext.FromFrame(Frame(stack, value, position, d.value));
        r := Ok(c);
      }
    }

    /** `update_position(steps)` */
    method UpdatePosition(steps: int)
      modifies this
      ensures Snapshot() == Stepped(old(Snapshot()), steps)
    {
      position := Move(position, dp, steps);
    }

    /** `rotate_dp(steps)` */
    method RotateDp(steps: int)
      modifies this
      ensures Snapshot() == Rotated(old(Snapshot()), steps)
    {
      dp := Rotate(dp, steps);
    }

    /** `deepcopy(context)`: a new context equal field by field, which shares nothing with this one. */
    method DeepCopy() returns (c: LegacyContext)
      ensures fresh(c) && c.Snapshot() == Snapshot()
    {
      c := new LegacyContext.FromFrame(Frame(stack, value, position, dp));
    }
  }
}
