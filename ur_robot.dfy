/**
 * `URRobot`: the per-direction move counters with their caps, the strict box
 * check on the position a move would reach, the recalculation of a move that
 * would leave the box, the counter reset and the magnet switch. Positions read
 * over Modbus are a parameter; the scripts sent to the robot are logged.
 */
module URRobotModel {
  import opened SeqLemmas

  /** A TCP position in mm, as `get_tcp_position` reports it. */
  datatype Position = Position(x: real, y: real, z: real)

  /** A displacement in m, as `translate` takes it. */
  datatype Vector = Vector(x: real, y: real, z: real)

  // The box the arm may reach, in mm.
  const MaxX: real := 100.0
  const MaxY: real := -750.0
  const MaxZ: real := 400.0
  const MinX: real := -300.0
  const MinY: real := -850.0
  const MinZ: real := 6.0

  /** `next_position`: where a translation by v would take the TCP, in m. */
  function NextPosition(tcp: Position, v: Vector): (next: Vector)
    ensures next.x * 1000.0 == tcp.x + v.x * 1000.0
    ensures next.y * 1000.0 == tcp.y + v.y * 1000.0
    ensures next.z * 1000.0 == tcp.z + v.z * 1000.0
  {
    Vector(tcp.x / 1000.0 + v.x, tcp.y / 1000.0 + v.y, tcp.z / 1000.0 + v.z)
  }

  /** The open box: every coordinate strictly between its bounds. */
  predicate InsideBox(x: real, y: real, z: real)
  {
    MinX < x < MaxX && MinY < y < MaxY && MinZ < z < MaxZ
  }

  /** `is_within_boundaries`: 1 when the move by v ends strictly inside the box, else 0. */
  function IsWithinBoundaries(tcp: Position, v: Vector): (r: int)
    ensures r == 0 || r == 1
    ensures r == 1 <==> InsideBox(tcp.x + v.x * 1000.0, tcp.y + v.y * 1000.0, tcp.z + v.z * 1000.0)
  {
    var next := NextPosition(tcp, v);
    var x := next.x * 1000.0;
    var y := next.y * 1000.0;
    var z := next.z * 1000.0;
    if MinX < x < MaxX && MinY < y < MaxY && MinZ < z < MaxZ then 1 else 0
  }

  /** A move that ends exactly on a bound is refused: the box is open. */
  lemma BoundIsOutside(tcp: Position, v: Vector)
    requires tcp.x + v.x * 1000.0 == MaxX || tcp.x + v.x * 1000.0 == MinX ||
             tcp.y + v.y * 1000.0 == MaxY || tcp.y + v.y * 1000.0 == MinY ||
             tcp.z + v.z * 1000.0 == MaxZ || tcp.z + v.z * 1000.0 == MinZ
    ensures IsWithinBoundaries(tcp, v) == 0
  {
  }

  /**
   * One axis of `recalculate_position`: below the minimum, the displacement (in m)
   * that reaches the minimum; above the maximum, the one that reaches the maximum;
   * otherwise the next coordinate itself, in mm, as the source returns it.
   */
  function RecalculateAxis(current: real, next: real, lo: real, hi: real): (r: real)
    requires lo <= hi
    ensures next < lo ==> current + r * 1000.0 == lo
    ensures next > hi ==> current + r * 1000.0 == hi
    ensures lo <= next <= hi ==> r == next
  {
    if next < lo then (lo - current) / 1000.0
    else if next > hi then (hi - current) / 1000.0
    else next
  }

  /**
   * `recalculate_position`: per axis, a coordinate the move would take below its
   * minimum or above its maximum is replaced by the displacement that reaches that
   * bound; a coordinate in range comes back as the next coordinate itself, in mm.
   */
  function RecalculatePosition(tcp: Position, v: Vector): (r: Vector)
    ensures tcp.x + v.x * 1000.0 < MinX ==> tcp.x + r.x * 1000.0 == MinX
    ensures tcp.x + v.x * 1000.0 > MaxX ==> tcp.x + r.x * 1000.0 == MaxX
    ensures MinX <= tcp.x + v.x * 1000.0 <= MaxX ==> r.x == tcp.x + v.x * 1000.0
    ensures tcp.y + v.y * 1000.0 < MinY ==> tcp.y + r.y * 1000.0 == MinY
    ensures tcp.y + v.y * 1000.0 > MaxY ==> tcp.y + r.y * 1000.0 == MaxY
    ensures MinY <= tcp.y + v.y * 1000.0 <= MaxY ==> r.y == tcp.y + v.y * 1000.0
    ensures tcp.z + v.z * 1000.0 < MinZ ==> tcp.z + r.z * 1000.0 == MinZ
    ensures tcp.z + v.z * 1000.0 > MaxZ ==> tcp.z + r.z * 1000.0 == MaxZ
    ensures MinZ <= tcp.z + v.z * 1000.0 <= MaxZ ==> r.z == tcp.z + v.z * 1000.0
  {
    var next := NextPosition(tcp, v);
    Vector(
      RecalculateAxis(tcp.x, next.x * 1000.0, MinX, MaxX),
      RecalculateAxis(tcp.y, next.y * 1000.0, MinY, MaxY),
      RecalculateAxis(tcp.z, next.z * 1000.0, MinZ, MaxZ))
  }

  /**
   * A recalculated move brings an axis that was strictly outside exactly onto its
   * bound, which the strict check then refuses: recalculation never rescues a move
   * that leaves the box on some axis.
   */
  lemma RecalculatedMoveStillRefused(tcp: Position, v: Vector)
    requires !(MinX <= tcp.x + v.x * 1000.0 <= MaxX) ||
             !(MinY <= tcp.y + v.y * 1000.0 <= MaxY) ||
             !(MinZ <= tcp.z + v.z * 1000.0 <= MaxZ)
    ensures IsWithinBoundaries(tcp, RecalculatePosition(tcp, v)) == 0
  {
    var r := RecalculatePosition(tcp, v);
    var next := NextPosition(tcp, v);
    assert next.x * 1000.0 == tcp.x + v.x * 1000.0;
    assert next.y * 1000.0 == tcp.y + v.y * 1000.0;
    assert next.z * 1000.0 == tcp.z + v.z * 1000.0;
    BoundIsOutside(tcp, r);
  }

  datatype Direction = Right | Left | Up | Down | Forward | Backward

  /** The counter each move decrements. */
  function Opposite(d: Direction): Direction
  {
    match d
    case Right => Left
    case Left => Right
    case Up => Down
    case Down => Up
    case Forward => Backward
    case Backward => Forward
  }

  /** A move is made only while its own counter is below this cap. */
  function Cap(d: Direction): int
  {
    match d
    case Right => 3
    case Left => 3
    case Up => 2
    case Down => 3
    case Forward => 3
    case Backward => 3
  }

  /** The displacement each `move_*` method asks for, in m. */
  function StepVector(d: Direction): Vector
  {
    match d
    case Right => Vector(0.10, 0.0, 0.0)
    case Left => Vector(-0.10, 0.0, 0.0)
    case Up => Vector(0.0, 0.02, 0.098)
    case Down => Vector(0.0, -0.02, -0.098)
    case Forward => Vector(0.0, -0.05, 0.0)
    case Backward => Vector(0.0, 0.05, 0.0)
  }

  /** The displacement a move tries: its step, recalculated when the step leaves the box. */
  function PlannedVector(d: Direction, tcp: Position): Vector
  {
    var v := StepVector(d);
    if IsWithinBoundaries(tcp, v) == 0 then RecalculatePosition(tcp, v) else v
  }

  /**
   * A step that fails the first box check stays refused after recalculation: the
   * recalculated vector never turns a refused step into an allowed one.
   */
  lemma StepOutsideStaysRefused(d: Direction, tcp: Position)
    requires IsWithinBoundaries(tcp, StepVector(d)) == 0
    ensures IsWithinBoundaries(tcp, PlannedVector(d, tcp)) == 0
  {
    var v := StepVector(d);
    var r := RecalculatePosition(tcp, v);
    if !(MinX <= tcp.x + v.x * 1000.0 <= MaxX) || !(MinY <= tcp.y + v.y * 1000.0 <= MaxY) ||
       !(MinZ <= tcp.z + v.z * 1000.0 <= MaxZ) {
      RecalculatedMoveStillRefused(tcp, v);
    } else {
      // Every axis is in range and one lies on a bound; the in-range axes come back
      // in mm, and the y coordinate, between -850 and -750 mm, is then taken as metres.
      assert r.y == tcp.y + v.y * 1000.0;
      assert tcp.y + r.y * 1000.0 < MinY;
    }
  }

  /** The six move counters. */
  datatype MoveCounts = MoveCounts(right: int, left: int, down: int, up: int, forward: int, backward: int)

  const Zero := MoveCounts(0, 0, 0, 0, 0, 0)

  function Count(c: MoveCounts, d: Direction): int
  {
    match d
    case Right => c.right
    case Left => c.left
    case Up => c.up
    case Down => c.down
    case Forward => c.forward
    case Backward => c.backward
  }

  /** A successful move in direction d: its own counter up by one, the opposite one down by one. */
  function Moved(c: MoveCounts, d: Direction): (r: MoveCounts)
    ensures Count(r, d) == Count(c, d) + 1
    ensures Count(r, Opposite(d)) == Count(c, Opposite(d)) - 1
    ensures forall e :: e != d && e != Opposite(d) ==> Count(r, e) == Count(c, e)
  {
    match d
    case Right => c.(right := c.right + 1, left := c.left - 1)
    case Left => c.(left := c.left + 1, right := c.right - 1)
    case Up => c.(up := c.up + 1, down := c.down - 1)
    case Down => c.(down := c.down + 1, up := c.up - 1)
    case Forward => c.(forward := c.forward + 1, backward := c.backward - 1)
    case Backward => c.(backward := c.backward + 1, forward := c.forward - 1)
  }

  /** A move is made when its counter is below the cap and the planned move stays in the box. */
  predicate MayMove(c: MoveCounts, d: Direction, tcp: Position)
  {
    Count(c, d) < Cap(d) && IsWithinBoundaries(tcp, PlannedVector(d, tcp)) == 1
  }

  /** A move is made exactly when its counter is below the cap and its own step stays in the box. */
  lemma MayMoveIffStepInside(c: MoveCounts, d: Direction, tcp: Position)
    ensures MayMove(c, d, tcp) <==> Count(c, d) < Cap(d) && IsWithinBoundaries(tcp, StepVector(d)) == 1
  {
    if IsWithinBoundaries(tcp, StepVector(d)) == 0 {
      StepOutsideStaysRefused(d, tcp);
    }
  }

  /**
   * Opposite counters cancel out, and each counter lies between minus the cap of
   * the opposite direction and its own cap.
   */
  ghost predicate Consistent(c: MoveCounts)
  {
    c.left == -c.right && c.down == -c.up && c.backward == -c.forward &&
    -3 <= c.right <= 3 && -3 <= c.up <= 2 && -3 <= c.forward <= 3
  }

  /** A move whose counter is below its cap keeps the counters balanced and within their caps. */
  lemma MovedKeepsInvariants(c: MoveCounts, d: Direction)
    requires Consistent(c) && Count(c, d) < Cap(d)
    ensures Consistent(Moved(c, d))
  {
  }

  /** What the robot is asked to do: a move, a counter reset with the TCP position it moves from. */
  datatype Operation = MoveOp(d: Direction, tcp: Position) | Reset

  function Apply(c: MoveCounts, op: Operation): MoveCounts
  {
    match op
    case MoveOp(d, tcp) => if MayMove(c, d, tcp) then Moved(c, d) else c
    case Reset => Zero
  }

  /** A guarded move and the reset keep the counters balanced and within their caps. */
  lemma ApplyKeepsInvariants(c: MoveCounts, op: Operation)
    requires Consistent(c)
    ensures Consistent(Apply(c, op))
  {
    if op.MoveOp? && MayMove(c, op.d, op.tcp) {
      MovedKeepsInvariants(c, op.d);
    }
  }

  /** The counters after a sequence of operations. */
  function Replay(c: MoveCounts, ops: seq<Operation>): MoveCounts
    decreases |ops|
  {
    if ops == [] then c else Replay(Apply(c, ops[0]), ops[1..])
  }

  lemma {:induction false} ReplayKeepsInvariants(c: MoveCounts, ops: seq<Operation>)
    requires Consistent(c)
    ensures Consistent(Replay(c, ops))
    decreases |ops|
  {
    if ops != [] {
      ApplyKeepsInvariants(c, ops[0]);
      ReplayKeepsInvariants(Apply(c, ops[0]), ops[1..]);
    }
  }

  /** From the initial counters, whatever the moves and resets, the counters stay in range. */
  lemma ReachableCounterBounds(ops: seq<Operation>)
    ensures var c := Replay(Zero, ops);
      -3 <= c.right <= 3 && -3 <= c.left <= 3 && -3 <= c.up <= 2 && -2 <= c.down <= 3 &&
      -3 <= c.forward <= 3 && -3 <= c.backward <= 3
  {
    ReplayKeepsInvariants(Zero, ops);
  }

  /** Resetting twice is the same as resetting once. */
  lemma RefreshIsIdempotent(c: MoveCounts)
    ensures Apply(Apply(c, Reset), Reset) == Apply(c, Reset)
    ensures Apply(c, Reset) == Zero
  {
  }

  /** A script sent to the robot's secondary port. */
  datatype Command = Translate(v: Vector) | Stopj | SetIo(io: int, value: bool)

  /** The digital output the magnet is wired to. */
  const MagnetOutput: int := 8

  /** The commands n successive `change_magnet_state` calls send, as written: the flag is never updated. */
  function MagnetCommandsAsWritten(active: int, n: nat): seq<Command>
  {
    if n == 0 then [] else MagnetCommandsAsWritten(active, n - 1) + [SetIo(MagnetOutput, active == 0)]
  }

  /** As written, the magnet is switched on by every call and never released. */
  lemma {:induction false} MagnetNeverReleasedAsWritten(n: nat)
    ensures |MagnetCommandsAsWritten(0, n)| == n
    ensures forall k :: 0 <= k < n ==> MagnetCommandsAsWritten(0, n)[k] == SetIo(MagnetOutput, true)
  {
    if n > 0 {
      MagnetNeverReleasedAsWritten(n - 1);
    }
  }

  /** The magnet flag after n switches that each flip it. */
  function ActiveAfter(active: int, n: nat): int
  {
    if n % 2 == 0 then active else 1 - active
  }

  /** The commands n successive calls send when each call also flips the flag, as documented. */
  function MagnetCommandsToggled(active: int, n: nat): seq<Command>
  {
    if n == 0 then []
    else MagnetCommandsToggled(active, n - 1) + [SetIo(MagnetOutput, ActiveAfter(active, n - 1) == 0)]
  }

  /** With the flag flipped, calls alternate: on, off, on, ... from an inactive magnet. */
  lemma {:induction false} ToggledMagnetAlternates(active: int, n: nat)
    requires active == 0 || active == 1
    ensures |MagnetCommandsToggled(active, n)| == n
    ensures forall k :: 0 <= k < n ==>
      MagnetCommandsToggled(active, n)[k] == SetIo(MagnetOutput, (active == 0) == (k % 2 == 0))
  {
    if n > 0 {
      ToggledMagnetAlternates(active, n - 1);
    }
  }

  class URRobot {
    /** The six move counters (`right_moves` ... `backward_moves`). */
    var counts: MoveCounts
    /** 1 if the magnet is active, 0 otherwise. */
    var isMagnetActive: int
    /** The scripts sent to the robot, oldest first. */
    var sent: seq<Command>

    ghost predicate Valid()
      reads this
    {
      Consistent(counts) && (isMagnetActive == 0 || isMagnetActive == 1)
    }

    /** `__init__`: every counter and the magnet flag start at 0. */
    constructor ()
      ensures Valid()
      ensures counts == Zero && isMagnetActive == 0 && sent == []
    {
      counts := Zero;
      isMagnetActive := 0;
      sent := [];
    }

    /**
     * The body shared by the six `move_*` methods: recalculate the step if it leaves
     * the box, then translate and count the move if the counter is below its cap and
     * the (recalculated) move stays in the box, else stop.
     */
    method Move(d: Direction, tcp: Position)
      requires Valid()
      modifies this`counts, this`sent
      ensures Valid()
      ensures counts == Apply(old(counts), MoveOp(d, tcp))
      ensures sent == old(sent) + [if MayMove(old(counts), d, tcp) then Translate(PlannedVector(d, tcp)) else Stopj]
    {
      ApplyKeepsInvariants(counts, MoveOp(d, tcp));
      var vector := StepVector(d);
      if IsWithinBoundaries(tcp, vector) == 0 {
        vector := RecalculatePosition(tcp, vector);
      }
      if Count(counts, d) < Cap(d) && IsWithinBoundaries(tcp, vector) == 1 {
        sent := sent + [Translate(vector)];
        counts := Moved(counts, d);
      } else {
        sent := sent + [Stopj];
      }
    }

    method MoveRight(tcp: Position)
      requires Valid()
      modifies this`counts, this`sent
      ensures Valid()
      ensures counts == Apply(old(counts), MoveOp(Right, tcp))
      ensures sent == old(sent) + [if MayMove(old(counts), Right, tcp) then Translate(PlannedVector(Right, tcp)) else Stopj]
    {
      Move(Right, tcp);
    }

    method MoveLeft(tcp: Position)
      requires Valid()
      modifies this`counts, this`sent
      ensures Valid()
      ensures counts == Apply(old(counts), MoveOp(Left, tcp))
      ensures sent == old(sent) + [if MayMove(old(counts), Left, tcp) then Translate(PlannedVector(Left, tcp)) else Stopj]
    {
      Move(Left, tcp);
    }

    method MoveUp(tcp: Position)
      requires Valid()
      modifies this`counts, this`sent
      ensures Valid()
      ensures counts == Apply(old(counts), MoveOp(Up, tcp))
      ensures sent == old(sent) + [if MayMove(old(counts), Up, tcp) then Translate(PlannedVector(Up, tcp)) else Stopj]
    {
      Move(Up, tcp);
    }

    method MoveDown(tcp: Position)
      requires Valid()
      modifies this`counts, this`sent
      ensures Valid()
      ensures counts == Apply(old(counts), MoveOp(Down, tcp))
      ensures sent == old(sent) + [if MayMove(old(counts), Down, tcp) then Translate(PlannedVector(Down, tcp)) else Stopj]
    {
      Move(Down, tcp);
    }

    method MoveForward(tcp: Position)
      requires Valid()
      modifies this`counts, this`sent
      ensures Valid()
      ensures counts == Apply(old(counts), MoveOp(Forward, tcp))
      ensures sent == old(sent) + [if MayMove(old(counts), Forward, tcp) then Translate(PlannedVector(Forward, tcp)) else Stopj]
    {
      Move(Forward, tcp);
    }

    method MoveBackward(tcp: Position)
      requires Valid()
      modifies this`counts, this`sent
      ensures Valid()
      ensures counts == Apply(old(counts), MoveOp(Backward, tcp))
      ensures sent == old(sent) + [if MayMove(old(counts), Backward, tcp) then Translate(PlannedVector(Backward, tcp)) else Stopj]
    {
      Move(Backward, tcp);
    }

    /** `change_magnet_state` as written: it sends the switch command but never updates the flag. */
    method ChangeMagnetState()
      requires Valid()
      modifies this`sent
      ensures Valid()
      ensures sent == old(sent) + MagnetCommandsAsWritten(isMagnetActive, 1)
      ensures sent == old(sent) + [SetIo(MagnetOutput, isMagnetActive == 0)]
    {
      if isMagnetActive == 0 {
        sent := sent + [SetIo(MagnetOutput, true)];
      } else {
        sent := sent + [SetIo(MagnetOutput, false)];
      }
    }

    /** The documented behaviour of `change_magnet_state`: switch the magnet and record its new state. */
    method ToggleMagnet()
      requires Valid()
      modifies this`sent, this`isMagnetActive
      ensures Valid()
      ensures isMagnetActive == 1 - old(isMagnetActive)
      ensures sent == old(sent) + [SetIo(MagnetOutput, old(isMagnetActive) == 0)]
      ensures old(sent) + MagnetCommandsToggled(old(isMagnetActive), 1) == sent
    {
      if isMagnetActive == 0 {
        sent := sent + [SetIo(MagnetOutput, true)];
        isMagnetActive := 1;
      } else {
        sent := sent + [SetIo(MagnetOutput, false)];
        isMagnetActive := 0;
      }
    }

    /** n successive `change_magnet_state` calls, as written. */
    method ChangeMagnetStateTimes(n: nat)
      requires Valid()
      modifies this`sent
      ensures Valid()
      ensures sent == old(sent) + MagnetCommandsAsWritten(isMagnetActive, n)
    {
      var i := 0;
      while i < n
        invariant i <= n
        invariant Valid()
        invariant sent == old(sent) + MagnetCommandsAsWritten(isMagnetActive, i)
      {
        ChangeMagnetState();
        AppendAssociates(old(sent), MagnetCommandsAsWritten(isMagnetActive, i), [SetIo(MagnetOutput, isMagnetActive == 0)]);
        i := i + 1;
      }
    }

    /** n successive switches that each flip the flag, as documented. */
    method ToggleMagnetTimes(n: nat)
      requires Valid()
      modifies this`sent, this`isMagnetActive
      ensures Valid()
      ensures isMagnetActive == ActiveAfter(old(isMagnetActive), n)
      ensures sent == old(sent) + MagnetCommandsToggled(old(isMagnetActive), n)
    {
      var i := 0;
      while i < n
        invariant i <= n
        invariant Valid()
        invariant isMagnetActive == ActiveAfter(old(isMagnetActive), i)
        invariant sent == old(sent) + MagnetCommandsToggled(old(isMagnetActive), i)
      {
        ghost var before := isMagnetActive;
        ToggleMagnet();
        AppendAssociates(old(sent), MagnetCommandsToggled(old(isMagnetActive), i), [SetIo(MagnetOutput, before == 0)]);
        i := i + 1;
      }
    }

    /** `refresh_movement_count`: all six counters back to 0, nothing else changes. */
    method RefreshMovementCount()
      requires Valid()
      modifies this`counts
      ensures Valid()
      ensures counts == Apply(old(counts), Reset) == Zero
    {
      counts := Zero;
    }
  }

  /** Two `change_magnet_state` calls on a fresh robot, as written: both switch the magnet on. */
  method MagnetTwiceAsWritten() returns (commands: seq<Command>)
    ensures commands == [SetIo(MagnetOutput, true), SetIo(MagnetOutput, true)]
  {
    var robot := new URRobot();
    robot.ChangeMagnetStateTimes(2);
    commands := robot.sent;
    assert MagnetCommandsAsWritten(0, 1) == [SetIo(MagnetOutput, true)];
  }

  /** Two switches on a fresh robot with the flag flipped: on, then off. */
  method MagnetTwiceToggled() returns (commands: seq<Command>)
    ensures commands == [SetIo(MagnetOutput, true), SetIo(MagnetOutput, false)]
  {
    var robot := new URRobot();
    robot.ToggleMagnetTimes(2);
    commands := robot.sent;
    assert MagnetCommandsToggled(0, 1) == [SetIo(MagnetOutput, true)];
  }
}
