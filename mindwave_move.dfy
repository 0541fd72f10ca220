/**
 * The control loop of `simple_mindwave_move.py`: per packet from the headset it
 * detects double blinks (which switch the magnet), tracks attention and
 * meditation, decides whether the arm moves up or stops, and records the
 * calls it makes. The clock, the parsed JSON and the `cut_off` flag set by
 * the timer thread are inputs of each step.
 */
module MindwaveMove {
  import opened Wrappers
  import opened SeqLemmas

  datatype Motion = Down | Up

  /** Attention (or meditation) at or above this level moves the arm. */
  const Threshold: int := 60
  /** A blink stronger than this counts. */
  const BlinkThreshold: int := 30
  /** Two strong blinks closer than this many seconds form a double blink. */
  const DoubleBlinkWindow: real := 1.0
  /** The `last_blink` value meaning "no recent blink". */
  const NoBlink: real := -1000000.0

  datatype ESense = ESense(attention: int, meditation: int)

  /** The two fields of a headset packet the loop looks at. */
  datatype Packet = Packet(blinkStrength: Option<int>, eSense: Option<ESense>)

  /**
   * One line read from the headset: its parsed JSON, the clock when it is handled,
   * and the `cut_off` flag at that moment.
   */
  datatype Input = Input(packet: Packet, now: real, cutOff: bool)

  /** The loop's variables. */
  datatype LoopState = LoopState(lastBlink: real, attention: int, meditation: int, valid: bool, motion: Motion)

  /** The variables as the loop starts. */
  const Initial := LoopState(NoBlink, 0, 0, false, Down)

  /** What the loop does outside itself: robot calls and the rescheduling of the cut-off timer. */
  datatype Effect = ChangeMagnetState | MoveUp | MoveDown | Stopj | RefreshStopTask

  datatype StepResult = StepResult(next: LoopState, effects: seq<Effect>)

  predicate StrongBlink(p: Packet)
  {
    p.blinkStrength.Some? && p.blinkStrength.value > BlinkThreshold
  }

  /**
   * The decision on the robot: move up only in a valid state, without cut-off,
   * heading down, with enough attention; stop otherwise. The branch that would
   * move down can never be taken.
   */
  function Decide(s: LoopState, cutOff: bool): (e: Effect)
    ensures e == MoveUp <==> s.valid && !cutOff && s.motion == Down && s.attention >= Threshold
    ensures e == MoveUp || e == Stopj
    ensures e != MoveDown
  {
    if s.valid && !cutOff then
      if s.motion == Down then
        if s.attention >= Threshold then MoveUp else Stopj
      else if s.motion == Down then
        if s.meditation >= Threshold then MoveDown else Stopj
      else
        Stopj
    else
      Stopj
  }

  /** The loop variables after the blink and eSense parts of the body. */
  function Absorb(s: LoopState, p: Packet, now: real): LoopState
  {
    var lastBlink :=
      if !StrongBlink(p) then s.lastBlink
      else if now - s.lastBlink < DoubleBlinkWindow then NoBlink
      else now;
    match p.eSense
    case None => s.(lastBlink := lastBlink)
    case Some(e) =>
      s.(lastBlink := lastBlink, attention := e.attention, meditation := e.meditation,
         valid := e.attention + e.meditation > 0)
  }

  /** The calls the blink and eSense parts of the body make: the magnet switch, then the timer refresh. */
  function Reactions(s: LoopState, p: Packet, now: real): seq<Effect>
  {
    (if StrongBlink(p) && now - s.lastBlink < DoubleBlinkWindow then [ChangeMagnetState] else []) +
    (if p.eSense.Some? then [RefreshStopTask] else [])
  }

  /** One pass of the loop body over a parsed packet. */
  function Step(s: LoopState, p: Packet, now: real, cutOff: bool): (r: StepResult)
    ensures r.next.motion == s.motion
    ensures r.next.valid == (if p.eSense.Some? then p.eSense.value.attention + p.eSense.value.meditation > 0 else s.valid)
    ensures ChangeMagnetState in r.effects <==> StrongBlink(p) && now - s.lastBlink < DoubleBlinkWindow
    ensures RefreshStopTask in r.effects <==> p.eSense.Some?
    ensures |r.effects| >= 1 && r.effects[|r.effects| - 1] == Decide(r.next, cutOff)
  {
    var next := Absorb(s, p, now);
    StepResult(next, Reactions(s, p, now) + [Decide(next, cutOff)])
  }

  /** The loop over a sequence of lines. */
  function Run(s: LoopState, inputs: seq<Input>): StepResult
    decreases |inputs|
  {
    if inputs == [] then StepResult(s, [])
    else
      var first := Step(s, inputs[0].packet, inputs[0].now, inputs[0].cutOff);
      var rest := Run(first.next, inputs[1..]);
      StepResult(rest.next, first.effects + rest.effects)
  }

  /** The loop body for one line: it computes what `Step` describes. */
  method HandleLine(s: LoopState, input: Input) returns (next: LoopState, effects: seq<Effect>)
    ensures StepResult(next, effects) == Step(s, input.packet, input.now, input.cutOff)
  {
    var lastBlink, attention, meditation, valid, motion := s.lastBlink, s.attention, s.meditation, s.valid, s.motion;
    var packet := input.packet;
    effects := [];
    if packet.blinkStrength.Some? && packet.blinkStrength.value > BlinkThreshold {
      if input.now - lastBlink < DoubleBlinkWindow {
        lastBlink := NoBlink;
        effects := effects + [ChangeMagnetState];
      } else {
        lastBlink := input.now;
      }
    }
    if packet.eSense.Some? {
      effects := effects + [RefreshStopTask];
      attention := packet.eSense.value.attention;
      meditation := packet.eSense.value.meditation;
      valid := attention + meditation > 0;
    }
    next := LoopState(lastBlink, attention, meditation, valid, motion);
    assert next == Absorb(s, packet, input.now);
    assert effects == Reactions(s, packet, input.now);
    var decision := Choose(next, input.cutOff);
    assert decision == Decide(next, input.cutOff);
    effects := effects + [decision];
  }

  /**
   * The decision at the end of the loop body, taken branch by branch: move up exactly
   * when valid, not cut off, heading down and attentive enough; stop otherwise.
   */
  method Choose(s: LoopState, cutOff: bool) returns (e: Effect)
    ensures e == MoveUp <==> s.valid && !cutOff && s.motion == Down && s.attention >= Threshold
    ensures e == MoveUp || e == Stopj
  {
    if s.valid && !cutOff {
      if s.motion == Down {
        if s.attention >= Threshold {
          e := MoveUp;
        } else {
          e := Stopj;
        }
      } else if s.motion == Down {
        if s.meditation >= Threshold {
          e := MoveDown;
        } else {
          e := Stopj;
        }
      } else {
        e := Stopj;
      }
    } else {
      e := Stopj;
    }
  }

  /** The main loop, started from its initial variables; it computes what `Run` describes. */
  method MainLoop(inputs: seq<Input>) returns (final: LoopState, effects: seq<Effect>)
    ensures StepResult(final, effects) == Run(Initial, inputs)
  {
    var state := Initial;
    effects := [];
    var i := 0;
    while i < |inputs|
      invariant i <= |inputs|
      invariant Run(Initial, inputs) == StepResult(Run(state, inputs[i..]).next, effects + Run(state, inputs[i..]).effects)
    {
      var next, stepEffects := HandleLine(state, inputs[i]);
      assert inputs[i..][1..] == inputs[i + 1..];
      AppendAssociates(effects, stepEffects, Run(next, inputs[i + 1..]).effects);
      state, effects := next, effects + stepEffects;
      i := i + 1;
    }
    final := state;
  }

  /** The arm heads down at the start and nothing changes that: it never moves down either. */
  lemma {:induction false} MotionStaysDown(s: LoopState, inputs: seq<Input>)
    requires s.motion == Down
    ensures Run(s, inputs).next.motion == Down
    ensures MoveDown !in Run(s, inputs).effects
    decreases |inputs|
  {
    if inputs != [] {
      var first := Step(s, inputs[0].packet, inputs[0].now, inputs[0].cutOff);
      MotionStaysDown(first.next, inputs[1..]);
      assert first.effects == first.effects[..|first.effects| - 1] + [first.effects[|first.effects| - 1]];
      assert MoveDown !in first.effects[..|first.effects| - 1];
    }
  }

  /** The eSense reading of the last line that has one. */
  function LastESense(inputs: seq<Input>): Option<ESense>
    decreases |inputs|
  {
    if inputs == [] then None
    else
      match LastESense(inputs[1..])
      case Some(e) => Some(e)
      case None => inputs[0].packet.eSense
  }

  /**
   * Attention, meditation and validity come from the latest eSense reading;
   * the state is valid exactly when that reading is not all zero.
   */
  lemma {:induction false} ValidityFollowsLastESense(s: LoopState, inputs: seq<Input>)
    ensures var r := Run(s, inputs).next;
      match LastESense(inputs)
      case None => r.valid == s.valid && r.attention == s.attention && r.meditation == s.meditation
      case Some(e) => r.valid == (e.attention + e.meditation > 0) && r.attention == e.attention && r.meditation == e.meditation
    decreases |inputs|
  {
    if inputs != [] {
      var first := Step(s, inputs[0].packet, inputs[0].now, inputs[0].cutOff);
      ValidityFollowsLastESense(first.next, inputs[1..]);
    }
  }

  /** While the cut-off flag is set, the arm never moves. */
  lemma {:induction false} CutOffNeverMovesUp(s: LoopState, inputs: seq<Input>)
    requires forall k :: 0 <= k < |inputs| ==> inputs[k].cutOff
    ensures MoveUp !in Run(s, inputs).effects
    decreases |inputs|
  {
    if inputs != [] {
      var first := Step(s, inputs[0].packet, inputs[0].now, inputs[0].cutOff);
      CutOffNeverMovesUp(first.next, inputs[1..]);
      assert first.effects == first.effects[..|first.effects| - 1] + [first.effects[|first.effects| - 1]];
      assert MoveUp !in first.effects[..|first.effects| - 1];
    }
  }

  /** A valid reading with enough attention moves the arm up, unless cut off. */
  lemma AttentionMovesUp(s: LoopState, p: Packet, now: real)
    requires s.motion == Down
    requires p.eSense.Some? && p.eSense.value.attention >= Threshold && p.eSense.value.meditation >= 0
    ensures var r := Step(s, p, now, false); r.effects[|r.effects| - 1] == MoveUp
  {
  }

  /**
   * A double blink switches the magnet and forgets the blink, so a third strong
   * blink right after it starts a new pair instead of switching again.
   */
  lemma DoubleBlinkForgetsBlink(s: LoopState, p: Packet, now1: real, now2: real, cutOff1: bool, cutOff2: bool)
    requires StrongBlink(p) && now1 - s.lastBlink < DoubleBlinkWindow
    requires now2 >= 0.0
    ensures var r1 := Step(s, p, now1, cutOff1);
      var r2 := Step(r1.next, p, now2, cutOff2);
      ChangeMagnetState in r1.effects && r1.next.lastBlink == NoBlink &&
      ChangeMagnetState !in r2.effects && r2.next.lastBlink == now2
  {
  }

  /** A single strong blink is remembered with its time and switches nothing. */
  lemma SingleBlinkRemembered(s: LoopState, p: Packet, now: real, cutOff: bool)
    requires StrongBlink(p) && now - s.lastBlink >= DoubleBlinkWindow
    ensures var r := Step(s, p, now, cutOff);
      r.next.lastBlink == now && ChangeMagnetState !in r.effects
  {
  }

  /** A weak blink, or none, leaves the stored blink time alone and switches nothing. */
  lemma WeakBlinkIgnored(s: LoopState, p: Packet, now: real, cutOff: bool)
    requires !StrongBlink(p)
    ensures var r := Step(s, p, now, cutOff);
      r.next.lastBlink == s.lastBlink && ChangeMagnetState !in r.effects
  {
  }

  // ----- Lines 78 and 88 as written -----

  /**
   * The loop body as written: `hasattr` looks for an attribute, and the dict that
   * `json.loads` returns has none, so neither the blink nor the eSense branch is
   * ever taken, whatever the packet holds.
   */
  function StepAsWritten(s: LoopState, cutOff: bool): StepResult
  {
    StepResult(s, [Decide(s, cutOff)])
  }

  function RunAsWritten(s: LoopState, inputs: seq<Input>): StepResult
    decreases |inputs|
  {
    if inputs == [] then StepResult(s, [])
    else
      var first := StepAsWritten(s, inputs[0].cutOff);
      var rest := RunAsWritten(first.next, inputs[1..]);
      StepResult(rest.next, first.effects + rest.effects)
  }

  /** As written, the loop never leaves its initial state and only ever stops the arm. */
  lemma {:induction false} AsWrittenOnlyStops(s: LoopState, inputs: seq<Input>)
    requires !s.valid
    ensures RunAsWritten(s, inputs).next == s
    ensures |RunAsWritten(s, inputs).effects| == |inputs|
    ensures forall k :: 0 <= k < |inputs| ==> RunAsWritten(s, inputs).effects[k] == Stopj
    decreases |inputs|
  {
    if inputs != [] {
      AsWrittenOnlyStops(s, inputs[1..]);
    }
  }

  /** A packet with high attention: the written loop stops the arm, the intended one moves it up. */
  lemma AttentivePacketIgnoredAsWritten()
    ensures StepAsWritten(Initial, false).effects == [Stopj]
    ensures Step(Initial, Packet(None, Some(ESense(80, 20))), 0.0, false).effects == [RefreshStopTask, MoveUp]
  {
  }

  // ----- Line 51 as written -----

  /** What happens to the cut-off flag: the timer fires, or an eSense packet reschedules it. */
  datatype TimerEvent = Fired | Refreshed

  /**
   * The `cut_off` flag the loop reads after a series of timer events. The timer
   * sets the module-level flag. Rescheduling clears it only if
   * `refresh_stop_task` writes the module-level flag (`globalDeclared`); as
   * written it assigns a local of the same name, since only `stopTask` is
   * declared global there.
   */
  function CutOffAfter(cutOff: bool, events: seq<TimerEvent>, globalDeclared: bool): bool
    decreases |events|
  {
    if events == [] then cutOff
    else
      var next := match events[0] case Fired => true case Refreshed => if globalDeclared then false else cutOff;
      CutOffAfter(next, events[1..], globalDeclared)
  }

  /** As written, once the timer has fired the flag stays set, so the arm never moves again. */
  lemma {:induction false} CutOffLatchesAsWritten(events: seq<TimerEvent>)
    ensures CutOffAfter(true, events, false)
    decreases |events|
  {
    if events != [] {
      CutOffLatchesAsWritten(events[1..]);
    }
  }

  /** With the flag declared global, a fresh eSense packet clears the cut-off again. */
  lemma {:induction false} CutOffClearedByRefresh(cutOff: bool, events: seq<TimerEvent>)
    requires events != [] && events[|events| - 1] == Refreshed
    ensures !CutOffAfter(cutOff, events, true)
    decreases |events|
  {
    if |events| > 1 {
      var next := match events[0] case Fired => true case Refreshed => false;
      assert events[1..][|events[1..]| - 1] == Refreshed;
      CutOffClearedByRefresh(next, events[1..]);
    }
  }
}
