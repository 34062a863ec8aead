/** The MoveForward locomotion ability: what its enter, update and exit
    callbacks do to the character each frame. */
module MoveForwardAbility {
  import opened Geometry
  import opened Character

  /** Which movement rule an update applies (chosen by UseMomentum, then Constant). */
  datatype Mode = MomentumMode | ConstantMode | ControlledMode

  function ModeOf(useMomentum: bool, constant: bool): Mode {
    if useMomentum then MomentumMode else if constant then ConstantMode else ControlledMode
  }

  /** A value a mode may or may not set. */
  datatype Option<T> = None | Some(value: T)

  /** Mathf.Lerp's factor for bleeding momentum off against a wall is dt times this. */
  const WallDrag: real := 1.5

  /** StartingMomentum is applied only above this threshold. */
  const MomentumThreshold: real := 0.001

  // ---------------------------------------------------------------------------
  // Momentum

  /** The AIR_MOMENTUM slot after one UpdateMomentum, as written: m is the value
      read on entry and step the per-frame increment. The slot is overwritten
      in program order (right input, left input, wall drag, clamp), so the last
      write that fires wins; the clamp tests m, not the value just written. */
  function MomentumAfter(m: real, step: real, blocking: BlockingData, moveRight: bool, moveLeft: bool,
                         maxMomentum: real, dt: real): real
  {
    var afterRight := if !blocking.RightSideBlocked && moveRight then m + step else m;
    var afterLeft := if !blocking.LeftSideBlocked && moveLeft then m - step else afterRight;
    var afterDrag := if blocking.RightSideBlocked || blocking.LeftSideBlocked
                     then LerpScalar(m, 0.0, dt * WallDrag) else afterLeft;
    if Abs(m) >= maxMomentum && m > 0.0 then maxMomentum
    else if Abs(m) >= maxMomentum && m < 0.0 then -maxMomentum
    else afterDrag
  }

  /** The outcome of one momentum tick as a priority table: a clamp on the
      entry value beats the wall drag, which beats the left input, which beats
      the right input. */
  lemma MomentumPriority(m: real, step: real, blocking: BlockingData, moveRight: bool, moveLeft: bool,
                         maxMomentum: real, dt: real)
    ensures var r := MomentumAfter(m, step, blocking, moveRight, moveLeft, maxMomentum, dt);
      && (Abs(m) >= maxMomentum && m != 0.0 ==> r == (if m > 0.0 then maxMomentum else -maxMomentum))
      && (!(Abs(m) >= maxMomentum && m != 0.0) ==>
            r == (if blocking.RightSideBlocked || blocking.LeftSideBlocked then LerpScalar(m, 0.0, dt * WallDrag)
                  else if moveLeft then m - step
                  else if moveRight then m + step
                  else m))
  {
  }

  /** With both inputs held and neither side blocked, the left input's write
      overwrites the right input's: momentum moves by -step. */
  lemma LeftOverridesRight(m: real, step: real, maxMomentum: real, dt: real)
    requires Abs(m) < maxMomentum
    ensures MomentumAfter(m, step, BlockingData(false, false, 0), true, true, maxMomentum, dt) == m - step
  {
  }

  /** Against a wall the momentum bleeds toward 0 without changing sign or
      growing, whatever the inputs. */
  lemma WallDragShrinks(m: real, step: real, blocking: BlockingData, moveRight: bool, moveLeft: bool,
                        maxMomentum: real, dt: real)
    requires blocking.RightSideBlocked || blocking.LeftSideBlocked
    requires Abs(m) < maxMomentum
    ensures var r := MomentumAfter(m, step, blocking, moveRight, moveLeft, maxMomentum, dt);
      Abs(r) <= Abs(m) && (m >= 0.0 ==> r >= 0.0) && (m <= 0.0 ==> r <= 0.0)
  {
    LerpScalarWithin(m, 0.0, dt * WallDrag);
  }

  /** One tick moves the momentum by at most one step in magnitude (for a
      non-negative maximum). */
  lemma MomentumStepBound(m: real, step: real, blocking: BlockingData, moveRight: bool, moveLeft: bool,
                          maxMomentum: real, dt: real)
    requires maxMomentum >= 0.0
    ensures Abs(MomentumAfter(m, step, blocking, moveRight, moveLeft, maxMomentum, dt)) <= Abs(m) + Abs(step)
  {
    LerpScalarWithin(m, 0.0, dt * WallDrag);
  }

  /** The bound the code does keep: with steps of at most bound, a momentum
      within bound of the maximum stays within bound of it. A value past the
      maximum is pulled back to exactly ±maxMomentum on the next tick. */
  lemma MomentumWithinOneStep(m: real, step: real, blocking: BlockingData, moveRight: bool, moveLeft: bool,
                              maxMomentum: real, dt: real, bound: real)
    requires maxMomentum >= 0.0 && Abs(step) <= bound
    requires Abs(m) <= maxMomentum + bound
    ensures Abs(MomentumAfter(m, step, blocking, moveRight, moveLeft, maxMomentum, dt)) <= maxMomentum + bound
    ensures Abs(m) > maxMomentum ==> Abs(MomentumAfter(m, step, blocking, moveRight, moveLeft, maxMomentum, dt)) == maxMomentum
  {
    MomentumStepBound(m, step, blocking, moveRight, moveLeft, maxMomentum, dt);
  }

  /** The clamp does not keep the stored momentum within ±maxMomentum: from
      4.9 with a step of 0.2 and the right input held, one tick stores 5.1
      although the maximum is 5. */
  lemma MomentumCanOvershoot()
    ensures MomentumAfter(4.9, 0.2, BlockingData(false, false, 0), true, false, 5.0, 0.02) == 5.1
    ensures Abs(MomentumAfter(4.9, 0.2, BlockingData(false, false, 0), true, false, 5.0, 0.02)) > 5.0
  {
  }

  /** What one UpdateMomentum call reads besides the stored momentum: this
      frame's step (SpeedGraph * Speed * Time.deltaTime), blocking, inputs and
      Time.deltaTime. */
  datatype Tick = Tick(step: real, blocking: BlockingData, moveRight: bool, moveLeft: bool, dt: real)

  /** The momentum after a run of ticks, each with its own inputs, starting from m. */
  function MomentumRun(m: real, ticks: seq<Tick>, maxMomentum: real): real
    decreases |ticks|
  {
    if ticks == [] then m
    else
      var t := ticks[0];
      MomentumRun(MomentumAfter(m, t.step, t.blocking, t.moveRight, t.moveLeft, maxMomentum, t.dt), ticks[1..], maxMomentum)
  }

  /** However many ticks run, and whatever each tick's inputs, blocking and
      step, a momentum that starts within bound of the maximum never leaves
      that band, where bound is any bound on the magnitude of the run's steps. */
  lemma {:induction false} MomentumRunBounded(m: real, ticks: seq<Tick>, maxMomentum: real, bound: real)
    requires maxMomentum >= 0.0
    requires forall i :: 0 <= i < |ticks| ==> Abs(ticks[i].step) <= bound
    requires Abs(m) <= maxMomentum + bound
    ensures Abs(MomentumRun(m, ticks, maxMomentum)) <= maxMomentum + bound
    decreases |ticks|
  {
    if ticks != [] {
      var t := ticks[0];
      MomentumWithinOneStep(m, t.step, t.blocking, t.moveRight, t.moveLeft, maxMomentum, t.dt, bound);
      MomentumRunBounded(MomentumAfter(m, t.step, t.blocking, t.moveRight, t.moveLeft, maxMomentum, t.dt),
                         ticks[1..], maxMomentum, bound);
    }
  }

  /** n ticks of the same tick. */
  function Repeat(t: Tick, n: nat): (r: seq<Tick>)
    ensures |r| == n && forall i :: 0 <= i < n ==> r[i] == t
  {
    if n == 0 then [] else [t] + Repeat(t, n - 1)
  }

  /** A frame in the open with only the right input held. */
  function HoldRight(step: real, dt: real): Tick {
    Tick(step, BlockingData(false, false, 0), true, false, dt)
  }

  /** step added i times. */
  function StepsSum(i: nat, step: real): real
    decreases i
  {
    if i == 0 then 0.0 else StepsSum(i - 1, step) + step
  }

  /** StepsSum(i, step) is i * step. */
  lemma {:induction false} StepsSumIsProduct(i: nat, step: real)
    ensures StepsSum(i, step) == (i as real) * step
    decreases i
  {
    if i > 0 {
      StepsSumIsProduct(i - 1, step);
      assert (i as real) * step == ((i - 1) as real) * step + step;
    }
  }

  /** For a positive step, more steps are more momentum, and any number of
      steps is non-negative. */
  lemma {:induction false} StepsIncrease(i: nat, k: nat, step: real)
    requires step > 0.0 && i <= k
    ensures 0.0 <= StepsSum(i, step) <= StepsSum(k, step)
    ensures i < k ==> StepsSum(i, step) < StepsSum(k, step)
    decreases k
  {
    if k > 0 {
      if i < k {
        StepsIncrease(i, k - 1, step);
      } else {
        StepsIncrease(i - 1, k - 1, step);
      }
    }
  }

  /** Holding right in the open from rest, with a maximum of k >= 1 steps, the
      momentum after n frames is min(n, k) steps: it climbs one step per frame
      and then holds at the maximum. */
  lemma AccelerateFromRest(n: nat, k: nat, step: real, dt: real)
    requires step > 0.0 && k >= 1
    ensures MomentumRun(0.0, Repeat(HoldRight(step, dt), n), (k as real) * step)
            == ((if n <= k then n else k) as real) * step
  {
    AccelerateFrom(0, n, k, step, dt);
    StepsSumIsProduct(k, step);
    StepsSumIsProduct(if n <= k then n else k, step);
  }

  /** The same from i steps. */
  lemma {:induction false} AccelerateFrom(i: nat, n: nat, k: nat, step: real, dt: real)
    requires step > 0.0 && 1 <= k && i <= k
    ensures MomentumRun(StepsSum(i, step), Repeat(HoldRight(step, dt), n), StepsSum(k, step))
            == StepsSum(if i + n <= k then i + n else k, step)
    decreases n
  {
    if n > 0 {
      var next := if i < k then i + 1 else k;
      var ticks := Repeat(HoldRight(step, dt), n);
      assert ticks[0] == HoldRight(step, dt) && ticks[1..] == Repeat(HoldRight(step, dt), n - 1);
      StepsTick(i, k, step, dt);
      AccelerateFrom(next, n - 1, k, step, dt);
    }
  }

  /** One open frame with right held from i steps, under a maximum of k steps:
      one step more below the maximum, the maximum at it. */
  lemma StepsTick(i: nat, k: nat, step: real, dt: real)
    requires step > 0.0 && 1 <= k && i <= k
    ensures MomentumAfter(StepsSum(i, step), step, BlockingData(false, false, 0), true, false, StepsSum(k, step), dt)
            == StepsSum(if i < k then i + 1 else k, step)
  {
    StepsIncrease(i, k, step);
    if i == k {
      StepsIncrease(0, k, step);
    }
  }

  // ---------------------------------------------------------------------------
  // Facing, translation and animator booleans of an update

  /** The facing FaceForward leaves behind: the requested one when turning is
      possible, otherwise the old one. */
  function FacedZ(forwardZ: real, canTurn: bool, forward: bool): real {
    if canTurn then RotationForwardZ(forward) else forwardZ
  }

  /** Facing after OnEnter's early turn: FaceForward(false) on the left input
      and then FaceForward(true) on the right input, so right wins. */
  function EarlyTurnZ(forwardZ: real, turn: bool, canTurn: bool, moveLeft: bool, moveRight: bool): real {
    var afterLeft := if turn && moveLeft then FacedZ(forwardZ, canTurn, false) else forwardZ;
    if turn && moveRight then FacedZ(afterLeft, canTurn, true) else afterLeft
  }

  /** The early turn faces the character the way of the input it gets, the
      right input when both are held; otherwise facing is kept. */
  lemma EarlyTurnFaces(forwardZ: real, turn: bool, canTurn: bool, moveLeft: bool, moveRight: bool)
    ensures var z := EarlyTurnZ(forwardZ, turn, canTurn, moveLeft, moveRight);
      && (turn && canTurn && moveRight ==> z > 0.0)
      && (turn && canTurn && moveLeft && !moveRight ==> z < 0.0)
      && (!turn || !canTurn || (!moveLeft && !moveRight) ==> z == forwardZ)
  {
  }

  /** Facing after CheckTurn: transform.rotation is set for the right input and
      then for the left input, so left wins; nothing is set when the direction
      is locked. It does not go through FaceForward, so no scene check applies. */
  function CheckTurnZ(forwardZ: real, lockDirection: bool, moveRight: bool, moveLeft: bool): real {
    var afterRight := if !lockDirection && moveRight then RotationForwardZ(true) else forwardZ;
    if !lockDirection && moveLeft then RotationForwardZ(false) else afterRight
  }

  /** Facing after UpdateMomentum: toward the sign of the entry momentum m
      (through FaceForward), unchanged for m == 0. */
  function MomentumFacingZ(forwardZ: real, canTurn: bool, m: real): real {
    if m > 0.0 then FacedZ(forwardZ, canTurn, true)
    else if m < 0.0 then FacedZ(forwardZ, canTurn, false)
    else forwardZ
  }

  /** After a momentum tick the character faces the way the entry momentum
      points (when it can turn), not the way the new momentum points. */
  lemma MomentumFacesEntrySign(forwardZ: real, canTurn: bool, m: real)
    ensures var z := MomentumFacingZ(forwardZ, canTurn, m);
      && (canTurn && m != 0.0 ==> (z > 0.0 <==> m > 0.0))
      && (!canTurn || m == 0.0 ==> z == forwardZ)
  {
  }

  /** The translation UpdateMomentum issues: one by the magnitude of the
      entry momentum, unless the front is blocked, taken along the facing z
      the character has after turning (the turn comes before the step). */
  function MomentumTranslations(speed: real, m: real, dt: real, blocked: bool, z: real): seq<Translation> {
    if blocked then [] else [Translation(speed, Abs(m), dt, z)]
  }

  /** The translations ConstantMove issues: one when the front is not
      blocked, backward (negated speed) exactly when it moves on hit while
      facing the attacker; it never turns, so the step is along forwardZ. */
  function ConstantTranslations(speed: real, graph: real, dt: real, blocked: bool, moveOnHit: bool,
                                facingAttacker: bool, forwardZ: real): seq<Translation>
  {
    if blocked then []
    else if moveOnHit && facingAttacker then [Translation(-speed, graph, dt, forwardZ)]
    else [Translation(speed, graph, dt, forwardZ)]
  }

  /** The translations ControlledMove issues: with exactly one of the inputs
      held and the front not blocked, one; otherwise none. The step comes
      before CheckTurn, so it is taken along the facing forwardZ of the start
      of the frame. */
  function ControlledTranslations(speed: real, graph: real, dt: real, blocked: bool, moveRight: bool,
                                  moveLeft: bool, forwardZ: real): seq<Translation>
  {
    if moveRight == moveLeft then []
    else
      var afterRight := if moveRight && !blocked then [Translation(speed, graph, dt, forwardZ)] else [];
      afterRight + (if moveLeft && !blocked then [Translation(speed, graph, dt, forwardZ)] else [])
  }

  /** Controlled movement translates at most once per frame, and only with
      exactly one input held and the front free. */
  lemma ControlledMovesAtMostOnce(speed: real, graph: real, dt: real, blocked: bool, moveRight: bool, moveLeft: bool,
                                  forwardZ: real)
    ensures var ts := ControlledTranslations(speed, graph, dt, blocked, moveRight, moveLeft, forwardZ);
      && |ts| <= 1
      && (|ts| == 1 <==> moveRight != moveLeft && !blocked)
      && (|ts| == 1 ==> ts[0] == Translation(speed, graph, dt, forwardZ))
  {
  }

  /** Facing after ControlledMove: it returns before CheckTurn when both or
      neither input is held. */
  function ControlledFacingZ(forwardZ: real, lockDirection: bool, moveRight: bool, moveLeft: bool): real {
    if moveRight == moveLeft then forwardZ else CheckTurnZ(forwardZ, lockDirection, moveRight, moveLeft)
  }

  /** Controlled movement turns the character toward the one input held,
      unless the direction is locked, and keeps the facing otherwise. */
  lemma ControlledTurnsToInput(forwardZ: real, lockDirection: bool, moveRight: bool, moveLeft: bool)
    ensures var z := ControlledFacingZ(forwardZ, lockDirection, moveRight, moveLeft);
      && (moveRight != moveLeft && !lockDirection ==> (z > 0.0 <==> moveRight))
      && (moveRight == moveLeft || lockDirection ==> z == forwardZ)
  {
  }

  /** On a reversal (one input held against the current facing, direction not
      locked, front free) the controlled step is still taken along the old
      facing: the character steps first and turns afterwards, so the step and
      the facing it ends the frame with point opposite ways. */
  lemma ControlledStepsBeforeTurn(speed: real, graph: real, dt: real, moveRight: bool, moveLeft: bool,
                                  forwardZ: real)
    requires moveRight != moveLeft
    requires forwardZ != 0.0 && (forwardZ > 0.0 <==> moveLeft)
    ensures var ts := ControlledTranslations(speed, graph, dt, false, moveRight, moveLeft, forwardZ);
      var z := ControlledFacingZ(forwardZ, false, moveRight, moveLeft);
      && |ts| == 1
      && ts[0].forwardZ == forwardZ
      && (ts[0].forwardZ > 0.0 <==> z < 0.0)
  {
    ControlledMovesAtMostOnce(speed, graph, dt, false, moveRight, moveLeft, forwardZ);
    ControlledTurnsToInput(forwardZ, false, moveRight, moveLeft);
  }

  /** The momentum step is taken after the turn: when the character can turn
      and the entry momentum is not zero, the step goes along the facing that
      the entry momentum's sign selects, whatever the facing was before. */
  lemma MomentumStepsAfterTurn(speed: real, m: real, dt: real, forwardZ: real)
    requires m != 0.0
    ensures var ts := MomentumTranslations(speed, m, dt, false, MomentumFacingZ(forwardZ, true, m));
      && |ts| == 1
      && (ts[0].forwardZ > 0.0 <==> m > 0.0)
      && ts[0].speedGraph > 0.0
  {
    MomentumFacesEntrySign(forwardZ, true, m);
  }

  /** CheckTurn on its own, with both inputs held, leaves the character facing
      left. ControlledMove, its only caller, returns before CheckTurn when both
      inputs are held, so an update never reaches this case; the lemma records
      the overwrite order of CheckTurn as written. */
  lemma CheckTurnLeftWins(forwardZ: real)
    ensures CheckTurnZ(forwardZ, false, true, true) < 0.0
  {
  }

  /** The value the Move animator bool gets in a mode, if the mode sets it. */
  function MoveBool(mode: Mode, moveRight: bool, moveLeft: bool): Option<bool> {
    match mode
    case MomentumMode => None
    case ConstantMode => Some(moveRight || moveLeft)
    case ControlledMode => if moveRight == moveLeft then Some(false) else None
  }

  /** The animator bools after an update that passed the guards: Jump raised
      when jumping on ground (never cleared), Turbo copied from the input, then
      Move as the mode sets it. */
  function UpdatedBools(bools: map<TransitionParameter, bool>, jump: bool, grounded: bool, turbo: bool,
                        move: Option<bool>): map<TransitionParameter, bool>
  {
    var afterJump := if jump && grounded then bools[Jump := true] else bools;
    WithMove(afterJump[Turbo := turbo], move)
  }

  /** An update sets Turbo to the input, raises Jump only for a jump on
      ground, sets Move only when the mode decides it, and leaves every other
      animator parameter as it was. */
  lemma UpdatedBoolsEffect(bools: map<TransitionParameter, bool>, jump: bool, grounded: bool, turbo: bool,
                           move: Option<bool>)
    ensures var r := UpdatedBools(bools, jump, grounded, turbo, move);
      && Turbo in r && r[Turbo] == turbo
      && (jump && grounded ==> Jump in r && r[Jump])
      && (!(jump && grounded) ==> (Jump in r <==> Jump in bools) && (Jump in bools ==> r[Jump] == bools[Jump]))
      && (move.Some? ==> Move in r && r[Move] == move.value)
      && (move.None? ==> (Move in r <==> Move in bools) && (Move in bools ==> r[Move] == bools[Move]))
      && (forall p :: p in r && p != Jump && p != Turbo && p != Move ==> p in bools && r[p] == bools[p])
      && (forall p :: p in bools ==> p in r)
  {
  }

  /** The momentum after the movement rule of a mode: only the momentum rule
      touches it. */
  function ModeMomentum(mode: Mode, m: real, step: real, blocking: BlockingData, moveRight: bool, moveLeft: bool,
                        maxMomentum: real, dt: real): real
  {
    if mode == MomentumMode then MomentumAfter(m, step, blocking, moveRight, moveLeft, maxMomentum, dt) else m
  }

  /** The facing after the movement rule of a mode: the constant rule never turns. */
  function ModeFacingZ(mode: Mode, forwardZ: real, canTurn: bool, m: real, lockDirection: bool, moveRight: bool,
                       moveLeft: bool): real
  {
    match mode
    case MomentumMode => MomentumFacingZ(forwardZ, canTurn, m)
    case ConstantMode => forwardZ
    case ControlledMode => ControlledFacingZ(forwardZ, lockDirection, moveRight, moveLeft)
  }

  /** The translations the movement rule of a mode issues. */
  function ModeTranslations(mode: Mode, speed: real, graph: real, m: real, dt: real, blocked: bool, moveOnHit: bool,
                            facingAttacker: bool, moveRight: bool, moveLeft: bool, forwardZ: real,
                            canTurn: bool): seq<Translation>
  {
    match mode
    case MomentumMode => MomentumTranslations(speed, m, dt, blocked, MomentumFacingZ(forwardZ, canTurn, m))
    case ConstantMode => ConstantTranslations(speed, graph, dt, blocked, moveOnHit, facingAttacker, forwardZ)
    case ControlledMode => ControlledTranslations(speed, graph, dt, blocked, moveRight, moveLeft, forwardZ)
  }

  /** The animator bools after the Move bool is set as a mode decides, if it does. */
  function WithMove(bools: map<TransitionParameter, bool>, move: Option<bool>): map<TransitionParameter, bool> {
    if move.Some? then bools[Move := move.value] else bools
  }

  /** UpdateCharacterIgnoreTime's flag: inside the open window, whatever
      IgnoreCharacterBox says (its own write is always overwritten). */
  predicate InIgnoreWindow(t: real, start: real, end: real) {
    start < t && t < end
  }

  // ---------------------------------------------------------------------------
  // The ability

  class MoveForward {
    const AllowEarlyTurn: bool
    const LockDirection: bool
    const LockDirectionNextState: bool
    const Constant: bool
    /** AnimationCurve.Evaluate of the speed graph */
    const SpeedGraph: real -> real
    const Speed: real
    const IgnoreCharacterBox: bool
    const IgnoreStartTime: real
    const IgnoreEndTime: real
    const UseMomentum: bool
    const StartingMomentum: real
    const MaxMomentum: real
    const ClearMomentumOnExit: bool
    const MoveOnHit: bool

    constructor (allowEarlyTurn: bool, lockDirection: bool, lockDirectionNextState: bool, constant: bool,
                 speedGraph: real -> real, speed: real, ignoreCharacterBox: bool, ignoreStartTime: real,
                 ignoreEndTime: real, useMomentum: bool, startingMomentum: real, maxMomentum: real,
                 clearMomentumOnExit: bool, moveOnHit: bool)
      ensures AllowEarlyTurn == allowEarlyTurn && LockDirection == lockDirection
      ensures LockDirectionNextState == lockDirectionNextState && Constant == constant
      ensures SpeedGraph == speedGraph && Speed == speed
      ensures IgnoreCharacterBox == ignoreCharacterBox
      ensures IgnoreStartTime == ignoreStartTime && IgnoreEndTime == ignoreEndTime
      ensures UseMomentum == useMomentum && StartingMomentum == startingMomentum
      ensures MaxMomentum == maxMomentum && ClearMomentumOnExit == clearMomentumOnExit
      ensures MoveOnHit == moveOnHit
    {
      AllowEarlyTurn := allowEarlyTurn;
      LockDirection := lockDirection;
      LockDirectionNextState := lockDirectionNextState;
      Constant := constant;
      SpeedGraph := speedGraph;
      Speed := speed;
      IgnoreCharacterBox := ignoreCharacterBox;
      IgnoreStartTime := ignoreStartTime;
      IgnoreEndTime := ignoreEndTime;
      UseMomentum := useMomentum;
      StartingMomentum := startingMomentum;
      MaxMomentum := maxMomentum;
      ClearMomentumOnExit := clearMomentumOnExit;
      MoveOnHit := moveOnHit;
    }

    /** The momentum increment of a frame: SpeedGraph(t) * Speed * dt. */
    function Step(normalizedTime: real, dt: real): real {
      SpeedGraph(normalizedTime) * Speed * dt
    }

    /** Takes the movement authority, turns early toward the input when
        allowed, applies the starting momentum along the resulting facing and
        clears the one-shot turn flags. */
    method OnEnter(control: CharacterControl)
      modifies control.animationProgress`LatestMoveForward, control.animationProgress`disallowEarlyTurn,
               control.animationProgress`LockDirectionNextState, control`forwardZ, control.airControl`AirMomentum
      ensures control.animationProgress.LatestMoveForward == this
      ensures !control.animationProgress.disallowEarlyTurn && !control.animationProgress.LockDirectionNextState
      ensures control.forwardZ ==
        EarlyTurnZ(old(control.forwardZ),
                   AllowEarlyTurn && !old(control.animationProgress.disallowEarlyTurn) &&
                   !old(control.animationProgress.LockDirectionNextState),
                   old(control.CanTurn()), old(control.MoveLeft), old(control.MoveRight))
      ensures control.airControl.AirMomentum ==
        if StartingMomentum > MomentumThreshold
        then (if control.forwardZ > 0.0 then StartingMomentum else -StartingMomentum)
        else old(control.airControl.AirMomentum)
    {
      var progress := control.animationProgress;
      progress.LatestMoveForward := this;

      if AllowEarlyTurn && !progress.disallowEarlyTurn {
        if !progress.LockDirectionNextState {
          if control.MoveLeft {
            control.FaceForward(false);
          }
          if control.MoveRight {
            control.FaceForward(true);
          }
        }
      }

      if StartingMomentum > MomentumThreshold {
        if control.IsFacingForward() {
          control.airControl.AirMomentum := StartingMomentum;
        } else {
          control.airControl.AirMomentum := -StartingMomentum;
        }
      }

      progress.disallowEarlyTurn := false;
      progress.LockDirectionNextState := false;
    }

    /** Clears the momentum on leaving the state when so configured. */
    method OnExit(control: CharacterControl)
      modifies control.airControl`AirMomentum
      ensures control.airControl.AirMomentum == if ClearMomentumOnExit then 0.0 else old(control.airControl.AirMomentum)
    {
      if ClearMomentumOnExit {
        control.airControl.AirMomentum := 0.0;
      }
    }

    /** This instance holds the movement authority (no other MoveForward has
        entered since) and no wall slide is running: the update goes past its
        guards. */
    predicate Active(control: CharacterControl)
      reads control.animationProgress`LatestMoveForward, control.animationProgress`RunningWallSlide
    {
      control.animationProgress.LatestMoveForward == this && !control.animationProgress.RunningWallSlide
    }

    /** The front-blocking count is nonzero. */
    predicate IsBlocked(control: CharacterControl)
      reads control`blocking
    {
      control.blocking.FrontBlockingDicCount != 0
    }

    /** The per-frame update: always hands LockDirectionNextState on; a stale
        instance (another MoveForward entered since) or a running wall slide
        stops there. Otherwise it sets the ignore window, the Jump and Turbo
        bools, and moves by the rule of its mode. */
    method UpdateAbility(control: CharacterControl, animator: Animator, normalizedTime: real, dt: real)
      modifies control.animationProgress`LockDirectionNextState, control.animationProgress`IsIgnoreCharacterTime,
               animator`bools, control.airControl`AirMomentum, control`forwardZ, control`translations
      ensures control.animationProgress.LockDirectionNextState == LockDirectionNextState
      ensures !old(Active(control)) ==>
        && control.animationProgress.IsIgnoreCharacterTime == old(control.animationProgress.IsIgnoreCharacterTime)
        && animator.bools == old(animator.bools)
        && control.airControl.AirMomentum == old(control.airControl.AirMomentum)
        && control.forwardZ == old(control.forwardZ)
        && control.translations == old(control.translations)
      ensures old(Active(control)) ==>
        && control.animationProgress.IsIgnoreCharacterTime == InIgnoreWindow(normalizedTime, IgnoreStartTime, IgnoreEndTime)
        && animator.bools == UpdatedBools(old(animator.bools), old(control.Jump), old(control.animationProgress.HasGround),
                                          old(control.Turbo),
                                          MoveBool(ModeOf(UseMomentum, Constant), old(control.MoveRight), old(control.MoveLeft)))
        && control.airControl.AirMomentum ==
             ModeMomentum(ModeOf(UseMomentum, Constant), old(control.airControl.AirMomentum), Step(normalizedTime, dt),
                          old(control.blocking), old(control.MoveRight), old(control.MoveLeft), MaxMomentum, dt)
        && control.forwardZ ==
             ModeFacingZ(ModeOf(UseMomentum, Constant), old(control.forwardZ), old(control.CanTurn()),
                         old(control.airControl.AirMomentum), LockDirection, old(control.MoveRight), old(control.MoveLeft))
        && control.translations == old(control.translations) +
             ModeTranslations(ModeOf(UseMomentum, Constant), Speed, SpeedGraph(normalizedTime),
                              old(control.airControl.AirMomentum), dt, old(IsBlocked(control)), MoveOnHit,
                              old(control.animationProgress.FacingAttacker), old(control.MoveRight), old(control.MoveLeft),
                              old(control.forwardZ), old(control.CanTurn()))
    {
      var progress := control.animationProgress;
      progress.LockDirectionNextState := LockDirectionNextState;

      if progress.LatestMoveForward != this {
        return;
      }
      if progress.RunningWallSlide {
        return;
      }

      ActiveUpdate(control, animator, normalizedTime, dt);
    }

    /** The update past its guards: the ignore window, the Jump and Turbo
        bools, then the movement rule of the mode. */
    method ActiveUpdate(control: CharacterControl, animator: Animator, normalizedTime: real, dt: real)
      modifies control.animationProgress`IsIgnoreCharacterTime, animator`bools, control.airControl`AirMomentum,
               control`forwardZ, control`translations
      ensures control.animationProgress.IsIgnoreCharacterTime == InIgnoreWindow(normalizedTime, IgnoreStartTime, IgnoreEndTime)
      ensures animator.bools == UpdatedBools(old(animator.bools), old(control.Jump), old(control.animationProgress.HasGround),
                                          old(control.Turbo),
                                          MoveBool(ModeOf(UseMomentum, Constant), old(control.MoveRight), old(control.MoveLeft)))
      ensures control.airControl.AirMomentum ==
             ModeMomentum(ModeOf(UseMomentum, Constant), old(control.airControl.AirMomentum), Step(normalizedTime, dt),
                          old(control.blocking), old(control.MoveRight), old(control.MoveLeft), MaxMomentum, dt)
      ensures control.forwardZ ==
             ModeFacingZ(ModeOf(UseMomentum, Constant), old(control.forwardZ), old(control.CanTurn()),
                         old(control.airControl.AirMomentum), LockDirection, old(control.MoveRight), old(control.MoveLeft))
      ensures control.translations == old(control.translations) +
             ModeTranslations(ModeOf(UseMomentum, Constant), Speed, SpeedGraph(normalizedTime),
                              old(control.airControl.AirMomentum), dt, old(IsBlocked(control)), MoveOnHit,
                              old(control.animationProgress.FacingAttacker), old(control.MoveRight), old(control.MoveLeft),
                              old(control.forwardZ), old(control.CanTurn()))
    {
      var progress := control.animationProgress;
      UpdateCharacterIgnoreTime(control, normalizedTime);
      SetJumpAndTurbo(control, animator);

      assert control.forwardZ == old(control.forwardZ) && control.translations == old(control.translations);
      assert control.airControl.AirMomentum == old(control.airControl.AirMomentum);
      assert control.MoveRight == old(control.MoveRight) && control.MoveLeft == old(control.MoveLeft);
      assert control.CanTurn() == old(control.CanTurn()) && IsBlocked(control) == old(IsBlocked(control));
      assert control.blocking == old(control.blocking);
      assert animator.bools == UpdatedBools(old(animator.bools), control.Jump, progress.HasGround, control.Turbo, None);
      assert control.animationProgress.IsIgnoreCharacterTime == InIgnoreWindow(normalizedTime, IgnoreStartTime, IgnoreEndTime);
      assert control.animationProgress.FacingAttacker == old(control.animationProgress.FacingAttacker);
      MoveByMode(control, animator, normalizedTime, dt);
    }

    /** Raises Jump for a jump on ground and sets Turbo to the input. */
    method SetJumpAndTurbo(control: CharacterControl, animator: Animator)
      modifies animator`bools
      ensures animator.bools ==
        UpdatedBools(old(animator.bools), control.Jump, control.animationProgress.HasGround, control.Turbo, None)
    {
      if control.Jump {
        if control.animationProgress.HasGround {
          animator.SetBool(Jump, true);
        }
      }

      if control.Turbo {
        animator.SetBool(Turbo, true);
      } else {
        animator.SetBool(Turbo, false);
      }
    }

    /** The movement rule of the update, chosen by UseMomentum, then Constant. */
    method MoveByMode(control: CharacterControl, animator: Animator, normalizedTime: real, dt: real)
      modifies animator`bools, control.airControl`AirMomentum, control`forwardZ, control`translations
      ensures animator.bools ==
        WithMove(old(animator.bools), MoveBool(ModeOf(UseMomentum, Constant), old(control.MoveRight), old(control.MoveLeft)))
      ensures control.airControl.AirMomentum ==
        ModeMomentum(ModeOf(UseMomentum, Constant), old(control.airControl.AirMomentum), Step(normalizedTime, dt),
                     old(control.blocking), old(control.MoveRight), old(control.MoveLeft), MaxMomentum, dt)
      ensures control.forwardZ ==
        ModeFacingZ(ModeOf(UseMomentum, Constant), old(control.forwardZ), old(control.CanTurn()),
                    old(control.airControl.AirMomentum), LockDirection, old(control.MoveRight), old(control.MoveLeft))
      ensures control.translations == old(control.translations) +
        ModeTranslations(ModeOf(UseMomentum, Constant), Speed, SpeedGraph(normalizedTime),
                         old(control.airControl.AirMomentum), dt, old(IsBlocked(control)), MoveOnHit,
                         old(control.animationProgress.FacingAttacker), old(control.MoveRight), old(control.MoveLeft),
                         old(control.forwardZ), old(control.CanTurn()))
    {
      if UseMomentum {
        UpdateMomentum(control, normalizedTime, dt);
      } else {
        if Constant {
          ConstantMove(control, animator, normalizedTime, dt);
        } else {
          ControlledMove(control, animator, normalizedTime, dt);
        }
      }
    }

    /** Accelerates, drags and clamps the momentum, faces along the entry
        momentum and moves by its magnitude when the front is free. */
    method UpdateMomentum(control: CharacterControl, normalizedTime: real, dt: real)
      modifies control.airControl`AirMomentum, control`forwardZ, control`translations
      ensures control.airControl.AirMomentum ==
        MomentumAfter(old(control.airControl.AirMomentum), Step(normalizedTime, dt), old(control.blocking),
                      old(control.MoveRight), old(control.MoveLeft), MaxMomentum, dt)
      ensures control.forwardZ == MomentumFacingZ(old(control.forwardZ), old(control.CanTurn()), old(control.airControl.AirMomentum))
      ensures control.translations == old(control.translations) +
        MomentumTranslations(Speed, old(control.airControl.AirMomentum), dt, old(IsBlocked(control)),
                             MomentumFacingZ(old(control.forwardZ), old(control.CanTurn()), old(control.airControl.AirMomentum)))
    {
      var air := control.airControl;
      var momentum := air.AirMomentum;
      var speed := Step(normalizedTime, dt);
      // Each branch below overwrites the AIR_MOMENTUM slot; nothing reads the
      // slot in between, so the last write is gathered in next and stored once.
      var next := momentum;

      if !control.blocking.RightSideBlocked {
        if control.MoveRight {
          next := momentum + speed;
        }
      }

      if !control.blocking.LeftSideBlocked {
        if control.MoveLeft {
          next := momentum - speed;
        }
      }

      if control.blocking.RightSideBlocked || control.blocking.LeftSideBlocked {
        next := LerpScalar(momentum, 0.0, dt * WallDrag);
      }

      if Abs(momentum) >= MaxMomentum {
        if momentum > 0.0 {
          next := MaxMomentum;
        } else if momentum < 0.0 {
          next := -MaxMomentum;
        }
      }
      assert next == MomentumAfter(momentum, speed, control.blocking, control.MoveRight, control.MoveLeft, MaxMomentum, dt);
      air.AirMomentum := next;

      if momentum > 0.0 {
        control.FaceForward(true);
      } else if momentum < 0.0 {
        control.FaceForward(false);
      }

      if !IsBlocked(control) {
        control.MoveForward(Speed, Abs(momentum), dt);
      }
    }

    /** Moves at the configured speed (backward when hit while facing the
        attacker) unless blocked, and sets Move to whether an input is held. */
    method ConstantMove(control: CharacterControl, animator: Animator, normalizedTime: real, dt: real)
      modifies control`translations, animator`bools
      ensures control.translations == old(control.translations) +
        ConstantTranslations(Speed, SpeedGraph(normalizedTime), dt, old(IsBlocked(control)), MoveOnHit,
                             old(control.animationProgress.FacingAttacker), old(control.forwardZ))
      ensures animator.bools == old(animator.bools)[Move := old(control.MoveRight) || old(control.MoveLeft)]
    {
      if !IsBlocked(control) {
        if MoveOnHit {
          if !control.animationProgress.FacingAttacker {
            control.MoveForward(Speed, SpeedGraph(normalizedTime), dt);
          } else {
            control.MoveForward(-Speed, SpeedGraph(normalizedTime), dt);
          }
        } else {
          control.MoveForward(Speed, SpeedGraph(normalizedTime), dt);
        }
      }

      if !control.MoveRight && !control.MoveLeft {
        animator.SetBool(Move, false);
      } else {
        animator.SetBool(Move, true);
      }
    }

    /** Input-driven movement: with both or neither input held it only clears
        Move; otherwise it moves unless blocked and turns toward the input. */
    method ControlledMove(control: CharacterControl, animator: Animator, normalizedTime: real, dt: real)
      modifies control`translations, control`forwardZ, animator`bools
      ensures control.translations == old(control.translations) +
        ControlledTranslations(Speed, SpeedGraph(normalizedTime), dt, old(IsBlocked(control)),
                               old(control.MoveRight), old(control.MoveLeft), old(control.forwardZ))
      ensures control.forwardZ == ControlledFacingZ(old(control.forwardZ), LockDirection, old(control.MoveRight),
                                                    old(control.MoveLeft))
      ensures animator.bools ==
        if old(control.MoveRight) == old(control.MoveLeft) then old(animator.bools)[Move := false] else old(animator.bools)
    {
      if control.MoveRight && control.MoveLeft {
        animator.SetBool(Move, false);
        return;
      }

      if !control.MoveRight && !control.MoveLeft {
        animator.SetBool(Move, false);
        return;
      }

      if control.MoveRight {
        if !IsBlocked(control) {
          control.MoveForward(Speed, SpeedGraph(normalizedTime), dt);
        }
      }

      if control.MoveLeft {
        if !IsBlocked(control) {
          control.MoveForward(Speed, SpeedGraph(normalizedTime), dt);
        }
      }

      CheckTurn(control);
    }

    /** Sets the rotation for the right input, then for the left one, unless
        the direction is locked. */
    method CheckTurn(control: CharacterControl)
      modifies control`forwardZ
      ensures control.forwardZ == CheckTurnZ(old(control.forwardZ), LockDirection, control.MoveRight, control.MoveLeft)
    {
      if !LockDirection {
        if control.MoveRight {
          control.forwardZ := RotationForwardZ(true);
        }
        if control.MoveLeft {
          control.forwardZ := RotationForwardZ(false);
        }
      }
    }

    /** Sets IsIgnoreCharacterTime to whether the normalized time lies strictly
        inside the ignore window; IgnoreCharacterBox's write is always
        overwritten. */
    method UpdateCharacterIgnoreTime(control: CharacterControl, normalizedTime: real)
      modifies control.animationProgress`IsIgnoreCharacterTime
      ensures control.animationProgress.IsIgnoreCharacterTime == InIgnoreWindow(normalizedTime, IgnoreStartTime, IgnoreEndTime)
    {
      if !IgnoreCharacterBox {
        control.animationProgress.IsIgnoreCharacterTime := false;
      }

      if normalizedTime > IgnoreStartTime && normalizedTime < IgnoreEndTime {
        control.animationProgress.IsIgnoreCharacterTime := true;
      } else {
        control.animationProgress.IsIgnoreCharacterTime := false;
      }
    }
  }
}
