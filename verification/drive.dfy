/** The driving rules of the drive unit (ego_motion/src/main.cpp): the
    autonomous rule drives forward while the way is free and rotates in place
    otherwise, changing the rotation direction after each 50 ticks of forward
    driving; the manual rule follows the joystick.

    The manual rule exists in two versions (see Findings in README.md): as
    written, where an obstacle ends the drive session, and with the obstacle
    guard inside the session, which the controller uses. */
module Drive {
  import opened Common
  import opened Activity
  import opened Actuation

  /** Ranges beyond this many millimetres count as a free way ahead. */
  const FreeRange := 300

  const AheadSpeed := Speed(0, 80)

  /** Rotate: in place, clockwise or counter-clockwise. */
  function RotateSpeed(clockwise: bool): (s: Speed)
    ensures s.y == 0 && (s.x == 100 <==> clockwise) && (s.x == -100 <==> !clockwise)
  {
    Speed(if clockwise then 100 else -100, 0)
  }

  // RunAuto

  /** ToggleAfter(50): counting down, or done after flipping the rotation. */
  datatype Toggle = Waiting(delay: Delay) | Toggled

  /** Where RunAuto is: driving forward with its ToggleAfter, or rotating. */
  datatype AutoPhase = Ahead(toggle: Toggle) | Turning

  /** What a driving rule leaves behind in a tick: its next phase, the
      rotation direction (a local of RunAuto that survives across sessions),
      the speed, and the colour set on the status LED, if any. */
  datatype AutoOut = AutoOut(phase: AutoPhase, rotClockwise: bool, speed: Speed, led: Option<Color>)

  const ToggleTicks := 50

  function EnterAhead(rot: bool): AutoOut {
    AutoOut(Ahead(Waiting(DelayStart(ToggleTicks))), rot, AheadSpeed, None)
  }

  /** The body of RunAuto's loop from its top: forward if the way is free,
      else rotate. */
  function AutoLoop(rot: bool, range: uint16): AutoOut {
    if range > FreeRange then EnterAhead(rot) else AutoOut(Turning, rot, RotateSpeed(rot), None)
  }

  function EnterAuto(rot: bool, range: uint16): (r: AutoOut)
    ensures r.led == Some(Blue)
    ensures r.rotClockwise == rot
    ensures range > FreeRange ==> r.phase.Ahead? && r.speed == AheadSpeed
    ensures range <= FreeRange ==> r.phase.Turning? && r.speed == RotateSpeed(rot)
  {
    AutoLoop(rot, range).(led := Some(Blue))
  }

  function AutoTick(phase: AutoPhase, rot: bool, speed: Speed, range: uint16): AutoOut {
    match phase
    case Ahead(toggle) =>
      if range <= FreeRange then AutoLoop(rot, range)  // abort; Rotate is entered
      else (match toggle
        case Waiting(d) =>
          var d' := DelayTick(d);
          if d'.Elapsed? then AutoOut(Ahead(Toggled), !rot, speed, None)
          else AutoOut(Ahead(Waiting(d')), rot, speed, None)
        case Toggled => AutoOut(phase, rot, speed, None))
    case Turning =>
      if range > FreeRange then AutoLoop(rot, range)  // abort; loop back to the forward drive
      else AutoOut(phase, rot, speed, None)
  }

  /** The speed RunAuto holds in each phase. */
  ghost predicate AutoInv(phase: AutoPhase, rot: bool, speed: Speed) {
    match phase
    case Ahead(_) => speed == AheadSpeed
    case Turning => speed == RotateSpeed(rot)
  }

  /** In every tick the autonomous speed is (0,80) if the range is beyond
      300 mm and a rotation in place otherwise; rotating never changes the
      rotation direction. */
  lemma AutoSpeedFollowsRange(phase: AutoPhase, rot: bool, speed: Speed, range: uint16)
    requires AutoInv(phase, rot, speed)
    ensures var r := AutoTick(phase, rot, speed, range);
      && AutoInv(r.phase, r.rotClockwise, r.speed)
      && (range > FreeRange ==> r.phase.Ahead? && r.speed == AheadSpeed)
      && (range <= FreeRange ==> r.phase.Turning? && r.speed == RotateSpeed(r.rotClockwise))
      && (phase.Turning? ==> r.rotClockwise == rot)
  {
  }

  /** The state after a stream of ranges. */
  function AutoRun(start: AutoOut, ranges: seq<uint16>): AutoOut {
    if |ranges| == 0 then start
    else
      var s := AutoRun(start, ranges[..|ranges| - 1]);
      AutoTick(s.phase, s.rotClockwise, s.speed, ranges[|ranges| - 1])
  }

  /** Driving forward with a free way, the rotation direction flips exactly
      once, 50 ticks after the forward drive began. */
  lemma {:induction false} RotationFlipsAfter50(rot: bool, ranges: seq<uint16>)
    requires forall i :: 0 <= i < |ranges| ==> ranges[i] > FreeRange
    ensures var r := AutoRun(EnterAhead(rot), ranges);
      && r.phase.Ahead? && r.speed == AheadSpeed
      && r.rotClockwise == (if |ranges| >= ToggleTicks then !rot else rot)
      && r.phase.toggle == (if |ranges| >= ToggleTicks then Toggled else Waiting(Counting(ToggleTicks - |ranges|)))
  {
    var k := |ranges|;
    if k > 0 {
      RotationFlipsAfter50(rot, ranges[..k - 1]);
      DelayLasts(ToggleTicks, k - 1);
      DelayLasts(ToggleTicks, k);
    }
  }

  // Run

  /** The manual rule as written ends the session on an obstacle; the
      guarded rule keeps the session and holds the robot instead. */
  datatype ManualRule = AsWritten | Guarded

  /** Closer than this many millimetres, the joystick may not drive forward. */
  const ObstacleRange := 80

  predicate ObstacleAhead(joySpeed: Speed, range: uint16) {
    joySpeed.y > 10 && range < ObstacleRange
  }

  /** RunManual's copy of the joystick speed. */
  function ManualSpeed(rule: ManualRule, joySpeed: Speed, range: uint16): (s: Speed)
    ensures rule == AsWritten ==> s == joySpeed
    ensures rule == Guarded && !ObstacleAhead(joySpeed, range) ==> s == joySpeed
    ensures rule == Guarded && ObstacleAhead(joySpeed, range) ==> s == Speed(0, 0)
  {
    if rule == Guarded && ObstacleAhead(joySpeed, range) then Speed(0, 0) else joySpeed
  }

  /** The abort guard of Run's manual branch. */
  predicate ManualEnds(rule: ManualRule, intent: Intent, joySpeed: Speed, range: uint16) {
    intent != StartManu || (rule == AsWritten && ObstacleAhead(joySpeed, range))
  }

  datatype RunState = Manual | Automatic(phase: AutoPhase) | Finished

  datatype RunOut = RunOut(run: RunState, rotClockwise: bool, speed: Speed, led: Option<Color>)

  /** Run entered: the manual rule for START_MANU, the autonomous one otherwise. */
  function EnterRun(rule: ManualRule, intent: Intent, joySpeed: Speed, range: uint16, rot: bool): (r: RunOut)
    ensures r.run.Manual? <==> intent == StartManu
    ensures r.run.Automatic? <==> intent != StartManu
    ensures r.run.Manual? ==> r.speed == ManualSpeed(rule, joySpeed, range) && r.led == Some(Green)
    ensures r.run.Automatic? ==> r.led == Some(Blue) && r.rotClockwise == rot
  {
    if intent == StartManu then RunOut(Manual, rot, ManualSpeed(rule, joySpeed, range), Some(Green))
    else
      var a := EnterAuto(rot, range);
      RunOut(Automatic(a.phase), a.rotClockwise, a.speed, a.led)
  }

  function RunTick(rule: ManualRule, run: RunState, intent: Intent, joySpeed: Speed, range: uint16,
                   rot: bool, speed: Speed): (r: RunOut)
    ensures r.run.Finished? <==>
      run.Finished? || (run.Manual? && ManualEnds(rule, intent, joySpeed, range)) || (run.Automatic? && intent != StartAuto)
    ensures r.run.Finished? ==> r.speed == speed && r.rotClockwise == rot
    ensures r.run.Manual? ==> r.speed == ManualSpeed(rule, joySpeed, range)
  {
    match run
    case Manual =>
      if ManualEnds(rule, intent, joySpeed, range) then RunOut(Finished, rot, speed, None)
      else RunOut(Manual, rot, ManualSpeed(rule, joySpeed, range), None)
    case Automatic(phase) =>
      if intent != StartAuto then RunOut(Finished, rot, speed, None)
      else
        var a := AutoTick(phase, rot, speed, range);
        RunOut(Automatic(a.phase), a.rotClockwise, a.speed, a.led)
    case Finished => RunOut(Finished, rot, speed, None)
  }

  /** With the guarded rule, a manual drive never asks for forward speed
      while an obstacle is closer than 80 mm. */
  lemma GuardedNeverDrivesIntoObstacle(run: RunState, intent: Intent, joySpeed: Speed, range: uint16, rot: bool, speed: Speed)
    requires range < ObstacleRange
    ensures var r := RunTick(Guarded, run, intent, joySpeed, range, rot, speed);
      r.run.Manual? ==> r.speed.y <= 10
    ensures var r := EnterRun(Guarded, intent, joySpeed, range, rot);
      r.run.Manual? ==> r.speed.y <= 10
  {
  }
}
