/** The drive unit's Controller (ego_motion/src/main.cpp): it waits for an
    intent to drive or to quit, runs a drive session for a driving intent,
    and resets servos and lights after every session.

    A session runs, in this order, JoystickSubscriber, RangeSubscriber, Run
    (the only strong child), Actuator and Lights; Logger is left out. When
    Run ends, the session's children still complete that tick, then the
    servos are stopped, the lights switched off, the status LED set red, and
    the wait is tested again within the same tick. */
module Control {
  import opened Common
  import opened Activity
  import opened Actuation
  import opened Lights
  import opened Drive
  import Plankton

  /** The uninitialised stack buffer JoystickSubscriber reads into. */
  type Buf3 = b: Bytes | |b| == 3 witness [0, 0, 0]

  datatype Phase = Starting | Awaiting | Driving | Done

  /** The session's children besides the subscribers. */
  datatype Children = Children(run: RunState, servo: Publisher<(uint16, uint16)>, lights: LightsState)

  /** The Controller's state; joySpeed, range and speed are its locals, leds
      the traffic LEDs, rotClockwise RunAuto's local. */
  datatype Ctl = Ctl(phase: Phase, children: Children, rotClockwise: bool,
                     joySpeed: Speed, range: uint16, speed: Speed, leds: Leds)

  const Idle := Children(Finished, Fresh, LightsState(Blinker(Center, Dark), MainLights(Halt, Steady)))

  const CtlStart := Ctl(Starting, Idle, false, Speed(0, 0), 0, Speed(0, 0), AllDark)

  datatype TickIn = TickIn(intent: Intent, ready: bool, stack: Buf3)

  /** What a tick does outside: servo commands in order, and the colours the
      status LED is set to, in order. */
  datatype CtlOut = CtlOut(commands: seq<Command>, status: seq<Color>)

  const NoOut := CtlOut([], [])

  /** JoystickSubscriber's read: three bytes into the stack buffer, of which
      the first two become the joystick speed. */
  function ReadJoystick(table: Plankton.Table, input: TickIn): (s: Speed)
    ensures input.ready && TopicJoystick in table && |table[TopicJoystick]| >= 2 ==>
      s == Speed(ToInt8(table[TopicJoystick][0]), ToInt8(table[TopicJoystick][1]))
  {
    var rd := Plankton.Read(input.ready, table, TopicJoystick, input.stack);
    var (x, y) := JoystickAxes(rd.dest);
    Speed(x, y)
  }

  /** RangeSubscriber's read: two bytes into the range variable. */
  function ReadRange(table: Plankton.Table, ready: bool, range: uint16): (r: uint16)
    ensures ready && TopicRange in table && |table[TopicRange]| >= 2 ==>
      Uint16Bytes(r) == table[TopicRange][..2]
    ensures ready && TopicRange in table && |table[TopicRange]| < 2 ==>
      Uint16Bytes(r) == table[TopicRange] + Uint16Bytes(range)[|table[TopicRange]|..]
    ensures !ready || TopicRange !in table || |table[TopicRange]| == 0 ==> r == range
  {
    var rd := Plankton.Read(ready, table, TopicRange, Uint16Bytes(range));
    Uint16BytesRoundTrip(range);
    Uint16OfBytes(rd.dest)
  }

  /** The session entered: both subscribers subscribe and read, Run, Actuator
      and Lights run their first tick. */
  function EnterSession(rule: ManualRule, tara: int16, c: Ctl, table: Plankton.Table, input: TickIn): (r: (Ctl, Plankton.Table, CtlOut))
    ensures r.0.phase == Driving && !r.0.children.run.Finished?
    ensures r.0.children.run.Manual? <==> input.intent == StartManu
    ensures r.0.children.run.Manual? ==> r.0.speed == ManualSpeed(rule, r.0.joySpeed, r.0.range)
    ensures r.0.children.run.Automatic? ==> AutoInv(r.0.children.run.phase, r.0.rotClockwise, r.0.speed)
    ensures r.1.Keys == table.Keys + {TopicJoystick, TopicRange}
  {
    var t1 := Plankton.Subscribe(table, TopicJoystick).table;
    var joy := ReadJoystick(t1, input);
    var t2 := Plankton.Subscribe(t1, TopicRange).table;
    var range := ReadRange(t2, input.ready, c.range);
    var run := EnterRun(rule, input.intent, joy, range, c.rotClockwise);
    var (servo, cmds) := ActuatorTick(tara, Fresh, run.speed);
    var (lights, leds) := EnterLights(c.leds, run.speed);
    (Ctl(Driving, Children(run.run, servo, lights), run.rotClockwise, joy, range, run.speed, leds),
     t2, CtlOut(cmds, SeqOf(run.led)))
  }

  /** The loop's top: await a driving intent or QUIT; QUIT ends the Controller. */
  function AwaitIntent(rule: ManualRule, tara: int16, c: Ctl, table: Plankton.Table, input: TickIn): (r: (Ctl, Plankton.Table, CtlOut))
    ensures r.0.phase == Awaiting <==> input.intent == Stop
    ensures r.0.phase == Done <==> input.intent == Quit
    ensures r.0.phase == Driving <==> input.intent == StartManu || input.intent == StartAuto
    ensures r.0.phase == Driving ==> !r.0.children.run.Finished? && (r.0.children.run.Manual? <==> input.intent == StartManu)
    ensures r.0.phase == Driving && r.0.children.run.Manual? ==> r.0.speed == ManualSpeed(rule, r.0.joySpeed, r.0.range)
    ensures r.0.phase != Driving ==> r.0.leds == c.leds && r.2 == NoOut
  {
    match input.intent
    case Stop => (c.(phase := Awaiting), table, NoOut)
    case Quit => (c.(phase := Done), table, NoOut)
    case _ => EnterSession(rule, tara, c, table, input)
  }

  function Append(out: CtlOut, more: CtlOut): CtlOut {
    CtlOut(out.commands + more.commands, out.status + more.status)
  }

  /** One tick of a running session; when Run has ended the session's
      clean-up follows and the wait is tested again. */
  function SessionTick(rule: ManualRule, tara: int16, c: Ctl, table: Plankton.Table, input: TickIn): (r: (Ctl, Plankton.Table, CtlOut))
    ensures r.0.phase != Starting
    ensures r.0.phase == Driving ==> !r.0.children.run.Finished?
    ensures r.0.phase == Driving && r.0.children.run.Manual? ==> r.0.speed == ManualSpeed(rule, r.0.joySpeed, r.0.range)
    ensures input.intent == Stop ==> r.0.phase == Awaiting
    ensures input.intent == Quit ==> r.0.phase == Done
    ensures input.intent == StartManu || input.intent == StartAuto ==>
      r.0.phase == Driving && (r.0.children.run.Manual? <==> input.intent == StartManu)
  {
    var joy := ReadJoystick(table, input);
    var range := ReadRange(table, input.ready, c.range);
    var run := RunTick(rule, c.children.run, input.intent, joy, range, c.rotClockwise, c.speed);
    var (servo, cmds) := ActuatorTick(tara, c.children.servo, run.speed);
    var (lights, leds) := LightsTick(c.children.lights, c.leds, run.speed);
    var c' := Ctl(Driving, Children(run.run, servo, lights), run.rotClockwise, joy, range, run.speed, leds);
    var out := CtlOut(cmds, SeqOf(run.led));
    if run.run.Finished? then
      var cleaned := c'.(leds := StopLights(leds));
      var (c'', t, more) := AwaitIntent(rule, tara, cleaned, table, input);
      (c'', t, Append(Append(out, CtlOut(StopCommands, [Red])), more))
    else (c', table, out)
  }

  /** One tick of the Controller: the red status LED when it starts, the
      await, a session, or nothing once QUIT has ended it. */
  function CtlTick(rule: ManualRule, tara: int16, c: Ctl, table: Plankton.Table, input: TickIn): (r: (Ctl, Plankton.Table, CtlOut))
    ensures c.phase == Starting ==> |r.2.status| >= 1 && r.2.status[0] == Red
    ensures c.phase == Done ==> r == (c, table, NoOut)
    ensures c.phase != Done ==> (r.0.phase == Done <==> input.intent == Quit)
    ensures r.0.phase != Starting
    ensures table.Keys <= r.1.Keys
  {
    match c.phase
    case Starting =>
      var (c', t, out) := AwaitIntent(rule, tara, c, table, input);
      (c', t, Append(CtlOut([], [Red]), out))
    case Awaiting => AwaitIntent(rule, tara, c, table, input)
    case Driving => SessionTick(rule, tara, c, table, input)
    case Done => (c, table, NoOut)
  }

  /** In a running session Run has not ended yet. */
  ghost predicate Consistent(c: Ctl) {
    c.phase == Driving ==> !c.children.run.Finished?
  }

  /** The Controller waits while the intent is STOP, without any output. */
  lemma WaitsWhileStopped(rule: ManualRule, tara: int16, c: Ctl, table: Plankton.Table, input: TickIn)
    requires c.phase == Awaiting && input.intent == Stop
    ensures CtlTick(rule, tara, c, table, input) == (c, table, NoOut)
  {
  }

  /** After every tick a running session drives the rule of the current
      intent: manual for START_MANU and autonomous for START_AUTO; with any
      other intent there is no session. */
  lemma SessionFollowsIntent(rule: ManualRule, tara: int16, c: Ctl, table: Plankton.Table, input: TickIn)
    requires c.phase != Done
    ensures var (c', _, _) := CtlTick(rule, tara, c, table, input);
      && Consistent(c')
      && (c'.phase == Driving <==> input.intent == StartManu || input.intent == StartAuto)
      && (c'.phase == Driving ==> (c'.children.run.Manual? <==> input.intent == StartManu))
      && (c'.phase == Done <==> input.intent == Quit)
  {
  }

  /** Whenever a session ends, both servos are set to the neutral pulse and
      the lights are dark; if no new session starts in the same tick these
      are the last servo commands of the tick. */
  lemma SessionEndResetsServos(rule: ManualRule, tara: int16, c: Ctl, table: Plankton.Table, input: TickIn)
    requires c.phase == Driving
    requires input.intent == Stop || input.intent == Quit
    ensures var (c', _, out) := CtlTick(rule, tara, c, table, input);
      && c'.leds == AllDark
      && |out.commands| >= 2
      && out.commands[|out.commands| - 2..] == StopCommands
      && out.status[|out.status| - 1] == Red
      && c'.phase == (if input.intent == Quit then Done else Awaiting)
  {
  }

  /** However a session ends (STOP, QUIT, a switch between the driving
      intents, or the obstacle abort as written), the tick sends the
      session's own servo commands, then both servos the neutral pulse, and
      sets the status LED red; a session that goes on sends only its own
      commands. */
  lemma SessionEndStops(rule: ManualRule, tara: int16, c: Ctl, table: Plankton.Table, input: TickIn)
    requires c.phase == Driving
    ensures var joy := ReadJoystick(table, input);
      var range := ReadRange(table, input.ready, c.range);
      var run := RunTick(rule, c.children.run, input.intent, joy, range, c.rotClockwise, c.speed);
      var cmds := ActuatorTick(tara, c.children.servo, run.speed).1;
      var (c', _, out) := CtlTick(rule, tara, c, table, input);
      && (run.run.Finished? ==>
            && |out.commands| >= |cmds| + 2
            && out.commands[..|cmds|] == cmds
            && out.commands[|cmds|..|cmds| + 2] == StopCommands
            && Red in out.status
            && (c'.phase != Driving ==> c'.leds == AllDark))
      && (!run.run.Finished? ==> out.commands == cmds && c'.phase == Driving)
  {
  }

  /** Once done, the Controller stays done and does nothing. */
  lemma DoneIsFinal(rule: ManualRule, tara: int16, c: Ctl, table: Plankton.Table, input: TickIn)
    requires c.phase == Done
    ensures CtlTick(rule, tara, c, table, input) == (c, table, NoOut)
  {
  }

  /** In the autonomous mode the speed follows the range of this tick. */
  lemma AutoSessionSpeed(rule: ManualRule, tara: int16, c: Ctl, table: Plankton.Table, input: TickIn)
    requires c.phase == Driving && input.intent == StartAuto
    requires c.children.run.Automatic? ==> AutoInv(c.children.run.phase, c.rotClockwise, c.speed)
    ensures var (c', _, _) := CtlTick(rule, tara, c, table, input);
      && c'.children.run.Automatic?
      && AutoInv(c'.children.run.phase, c'.rotClockwise, c'.speed)
      && (c'.range > FreeRange ==> c'.speed == AheadSpeed)
      && (c'.range <= FreeRange ==> c'.speed == RotateSpeed(c'.rotClockwise))
  {
    if c.children.run.Automatic? {
      var joy := ReadJoystick(table, input);
      var range := ReadRange(table, input.ready, c.range);
      AutoSpeedFollowsRange(c.children.run.phase, c.rotClockwise, c.speed, range);
    }
  }

  // The manual obstacle guard

  /** The remote's joystick pushed forward (y = 50) and an obstacle 50 mm
      ahead, as stored in the pub/sub table. */
  const ObstacleTable: Plankton.Table := map[TopicJoystick := [0, 50, 0], TopicRange := [50, 0]]

  /** As written, the obstacle abort is undone in the same tick: Run ends,
      the servos are stopped, but the intent is still START_MANU, so the
      wait passes at once, a new session starts and RunManual copies the
      forward joystick again; the last servo commands of the tick drive
      forward towards the obstacle (trim 0). */
  lemma ObstacleAbortUndone(c: Ctl)
    requires c.phase == Driving && c.children.run == Manual
    ensures var input := TickIn(StartManu, true, [0, 0, 0]);
      var (c', _, out) := CtlTick(AsWritten, 0, c, ObstacleTable, input);
      && c'.phase == Driving && c'.children.run == Manual
      && c'.range == 50 && c'.speed == Speed(0, 50)
      && out.commands[|out.commands| - 2..] == [Command(LeftChannel, 1700), Command(RightChannel, 1300)]
  {
    var input := TickIn(StartManu, true, [0, 0, 0]);
    assert ReadJoystick(ObstacleTable, input) == Speed(0, 50);
    assert ReadRange(ObstacleTable, true, c.range) == 50;
  }

  /** With the guard inside the session, a manual drive never commands a
      forward speed while the range is below 80 mm, in any tick. */
  lemma GuardedSessionHolds(tara: int16, c: Ctl, table: Plankton.Table, input: TickIn)
    requires c.phase != Done
    ensures var (c', _, _) := CtlTick(Guarded, tara, c, table, input);
      c'.phase == Driving && c'.children.run.Manual? && c'.range < ObstacleRange ==> c'.speed.y <= 10
  {
  }
}
