/** The drive unit's Main activity (ego_motion/src/main.cpp): after the
    network connection is up it runs the Receiver, the intent recogniser, the
    intent publisher and the Controller side by side, and ends with the
    Controller (after a QUIT).

    The orange blinking while connecting and the red blinking after the end
    are status-LED patterns of a library activity and are not modelled. The
    manual rule is a parameter: `Drive.AsWritten` is the program as it is,
    `Drive.Guarded` the program with the obstacle guard inside the manual
    session (see Findings in README.md). */
module Motion {
  import opened Common
  import opened Activity
  import opened Intention
  import opened Control
  import Drive
  import Plankton

  /** The main group's locals and its children's states. */
  datatype Group = Group(table: Plankton.Table, queue: seq<Bytes>, rcPress: Press, intent: Intent,
                         publisher: Publisher<Intent>, ctl: Ctl)

  /** Before the group's first tick: Main's intent is zero (STOP). */
  function GroupStart(table: Plankton.Table): Group {
    Group(table, [], No, Stop, Fresh, CtlStart)
  }

  /** One tick's inputs: the network, the datagrams that arrived, the three
      recognised presses of the drive unit's own buttons, and the stack
      contents of the joystick buffer. */
  datatype Input = Input(connected: bool, ready: bool, arrived: seq<Bytes>,
                         press: Press, redPress: Press, bluePress: Press, stack: Buf3)

  datatype Output = Output(sent: seq<Bytes>, commands: seq<Actuation.Command>, status: seq<Color>)

  const Silent := Output([], [], [])

  datatype MainState = Connecting | Running(group: Group) | Finished

  /** One tick of the main group: Receiver, IntentRecognizer, IntentPublisher
      and Controller, in this order. The group ends with the Controller. */
  function GroupTick(rule: Drive.ManualRule, tara: int16, g: Group, first: bool, input: Input): (r: (MainState, Output))
    ensures var rec := RecognizeTick(Plankton.Poll(input.ready, g.table, g.queue + input.arrived).table, first,
                                     input.ready, g.rcPress, g.intent, input.press, input.redPress, input.bluePress);
      var ctl := CtlTick(rule, tara, g.ctl, rec.table, TickIn(rec.intent, input.ready, input.stack));
      && (r.0.Finished? <==> ctl.0.phase == Done)
      && (r.0.Running? ==> r.0.group.intent == rec.intent && r.0.group.publisher == Holding(rec.intent))
      && r.1.commands == ctl.2.commands && r.1.status == ctl.2.status
      && (input.ready && g.publisher != Holding(rec.intent) ==>
            |r.1.sent| == 1 && r.1.sent[0] == Plankton.Frame(TopicIntent, [IntentByte(rec.intent)]))
  {
    var polled := Plankton.Poll(input.ready, g.table, g.queue + input.arrived);
    var rec := RecognizeTick(polled.table, first, input.ready, g.rcPress, g.intent, input.press, input.redPress, input.bluePress);
    var (publisher, datagram) := IntentPublishTick(g.publisher, input.ready, rec.intent);
    var (ctl, table, out) := CtlTick(rule, tara, g.ctl, rec.table, TickIn(rec.intent, input.ready, input.stack));
    var output := Output(SeqOf(datagram), out.commands, out.status);
    if ctl.phase == Done then (Finished, output)
    else (Running(Group(table, polled.rest, rec.rcPress, rec.intent, publisher, ctl)), output)
  }

  /** Main: Connector (strong) runs first; in the tick it completes the LED
      is cleared and the main group starts. `table` is the pub/sub table as
      it is when the main group starts. */
  function MainTick(rule: Drive.ManualRule, tara: int16, table: Plankton.Table, s: MainState, input: Input): (MainState, Output) {
    match s
    case Connecting =>
      if input.connected then
        var (s', out) := GroupTick(rule, tara, GroupStart(table), true, input);
        (s', out.(status := [Black] + out.status))
      else (Connecting, Silent)
    case Running(g) => GroupTick(rule, tara, g, false, input)
    case Finished => (Finished, Silent)
  }

  /** Nothing happens before the connection is up. */
  lemma WaitsForConnection(rule: Drive.ManualRule, tara: int16, table: Plankton.Table, input: Input)
    requires !input.connected
    ensures MainTick(rule, tara, table, Connecting, input) == (Connecting, Silent)
  {
  }

  /** A tick whose computed intent is QUIT, during a session, ends Main's
      group: the servos are stopped last and QUIT is published. */
  lemma QuitEndsGroup(rule: Drive.ManualRule, tara: int16, table: Plankton.Table, g: Group, input: Input, rec: Recognized)
    requires rec == RecognizeTick(Plankton.Poll(input.ready, g.table, g.queue + input.arrived).table, false,
                                  input.ready, g.rcPress, g.intent, input.press, input.redPress, input.bluePress)
    requires rec.intent == Quit && g.ctl.phase == Driving
    requires input.ready && g.publisher != Holding(Quit)
    ensures var (s', out) := MainTick(rule, tara, table, Running(g), input);
      && s'.Finished?
      && out.sent == [Plankton.Frame(TopicIntent, [IntentByte(Quit)])]
      && |out.commands| >= 2 && out.commands[|out.commands| - 2..] == Actuation.StopCommands
  {
    SessionEndResetsServos(rule, tara, g.ctl, rec.table, TickIn(rec.intent, input.ready, input.stack));
  }

  /** When the remote's stored press is NO after this tick's poll, a LONG
      press of the main button without a red press is recognised as QUIT,
      whatever else arrived. */
  lemma LongPressRecognized(g: Group, input: Input)
    requires input.press == Long && input.redPress == No
    requires var polled := Plankton.Poll(input.ready, g.table, g.queue + input.arrived);
      input.ready && TopicPress in polled.table && polled.table[TopicPress] == [PressByte(No)]
    ensures RecognizeTick(Plankton.Poll(input.ready, g.table, g.queue + input.arrived).table, false,
                          input.ready, g.rcPress, g.intent, input.press, input.redPress, input.bluePress).intent == Quit
  {
    var polled := Plankton.Poll(input.ready, g.table, g.queue + input.arrived);
    var rec := RecognizeTick(polled.table, false, input.ready, g.rcPress, g.intent, input.press, input.redPress, input.bluePress);
    assert rec.rcPress == No;
  }

  /** A LONG press of the main button, with no red or remote press, quits:
      the drive unit stops its servos, publishes QUIT in the same tick and
      Main's group ends. */
  lemma LongPressQuits(rule: Drive.ManualRule, tara: int16, table: Plankton.Table, g: Group, input: Input)
    requires input.press == Long && input.redPress == No
    requires g.ctl.phase == Driving
    requires var polled := Plankton.Poll(input.ready, g.table, g.queue + input.arrived);
      input.ready && TopicPress in polled.table && polled.table[TopicPress] == [PressByte(No)]
    requires g.publisher != Holding(Quit)
    ensures var (s', out) := MainTick(rule, tara, table, Running(g), input);
      && s'.Finished?
      && out.sent == [Plankton.Frame(TopicIntent, [IntentByte(Quit)])]
      && |out.commands| >= 2 && out.commands[|out.commands| - 2..] == Actuation.StopCommands
  {
    LongPressRecognized(g, input);
    var rec := RecognizeTick(Plankton.Poll(input.ready, g.table, g.queue + input.arrived).table, false,
                             input.ready, g.rcPress, g.intent, input.press, input.redPress, input.bluePress);
    QuitEndsGroup(rule, tara, table, g, input, rec);
  }

  /** Run with the guarded manual rule, the drive unit never keeps a forward
      manual speed while the range it read is below 80 mm. */
  lemma GuardedDeviceHolds(tara: int16, g: Group, first: bool, input: Input)
    requires g.ctl.phase != Done
    ensures var (s', _) := GroupTick(Drive.Guarded, tara, g, first, input);
      (s'.Running? && s'.group.ctl.phase == Driving && s'.group.ctl.children.run.Manual?
       && s'.group.ctl.range < Drive.ObstacleRange) ==> s'.group.ctl.speed.y <= 10
  {
    var polled := Plankton.Poll(input.ready, g.table, g.queue + input.arrived);
    var rec := RecognizeTick(polled.table, first, input.ready, g.rcPress, g.intent, input.press, input.redPress, input.bluePress);
    GuardedSessionHolds(tara, g.ctl, rec.table, TickIn(rec.intent, input.ready, input.stack));
  }

  /** Once finished, Main does nothing more. */
  lemma FinishedIsFinal(rule: Drive.ManualRule, tara: int16, table: Plankton.Table, input: Input)
    ensures MainTick(rule, tara, table, Finished, input) == (Finished, Silent)
  {
  }
}
