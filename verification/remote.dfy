/** The handheld remote (ego_remote/src/main.cpp): shows a screen for the
    robot's current intent, publishes the joystick in manual mode and publishes
    button presses, where the stop button overrides every other press.

    Hardware readers are not modelled: each tick's joystick reading, the
    recognised press (PressRecognizer2) and the stop button's rising edge
    (RaisingEdgeDetector) are inputs. Screen drawing is reduced to which
    screen is shown. */
module Remote {
  import opened Common
  import opened Activity
  import Plankton
  import Dimmer

  // IntentChangeDetector

  datatype Detection = Detection(prevIntent: Intent, changed: bool)

  /** None is the state before the detector's first tick. */
  function DetectTick(s: Option<Intent>, intent: Intent): (r: Detection)
    ensures r.prevIntent == intent
    ensures r.changed <==> s.Some? && s.value != intent
  {
    match s
    case None => Detection(intent, false)
    case Some(p) => if intent != p then Detection(intent, true) else Detection(p, false)
  }

  function DetectOuts(s: Option<Intent>, intents: seq<Intent>): seq<bool>
    decreases |intents|
  {
    if |intents| == 0 then []
    else
      var d := DetectTick(s, intents[0]);
      [d.changed] + DetectOuts(Some(d.prevIntent), intents[1..])
  }

  /** The detector reports false in its first tick and afterwards exactly the
      ticks whose intent differs from the previous tick's. */
  lemma {:induction false} DetectsChanges(intents: seq<Intent>)
    ensures |DetectOuts(None, intents)| == |intents|
    ensures forall i :: 0 <= i < |intents| ==>
      DetectOuts(None, intents)[i] == (i > 0 && intents[i] != intents[i - 1])
  {
    if |intents| > 0 {
      DetectsChangesFrom(intents[0], intents[1..]);
    }
  }

  lemma {:induction false} DetectsChangesFrom(prev: Intent, intents: seq<Intent>)
    ensures |DetectOuts(Some(prev), intents)| == |intents|
    ensures forall i :: 0 <= i < |intents| ==>
      DetectOuts(Some(prev), intents)[i] == (intents[i] != if i == 0 then prev else intents[i - 1])
    decreases |intents|
  {
    if |intents| > 0 {
      DetectsChangesFrom(intents[0], intents[1..]);
    }
  }

  // InputCombiner

  /** The stop button turns the press into SHORT unless the robot is stopped already. */
  function CombinePress(stopButton: bool, intent: Intent, press: Press): (r: Press)
    ensures stopButton && intent != Stop ==> r == Short
    ensures !stopButton || intent == Stop ==> r == press
  {
    if intent != Stop && stopButton then Short else press
  }

  // MainScreen

  datatype Screen = StopScreen | ManualScreen(joystick: Publisher<(int8, int8, bool)>) | AutoScreen | QuitScreen

  function ScreenIntent(sc: Screen): Intent {
    match sc
    case StopScreen => Stop
    case ManualScreen(_) => StartManu
    case AutoScreen => StartAuto
    case QuitScreen => Quit
  }

  datatype ScreenOut = ScreenOut(screen: Screen, entered: bool, joystick: Option<(int8, int8, bool)>)

  /** Entering the screen for an intent; ManualScreen's JoystickPublisher
      publishes in its first tick (the button flag it sends is always false). */
  function EnterScreen(intent: Intent, x: int8, y: int8): ScreenOut {
    match intent
    case Stop => ScreenOut(StopScreen, true, None)
    case StartManu =>
      var p := PublishTick(Fresh, (x, y, false));
      ScreenOut(ManualScreen(p.next), true, p.sent)
    case StartAuto => ScreenOut(AutoScreen, true, None)
    case Quit => ScreenOut(QuitScreen, true, None)
  }

  /** MainScreen: each screen runs under an abort on "intent changed"; when it
      is aborted the loop enters the screen of the new intent in the same tick. */
  function ScreenTick(s: Option<Screen>, intent: Intent, x: int8, y: int8): (r: ScreenOut)
    ensures ScreenIntent(r.screen) == intent
    ensures r.entered <==> s.None? || ScreenIntent(s.value) != intent
    ensures r.joystick.Some? ==> intent == StartManu && r.joystick.value == (x, y, false)
    ensures intent == StartManu && r.entered ==> r.joystick == Some((x, y, false))
    ensures s.Some? && s.value.ManualScreen? && intent == StartManu ==>
      (r.joystick.Some? <==> s.value.joystick != Holding((x, y, false)))
  {
    match s
    case None => EnterScreen(intent, x, y)
    case Some(sc) =>
      if ScreenIntent(sc) != intent then EnterScreen(intent, x, y)
      else match sc
        case ManualScreen(pub) =>
          var p := PublishTick(pub, (x, y, false));
          ScreenOut(ManualScreen(p.next), false, p.sent)
        case _ => ScreenOut(sc, false, None)
  }

  /** DIMMER_CONFIG: full brightness 10, dim after 50 quiet ticks, one step per 5 ticks. */
  const DimmerConfig := Dimmer.Config(10, 50, 5)

  // Main

  /** The main group's locals and the children's states. */
  datatype Group = Group(
    table: Plankton.Table, queue: seq<Bytes>,
    intent: Intent, joyX: int8, joyY: int8,
    screen: Option<Screen>, detector: Option<Intent>, dimmer: Dimmer.DimmState,
    press: Press, pressPublisher: Publisher<Press>)

  /** Before the group's first tick: Main's locals are zero (STOP, NO, 0). */
  function GroupStart(table: Plankton.Table): Group {
    Group(table, [], Stop, 0, 0, None, None, Dimmer.Initial, No, Fresh)
  }

  datatype Input = Input(connected: bool, ready: bool, arrived: seq<Bytes>,
                         joystick: Option<(int8, int8)>, rawPress: Press, stopButton: bool)

  /** What a tick sends and shows: datagrams in send order, brightness writes,
      and whether a screen was entered. */
  datatype Output = Output(sent: seq<Bytes>, brightness: seq<uint8>, screenEntered: bool)

  const Silent := Output([], [], false)

  /** Receiver, then IntentSubscriber (which subscribes in its first tick):
      the intent after this tick's reads. */
  function ReceiveIntent(g: Group, first: bool, input: Input): (r: (Plankton.Table, seq<Bytes>, Intent))
    ensures var polled := Plankton.Poll(input.ready, g.table, g.queue + input.arrived);
      && r.1 == polled.rest
      && r.0.Keys == (if first then polled.table.Keys + {TopicIntent} else polled.table.Keys)
    ensures !input.ready || TopicIntent !in r.0 || |r.0[TopicIntent]| == 0 ==> r.2 == g.intent
    ensures input.ready && TopicIntent in r.0 && |r.0[TopicIntent]| > 0 && r.0[TopicIntent][0] < 4 ==>
      IntentByte(r.2) == r.0[TopicIntent][0]
    ensures input.ready && TopicIntent in r.0 && |r.0[TopicIntent]| > 0 && r.0[TopicIntent][0] >= 4 ==>
      r.2 == g.intent
  {
    var polled := Plankton.Poll(input.ready, g.table, g.queue + input.arrived);
    var table := if first then Plankton.Subscribe(polled.table, TopicIntent).table else polled.table;
    var rd := Plankton.Read(input.ready, table, TopicIntent, [IntentByte(g.intent)]);
    var intent := match IntentOfByte(rd.dest[0]) case Some(i) => i case None => g.intent;
    (table, polled.rest, intent)
  }

  /** One tick of the main group: Receiver, IntentSubscriber, JoystickReader,
      MainScreen, PressRecognizer2, IntentChangeDetector, Dimmer,
      RaisingEdgeDetector, InputCombiner, PressPublisher, in this order. */
  function GroupTick(g: Group, first: bool, input: Input): (r: (Group, Output))
    ensures r.0.intent == ReceiveIntent(g, first, input).2
    ensures r.0.screen.Some? && ScreenIntent(r.0.screen.value) == r.0.intent
    ensures r.1.screenEntered <==> g.screen.None? || ScreenIntent(g.screen.value) != r.0.intent
    ensures r.0.detector == Some(r.0.intent)
    ensures r.0.pressPublisher == Holding(r.0.press)
    ensures !input.ready ==> r.1.sent == []
    ensures |r.1.sent| <= 2
    ensures input.ready && g.pressPublisher != Holding(r.0.press) ==>
      |r.1.sent| >= 1 && r.1.sent[|r.1.sent| - 1] == Plankton.Frame(TopicPress, [PressByte(r.0.press)])
  {
    var (table, queue, intent) := ReceiveIntent(g, first, input);
    var (x, y) := if input.joystick.Some? then input.joystick.value else (g.joyX, g.joyY);
    var screen := ScreenTick(g.screen, intent, x, y);
    var joyDatagram := SendJoystick(input.ready, screen.joystick);
    var detection := DetectTick(g.detector, intent);
    var dimmed := Dimmer.DimmerTick(DimmerConfig, g.dimmer, input.rawPress, detection.changed);
    var press := CombinePress(input.stopButton, intent, dimmed.press);
    var (publisher, pressDatagram) := SendPress(g.pressPublisher, input.ready, press);
    (Group(table, queue, intent, x, y, Some(screen.screen), Some(detection.prevIntent), dimmed.next, press, publisher),
     Output(SeqOf(joyDatagram) + SeqOf(pressDatagram), dimmed.writes, screen.entered))
  }

  /** MainScreen's joystick publish: the joystick triple as a datagram. */
  function SendJoystick(ready: bool, joystick: Option<(int8, int8, bool)>): (r: Option<Bytes>)
    ensures r.Some? <==> ready && joystick.Some?
    ensures r.Some? ==> r.value == Plankton.Frame(TopicJoystick, JoystickBytes(joystick.value.0, joystick.value.1, joystick.value.2))
  {
    if joystick.Some? then
      var (jx, jy, jb) := joystick.value;
      Plankton.Publish(ready, TopicJoystick, JoystickBytes(jx, jy, jb))
    else None
  }

  /** PressPublisher: the press is sent on the first tick and on every change. */
  function SendPress(p: Publisher<Press>, ready: bool, press: Press): (r: (Publisher<Press>, Option<Bytes>))
    ensures r.0 == Holding(press)
    ensures r.1.Some? <==> ready && p != Holding(press)
    ensures r.1.Some? ==> r.1.value == Plankton.Frame(TopicPress, [PressByte(press)])
  {
    var pub := PublishTick(p, press);
    (pub.next, if pub.sent.Some? then Plankton.Publish(ready, TopicPress, [PressByte(press)]) else None)
  }

  /** Main: ErrorScreen halts on a failed setup; otherwise Connector (strong)
      runs beside a weak ConnectorScreen, and the main group starts in the tick
      Connector completes. */
  datatype MainState = Boot | Failed | Connecting | Running(group: Group)

  function Connect(table: Plankton.Table, input: Input): (MainState, Output) {
    if input.connected then
      var (g, out) := GroupTick(GroupStart(table), true, input);
      (Running(g), out)
    else (Connecting, Silent)
  }

  /** `table` is the pub/sub table as it is when the main group starts. */
  function MainTick(setupOK: bool, table: Plankton.Table, s: MainState, input: Input): (MainState, Output) {
    match s
    case Boot => if !setupOK then (Failed, Silent) else Connect(table, input)
    case Failed => (Failed, Silent)
    case Connecting => Connect(table, input)
    case Running(g) =>
      var (g', out) := GroupTick(g, false, input);
      (Running(g'), out)
  }

  /** The press handed to PressPublisher is the dimmer's output with the stop
      button applied on top, both computed in this tick: a stop-button SHORT
      overrides a masked press and is published in the same tick unless SHORT
      was the last press published. */
  lemma StopButtonWins(g: Group, input: Input)
    requires input.stopButton && input.ready
    ensures var (g', out) := GroupTick(g, false, input);
      g'.intent != Stop ==>
        && g'.press == Short
        && g'.pressPublisher == Holding(Short)
        && (g.pressPublisher != Holding(Short) ==>
              |out.sent| > 0 && out.sent[|out.sent| - 1] == Plankton.Frame(TopicPress, [PressByte(Short)]))
  {
  }

  /** The press published in a tick is the dimmer's masking of the raw press,
      overridden by the stop button. */
  lemma PressPipelineOrder(g: Group, input: Input)
    ensures var (g', out) := GroupTick(g, false, input);
      var dimmed := Dimmer.DimmerTick(DimmerConfig, g.dimmer, input.rawPress, g.detector.Some? && g.detector.value != g'.intent);
      g'.press == CombinePress(input.stopButton, g'.intent, Dimmer.PressCopy(input.rawPress, dimmed.next.isDimmed))
  {
  }

  function MainRun(setupOK: bool, table: Plankton.Table, ins: seq<Input>): (MainState, seq<Output>) {
    if |ins| == 0 then (Boot, [])
    else
      var (s, outs) := MainRun(setupOK, table, ins[..|ins| - 1]);
      var (s', out) := MainTick(setupOK, table, s, ins[|ins| - 1]);
      (s', outs + [out])
  }

  /** With a failed setup the error screen halts: the connector and the main
      group are never reached and nothing is ever sent. */
  lemma {:induction false} FailedSetupHalts(table: Plankton.Table, ins: seq<Input>)
    requires |ins| > 0
    ensures MainRun(false, table, ins).0 == Failed
    ensures |MainRun(false, table, ins).1| == |ins|
    ensures forall i :: 0 <= i < |ins| ==> MainRun(false, table, ins).1[i] == Silent
  {
    var n := |ins| - 1;
    if n > 0 {
      FailedSetupHalts(table, ins[..n]);
      var outs := MainRun(false, table, ins[..n]).1;
      assert MainRun(false, table, ins).1 == outs + [Silent];
    }
  }
}
