/** The ranging unit (ego_ranger/src/main.cpp): measures the distance ahead,
    publishes it and shows it as a traffic-light LED; a short press toggles
    between ranging and a white blink.

    The sensor (Ranger in pa_ranging.cpp) and the button recogniser are not
    modelled: each tick's measurement and recognised press are inputs. */
module Ranger {
  import opened Common
  import opened Activity

  datatype Level = Undef | Near | Medium | Far

  /** Nearer levels rank lower. */
  function Rank(l: Level): nat {
    match l
    case Undef => 0
    case Near => 1
    case Medium => 2
    case Far => 3
  }

  /** calcLevel: far above 1000 mm, medium above 300 mm, near otherwise. */
  function CalcLevel(range: uint16): (l: Level)
    ensures l != Undef
    ensures l == Far <==> range > 1000
    ensures l == Medium <==> 300 < range <= 1000
    ensures l == Near <==> range <= 300
  {
    if range > 1000 then Far
    else if range > 300 then Medium
    else Near
  }

  /** A larger range never yields a nearer level. */
  lemma CalcLevelMonotone(a: uint16, b: uint16)
    requires a <= b
    ensures Rank(CalcLevel(a)) <= Rank(CalcLevel(b))
  {
  }

  /** A failed measurement reads as "far". */
  lemma UndefRangeIsFar()
    ensures CalcLevel(UndefRange) == Far
  {
  }

  function LevelColor(l: Level): Color {
    match l
    case Far => Green
    case Medium => Yellow
    case Near => Red
    case Undef => Black
  }

  datatype Indication = Indication(prevLevel: Level, led: Option<Color>)

  /** RangeIndicator: sets the LED only when the level differs from the one
      recorded, then records it. */
  function IndicatorTick(prevLevel: Level, range: uint16): (r: Indication)
    ensures r.prevLevel == CalcLevel(range)
    ensures r.led.Some? <==> CalcLevel(range) != prevLevel
    ensures r.led.Some? ==> r.led.value == LevelColor(CalcLevel(range))
  {
    var level := CalcLevel(range);
    if level != prevLevel then Indication(level, Some(LevelColor(level)))
    else Indication(prevLevel, None)
  }

  /** The LED writes of RangeIndicator over a stream of ranges. */
  function IndicatorOuts(prevLevel: Level, ranges: seq<uint16>): seq<Option<Color>>
    decreases |ranges|
  {
    if |ranges| == 0 then []
    else
      var step := IndicatorTick(prevLevel, ranges[0]);
      [step.led] + IndicatorOuts(step.prevLevel, ranges[1..])
  }

  /** Started with the initial (Undef) level the LED is set in the first tick
      and afterwards exactly when the level changes. */
  lemma {:induction false} IndicatorOnLevelChange(prevLevel: Level, ranges: seq<uint16>)
    ensures |IndicatorOuts(prevLevel, ranges)| == |ranges|
    ensures forall i :: 0 <= i < |ranges| ==>
      var level := CalcLevel(ranges[i]);
      var changed := if i == 0 then level != prevLevel else level != CalcLevel(ranges[i - 1]);
      IndicatorOuts(prevLevel, ranges)[i] == (if changed then Some(LevelColor(level)) else None)
    decreases |ranges|
  {
    if |ranges| > 0 {
      IndicatorOnLevelChange(CalcLevel(ranges[0]), ranges[1..]);
    }
  }

  /** RangeController's locals that outlive one ranging phase. */
  datatype Ranging = Ranging(publisher: Publisher<uint16>, prevLevel: Level)

  datatype RangingOut = RangingOut(next: Ranging, published: Option<uint16>, led: Option<Color>)

  /** RangeController: Ranger writes the measurement, then RangePublisher
      publishes it on change, then RangeIndicator shows its level. */
  function RangingTick(s: Ranging, range: uint16): (r: RangingOut)
    ensures r.published == PublishTick(s.publisher, range).sent
    ensures r.led == IndicatorTick(s.prevLevel, range).led
  {
    var pub := PublishTick(s.publisher, range);
    var ind := IndicatorTick(s.prevLevel, range);
    RangingOut(Ranging(pub.next, ind.prevLevel), pub.sent, ind.led)
  }

  /** What RangeController publishes in each tick of a stream of measurements. */
  function RangingOuts(s: Ranging, ranges: seq<uint16>): seq<Option<uint16>>
    decreases |ranges|
  {
    if |ranges| == 0 then []
    else
      var o := RangingTick(s, ranges[0]);
      [o.published] + RangingOuts(o.next, ranges[1..])
  }

  /** RangeController publishes what its change-only publisher alone would,
      whatever level the indicator has recorded. */
  lemma {:induction false} RangingPublishes(s: Ranging, ranges: seq<uint16>)
    ensures RangingOuts(s, ranges) == PublishOuts(s.publisher, ranges)
    decreases |ranges|
  {
    if |ranges| > 0 {
      RangingPublishes(RangingTick(s, ranges[0]).next, ranges[1..]);
    }
  }

  /** The ranges published over a ranging phase, which starts with a fresh
      publisher (see EnterRanging): the measurement stream with consecutive
      duplicates removed. */
  lemma RangePublisherDedups(prevLevel: Level, ranges: seq<uint16>)
    ensures Sent(RangingOuts(Ranging(Fresh, prevLevel), ranges)) == Dedup(ranges)
  {
    RangingPublishes(Ranging(Fresh, prevLevel), ranges);
    PublishedIsDedup(ranges);
  }

  datatype Mode = NotStarted | Measuring | Blinking

  datatype ModeState = ModeState(mode: Mode, ranging: Ranging)

  datatype SensorCommand = NoCommand | StartRanging | StopRanging

  datatype ModeOut = ModeOut(sensor: SensorCommand, published: Option<uint16>, led: Option<Color>,
                             blinkEntered: bool)

  const Quiet := ModeOut(NoCommand, None, None, false)

  /** Entering RangeController: the sensor is started and the publisher
      restarts (it publishes in this tick); the indicator keeps its level. */
  function EnterRanging(s: ModeState, range: uint16): (ModeState, ModeOut) {
    var o := RangingTick(Ranging(Fresh, s.ranging.prevLevel), range);
    (ModeState(Measuring, o.next), ModeOut(StartRanging, o.published, o.led, false))
  }

  /** ModeController:
        while (true) { when_abort (press == SHORT, RangeController); stopRanging();
                       when_abort (press == SHORT, BlinkLED ...); } */
  function ModeTick(s: ModeState, press: Press, range: uint16): (r: (ModeState, ModeOut))
    ensures r.0.mode != NotStarted
    ensures r.1.sensor == StartRanging <==> s.mode != Measuring && r.0.mode == Measuring
    ensures r.1.sensor == StopRanging <==> s.mode == Measuring && r.0.mode == Blinking
    ensures r.1.blinkEntered <==> r.1.sensor == StopRanging
    ensures r.0.mode == Blinking ==> r.1.published == None && r.1.led == None
    ensures r.1.sensor == StartRanging ==> r.1.published == Some(range)
    ensures s.mode == Measuring && r.0.mode == Measuring ==> r.1.published == RangingTick(s.ranging, range).published
  {
    match s.mode
    case NotStarted => EnterRanging(s, range)
    case Measuring =>
      if press == Short then (ModeState(Blinking, s.ranging), ModeOut(StopRanging, None, None, true))
      else
        var o := RangingTick(s.ranging, range);
        (ModeState(Measuring, o.next), ModeOut(NoCommand, o.published, o.led, false))
    case Blinking =>
      if press == Short then EnterRanging(s, range)
      else (s, Quiet)
  }

  /** Each short press switches between ranging and blinking; the sensor is
      stopped exactly when ranging is left and started exactly when it is
      entered. Without a short press the mode stays and no command is issued. */
  lemma ModeToggle(s: ModeState, press: Press, range: uint16)
    requires s.mode != NotStarted
    ensures var (s', out) := ModeTick(s, press, range);
      && (press == Short ==> s'.mode != s.mode)
      && (press != Short ==> s'.mode == s.mode && out.sensor == NoCommand)
      && (out.sensor == StopRanging <==> s.mode == Measuring && s'.mode == Blinking)
      && (out.sensor == StartRanging <==> s.mode == Blinking && s'.mode == Measuring)
  {
  }

  function CountShort(presses: seq<Press>): nat {
    if |presses| == 0 then 0
    else CountShort(presses[..|presses| - 1]) + (if presses[|presses| - 1] == Short then 1 else 0)
  }

  function ModeRun(s: ModeState, presses: seq<Press>, ranges: seq<uint16>): ModeState
    requires |presses| == |ranges|
  {
    if |presses| == 0 then s
    else
      var n := |presses| - 1;
      ModeTick(ModeRun(s, presses[..n], ranges[..n]), presses[n], ranges[n]).0
  }

  /** After any run the controller is in its starting mode iff it saw an even
      number of short presses. */
  lemma {:induction false} ModeParity(s: ModeState, presses: seq<Press>, ranges: seq<uint16>)
    requires s.mode != NotStarted
    requires |presses| == |ranges|
    ensures var m := ModeRun(s, presses, ranges).mode;
      m != NotStarted && (m == s.mode <==> CountShort(presses) % 2 == 0)
  {
    if |presses| > 0 {
      var n := |presses| - 1;
      ModeParity(s, presses[..n], ranges[..n]);
      assert presses[..n] == presses[..|presses| - 1];
      ModeToggle(ModeRun(s, presses[..n], ranges[..n]), presses[n], ranges[n]);
    }
  }

  /** Main: on a failed setup only the red blink runs; otherwise the strong
      Connector runs beside a weak orange blink, and when it completes
      ModeController starts in the same tick. */
  datatype MainState = Boot | Failed | Connecting | Running(mode: ModeState)

  datatype Input = Input(connected: bool, press: Press, range: uint16)

  function Connect(input: Input): (MainState, ModeOut) {
    if input.connected then
      var (m, out) := ModeTick(ModeState(NotStarted, Ranging(Fresh, Undef)), input.press, input.range);
      (Running(m), out)
    else (Connecting, Quiet)
  }

  function MainTick(setupOK: bool, s: MainState, input: Input): (MainState, ModeOut) {
    match s
    case Boot => if !setupOK then (Failed, Quiet) else Connect(input)
    case Failed => (Failed, Quiet)
    case Connecting => Connect(input)
    case Running(m) =>
      var (m', out) := ModeTick(m, input.press, input.range);
      (Running(m'), out)
  }

  function MainRun(setupOK: bool, ins: seq<Input>): MainState {
    if |ins| == 0 then Boot else MainTick(setupOK, MainRun(setupOK, ins[..|ins| - 1]), ins[|ins| - 1]).0
  }

  /** ModeController runs iff setup succeeded and the connection was made in
      some earlier or the current tick; with a failed setup nothing but the
      error blink ever runs. */
  lemma {:induction false} MainSequencing(setupOK: bool, ins: seq<Input>)
    requires |ins| > 0
    ensures var s := MainRun(setupOK, ins);
      && (!setupOK ==> s == Failed)
      && (setupOK ==> (s.Running? <==> exists i :: 0 <= i < |ins| && ins[i].connected))
      && (setupOK && !s.Running? ==> s == Connecting)
  {
    var n := |ins| - 1;
    if n > 0 {
      MainSequencing(setupOK, ins[..n]);
      if exists i :: 0 <= i < n && ins[..n][i].connected {
        var i :| 0 <= i < n && ins[..n][i].connected;
        assert ins[i].connected;
      }
      if exists i :: 0 <= i < |ins| && ins[i].connected {
        var i :| 0 <= i < |ins| && ins[i].connected;
        if i < n {
          assert ins[..n][i].connected;
        }
      }
    } else {
      assert ins[..n] == [];
    }
  }

  /** The tick in which the connection is made starts the sensor and shows the
      first level at once. */
  lemma FirstConnectedTick(input: Input)
    requires input.connected
    ensures var (s, out) := MainTick(true, Connecting, input);
      s.Running? && s.mode.mode == Measuring && out.sensor == StartRanging
      && out.published == Some(input.range) && out.led == Some(LevelColor(CalcLevel(input.range)))
  {
  }
}
