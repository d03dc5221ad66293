/** The drive unit's six traffic LEDs (ego_motion/src/main.cpp): the speed
    is classified into a longitudinal and a lateral direction; the main lights
    show the longitudinal one and the blinkers the lateral one. Each of the
    two light activities restarts its auxiliary activity whenever its
    direction changes and switches its LEDs off in between. */
module Lights {
  import opened Common
  import opened Activity
  import opened Actuation

  datatype LongDir = Halt | Forward | Backward
  datatype LatDir = Center | Left | Right

  /** DirGenerator, longitudinal part. */
  function LongDirOf(s: Speed): (d: LongDir)
    ensures d == Forward <==> s.y > 10
    ensures d == Backward <==> s.y < -10
    ensures d == Halt <==> -10 <= s.y <= 10
  {
    if s.y > 10 then Forward else if s.y < -10 then Backward else Halt
  }

  /** DirGenerator, lateral part. */
  function LatDirOf(s: Speed): (d: LatDir)
    ensures d == Right <==> s.x > 20
    ensures d == Left <==> s.x < -20
    ensures d == Center <==> -20 <= s.x <= 20
  {
    if s.x > 20 then Right else if s.x < -20 then Left else Center
  }

  /** The LED strip; index i is TrafficLED i. */
  type Leds = l: seq<Color> | |l| == 6 witness [Black, Black, Black, Black, Black, Black]

  const FrontRight := 0
  const FrontCenter := 1
  const FrontLeft := 2
  const BackLeft := 3
  const BackCenter := 4
  const BackRight := 5

  const AllDark: Leds := [Black, Black, Black, Black, Black, Black]

  /** A blinking light: lit or dark, for 5 ticks each. */
  datatype Blink = Blink(lit: bool, delay: Delay)

  const BlinkStart := Blink(true, Counting(5))

  /** The light flips exactly when its delay elapses, and a new delay of 5 starts. */
  function BlinkTick(b: Blink): (r: Blink)
    ensures r.lit != b.lit <==> DelayTick(b.delay).Elapsed?
    ensures r.lit != b.lit ==> r.delay == Counting(5)
  {
    var d := DelayTick(b.delay);
    if d.Counting? then Blink(b.lit, d) else Blink(!b.lit, Counting(5))
  }

  function BlinkAfter(k: nat): Blink {
    if k == 0 then BlinkStart else BlinkTick(BlinkAfter(k - 1))
  }

  /** A blinking light is lit in the first 5 of every 10 ticks after its start. */
  lemma {:induction false} BlinkPeriod(k: nat)
    ensures BlinkAfter(k) == Blink(k % 10 < 5, Counting(5 - k % 5))
  {
    if k > 0 {
      BlinkPeriod(k - 1);
    }
  }

  // Blinker

  datatype Side = LeftSide | RightSide

  /** BlinkerAux: the blinking side, or nothing for CENTER (halt). */
  datatype BlinkerAux = Blinking(side: Side, blink: Blink) | Dark

  datatype Blinker = Blinker(prev: LatDir, aux: BlinkerAux)

  function SideColor(b: Blink): Color {
    if b.lit then Yellow else Black
  }

  /** The two LEDs of a side set to a colour. */
  function SetSide(leds: Leds, side: Side, c: Color): (r: Leds)
    ensures side == LeftSide ==> r[FrontLeft] == c && r[BackLeft] == c
    ensures side == RightSide ==> r[FrontRight] == c && r[BackRight] == c
    ensures forall i :: 0 <= i < 6 && i != FrontLeft && i != BackLeft && i != FrontRight && i != BackRight ==> r[i] == leds[i]
    ensures side == LeftSide ==> r[FrontRight] == leds[FrontRight] && r[BackRight] == leds[BackRight]
    ensures side == RightSide ==> r[FrontLeft] == leds[FrontLeft] && r[BackLeft] == leds[BackLeft]
  {
    if side == LeftSide then leds[FrontLeft := c][BackLeft := c] else leds[FrontRight := c][BackRight := c]
  }

  /** stopBlinker: all four side LEDs dark. */
  function StopBlinker(leds: Leds): (r: Leds)
    ensures r[FrontLeft] == r[BackLeft] == r[FrontRight] == r[BackRight] == Black
    ensures r[FrontCenter] == leds[FrontCenter] && r[BackCenter] == leds[BackCenter]
  {
    SetSide(SetSide(leds, LeftSide, Black), RightSide, Black)
  }

  function EnterBlinker(leds: Leds, dir: LatDir): (Blinker, Leds) {
    match dir
    case Center => (Blinker(dir, Dark), leds)
    case Left => (Blinker(dir, Blinking(LeftSide, BlinkStart)), SetSide(leds, LeftSide, Yellow))
    case Right => (Blinker(dir, Blinking(RightSide, BlinkStart)), SetSide(leds, RightSide, Yellow))
  }

  function BlinkerTick(b: Blinker, leds: Leds, dir: LatDir): (Blinker, Leds) {
    if dir != b.prev then EnterBlinker(StopBlinker(leds), dir)
    else match b.aux
      case Dark => (b, leds)
      case Blinking(side, blink) =>
        var blink' := BlinkTick(blink);
        (Blinker(b.prev, Blinking(side, blink')),
         if blink'.lit != blink.lit then SetSide(leds, side, SideColor(blink')) else leds)
  }

  // MainLights

  /** MainLightsAux: FORWARD lights the centre LEDs and halts, BACKWARD blinks
      the rear one, STOP halts at once. */
  datatype MainAux = Steady | Reversing(blink: Blink)

  datatype MainLights = MainLights(prev: LongDir, aux: MainAux)

  /** stopMainLights: both centre LEDs dark. */
  function StopMainLights(leds: Leds): (r: Leds)
    ensures r[FrontCenter] == Black && r[BackCenter] == Black
    ensures forall i :: 0 <= i < 6 && i != FrontCenter && i != BackCenter ==> r[i] == leds[i]
  {
    leds[FrontCenter := Black][BackCenter := Black]
  }

  function EnterMainLights(leds: Leds, dir: LongDir): (MainLights, Leds) {
    match dir
    case Forward => (MainLights(dir, Steady), leds[FrontCenter := White][BackCenter := Red])
    case Backward => (MainLights(dir, Reversing(BlinkStart)), leds[FrontCenter := White][BackCenter := Red])
    case Halt => (MainLights(dir, Steady), leds)
  }

  function MainLightsTick(m: MainLights, leds: Leds, dir: LongDir): (MainLights, Leds) {
    if dir != m.prev then EnterMainLights(StopMainLights(leds), dir)
    else match m.aux
      case Steady => (m, leds)
      case Reversing(blink) =>
        var blink' := BlinkTick(blink);
        (MainLights(m.prev, Reversing(blink')),
         if blink'.lit != blink.lit then leds[BackCenter := if blink'.lit then Red else Black] else leds)
  }

  // Lights

  datatype LightsState = LightsState(blinker: Blinker, main: MainLights)

  /** Lights entered: DirGenerator, Blinker and MainLights all run their first tick. */
  function EnterLights(leds: Leds, s: Speed): (r: (LightsState, Leds)) {
    var (b, l1) := EnterBlinker(leds, LatDirOf(s));
    var (m, l2) := EnterMainLights(l1, LongDirOf(s));
    (LightsState(b, m), l2)
  }

  function LightsTick(st: LightsState, leds: Leds, s: Speed): (r: (LightsState, Leds)) {
    var (b, l1) := BlinkerTick(st.blinker, leds, LatDirOf(s));
    var (m, l2) := MainLightsTick(st.main, l1, LongDirOf(s));
    (LightsState(b, m), l2)
  }

  /** stopLights: every LED dark. */
  function StopLights(leds: Leds): (r: Leds)
    ensures r == AllDark
  {
    StopBlinker(StopMainLights(leds))
  }

  /** What the LEDs show for the directions the lights activities follow:
      the side of the lateral direction blinks (both of its LEDs alike), the
      other side is dark; forward shows white in front and red at the back,
      backward white in front and a blinking red, stop nothing. */
  ghost predicate Shows(st: LightsState, leds: Leds) {
    var lat := st.blinker.prev;
    var lng := st.main.prev;
    && (lat != Left ==> leds[FrontLeft] == Black && leds[BackLeft] == Black)
    && (lat != Right ==> leds[FrontRight] == Black && leds[BackRight] == Black)
    && (lat == Center <==> st.blinker.aux.Dark?)
    && (st.blinker.aux.Blinking? ==>
          (st.blinker.aux.side == LeftSide <==> lat == Left)
          && leds[if lat == Left then FrontLeft else FrontRight] == SideColor(st.blinker.aux.blink)
          && leds[if lat == Left then BackLeft else BackRight] == SideColor(st.blinker.aux.blink))
    && (lng == Halt ==> leds[FrontCenter] == Black && leds[BackCenter] == Black && st.main.aux.Steady?)
    && (lng == Forward ==> leds[FrontCenter] == White && leds[BackCenter] == Red && st.main.aux.Steady?)
    && (lng == Backward ==>
          leds[FrontCenter] == White && st.main.aux.Reversing?
          && leds[BackCenter] == (if st.main.aux.blink.lit then Red else Black))
  }

  /** Entering the lights with all LEDs dark shows the speed's directions. */
  lemma EnterShows(s: Speed)
    ensures var (st, leds) := EnterLights(AllDark, s);
      Shows(st, leds) && st.blinker.prev == LatDirOf(s) && st.main.prev == LongDirOf(s)
  {
  }

  /** Every tick keeps the LEDs showing the directions of the current speed. */
  lemma TickShows(st: LightsState, leds: Leds, s: Speed)
    requires Shows(st, leds)
    ensures var (st', leds') := LightsTick(st, leds, s);
      Shows(st', leds') && st'.blinker.prev == LatDirOf(s) && st'.main.prev == LongDirOf(s)
  {
  }
}
