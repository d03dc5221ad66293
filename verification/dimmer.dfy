/** The screen dimmer of the handheld remote (ego_libs/pa_stickc/pa_stickc.cpp).

    After a quiet period the screen is dimmed down step by step; a wakeup (a
    button press or another wakeup signal) restores full brightness. The press
    that wakes the screen is swallowed: while the screen is dimmed every press
    is masked to No. Brightness writes (Axp.ScreenBreath) are tick outputs. */
module Dimmer {
  import opened Common
  import opened Activity

  /** DimmerConfig: brightness before dimming, quiet ticks before dimming,
      ticks per dimming step. */
  datatype Config = Config(maxBrightness: uint8, awakePeriod: nat, stepPeriod: nat)

  /** The lowest brightness the dim-down steps to. */
  const MinBrightness := 7

  // DimDownController

  datatype DimDown = Stepping(brightness: uint8, delay: Delay) | Halted

  datatype DimDownOut = DimDownOut(next: DimDown, writes: seq<uint8>)

  /** The for loop of DimDownController entered (or continued) at brightness b
      within one tick; it stops at the first step whose delay suspends. */
  function DimFrom(b: int, step: nat): DimDownOut
    requires b <= 0xFF
    decreases b
  {
    if b < MinBrightness then DimDownOut(Halted, [])
    else
      var d := DelayStart(step);
      if d.Counting? then DimDownOut(Stepping(b, d), [b])
      else
        var rest := DimFrom(b - 1, step);
        DimDownOut(rest.next, [b] + rest.writes)
  }

  function DimDownTick(s: DimDown, step: nat): DimDownOut {
    match s
    case Halted => DimDownOut(Halted, [])
    case Stepping(b, d) =>
      var d' := DelayTick(d);
      if d'.Counting? then DimDownOut(Stepping(b, d'), []) else DimFrom(b - 1, step)
  }

  /** DimDownController k ticks after being entered with the configured maximum. */
  function DimDownAt(cfg: Config, k: nat): DimDownOut {
    if k == 0 then DimFrom(cfg.maxBrightness, cfg.stepPeriod)
    else DimDownTick(DimDownAt(cfg, k - 1).next, cfg.stepPeriod)
  }

  lemma DivModNext(k: nat, step: nat)
    requires step > 0 && k > 0
    ensures (k - 1) % step == step - 1 ==> k % step == 0 && k / step == (k - 1) / step + 1
    ensures (k - 1) % step < step - 1 ==> k % step == (k - 1) % step + 1 && k / step == (k - 1) / step
  {
    var q, r := (k - 1) / step, (k - 1) % step;
    assert k - 1 == q * step + r;
    if r == step - 1 {
      assert k == (q + 1) * step;
      DivUnique(k, step, q + 1, 0);
    } else {
      DivUnique(k, step, q, r + 1);
    }
  }

  lemma DivUnique(k: nat, step: nat, q: int, r: int)
    requires step > 0 && 0 <= r < step && k == q * step + r
    ensures k / step == q && k % step == r
  {
    var q', r' := k / step, k % step;
    assert k == q' * step + r';
    assert (q - q') * step == r' - r;
    if q - q' >= 1 {
      MulAtLeast(q - q', step);
      assert false;
    } else if q' - q >= 1 {
      MulAtLeast(q' - q, step);
      assert false;
    }
  }

  lemma {:induction false} MulAtLeast(d: int, step: int)
    requires d >= 1 && step > 0
    ensures d * step >= step
    decreases d
  {
    if d > 1 {
      MulAtLeast(d - 1, step);
      assert d * step == (d - 1) * step + step;
    }
  }

  /** With a step period of p ticks, DimDownController writes maxBrightness,
      maxBrightness-1, ..., 7, each p ticks after the previous one, and then
      halts: in tick k it is at step j = k / p and writes only when k is a
      multiple of p. Nothing is written at all when maxBrightness < 7. */
  lemma {:induction false} DimDownSchedule(cfg: Config, k: nat)
    requires cfg.stepPeriod > 0
    ensures var p := cfg.stepPeriod;
      var b := cfg.maxBrightness - k / p;
      var out := DimDownAt(cfg, k);
      && out.next == (if b >= MinBrightness then Stepping(b, Counting(p - k % p)) else Halted)
      && out.writes == (if k % p == 0 && b >= MinBrightness then [b] else [])
  {
    var p := cfg.stepPeriod;
    if k > 0 {
      DimDownSchedule(cfg, k - 1);
      DivModNext(k, p);
      assert k / p >= (k - 1) / p;
    }
  }

  /** With no step period the whole dim-down happens in the tick it is entered. */
  lemma {:induction false} DimDownAtOnce(b: int)
    requires b <= 0xFF
    ensures DimFrom(b, 0).next == Halted
    ensures |DimFrom(b, 0).writes| == if b < MinBrightness then 0 else b - MinBrightness + 1
    ensures forall i :: 0 <= i < |DimFrom(b, 0).writes| ==> DimFrom(b, 0).writes[i] == b - i
    decreases b
  {
    if b >= MinBrightness {
      DimDownAtOnce(b - 1);
    }
  }

  // DimmController

  /** Where DimmController is parked: before its first tick, in the awake
      countdown, in the dim-down, or at the pause after a wakeup. */
  datatype Phase = Entering | Awake(countdown: Delay) | Dimming(dimDown: DimDown) | Woken

  /** The controller's phase together with the Dimmer's isDimmed flag it writes. */
  datatype DimmState = DimmState(phase: Phase, isDimmed: bool)

  const Initial := DimmState(Entering, false)

  datatype DimmOut = DimmOut(next: DimmState, writes: seq<uint8>)

  function EnterDimming(cfg: Config): DimmOut {
    var dd := DimFrom(cfg.maxBrightness, cfg.stepPeriod);
    DimmOut(DimmState(Dimming(dd.next), true), dd.writes)
  }

  /** The top of DimmController's loop: the countdown is entered (its reset
      guard is not tested in this tick). */
  function EnterLoop(cfg: Config, isDimmed: bool): DimmOut {
    var d := DelayStart(cfg.awakePeriod);
    if d.Counting? then DimmOut(DimmState(Awake(d), isDimmed), []) else EnterDimming(cfg)
  }

  /** One tick of DimmController. */
  function DimmTick(cfg: Config, s: DimmState, wakeup: bool): (r: DimmOut)
    ensures r.next.phase != Entering
    ensures s.phase.Dimming? && wakeup ==> r.next == DimmState(Woken, s.isDimmed) && r.writes == [cfg.maxBrightness]
    ensures s.phase.Awake? && wakeup && cfg.awakePeriod > 0 ==>
      r.next == DimmState(Awake(Counting(cfg.awakePeriod)), s.isDimmed) && r.writes == []
    ensures r.next.phase.Dimming? && !s.phase.Dimming? ==> r.next.isDimmed
    ensures s.phase.Woken? && cfg.awakePeriod > 0 ==> r.next.phase.Awake? && !r.next.isDimmed
    ensures r.next.phase.Awake? ==> r.writes == []
  {
    match s.phase
    case Entering => EnterLoop(cfg, s.isDimmed)
    case Awake(d) =>
      // pa_when_reset: a wakeup restarts the countdown within this tick
      var d' := if wakeup then DelayStart(cfg.awakePeriod) else DelayTick(d);
      if d'.Counting? then DimmOut(DimmState(Awake(d'), s.isDimmed), []) else EnterDimming(cfg)
    case Dimming(dd) =>
      // pa_when_abort: a wakeup aborts the dim-down and restores the brightness
      if wakeup then DimmOut(DimmState(Woken, s.isDimmed), [cfg.maxBrightness])
      else
        var o := DimDownTick(dd, cfg.stepPeriod);
        DimmOut(DimmState(Dimming(o.next), s.isDimmed), o.writes)
    case Woken => EnterLoop(cfg, false)
  }

  /** PressCopyMachine: presses are masked while the screen is dimmed. */
  function PressCopy(rawPress: Press, isDimmed: bool): (press: Press)
    ensures isDimmed ==> press == No
    ensures !isDimmed ==> press == rawPress
  {
    if isDimmed then No else rawPress
  }

  function Wakeup(rawPress: Press, otherWakeup: bool): bool {
    rawPress != No || otherWakeup
  }

  datatype DimmerOut = DimmerOut(next: DimmState, press: Press, writes: seq<uint8>)

  /** Dimmer: DimmController, then PressCopyMachine, in one tick; the copy
      therefore sees the isDimmed written in the same tick. */
  function DimmerTick(cfg: Config, s: DimmState, rawPress: Press, otherWakeup: bool): (r: DimmerOut)
    ensures r.next == DimmTick(cfg, s, Wakeup(rawPress, otherWakeup)).next
    ensures r.press == PressCopy(rawPress, r.next.isDimmed)
  {
    var o := DimmTick(cfg, s, Wakeup(rawPress, otherWakeup));
    DimmerOut(o.next, PressCopy(rawPress, o.next.isDimmed), o.writes)
  }

  /** isDimmed is false exactly while counting down, true while dimming and
      during the tick that swallows the waking press. */
  ghost predicate Inv(cfg: Config, s: DimmState) {
    match s.phase
    case Entering => !s.isDimmed
    case Awake(d) => !s.isDimmed && d.Counting? && d.left <= cfg.awakePeriod
    case Dimming(_) => s.isDimmed
    case Woken => s.isDimmed
  }

  lemma DimmerKeepsInv(cfg: Config, s: DimmState, rawPress: Press, otherWakeup: bool)
    requires Inv(cfg, s)
    ensures Inv(cfg, DimmerTick(cfg, s, rawPress, otherWakeup).next)
  {
  }

  lemma InitialInv(cfg: Config)
    ensures Inv(cfg, Initial)
  {
  }

  /** A wakeup during the countdown restarts it from the full quiet period and
      lets the press through. */
  lemma WakeupRestartsCountdown(cfg: Config, s: DimmState, rawPress: Press, otherWakeup: bool)
    requires Inv(cfg, s) && s.phase.Awake?
    requires Wakeup(rawPress, otherWakeup)
    requires cfg.awakePeriod > 0
    ensures var r := DimmerTick(cfg, s, rawPress, otherWakeup);
      r.next == DimmState(Awake(Counting(cfg.awakePeriod)), false) && r.press == rawPress && r.writes == []
  {
  }

  /** The state after k ticks without wakeup. */
  function QuietRun(cfg: Config, s: DimmState, k: nat): DimmState {
    if k == 0 then s else DimmTick(cfg, QuietRun(cfg, s, k - 1), false).next
  }

  /** From a freshly (re)started countdown the screen stays undimmed for
      awakePeriod - 1 quiet ticks and is dimmed in the awakePeriod-th. */
  lemma {:induction false} DimsAfterQuietPeriod(cfg: Config, k: nat)
    requires 0 < k <= cfg.awakePeriod
    ensures var s := QuietRun(cfg, DimmState(Awake(Counting(cfg.awakePeriod)), false), k);
      (s.isDimmed <==> k == cfg.awakePeriod)
      && (k < cfg.awakePeriod ==> s.phase == Awake(Counting(cfg.awakePeriod - k)))
  {
    QuietCountdown(cfg, k - 1);
    DelayLasts(cfg.awakePeriod, k);
  }

  lemma {:induction false} QuietCountdown(cfg: Config, k: nat)
    requires k < cfg.awakePeriod
    ensures QuietRun(cfg, DimmState(Awake(Counting(cfg.awakePeriod)), false), k)
      == DimmState(Awake(DelayAfter(DelayStart(cfg.awakePeriod), k)), false)
  {
    if k > 0 {
      QuietCountdown(cfg, k - 1);
      DelayLasts(cfg.awakePeriod, k - 1);
      DelayLasts(cfg.awakePeriod, k);
    }
  }

  /** A wakeup while dimmed restores the brightness and swallows the press:
      isDimmed stays true for this tick; in the next tick it is cleared and
      presses pass again. */
  lemma WakeSwallowsPress(cfg: Config, s: DimmState, rawPress: Press, otherWakeup: bool,
                          nextPress: Press, nextOther: bool)
    requires Inv(cfg, s) && s.phase.Dimming?
    requires Wakeup(rawPress, otherWakeup)
    requires cfg.awakePeriod > 0
    ensures var r := DimmerTick(cfg, s, rawPress, otherWakeup);
      && r.press == No && r.next.isDimmed && r.writes == [cfg.maxBrightness]
      && var r2 := DimmerTick(cfg, r.next, nextPress, nextOther);
         !r2.next.isDimmed && r2.press == nextPress
  {
  }
}
