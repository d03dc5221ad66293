/** Servo pulse arithmetic of the drive unit (ego_motion/src/main.cpp): the
    speed is turned into pulse widths for the two continuous-rotation servos,
    which are mounted mirrored, clamped to the servo range and sent on change.

    C++ integer promotion is written out: arithmetic happens on int and the
    result is truncated to the declared 16-bit type. TARA, the servo trim of
    the drive unit's board header, is a parameter. */
module Actuation {
  import opened Common
  import opened Activity

  /** The speed a driving rule asks for: x turns, y drives forward. */
  datatype Speed = Speed(x: int8, y: int8)

  /** The pulse width at which the servos stand still. */
  const Neutral := 1500

  /** invertPulse: the pulse mirrored around the neutral pulse, in 16 bits. */
  function InvertPulse(p: uint16): (r: uint16)
    ensures (r + p) % 0x1_0000 == 2 * Neutral
    ensures p <= 2 * Neutral ==> r == 2 * Neutral - p
  {
    var basePulse := p - Neutral;
    ToUint16(Neutral - basePulse)
  }

  lemma InvertNeutral()
    ensures InvertPulse(Neutral) == Neutral
  {
  }

  /** Mirroring twice gives the pulse back, for every 16-bit pulse. */
  lemma InvertInvolution(p: uint16)
    ensures InvertPulse(InvertPulse(p)) == p
  {
    var r := InvertPulse(p);
    var r2 := InvertPulse(r);
    assert (r2 + r) % 0x1_0000 == 3000;
    assert (r + p) % 0x1_0000 == 3000;
    assert (r2 - p) % 0x1_0000 == 0;
  }

  /** guard: the pulse clamped to the servo's range 500..2500. */
  function Guard(p: uint16): (r: uint16)
    ensures 500 <= r <= 2500
    ensures 500 <= p <= 2500 ==> r == p
    ensures p < 500 ==> r == 500
    ensures p > 2500 ==> r == 2500
  {
    if p > 2500 then 2500 else if p < 500 then 500 else p
  }

  /** The forward component of both pulses: 1500 + 4y, truncated to 16 bits. */
  function BasePulse(y: int8): (r: uint16)
    ensures 988 <= r <= 2008
    ensures r - Neutral == 4 * y
  {
    ToUint16(Neutral + y * 4)
  }

  /** The turning component: TARA + 2x in 16 bits, negated when driving backward. */
  function PotFactor(tara: int16, s: Speed): (r: int16)
    ensures -0x8000 <= tara + 2 * s.x < 0x8000 && s.y >= -10 ==> r == tara + 2 * s.x
    ensures -0x8000 < tara + 2 * s.x < 0x8000 && s.y < -10 ==> r == -(tara + 2 * s.x)
    ensures s.y >= -10 ==> (r - (tara + 2 * s.x)) % 0x1_0000 == 0
    ensures s.y < -10 ==> (r + (tara + 2 * s.x)) % 0x1_0000 == 0
  {
    var potFact := ToInt16(tara + s.x * 2);
    if s.y < -10 then ToInt16(-(potFact as int)) else potFact
  }

  /** PulseCalculator: the left and the right servo pulse for a speed. */
  function Pulses(tara: int16, s: Speed): (r: (uint16, uint16))
    ensures (r.0 - BasePulse(s.y) - PotFactor(tara, s)) % 0x1_0000 == 0
    ensures (r.1 + BasePulse(s.y) - PotFactor(tara, s)) % 0x1_0000 == 2 * Neutral
  {
    var pulse := BasePulse(s.y);
    var potFact := PotFactor(tara, s);
    (ToUint16(pulse + potFact), InvertPulse(ToUint16(pulse - potFact)))
  }

  /** For a trim within +-700 nothing wraps: the servos are mirrored, so the
      forward part 4y enters the two pulses with opposite signs and the
      turning part with the same sign. */
  lemma MirroredServos(tara: int16, s: Speed)
    requires -700 <= tara <= 700
    ensures var (left, right) := Pulses(tara, s);
      var turn := if s.y < -10 then -(tara + 2 * s.x) else tara + 2 * s.x;
      left - Neutral == 4 * s.y + turn && right - Neutral == -4 * s.y + turn
  {
  }

  /** At speed zero both servos get the neutral pulse shifted by the trim. */
  lemma StandStill(tara: int16)
    requires -700 <= tara <= 700
    ensures Pulses(tara, Speed(0, 0)) == (Neutral + tara, Neutral + tara)
  {
    MirroredServos(tara, Speed(0, 0));
  }

  /** A pulse command to one servo channel (SetServoPulse). */
  datatype Command = Command(channel: nat, pulse: uint16)

  const LeftChannel := 1
  const RightChannel := 3

  /** stopActuator: both servos to the neutral pulse. */
  const StopCommands := [Command(LeftChannel, Neutral), Command(RightChannel, Neutral)]

  /** Servo: sends both guarded pulses on entry and whenever either pulse changed. */
  function ServoTick(p: Publisher<(uint16, uint16)>, pulses: (uint16, uint16)): (r: (Publisher<(uint16, uint16)>, seq<Command>))
    ensures r.0 == Holding(pulses)
    ensures p != Holding(pulses) ==> r.1 == [Command(LeftChannel, Guard(pulses.0)), Command(RightChannel, Guard(pulses.1))]
    ensures p == Holding(pulses) ==> r.1 == []
    ensures forall i :: 0 <= i < |r.1| ==> 500 <= r.1[i].pulse <= 2500
  {
    var step := PublishTick(p, pulses);
    (step.next,
     if step.sent.Some? then [Command(LeftChannel, Guard(pulses.0)), Command(RightChannel, Guard(pulses.1))] else [])
  }

  /** Actuator: PulseCalculator, then Servo, in one tick; its pulse variables
      are the ones PulseCalculator writes. */
  function ActuatorTick(tara: int16, servo: Publisher<(uint16, uint16)>, s: Speed): (r: (Publisher<(uint16, uint16)>, seq<Command>))
    ensures r.0 == Holding(Pulses(tara, s))
    ensures servo.Fresh? ==>
      r.1 == [Command(LeftChannel, Guard(Pulses(tara, s).0)), Command(RightChannel, Guard(Pulses(tara, s).1))]
  {
    ServoTick(servo, Pulses(tara, s))
  }
}
