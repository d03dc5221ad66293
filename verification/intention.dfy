/** How the drive unit decides what to do (ego_motion/src/main.cpp): presses
    of its own three buttons and of the remote are arbitrated into an intent,
    which is published to the other devices whenever it changes.

    The button recognisers (ButtonUpdater, PressRecognizer) are not modelled:
    their presses are tick inputs. */
module Intention {
  import opened Common
  import opened Activity
  import Plankton

  /** The intent after the drive unit's own buttons: the blue button, then the
      main button, then the red button, each later one overriding the earlier. */
  function LocalIntent(intent: Intent, press: Press, redPress: Press, bluePress: Press): (r: Intent)
    ensures redPress == Short ==> r == Stop
    ensures redPress == Long ==> r == Quit
    ensures (redPress == No || redPress == Double) ==>
      && (press == Short ==> r == Stop)
      && (press == Long ==> r == Quit)
      && (press == Double ==> r == StartAuto)
      && (press == No ==> r == (match bluePress
                                case Short => StartManu
                                case Double => StartAuto
                                case _ => intent))
  {
    var afterBlue := match bluePress
      case Short => StartManu
      case Double => StartAuto
      case _ => intent;
    var afterMain := match press
      case No => afterBlue
      case Short => Stop
      case Long => Quit
      case Double => StartAuto;
    match redPress
    case Short => Stop
    case Long => Quit
    case _ => afterMain
  }

  /** IntentComputer: the remote's press is applied last; its SHORT toggles
      between STOP and START_MANU. */
  function ComputeIntent(intent: Intent, press: Press, redPress: Press, bluePress: Press, rcPress: Press): (r: Intent)
    ensures rcPress == No ==> r == LocalIntent(intent, press, redPress, bluePress)
    ensures rcPress == Short ==>
      (r == StartManu <==> LocalIntent(intent, press, redPress, bluePress) == Stop)
      && (r == Stop <==> LocalIntent(intent, press, redPress, bluePress) != Stop)
    ensures rcPress == Long ==> r == Quit
    ensures rcPress == Double ==> r == StartAuto
  {
    var local := LocalIntent(intent, press, redPress, bluePress);
    match rcPress
    case No => local
    case Short => if local == Stop then StartManu else Stop
    case Long => Quit
    case Double => StartAuto
  }

  /** Without any press the intent is kept. */
  lemma NoPressKeepsIntent(intent: Intent)
    ensures ComputeIntent(intent, No, No, No, No) == intent
  {
  }

  /** A SHORT press of the main button stops the robot whatever the previous
      intent and the blue button say, unless the red button or the remote
      press in the same tick. */
  lemma MainShortStops(intent: Intent, bluePress: Press)
    ensures ComputeIntent(intent, Short, No, bluePress, No) == Stop
  {
  }

  /** A DOUBLE press of the blue button alone starts the autonomous mode. */
  lemma BlueDoubleStartsAuto(intent: Intent)
    ensures ComputeIntent(intent, No, No, Double, No) == StartAuto
  {
  }

  /** The remote's SHORT is a toggle: from STOP two SHORT presses in a row,
      with no local press, lead to START_MANU and back to STOP; from any other
      intent they lead to STOP and then START_MANU. */
  lemma RemoteShortToggles(intent: Intent)
    ensures var once := ComputeIntent(intent, No, No, No, Short);
      (once == StartManu <==> intent == Stop)
      && ComputeIntent(once, No, No, No, Short) == (if intent == Stop then Stop else StartManu)
  {
  }

  // IntentRecognizer

  /** PressSubscriber and IntentComputer, with the table holding what the
      Receiver stored this tick. PressSubscriber subscribes in its first tick
      and then reads one byte into its press variable every tick; a byte that
      is no press leaves the variable as it was. */
  datatype Recognized = Recognized(table: Plankton.Table, rcPress: Press, intent: Intent)

  function RecognizeTick(table: Plankton.Table, first: bool, ready: bool, rcPress: Press, intent: Intent,
                         press: Press, redPress: Press, bluePress: Press): (r: Recognized)
    ensures first ==> TopicPress in r.table
    ensures r.table.Keys == table.Keys + (if first then {TopicPress} else {})
    ensures ready && TopicPress in r.table && |r.table[TopicPress]| > 0 && r.table[TopicPress][0] < 4 ==>
      PressByte(r.rcPress) == r.table[TopicPress][0]
    ensures !ready ==> r.rcPress == rcPress
    ensures TopicPress in r.table && |r.table[TopicPress]| == 0 ==> r.rcPress == rcPress
    ensures ready && TopicPress in r.table && |r.table[TopicPress]| > 0 && r.table[TopicPress][0] >= 4 ==>
      r.rcPress == rcPress
    ensures r.intent == ComputeIntent(intent, press, redPress, bluePress, r.rcPress)
  {
    var t := if first then Plankton.Subscribe(table, TopicPress).table else table;
    var rd := Plankton.Read(ready, t, TopicPress, [PressByte(rcPress)]);
    var rc := match PressOfByte(rd.dest[0]) case Some(p) => p case None => rcPress;
    Recognized(t, rc, ComputeIntent(intent, press, redPress, bluePress, rc))
  }

  /** A press published by the remote reaches the intent computer: once the
      Receiver has stored the remote's frame, the press it carries is the one
      applied this tick. */
  lemma RemotePressArrives(table: Plankton.Table, rcPress: Press, intent: Intent,
                           press: Press, redPress: Press, bluePress: Press, sent: Press)
    requires TopicPress in table
    ensures var polled := Plankton.Poll(true, table, [Plankton.Frame(TopicPress, [PressByte(sent)])]);
      RecognizeTick(polled.table, false, true, rcPress, intent, press, redPress, bluePress).rcPress == sent
  {
    Plankton.PublishThenPoll(table, TopicPress, [PressByte(sent)]);
  }

  // IntentPublisher

  /** IntentPublisher: publishes the intent as one byte on entry and then
      whenever it differs from the last published intent. */
  function IntentPublishTick(p: Publisher<Intent>, ready: bool, intent: Intent): (r: (Publisher<Intent>, Option<Bytes>))
    ensures r.0 == Holding(intent)
    ensures r.1.Some? <==> ready && p != Holding(intent)
    ensures r.1.Some? ==> r.1.value == Plankton.Frame(TopicIntent, [IntentByte(intent)])
  {
    var step := PublishTick(p, intent);
    (step.next, if step.sent.Some? then Plankton.Publish(ready, TopicIntent, [IntentByte(intent)]) else None)
  }

  function IntentDatagrams(p: Publisher<Intent>, intents: seq<Intent>): seq<Bytes>
    decreases |intents|
  {
    if |intents| == 0 then []
    else
      var (p', d) := IntentPublishTick(p, true, intents[0]);
      SeqOf(d) + IntentDatagrams(p', intents[1..])
  }

  function Frames(intents: seq<Intent>): seq<Bytes> {
    if |intents| == 0 then []
    else Frames(intents[..|intents| - 1]) + [Plankton.Frame(TopicIntent, [IntentByte(intents[|intents| - 1])])]
  }

  /** With the network ready, the datagrams sent are the frames of the intent
      stream with consecutive duplicates removed. */
  lemma IntentsPublishedOnChange(intents: seq<Intent>)
    ensures IntentDatagrams(Fresh, intents) == Frames(Dedup(intents))
  {
    PublishedIsDedup(intents);
    DatagramsAreFrames(Fresh, intents);
  }

  lemma {:induction false} DatagramsAreFrames(p: Publisher<Intent>, intents: seq<Intent>)
    ensures IntentDatagrams(p, intents) == Frames(Sent(PublishOuts(p, intents)))
    decreases |intents|
  {
    if |intents| > 0 {
      var step := PublishTick(p, intents[0]);
      DatagramsAreFrames(step.next, intents[1..]);
      SentCons(step.sent, PublishOuts(step.next, intents[1..]));
      FramesAppend(SeqOf(step.sent), Sent(PublishOuts(step.next, intents[1..])));
    }
  }

  lemma {:induction false} SentCons<T>(o: Option<T>, outs: seq<Option<T>>)
    ensures Sent([o] + outs) == SeqOf(o) + Sent(outs)
    decreases |outs|
  {
    if |outs| > 0 {
      var n := |outs|;
      assert ([o] + outs)[..n] == [o] + outs[..n - 1];
      SentCons(o, outs[..n - 1]);
    }
  }

  lemma {:induction false} FramesAppend(a: seq<Intent>, b: seq<Intent>)
    ensures Frames(a + b) == Frames(a) + Frames(b)
    decreases |b|
  {
    if |b| == 0 {
      assert a + b == a;
    } else {
      var n := |b|;
      assert (a + b)[..|a + b| - 1] == a + b[..n - 1];
      FramesAppend(a, b[..n - 1]);
    }
  }
}
