/** Building blocks shared by all activities.

    Tick conventions of the activity model, fixed here for every module:
    - an activity is a state record plus a pure tick function; "entering" an
      activity runs its first tick, later ticks resume where it suspended;
    - `await c` tests c immediately and again on every later tick;
    - `when_abort c A` and `when_reset c A` do not test c on the tick they are
      entered; on every later tick c is tested before A runs;
    - `halt` suspends forever (the activity never completes);
    - `co` ticks its children in declaration order and completes in the tick
      in which all strong children have completed, abandoning weak ones;
    - entering an activity resets its program counter only: its locals keep
      their values from an earlier run. */
module Activity {
  import opened Common

  /** Delay(n): suspends for n ticks. Entered in tick 0 it completes in tick n. */
  datatype Delay = Counting(left: nat) | Elapsed

  function DelayStart(n: nat): Delay {
    if n == 0 then Elapsed else Counting(n)
  }

  function DelayTick(d: Delay): Delay {
    match d
    case Counting(left) => if left <= 1 then Elapsed else Counting(left - 1)
    case Elapsed => Elapsed
  }

  /** The delay after k further ticks. */
  function DelayAfter(d: Delay, k: nat): Delay {
    if k == 0 then d else DelayTick(DelayAfter(d, k - 1))
  }

  /** Delay(n) has elapsed exactly from the n-th tick after its entry on. */
  lemma {:induction false} DelayLasts(n: nat, k: nat)
    ensures DelayAfter(DelayStart(n), k).Elapsed? <==> k >= n
    ensures k < n ==> DelayAfter(DelayStart(n), k) == Counting(n - k)
  {
    if k > 0 {
      DelayLasts(n, k - 1);
    }
  }

  /** Change-only publisher:
        while (true) { publish(v); prev = v; await (v != prev); }
      Fresh is the state before the activity's first tick. */
  datatype Publisher<T> = Fresh | Holding(last: T)

  datatype Publish<T> = Publish(next: Publisher<T>, sent: Option<T>)

  function PublishTick<T(==)>(p: Publisher<T>, v: T): (r: Publish<T>)
    ensures r.next == Holding(v)
    ensures r.sent.Some? <==> p != Holding(v)
    ensures r.sent.Some? ==> r.sent.value == v
  {
    if p == Holding(v) then Publish(p, None) else Publish(Holding(v), Some(v))
  }

  /** What the publisher sends in each tick of a stream of values. */
  function PublishOuts<T(==)>(p: Publisher<T>, vs: seq<T>): seq<Option<T>>
    decreases |vs|
  {
    if |vs| == 0 then []
    else
      var step := PublishTick(p, vs[0]);
      [step.sent] + PublishOuts(step.next, vs[1..])
  }

  /** The change-only publisher sends in its first tick and afterwards exactly
      in the ticks whose value differs from the previous tick's value. */
  lemma {:induction false} PublishOnChange<T>(vs: seq<T>)
    ensures |PublishOuts(Fresh, vs)| == |vs|
    ensures forall i :: 0 <= i < |vs| ==>
      PublishOuts(Fresh, vs)[i] == (if i == 0 || vs[i] != vs[i - 1] then Some(vs[i]) else None)
  {
    if |vs| > 0 {
      PublishFrom(Holding(vs[0]), vs[1..]);
    }
  }

  lemma {:induction false} PublishFrom<T>(p: Publisher<T>, vs: seq<T>)
    ensures |PublishOuts(p, vs)| == |vs|
    ensures forall i :: 0 <= i < |vs| ==>
      PublishOuts(p, vs)[i] ==
        (if (if i == 0 then p != Holding(vs[0]) else vs[i] != vs[i - 1]) then Some(vs[i]) else None)
    decreases |vs|
  {
    if |vs| > 0 {
      PublishFrom(Holding(vs[0]), vs[1..]);
    }
  }

  /** The values actually published, in order. */
  function Sent<T>(outs: seq<Option<T>>): seq<T> {
    if |outs| == 0 then []
    else Sent(outs[..|outs| - 1]) + SeqOf(outs[|outs| - 1])
  }

  /** Reference definition: a stream with consecutive duplicates removed. */
  function Dedup<T(==)>(vs: seq<T>): seq<T> {
    if |vs| <= 1 then vs
    else if vs[|vs| - 1] == vs[|vs| - 2] then Dedup(vs[..|vs| - 1])
    else Dedup(vs[..|vs| - 1]) + [vs[|vs| - 1]]
  }

  /** The published stream is the input stream with consecutive duplicates removed. */
  lemma {:induction false} PublishedIsDedup<T>(vs: seq<T>)
    ensures Sent(PublishOuts(Fresh, vs)) == Dedup(vs)
    decreases |vs|
  {
    var outs := PublishOuts(Fresh, vs);
    PublishOnChange(vs);
    if |vs| > 0 {
      var n := |vs|;
      var init := vs[..n - 1];
      PublishOnChange(init);
      forall i | 0 <= i < n - 1
        ensures outs[..n - 1][i] == PublishOuts(Fresh, init)[i]
      {
        assert init[i] == vs[i];
        if i > 0 {
          assert init[i - 1] == vs[i - 1];
        }
      }
      assert outs[..n - 1] == PublishOuts(Fresh, init);
      PublishedIsDedup(init);
    }
  }
}
