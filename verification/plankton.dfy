/** Plankton: last-value-wins publish/subscribe over broadcast datagrams
    (ego_libs/plankton/plankton.h).

    The socket is abstracted: `ready` stands for isReady() (WiFi usable), the
    datagrams waiting at the socket are a queue, and a publish yields the
    datagram it broadcasts. A datagram is a 4-byte topic followed by the payload. */
module Plankton {
  import opened Common

  /** entries_: for every subscribed topic, the last payload received. */
  type Table = map<uint32, Bytes>

  /** The topic field, low byte first. */
  function TopicBytes(t: uint32): (b: Bytes)
    ensures |b| == 4
  {
    [t % 0x100, (t / 0x100) % 0x100, (t / 0x1_0000) % 0x100, t / 0x100_0000]
  }

  function TopicOf(b: Bytes): uint32
    requires |b| >= 4
  {
    b[0] as int + 0x100 * b[1] as int + 0x1_0000 * b[2] as int + 0x100_0000 * b[3] as int
  }

  lemma TopicRoundTrip(t: uint32)
    ensures TopicOf(TopicBytes(t)) == t
  {
  }

  /** The datagram publish() sends. */
  function Frame(topic: uint32, payload: Bytes): Bytes {
    TopicBytes(topic) + payload
  }

  /** publish(): false and nothing sent when not ready; otherwise the framed datagram. */
  function Publish(ready: bool, topic: uint32, payload: Bytes): (r: Option<Bytes>)
    ensures r.Some? <==> ready
    ensures r.Some? ==> |r.value| == 4 + |payload|
    ensures r.Some? ==> TopicOf(r.value) == topic && r.value[4..] == payload
  {
    if !ready then None
    else
      TopicRoundTrip(topic);
      assert Frame(topic, payload)[..4] == TopicBytes(topic);
      Some(Frame(topic, payload))
  }

  datatype Subscription = Subscription(table: Table, added: bool)

  /** subscribe(): adds an empty entry for a new topic; a repeated subscription changes nothing. */
  function Subscribe(table: Table, topic: uint32): (r: Subscription)
    ensures r.added <==> topic !in table
    ensures r.table.Keys == table.Keys + {topic}
    ensures forall t :: t in table ==> r.table[t] == table[t]
    ensures r.added ==> r.table[topic] == []
  {
    if topic in table then Subscription(table, false)
    else Subscription(table[topic := []], true)
  }

  datatype ReadResult = ReadResult(ok: bool, dest: Bytes)

  /** read(): copies min(stored size, destination size) bytes of the stored
      payload into the front of the destination buffer. */
  function Read(ready: bool, table: Table, topic: uint32, dest: Bytes): (r: ReadResult)
    ensures r.ok <==> ready && topic in table
    ensures |r.dest| == |dest|
    ensures !r.ok ==> r.dest == dest
    ensures r.ok ==>
      var n := Min(|table[topic]|, |dest|);
      r.dest[..n] == table[topic][..n] && r.dest[n..] == dest[n..]
  {
    if !ready || topic !in table then ReadResult(false, dest)
    else
      var data := table[topic];
      var n := Min(|data|, |dest|);
      ReadResult(true, data[..n] + dest[n..])
  }

  /** The number of datagrams before the first one of at most 4 bytes. */
  function Cut(q: seq<Bytes>): (n: nat)
    ensures n <= |q|
    ensures forall i :: 0 <= i < n ==> |q[i]| > 4
    ensures n < |q| ==> |q[n]| <= 4
  {
    if |q| == 0 || |q[0]| <= 4 then 0 else 1 + Cut(q[1..])
  }

  datatype PollResult = PollResult(table: Table, rest: seq<Bytes>, gotNew: bool)

  /** The receive loop of poll(): stores each datagram of a subscribed topic,
      skips the others, stops at the first datagram of at most 4 bytes (or an
      empty socket), which it consumes. */
  function PollLoop(table: Table, q: seq<Bytes>, gotNew: bool): (r: PollResult)
    ensures r.table.Keys == table.Keys
    ensures gotNew ==> r.gotNew
    ensures |q| > 0 ==> |r.rest| < |q|
    decreases |q|
  {
    if |q| == 0 then PollResult(table, [], gotNew)
    else if |q[0]| <= 4 then PollResult(table, q[1..], gotNew)
    else
      var topic := TopicOf(q[0]);
      if topic !in table then PollLoop(table, q[1..], gotNew)
      else PollLoop(table[topic := q[0][4..]], q[1..], true)
  }

  /** Datagram i is the last one for its topic among the first n. */
  ghost predicate LastOfTopic(q: seq<Bytes>, n: nat, i: nat)
    requires i < n <= |q|
    requires forall k :: 0 <= k < n ==> |q[k]| > 4
  {
    forall j :: i < j < n ==> TopicOf(q[j]) != TopicOf(q[i])
  }

  /** The result of the receive loop, stated per topic: a subscribed topic
      holds the payload of its last datagram before the cut, or its old data
      when it had none; the loop reports new data iff some datagram before the
      cut was for a subscribed topic. */
  ghost predicate PollSpec(table: Table, q: seq<Bytes>, gotNew: bool, r: PollResult) {
    var n := Cut(q);
    && r.table.Keys == table.Keys
    && r.rest == q[Min(n + 1, |q|)..]
    && (r.gotNew <==> gotNew || exists i :: 0 <= i < n && TopicOf(q[i]) in table)
    && Untouched(table, q, r.table)
    && StoresLast(table, q, r.table)
  }

  ghost predicate Untouched(table: Table, q: seq<Bytes>, after: Table) {
    var n := Cut(q);
    forall t :: t in table && t in after && (forall i :: 0 <= i < n ==> TopicOf(q[i]) != t) ==> after[t] == table[t]
  }

  ghost predicate StoresLast(table: Table, q: seq<Bytes>, after: Table) {
    var n := Cut(q);
    forall i :: 0 <= i < n && TopicOf(q[i]) in table && TopicOf(q[i]) in after && LastOfTopic(q, n, i) ==>
      after[TopicOf(q[i])] == q[i][4..]
  }

  /** One step of the receive loop on a long datagram. */
  function PollStep(table: Table, p: Bytes): Table
    requires |p| > 4
  {
    if TopicOf(p) in table then table[TopicOf(p) := p[4..]] else table
  }

  lemma {:induction false} PollLoopFrame(table: Table, q: seq<Bytes>, gotNew: bool)
    ensures var r := PollLoop(table, q, gotNew);
      && r.table.Keys == table.Keys
      && r.rest == q[Min(Cut(q) + 1, |q|)..]
    decreases |q|
  {
    if |q| > 0 && |q[0]| > 4 {
      PollLoopFrame(PollStep(table, q[0]), q[1..], gotNew || TopicOf(q[0]) in table);
    }
  }

  lemma {:induction false} PollLoopGotNew(table: Table, q: seq<Bytes>, gotNew: bool)
    ensures PollLoop(table, q, gotNew).gotNew <==>
      gotNew || exists i :: 0 <= i < Cut(q) && TopicOf(q[i]) in table
    decreases |q|
  {
    if |q| > 0 && |q[0]| > 4 {
      var q' := q[1..];
      var table' := PollStep(table, q[0]);
      PollLoopGotNew(table', q', gotNew || TopicOf(q[0]) in table);
      assert table'.Keys == table.Keys;
      if exists i :: 0 <= i < Cut(q') && TopicOf(q'[i]) in table' {
        var i :| 0 <= i < Cut(q') && TopicOf(q'[i]) in table';
        assert TopicOf(q[i + 1]) in table;
      }
      if exists i :: 0 <= i < Cut(q) && TopicOf(q[i]) in table {
        var i :| 0 <= i < Cut(q) && TopicOf(q[i]) in table;
        if i > 0 {
          assert TopicOf(q'[i - 1]) in table';
        }
      }
    }
  }

  lemma {:induction false} PollLoopUntouched(table: Table, q: seq<Bytes>, gotNew: bool)
    ensures Untouched(table, q, PollLoop(table, q, gotNew).table)
    decreases |q|
  {
    if |q| > 0 && |q[0]| > 4 {
      var q' := q[1..];
      var table' := PollStep(table, q[0]);
      PollLoopUntouched(table', q', gotNew || TopicOf(q[0]) in table);
      var after := PollLoop(table, q, gotNew).table;
      forall t | t in table && t in after && (forall i :: 0 <= i < Cut(q) ==> TopicOf(q[i]) != t)
        ensures after[t] == table[t]
      {
        assert TopicOf(q[0]) != t;
        forall i | 0 <= i < Cut(q') ensures TopicOf(q'[i]) != t {
          assert TopicOf(q[i + 1]) != t;
        }
      }
    }
  }

  lemma {:induction false} PollLoopStoresLast(table: Table, q: seq<Bytes>, gotNew: bool)
    ensures StoresLast(table, q, PollLoop(table, q, gotNew).table)
    decreases |q|
  {
    if |q| > 0 && |q[0]| > 4 {
      var q' := q[1..];
      var t0 := TopicOf(q[0]);
      var table' := PollStep(table, q[0]);
      var gotNew' := gotNew || t0 in table;
      PollLoopStoresLast(table', q', gotNew');
      PollLoopUntouched(table', q', gotNew');
      var after := PollLoop(table, q, gotNew).table;
      var n := Cut(q);
      var n' := Cut(q');
      forall i | 0 <= i < n && TopicOf(q[i]) in table && TopicOf(q[i]) in after && LastOfTopic(q, n, i)
        ensures after[TopicOf(q[i])] == q[i][4..]
      {
        if i == 0 {
          forall k | 0 <= k < n' ensures TopicOf(q'[k]) != t0 {
            assert TopicOf(q[k + 1]) != t0;
          }
        } else {
          forall j | i - 1 < j < n' ensures TopicOf(q'[j]) != TopicOf(q'[i - 1]) {
            assert TopicOf(q[j + 1]) != TopicOf(q[i]);
          }
          assert LastOfTopic(q', n', i - 1);
        }
      }
    }
  }

  lemma PollLoopMeetsSpec(table: Table, q: seq<Bytes>, gotNew: bool)
    ensures PollSpec(table, q, gotNew, PollLoop(table, q, gotNew))
  {
    PollLoopFrame(table, q, gotNew);
    PollLoopGotNew(table, q, gotNew);
    PollLoopUntouched(table, q, gotNew);
    PollLoopStoresLast(table, q, gotNew);
  }

  /** poll(): false when not ready; otherwise the receive loop's result. */
  function Poll(ready: bool, table: Table, q: seq<Bytes>): (r: PollResult)
    ensures !ready ==> r == PollResult(table, q, false)
    ensures ready ==> PollSpec(table, q, false, r)
  {
    if !ready then PollResult(table, q, false)
    else
      PollLoopMeetsSpec(table, q, false);
      PollLoop(table, q, false)
  }

  lemma FrameFields(topic: uint32, payload: Bytes)
    ensures |Frame(topic, payload)| == 4 + |payload|
    ensures TopicOf(Frame(topic, payload)) == topic
    ensures Frame(topic, payload)[4..] == payload
  {
    TopicRoundTrip(topic);
    assert Frame(topic, payload)[..4] == TopicBytes(topic);
  }

  /** A published datagram, polled by a subscriber, stores exactly the payload;
      an empty payload makes a 4-byte datagram, which poll treats as the end. */
  lemma PublishThenPoll(table: Table, topic: uint32, payload: Bytes)
    requires topic in table
    requires |payload| > 0
    ensures var r := Poll(true, table, [Publish(true, topic, payload).value]);
      r.table == table[topic := payload] && r.gotNew && r.rest == []
  {
    var q := [Publish(true, topic, payload).value];
    FrameFields(topic, payload);
    var r := Poll(true, table, q);
    assert Cut(q[1..]) == 0;
    assert Cut(q) == 1;
    assert LastOfTopic(q, 1, 0);
    assert r.table[topic] == payload;
    assert r.table == table[topic := payload];
  }

  /** An empty payload makes a 4-byte datagram, which poll takes for the end
      of its input: nothing is stored and the datagrams behind it wait. */
  lemma EmptyPayloadEndsPoll(table: Table, topic: uint32, later: seq<Bytes>)
    ensures var r := Poll(true, table, [Publish(true, topic, []).value] + later);
      r.table == table && !r.gotNew && r.rest == later
  {
    var q := [Publish(true, topic, []).value] + later;
    assert Cut(q) == 0;
    assert q[1..] == later;
  }

  /** Last value wins: of two payloads published for a topic before a poll,
      only the second is visible to a read that follows the poll. */
  lemma LastValueWins(table: Table, topic: uint32, v1: Bytes, v2: Bytes)
    requires topic in table
    requires |v1| > 0 && |v2| > 0
    ensures var r := Poll(true, table, [Frame(topic, v1), Frame(topic, v2)]);
      r.gotNew && Read(true, r.table, topic, v1 + v2).dest[..|v2|] == v2
  {
    var q := [Frame(topic, v1), Frame(topic, v2)];
    FrameFields(topic, v1);
    FrameFields(topic, v2);
    assert Cut(q[1..]) == 1;
    assert Cut(q) == 2;
    assert LastOfTopic(q, 2, 1);
    var r := Poll(true, table, q);
    assert r.table[topic] == v2;
    assert TopicOf(q[0]) in table;
  }

  /** The calls that touch the table; read and publish leave it as it is. */
  datatype Call = SubscribeCall(topic: uint32) | PollCall(ready: bool, q: seq<Bytes>)
                | ReadCall(topic: uint32) | PublishCall(topic: uint32)

  function Apply(table: Table, c: Call): Table {
    match c
    case SubscribeCall(topic) => Subscribe(table, topic).table
    case PollCall(ready, q) => Poll(ready, table, q).table
    case ReadCall(_) => table
    case PublishCall(_) => table
  }

  function ApplyAll(table: Table, cs: seq<Call>): Table {
    if |cs| == 0 then table else Apply(ApplyAll(table, cs[..|cs| - 1]), cs[|cs| - 1])
  }

  function SubscribedBy(cs: seq<Call>): set<uint32> {
    set i | 0 <= i < |cs| && cs[i].SubscribeCall? :: cs[i].topic
  }

  /** The table only gains entries, one for each subscribed topic, and never loses any. */
  lemma {:induction false} TableOnlyGrows(table: Table, cs: seq<Call>)
    ensures ApplyAll(table, cs).Keys == table.Keys + SubscribedBy(cs)
  {
    if |cs| > 0 {
      var init := cs[..|cs| - 1];
      TableOnlyGrows(table, init);
      var c := cs[|cs| - 1];
      if c.PollCall? && c.ready {
        PollLoopFrame(ApplyAll(table, init), c.q, false);
      }
      assert forall i :: 0 <= i < |init| ==> init[i] == cs[i];
      if c.SubscribeCall? {
        assert SubscribedBy(cs) == SubscribedBy(init) + {c.topic};
      } else {
        assert SubscribedBy(cs) == SubscribedBy(init);
      }
    }
  }
}
