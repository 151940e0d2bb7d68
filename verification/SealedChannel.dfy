/**
  One direction of an encrypted session: a sender that seals under a running counter
  (relay/src/relay.cpp, client/src/net_session.cpp), a network that drops, duplicates, reorders and
  injects datagrams, and a receiver that opens with a high-water mark.
 */
module SealedChannel {
  import opened Common
  import opened Ints
  import opened Crypto

  const SEND_CAP := AUDIO_MTU + 128
  const RECV_CAP := AUDIO_MTU + 64

  function Inc64(x: u64): u64 {
    (x + 1) % 0x1_0000_0000_0000_0000
  }

  /** What was sealed, and under which counter. */
  datatype Sent = Sent(counter: u64, plain: Bytes, wire: Bytes)

  /** What the receiver handed on, and the counter it came under. */
  datatype Got = Got(counter: u64, plain: Bytes)

  datatype Chan = Chan(tx: u64, seen: u64, sent: seq<Sent>, got: seq<Got>)

  /** A fresh session: counters start at 1 and nothing has been seen. */
  const FRESH := Chan(1, 0, [], [])

  datatype Event = Send(prefix: Bytes, plain: Bytes) | Deliver(wire: Bytes)

  /** `txCounter++` is spent even when the packet is too large to seal. */
  function OnSend(a: Aead, key: Bytes, c: Chan, prefix: Bytes, plain: Bytes): Chan
    requires |prefix| == PREFIX_BYTES
  {
    if |plain| + OVERHEAD > SEND_CAP then c.(tx := Inc64(c.tx))
    else c.(tx := Inc64(c.tx), sent := c.sent + [Sent(c.tx, plain, Wire(a, key, prefix, c.tx, plain))])
  }

  /** A return of zero bytes counts as a refusal, though the mark may have moved. */
  function OnDeliver(a: Aead, key: Bytes, c: Chan, wire: Bytes): Chan {
    var (m, seen) := OpenWire(a, key, c.seen, wire, RECV_CAP);
    if m == None || m.value == [] then c.(seen := seen)
    else c.(seen := seen, got := c.got + [Got(Claimed(wire), m.value)])
  }

  function Step(a: Aead, key: Bytes, c: Chan, e: Event): Chan
    requires e.Send? ==> |e.prefix| == PREFIX_BYTES
  {
    match e
    case Send(prefix, plain) => OnSend(a, key, c, prefix, plain)
    case Deliver(wire) => OnDeliver(a, key, c, wire)
  }

  predicate Wellformed(events: seq<Event>) {
    forall n :: 0 <= n < |events| && events[n].Send? ==> |events[n].prefix| == PREFIX_BYTES
  }

  function Exec(a: Aead, key: Bytes, events: seq<Event>): Chan
    requires Wellformed(events)
  {
    if events == [] then FRESH
    else Step(a, key, Exec(a, key, events[..|events| - 1]), events[|events| - 1])
  }

  /** The tag of a delivered datagram checks out only if the peer sealed it. */
  ghost predicate Genuine(a: Aead, key: Bytes, sent: seq<Sent>, wire: Bytes) {
    Deciphered(a, key, wire).Some? ==> exists i :: 0 <= i < |sent| && sent[i].wire == wire
  }

  /** The network may do anything except forge tags. */
  ghost predicate Unforged(a: Aead, key: Bytes, events: seq<Event>)
    requires Wellformed(events)
  {
    forall n :: 0 <= n < |events| && events[n].Deliver? ==>
                  Genuine(a, key, Exec(a, key, events[..n]).sent, events[n].wire)
  }

  // ---- the invariant ----

  /** The datagram opens to what it was sealed from. */
  ghost predicate Faithful(a: Aead, key: Bytes, s: Sent) {
    && |s.wire| == |s.plain| + OVERHEAD
    && Claimed(s.wire) == s.counter
    && Deciphered(a, key, s.wire) == Some(s.plain)
  }

  ghost predicate SenderInv(a: Aead, key: Bytes, c: Chan) {
    && 1 <= c.tx
    && (forall i :: 0 <= i < |c.sent| ==> 1 <= c.sent[i].counter < c.tx && Faithful(a, key, c.sent[i]))
    && (forall i, j :: 0 <= i < j < |c.sent| ==> c.sent[i].counter < c.sent[j].counter)
  }

  ghost predicate WasSent(sent: seq<Sent>, g: Got) {
    exists i :: 0 <= i < |sent| && sent[i].counter == g.counter && sent[i].plain == g.plain
  }

  ghost predicate ReceiverInv(c: Chan) {
    && c.seen < c.tx
    && (forall j :: 0 <= j < |c.got| ==> c.got[j].counter <= c.seen && WasSent(c.sent, c.got[j]))
    && (forall i, j :: 0 <= i < j < |c.got| ==> c.got[i].counter < c.got[j].counter)
  }

  lemma SendKeeps(a: Aead, key: Bytes, c: Chan, prefix: Bytes, plain: Bytes)
    requires Sound(a) && |prefix| == PREFIX_BYTES && c.tx + 1 < 0x1_0000_0000_0000_0000
    requires SenderInv(a, key, c) && ReceiverInv(c)
    ensures SenderInv(a, key, OnSend(a, key, c, prefix, plain))
    ensures ReceiverInv(OnSend(a, key, c, prefix, plain))
    ensures OnSend(a, key, c, prefix, plain).tx == c.tx + 1
  {
    hide Wire, Claimed, Deciphered;
    var c' := OnSend(a, key, c, prefix, plain);
    OpenUndoesSealIff(a, key, prefix, c.tx, plain, 0, 0);
    forall j | 0 <= j < |c'.got| ensures WasSent(c'.sent, c'.got[j]) {
      var i :| 0 <= i < |c.sent| && c.sent[i].counter == c.got[j].counter && c.sent[i].plain == c.got[j].plain;
      assert c'.sent[i] == c.sent[i];
    }
  }

  lemma DeliverKeeps(a: Aead, key: Bytes, c: Chan, wire: Bytes)
    requires SenderInv(a, key, c) && ReceiverInv(c) && Genuine(a, key, c.sent, wire)
    ensures SenderInv(a, key, OnDeliver(a, key, c, wire))
    ensures ReceiverInv(OnDeliver(a, key, c, wire))
    ensures OnDeliver(a, key, c, wire).tx == c.tx
  {
    hide Claimed, Deciphered;
    var c' := OnDeliver(a, key, c, wire);
    var m := OpenWire(a, key, c.seen, wire, RECV_CAP).0;
    if m.Some? {
      var i :| 0 <= i < |c.sent| && c.sent[i].wire == wire;
      assert Faithful(a, key, c.sent[i]);
      assert c.sent[i].counter > c.seen;
      assert WasSent(c.sent, Got(Claimed(wire), m.value));
    }
  }

  lemma UnforgedSoFar(a: Aead, key: Bytes, events: seq<Event>)
    requires events != [] && Wellformed(events) && Unforged(a, key, events)
    ensures var front := events[..|events| - 1];
            && Unforged(a, key, front)
            && var e := events[|events| - 1];
            (e.Deliver? ==> Genuine(a, key, Exec(a, key, front).sent, e.wire))
  {
    hide Genuine;
    var front := events[..|events| - 1];
    forall k | 0 <= k < |front| && front[k].Deliver?
      ensures Genuine(a, key, Exec(a, key, front[..k]).sent, front[k].wire)
    {
      assert front[..k] == events[..k];
    }
  }

  lemma {:induction false} RunKeeps(a: Aead, key: Bytes, events: seq<Event>)
    requires Sound(a) && Wellformed(events) && Unforged(a, key, events)
    requires |events| + 1 < 0x1_0000_0000_0000_0000
    ensures var c := Exec(a, key, events);
            SenderInv(a, key, c) && ReceiverInv(c) && c.tx <= |events| + 1
  {
    hide SenderInv, ReceiverInv, Genuine, Sound, OnSend, OnDeliver, Unforged;
    if events == [] {
      FreshKeeps(a, key);
    } else {
      var n := |events| - 1;
      var front := events[..n];
      UnforgedSoFar(a, key, events);
      RunKeeps(a, key, front);
      match events[n]
      case Send(prefix, plain) => SendKeeps(a, key, Exec(a, key, front), prefix, plain);
      case Deliver(wire) => DeliverKeeps(a, key, Exec(a, key, front), wire);
    }
  }

  lemma FreshKeeps(a: Aead, key: Bytes)
    ensures SenderInv(a, key, FRESH) && ReceiverInv(FRESH)
  {
  }

  // ---- the theorems ----

  /**
    In every run the receiver hands on an in-order, duplicate-free subsequence of what the sender
    sealed: message `j` is sealed message `idx[j]`, and `idx` increases.
   */
  lemma AcceptedInOrder(a: Aead, key: Bytes, events: seq<Event>) returns (idx: seq<nat>)
    requires Sound(a) && Wellformed(events) && Unforged(a, key, events)
    requires |events| + 1 < 0x1_0000_0000_0000_0000
    ensures var c := Exec(a, key, events);
            && |idx| == |c.got|
            && (forall j :: 0 <= j < |idx| ==> idx[j] < |c.sent| && c.sent[idx[j]].plain == c.got[j].plain)
            && (forall i, j :: 0 <= i < j < |idx| ==> idx[i] < idx[j])
  {
    hide Step, Faithful;
    RunKeeps(a, key, events);
    idx := Positions(a, key, Exec(a, key, events));
  }

  /** Where in the list of sent messages the received ones stand. */
  lemma Positions(a: Aead, key: Bytes, c: Chan) returns (idx: seq<nat>)
    requires SenderInv(a, key, c) && ReceiverInv(c)
    ensures |idx| == |c.got|
    ensures forall j :: 0 <= j < |idx| ==> idx[j] < |c.sent| && c.sent[idx[j]].plain == c.got[j].plain
    ensures forall i, j :: 0 <= i < j < |idx| ==> idx[i] < idx[j]
  {
    hide Faithful;
    idx := [];
    while |idx| < |c.got|
      invariant |idx| <= |c.got|
      invariant forall j :: 0 <= j < |idx| ==> idx[j] < |c.sent|
      invariant forall j :: 0 <= j < |idx| ==>
                              c.sent[idx[j]].counter == c.got[j].counter && c.sent[idx[j]].plain == c.got[j].plain
    {
      var g := c.got[|idx|];
      assert WasSent(c.sent, g);
      var i: nat :| i < |c.sent| && c.sent[i].counter == g.counter && c.sent[i].plain == g.plain;
      idx := idx + [i];
    }
    assert forall p, q :: 0 <= p <= q < |c.sent| ==> c.sent[p].counter <= c.sent[q].counter;
    forall i, j | 0 <= i < j < |idx| ensures idx[i] < idx[j] {
      assert c.got[i].counter < c.got[j].counter;
    }
  }

  /** A sealed datagram is handed on exactly when nothing newer was seen, it fits, and it says something. */
  lemma HandedOnIff(a: Aead, key: Bytes, events: seq<Event>, i: nat)
    requires Sound(a) && Wellformed(events) && Unforged(a, key, events)
    requires |events| + 1 < 0x1_0000_0000_0000_0000
    requires i < |Exec(a, key, events).sent|
    ensures var c := Exec(a, key, events);
            var s := c.sent[i];
            var c' := OnDeliver(a, key, c, s.wire);
            c'.got == c.got + [Got(s.counter, s.plain)]
            <==> s.counter > c.seen && 0 < |s.plain| <= RECV_CAP
  {
    hide Claimed, Deciphered;
    RunKeeps(a, key, events);
    var c := Exec(a, key, events);
    assert Faithful(a, key, c.sent[i]);
    assert |c.got + [Got(c.sent[i].counter, c.sent[i].plain)]| == |c.got| + 1;
  }
}
