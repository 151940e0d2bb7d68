/**
  One session end to end: a client (client/src/net_session.cpp) and the relay (relay/src/relay.cpp)
  over a network that drops, duplicates, reorders and injects datagrams.
 */
module SessionRun {
  import opened Common
  import opened Ints
  import opened Crypto
  import opened SealedChannel
  import opened Relay
  import opened NetSession

  /** What can happen; a prefix is the random half of the nonce of whatever gets sealed. */
  datatype Act =
    | ClientSends(prefix: Bytes, plain: Bytes)
    | ClientGets(buf: Bytes)
    | RelayGets(buf: Bytes, from: Addr, now: nat, self: KeyPair, prefix: Bytes)
    | RelayPushes(to: u16, prefix: Bytes, plain: Bytes)
    | RelayBinds(p: PendingToken)
    | RelayCleans(now: nat)

  /**
    Both ends; the voices handed to the engine as one player's and the packets handed to that
    player's client; and the two sealed channels as an observer keeps track of them.
   */
  datatype World = World(c: Client, s: State, voices: seq<Out>, heard: seq<Bytes>, up: Chan, down: Chan)

  /** Is the datagram taken to belong to the player's session? */
  predicate Mine(s: State, pid: u16, from: Addr) {
    Owner(s, from) == Some(pid)
  }

  predicate Wellshaped(a: Act) {
    && (a.ClientSends? || a.RelayGets? || a.RelayPushes? ==> |a.prefix| == PREFIX_BYTES)
  }

  function Step(cfg: Config, pid: u16, w: World, a: Act): World
    requires Wellshaped(a)
  {
    match a
    case ClientSends(prefix, plain) =>
      w.(c := SendSealed(cfg, w.c, prefix, plain).0, up := OnSend(cfg.aead, w.c.keys.tx, w.up, prefix, plain))
    case ClientGets(buf) =>
      if !w.c.established then w.(c := OnReply(cfg, w.c, buf))
      else
        var (c, m) := OnSealed(cfg, w.c, buf);
        w.(c := c, heard := w.heard + (if m == None then [] else [m.value]),
           down := OnDeliver(cfg.aead, w.c.keys.rx, w.down, buf))
    case RelayGets(buf, from, now, self, prefix) =>
      var (s, out) := OnDatagram(cfg, w.s, buf, from, now, self);
      w.(s := s,
         voices := w.voices + (if out.Voice? && out.playerId == pid then [out] else []),
         up := if Mine(w.s, pid, from) then OnDeliver(cfg.aead, w.s.sessions[pid].keys.rx, w.up, buf) else w.up,
         down := if Mine(w.s, pid, from) && out.Sealed?
                 then OnSend(cfg.aead, w.s.sessions[pid].keys.tx, w.down, prefix, out.plain) else w.down)
    case RelayPushes(to, prefix, plain) =>
      w.(s := OnPush(w.s, to, plain).0,
         down := if to == pid && pid in w.s.sessions
                 then OnSend(cfg.aead, w.s.sessions[pid].keys.tx, w.down, prefix, plain) else w.down)
    case RelayBinds(p) => w.(s := OnBind(w.s, p))
    case RelayCleans(now) => w.(s := OnCleanup(w.s, now))
  }

  ghost function Exec(cfg: Config, pid: u16, w: World, acts: seq<Act>): World
    requires forall n :: 0 <= n < |acts| ==> Wellshaped(acts[n])
  {
    if acts == [] then w
    else Step(cfg, pid, Exec(cfg, pid, w, acts[..|acts| - 1]), acts[|acts| - 1])
  }

  /** Nobody else can make a tag that checks out under one of the session's keys. */
  ghost predicate Unforged(cfg: Config, pid: u16, w: World, a: Act) {
    && (a.RelayGets? && Mine(w.s, pid, a.from) ==> Genuine(cfg.aead, w.s.sessions[pid].keys.rx, w.up.sent, a.buf))
    && (a.ClientGets? ==> Genuine(cfg.aead, w.c.keys.rx, w.down.sent, a.buf))
  }

  /** The step neither ends the player's session nor replaces it by a new one. */
  predicate Outlives(cfg: Config, pid: u16, w: World, a: Act)
    requires Wellshaped(a)
  {
    && pid in Step(cfg, pid, w, a).s.sessions
    && (a.RelayGets? ==>
          var out := OnDatagram(cfg, w.s, a.buf, a.from, a.now, a.self).1; !(out.Ack? && out.playerId == pid))
  }

  /** A run within one session. */
  ghost predicate OneSession(cfg: Config, pid: u16, w: World, acts: seq<Act>) {
    && (forall n :: 0 <= n < |acts| ==> Wellshaped(acts[n]))
    && forall n :: 0 <= n < |acts| ==>
         Goes(cfg, pid, Exec(cfg, pid, w, acts[..n]), acts[n])
  }

  ghost predicate Goes(cfg: Config, pid: u16, w: World, a: Act) {
    Wellshaped(a) && Unforged(cfg, pid, w, a) && Outlives(cfg, pid, w, a)
  }

  /** Just after a handshake: both ends paired, nothing sent yet. */
  ghost predicate Opened(cfg: Config, pid: u16, w: World) {
    && SessionsInv(cfg, w.s) && pid in w.s.sessions && Paired(w.c, w.s.sessions[pid])
    && w.voices == [] && w.heard == [] && w.up == FRESH && w.down == FRESH
  }

  // ---- the invariant ----

  /** The voices carried by the packets that got through. */
  function VoicesIn(pid: u16, got: seq<Got>): seq<Out> {
    if got == [] then []
    else
      var v := VoiceOf(pid, got[|got| - 1].plain);
      VoicesIn(pid, got[..|got| - 1]) + (if v == None then [] else [v.value])
  }

  function Plains(got: seq<Got>): seq<Bytes> {
    seq(|got|, j requires 0 <= j < |got| => got[j].plain)
  }

  predicate InStep(c: Client, x: Session, up: Chan, down: Chan) {
    && c.keys.tx == x.keys.rx && x.keys.tx == c.keys.rx
    && c.tx == up.tx && x.rxLastSeen == up.seen
    && x.txCounter == down.tx && c.rxLastSeen == down.seen
  }

  /** The two ends agree on the keys, and hold the counters of the two channels. */
  ghost predicate Tracked(pid: u16, w: World) {
    && pid in w.s.sessions && w.c.established
    && InStep(w.c, w.s.sessions[pid], w.up, w.down)
    && w.voices == VoicesIn(pid, w.up.got) && w.heard == Plains(w.down.got)
  }

  ghost predicate Sane(cfg: Config, pid: u16, w: World, n: nat) {
    && SessionsInv(cfg, w.s) && Tracked(pid, w)
    && SenderInv(cfg.aead, w.c.keys.tx, w.up) && ReceiverInv(w.up) && w.up.tx <= n + 1
    && SenderInv(cfg.aead, w.c.keys.rx, w.down) && ReceiverInv(w.down) && w.down.tx <= n + 1
  }

  lemma VoicesGrow(pid: u16, got: seq<Got>, g: Got)
    ensures VoicesIn(pid, got + [g]) ==
            VoicesIn(pid, got) + (if VoiceOf(pid, g.plain) == None then [] else [VoiceOf(pid, g.plain).value])
  {
    assert (got + [g])[..|got|] == got;
  }

  /** Receiving adds at most one packet. */
  lemma DeliverGrows(a: Aead, key: Bytes, ch: Chan, buf: Bytes)
    ensures var ch' := OnDeliver(a, key, ch, buf);
            ch'.got == ch.got || (|ch'.got| == |ch.got| + 1 && ch'.got == ch.got + [ch'.got[|ch.got|]])
  {
    hide OpenWire, Claimed;
  }

  /** The voices after a packet of the session. */
  lemma VoicesFollow(cfg: Config, pid: u16, s: State, buf: Bytes, now: nat, ch: Chan, c: Client, prefix: Bytes)
    requires |prefix| == PREFIX_BYTES && c.established && c.tx == ch.tx
    requires pid in s.sessions && s.sessions[pid].playerId == pid && ch.seen == s.sessions[pid].rxLastSeen
    ensures var (s', out) := OnEncrypted(cfg, s, pid, buf, now);
            var ch' := OnDeliver(cfg.aead, s.sessions[pid].keys.rx, ch, buf);
            && VoicesIn(pid, ch'.got) ==
               VoicesIn(pid, ch.got) + (if out.Voice? && out.playerId == pid then [out] else [])
            && (pid in s'.sessions ==> s'.sessions[pid].rxLastSeen == ch'.seen)
  {
    hide OnEncrypted, OnDeliver, VoiceOf;
    UplinkIsChannel(cfg, c, prefix, [], s, pid, buf, now, ch);
    var ch' := OnDeliver(cfg.aead, s.sessions[pid].keys.rx, ch, buf);
    DeliverGrows(cfg.aead, s.sessions[pid].keys.rx, ch, buf);
    if ch'.got != ch.got {
      VoicesGrow(pid, ch.got, ch'.got[|ch.got|]);
      VoiceIsMine(pid, ch'.got[|ch.got|].plain);
    }
  }

  lemma VoiceIsMine(pid: u16, plain: Bytes)
    ensures VoiceOf(pid, plain).Some? ==> VoiceOf(pid, plain).value.Voice? && VoiceOf(pid, plain).value.playerId == pid
  {
  }

  // ---- what a step leaves of the session's record ----

  /** A packet of the session keeps its keys, and spends a counter exactly when it is answered. */
  lemma OwnPacket(cfg: Config, s: State, pid: u16, buf: Bytes, now: nat)
    requires pid in s.sessions && s.sessions[pid].playerId == pid
    ensures var (s', out) := OnEncrypted(cfg, s, pid, buf, now);
            var x := s.sessions[pid];
            pid in s'.sessions ==>
              && s'.sessions[pid].keys == x.keys
              && s'.sessions[pid].txCounter == (if out.Sealed? then Inc64(x.txCounter) else x.txCounter)
  {
    hide OpenWire;
  }

  /** Datagrams that are not the session's own leave its record alone, unless they replace it. */
  lemma OtherPacket(cfg: Config, s: State, pid: u16, buf: Bytes, from: Addr, now: nat, self: KeyPair)
    requires SessionsInv(cfg, s) && pid in s.sessions && !Mine(s, pid, from)
    ensures var (s', out) := OnDatagram(cfg, s, buf, from, now, self);
            && (!(out.Ack? && out.playerId == pid) ==> pid in s'.sessions && s'.sessions[pid] == s.sessions[pid])
            && !(out.Voice? && out.playerId == pid)
  {
    hide OpenWire, Find;
    match Owner(s, from)
    case Some(q) => assert Indexed(s, q);
    case None =>
  }

  lemma SentTracks(a: Aead, key: Bytes, ch: Chan, prefix: Bytes, plain: Bytes)
    requires |prefix| == PREFIX_BYTES
    ensures var ch' := OnSend(a, key, ch, prefix, plain);
            ch'.tx == Inc64(ch.tx) && ch'.seen == ch.seen && ch'.got == ch.got
  {
  }

  lemma DeliveryTracks(a: Aead, key: Bytes, ch: Chan, buf: Bytes)
    ensures OnDeliver(a, key, ch, buf).tx == ch.tx && OnDeliver(a, key, ch, buf).sent == ch.sent
  {
  }

  lemma PushKeepsInv(cfg: Config, s: State, to: u16, plain: Bytes)
    requires SessionsInv(cfg, s)
    ensures SessionsInv(cfg, OnPush(s, to, plain).0)
  {
    if to in s.sessions {
      assert Indexed(s, to);
      TouchKeepsSessions(cfg, s, to, Emit(s.sessions[to], plain).0);
    }
  }

  lemma BindKeepsInv(cfg: Config, s: State, p: PendingToken)
    requires SessionsInv(cfg, s)
    ensures SessionsInv(cfg, OnBind(s, p))
  {
    forall q | q in s.sessions ensures Indexed(OnBind(s, p), q) {
      assert Indexed(s, q);
    }
  }

  lemma StepSends(cfg: Config, pid: u16, w: World, n: nat, prefix: Bytes, plain: Bytes)
    requires Sound(cfg.aead) && Sane(cfg, pid, w, n) && n + 2 < 0x1_0000_0000_0000_0000 && |prefix| == PREFIX_BYTES
    ensures Sane(cfg, pid, Step(cfg, pid, w, ClientSends(prefix, plain)), n + 1)
  {
    hide SessionsInv, SenderInv, ReceiverInv, OnSend, Wire, VoicesIn;
    SendKeeps(cfg.aead, w.c.keys.tx, w.up, prefix, plain);
    SentTracks(cfg.aead, w.c.keys.tx, w.up, prefix, plain);
  }

  lemma StepHears(cfg: Config, pid: u16, w: World, n: nat, buf: Bytes)
    requires Sane(cfg, pid, w, n) && Genuine(cfg.aead, w.c.keys.rx, w.down.sent, buf)
    ensures Sane(cfg, pid, Step(cfg, pid, w, ClientGets(buf)), n + 1)
  {
    hide SessionsInv, SenderInv, ReceiverInv, OnDeliver, Genuine, OnSealed, VoicesIn;
    DeliverKeeps(cfg.aead, w.c.keys.rx, w.down, buf);
    DeliveryTracks(cfg.aead, w.c.keys.rx, w.down, buf);
    var prefix := seq(PREFIX_BYTES, _ => 0);
    DownlinkIsChannel(cfg, w.c, w.s.sessions[pid], prefix, [], buf, w.down);
    HearingKeeps(cfg, w.c, buf);
  }

  lemma HearingKeeps(cfg: Config, c: Client, buf: Bytes)
    ensures OnSealed(cfg, c, buf).0 == c.(rxLastSeen := OnSealed(cfg, c, buf).0.rxLastSeen)
  {
  }

  lemma StepOwn(cfg: Config, pid: u16, w: World, n: nat, a: Act)
    requires Sound(cfg.aead) && Sane(cfg, pid, w, n) && n + 2 < 0x1_0000_0000_0000_0000
    requires a.RelayGets? && Goes(cfg, pid, w, a) && Mine(w.s, pid, a.from)
    ensures Sane(cfg, pid, Step(cfg, pid, w, a), n + 1)
  {
    hide SessionsInv, SenderInv, ReceiverInv, OnDeliver, OnSend, Genuine, OnEncrypted, OnHandshake, VoicesIn;
    var x := w.s.sessions[pid];
    OwnId(cfg, w.s, pid);
    DatagramKeepsSessions(cfg, w.s, a.buf, a.from, a.now, a.self);
    OwnPacket(cfg, w.s, pid, a.buf, a.now);
    VoicesFollow(cfg, pid, w.s, a.buf, a.now, w.up, w.c, a.prefix);
    DeliverKeeps(cfg.aead, x.keys.rx, w.up, a.buf);
    DeliveryTracks(cfg.aead, x.keys.rx, w.up, a.buf);
    var out := OnEncrypted(cfg, w.s, pid, a.buf, a.now).1;
    if out.Sealed? {
      SendKeeps(cfg.aead, x.keys.tx, w.down, a.prefix, out.plain);
      SentTracks(cfg.aead, x.keys.tx, w.down, a.prefix, out.plain);
    }
  }

  lemma OwnId(cfg: Config, s: State, pid: u16)
    requires SessionsInv(cfg, s) && pid in s.sessions
    ensures s.sessions[pid].playerId == pid && s.sessions[pid].established
  {
    assert Indexed(s, pid);
  }

  lemma StepOther(cfg: Config, pid: u16, w: World, n: nat, a: Act)
    requires Sane(cfg, pid, w, n)
    requires a.RelayGets? && Goes(cfg, pid, w, a) && !Mine(w.s, pid, a.from)
    ensures Sane(cfg, pid, Step(cfg, pid, w, a), n + 1)
  {
    hide SessionsInv, SenderInv, ReceiverInv, OnDatagram, VoicesIn, Owner;
    DatagramKeepsSessions(cfg, w.s, a.buf, a.from, a.now, a.self);
    OtherPacket(cfg, w.s, pid, a.buf, a.from, a.now, a.self);
    assert w.voices + [] == w.voices;
  }

  lemma StepPushes(cfg: Config, pid: u16, w: World, n: nat, a: Act)
    requires Sound(cfg.aead) && Sane(cfg, pid, w, n) && n + 2 < 0x1_0000_0000_0000_0000
    requires a.RelayPushes? && |a.prefix| == PREFIX_BYTES
    ensures Sane(cfg, pid, Step(cfg, pid, w, a), n + 1)
  {
    hide SessionsInv, SenderInv, ReceiverInv, OnSend, VoicesIn;
    var x := w.s.sessions[pid];
    OwnId(cfg, w.s, pid);
    PushKeepsInv(cfg, w.s, a.to, a.plain);
    SendKeeps(cfg.aead, x.keys.tx, w.down, a.prefix, a.plain);
    SentTracks(cfg.aead, x.keys.tx, w.down, a.prefix, a.plain);
  }

  lemma StepKeeps(cfg: Config, pid: u16, w: World, n: nat, a: Act)
    requires Sound(cfg.aead) && Sane(cfg, pid, w, n) && n + 2 < 0x1_0000_0000_0000_0000
    requires Goes(cfg, pid, w, a)
    ensures Sane(cfg, pid, Step(cfg, pid, w, a), n + 1)
  {
    hide SessionsInv, SenderInv, ReceiverInv, Genuine, OnDatagram, VoicesIn, Owner, OnBind, Sound;
    match a
    case ClientSends(prefix, plain) => StepSends(cfg, pid, w, n, prefix, plain);
    case ClientGets(buf) => StepHears(cfg, pid, w, n, buf);
    case RelayGets(_, from, _, _, _) =>
      if Mine(w.s, pid, from) { StepOwn(cfg, pid, w, n, a); } else { StepOther(cfg, pid, w, n, a); }
    case RelayPushes(_, _, _) => StepPushes(cfg, pid, w, n, a);
    case RelayBinds(p) =>
      BindKeepsInv(cfg, w.s, p);
      BindKeepsAll(w.s, p);
    case RelayCleans(now) => CleanupKeepsSessions(cfg, w.s, now);
  }

  lemma BindKeepsAll(s: State, p: PendingToken)
    ensures OnBind(s, p).sessions == s.sessions
  {
  }

  lemma {:induction false} RunKeeps(cfg: Config, pid: u16, w: World, acts: seq<Act>)
    requires Sound(cfg.aead) && Opened(cfg, pid, w) && OneSession(cfg, pid, w, acts)
    requires |acts| + 2 < 0x1_0000_0000_0000_0000
    ensures Sane(cfg, pid, Exec(cfg, pid, w, acts), |acts|)
  {
    hide Sound, Goes, Step, Opened, Sane, Wellshaped;
    if acts == [] {
      OpenedIsSane(cfg, pid, w);
    } else {
      var n := |acts| - 1;
      SessionSoFar(cfg, pid, w, acts);
      RunKeeps(cfg, pid, w, acts[..n]);
      StepKeeps(cfg, pid, Exec(cfg, pid, w, acts[..n]), n, acts[n]);
    }
  }

  lemma SessionSoFar(cfg: Config, pid: u16, w: World, acts: seq<Act>)
    requires acts != [] && OneSession(cfg, pid, w, acts)
    ensures OneSession(cfg, pid, w, acts[..|acts| - 1])
    ensures Goes(cfg, pid, Exec(cfg, pid, w, acts[..|acts| - 1]), acts[|acts| - 1])
  {
    hide Goes, Wellshaped;
    var front := acts[..|acts| - 1];
    forall k | 0 <= k < |front| ensures Goes(cfg, pid, Exec(cfg, pid, w, front[..k]), front[k]) {
      assert front[..k] == acts[..k];
    }
  }

  lemma OpenedIsSane(cfg: Config, pid: u16, w: World)
    requires Opened(cfg, pid, w)
    ensures Sane(cfg, pid, w, 0)
  {
    hide SessionsInv;
  }

  // ---- the theorems ----

  /** Which of the packets that got through carry voices. */
  lemma {:induction false} VoicePositions(pid: u16, got: seq<Got>) returns (at: seq<nat>)
    ensures |at| == |VoicesIn(pid, got)|
    ensures forall j :: 0 <= j < |at| ==> at[j] < |got| && VoiceOf(pid, got[at[j]].plain) == Some(VoicesIn(pid, got)[j])
    ensures forall i, j :: 0 <= i < j < |at| ==> at[i] < at[j]
  {
    if got == [] {
      at := [];
    } else {
      var n := |got| - 1;
      var v := VoiceOf(pid, got[n].plain);
      assert VoicesIn(pid, got) == VoicesIn(pid, got[..n]) + (if v == None then [] else [v.value]);
      hide VoiceOf, VoicesIn;
      var front := VoicePositions(pid, got[..n]);
      assert forall j :: 0 <= j < |front| ==> got[..n][front[j]] == got[front[j]];
      at := if v == None then front else front + [n];
    }
  }

  /**
    Whatever the network does short of forging tags, the voices the engine is handed as the
    player's are an in-order, duplicate-free subsequence of those the client sealed: voice `j` is
    the one in sealed packet `idx[j]`, and `idx` increases.
   */
  lemma VoicesInOrder(cfg: Config, pid: u16, w: World, acts: seq<Act>) returns (idx: seq<nat>)
    requires Sound(cfg.aead) && Opened(cfg, pid, w) && OneSession(cfg, pid, w, acts)
    requires |acts| + 2 < 0x1_0000_0000_0000_0000
    ensures var end := Exec(cfg, pid, w, acts);
            && |idx| == |end.voices|
            && (forall j :: 0 <= j < |idx| ==>
                  idx[j] < |end.up.sent| && VoiceOf(pid, end.up.sent[idx[j]].plain) == Some(end.voices[j]))
            && (forall i, j :: 0 <= i < j < |idx| ==> idx[i] < idx[j])
  {
    hide VoiceOf, Exec, SenderInv, ReceiverInv;
    RunKeeps(cfg, pid, w, acts);
    var end := Exec(cfg, pid, w, acts);
    var pos := Positions(cfg.aead, end.c.keys.tx, end.up);
    var at := VoicePositions(pid, end.up.got);
    idx := seq(|at|, j requires 0 <= j < |at| => pos[at[j]]);
  }

  /** And what the client is handed is an in-order, duplicate-free subsequence of what the relay sealed for it. */
  lemma HeardInOrder(cfg: Config, pid: u16, w: World, acts: seq<Act>) returns (idx: seq<nat>)
    requires Sound(cfg.aead) && Opened(cfg, pid, w) && OneSession(cfg, pid, w, acts)
    requires |acts| + 2 < 0x1_0000_0000_0000_0000
    ensures var end := Exec(cfg, pid, w, acts);
            && |idx| == |end.heard|
            && (forall j :: 0 <= j < |idx| ==> idx[j] < |end.down.sent| && end.down.sent[idx[j]].plain == end.heard[j])
            && (forall i, j :: 0 <= i < j < |idx| ==> idx[i] < idx[j])
  {
    hide VoiceOf, Exec, SenderInv, ReceiverInv;
    RunKeeps(cfg, pid, w, acts);
    var end := Exec(cfg, pid, w, acts);
    idx := Positions(cfg.aead, end.c.keys.rx, end.down);
  }
}
