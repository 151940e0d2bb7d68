/** The client half of the session protocol: client/src/net_session.cpp. */
module NetSession {
  import opened Common
  import opened Ints
  import opened Crypto
  import opened SealedChannel
  import opened Relay

  const PKT_ACK := 0x02
  const PKT_NAK := 0x03
  const VERSION_MINOR := 0
  const LIMIT_BYTES := 9
  const ACK_BYTES := 1 + 2 + KEY_BYTES + LIMIT_BYTES
  const NAK_BYTES := 2

  function U16Bytes(x: u16): Bytes {
    [x % 256, x / 256]
  }

  /** The handshake request, in clear. */
  function RequestBytes(token: Bytes, pk: Bytes): Bytes {
    [PKT_HANDSHAKE] + U16Bytes(VERSION_MAJOR) + U16Bytes(VERSION_MINOR) + token + pk
  }

  /** The acknowledgement on the wire; the policy limits are carried as they are. */
  function AckBytes(playerId: u16, pk: Bytes, limits: Bytes): Bytes {
    [PKT_ACK] + U16Bytes(playerId) + pk + limits
  }

  /** The relay reads from a request what the client wrote into it. */
  lemma RequestReadsBack(token: Bytes, pk: Bytes)
    requires |token| == TOKEN_BYTES && |pk| == KEY_BYTES
    ensures var b := RequestBytes(token, pk);
            && |b| == HANDSHAKE_BYTES && b[0] == PKT_HANDSHAKE && U16At(b, 1) == VERSION_MAJOR
            && TokenOf(b) == token && PubKeyOf(b) == pk
  {
  }

  datatype Client = Client(
    self: KeyPair, keys: Keys, tx: u64, rxLastSeen: u64, established: bool, nak: bool, playerId: u16)

  /** Starting a handshake with a new key pair. */
  function Connecting(c: Client, self: KeyPair): Client {
    c.(self := self, tx := 1, established := false, nak := false)
  }

  /** A datagram received before the session is established. */
  function OnReply(cfg: Config, c: Client, buf: Bytes): Client {
    if |buf| >= NAK_BYTES && buf[0] == PKT_NAK then c.(nak := true)
    else if |buf| >= ACK_BYTES && buf[0] == PKT_ACK then
      match cfg.kx(c.self, buf[3..3 + KEY_BYTES], true)
      case None => c
      case Some(keys) =>
        c.(keys := keys, playerId := U16At(buf, 1), rxLastSeen := 0, established := true)
    else c
  }

  /** A datagram of an established session: what it says, if anything. */
  function OnSealed(cfg: Config, c: Client, buf: Bytes): (Client, Option<Bytes>) {
    var (m, seen) := OpenWire(cfg.aead, c.keys.rx, c.rxLastSeen, buf, RECV_CAP);
    (c.(rxLastSeen := seen), if m == None || m.value == [] then None else m)
  }

  /** Sealing spends a counter, whether or not the packet fits. */
  function SendSealed(cfg: Config, c: Client, prefix: Bytes, plain: Bytes): (Client, Option<Bytes>)
    requires |prefix| == PREFIX_BYTES
  {
    if !c.established then (c, None)
    else (c.(tx := Inc64(c.tx)),
          if |plain| + OVERHEAD > SEND_CAP then None
          else Some(Wire(cfg.aead, c.keys.tx, prefix, c.tx, plain)))
  }

  /** The key exchange gives the two sides crosswise equal directional keys. */
  ghost predicate Agree(cfg: Config, client: KeyPair, relay: KeyPair) {
    match (cfg.kx(client, relay.pk, true), cfg.kx(relay, client.pk, false))
    case (Some(c), Some(r)) => c.tx == r.rx && c.rx == r.tx
    case _ => false
  }

  /** Both ends of both directions are at the start of a sealed channel under one key. */
  ghost predicate Paired(c: Client, s: Session) {
    && c.established && s.established && c.playerId == s.playerId
    && c.keys.tx == s.keys.rx && c.tx == FRESH.tx && s.rxLastSeen == FRESH.seen
    && s.keys.tx == c.keys.rx && s.txCounter == FRESH.tx && c.rxLastSeen == FRESH.seen
  }

  /** A handshake that is acknowledged leaves client and relay paired for the player the token names. */
  lemma HandshakePairs(
      cfg: Config, c0: Client, clientKeys: KeyPair, token: Bytes, limits: Bytes,
      s: State, from: Addr, now: nat, relayKeys: KeyPair)
    requires |token| == TOKEN_BYTES && |clientKeys.pk| == KEY_BYTES && |relayKeys.pk| == KEY_BYTES
    requires |limits| == LIMIT_BYTES && Agree(cfg, clientKeys, relayKeys)
    requires OnHandshake(cfg, s, RequestBytes(token, clientKeys.pk), from, now, relayKeys).1.Ack?
    ensures var (s', out) := OnHandshake(cfg, s, RequestBytes(token, clientKeys.pk), from, now, relayKeys);
            var c := OnReply(cfg, Connecting(c0, clientKeys), AckBytes(out.playerId, out.relayPk, limits));
            && out.playerId in s'.sessions && s'.sessions[out.playerId].addr == from
            && Paired(c, s'.sessions[out.playerId])
            && exists p :: p in s.pending && p.token == token && p.playerId == out.playerId
  {
    hide Find, RequestBytes;
    RequestReadsBack(token, clientKeys.pk);
    var b := RequestBytes(token, clientKeys.pk);
    var out := OnHandshake(cfg, s, b, from, now, relayKeys).1;
    var p := s.pending[Find(s.pending, token, now)];
    assert p in s.pending && p.token == token && p.playerId == out.playerId;
    var a := AckBytes(out.playerId, out.relayPk, limits);
    assert a[3..3 + KEY_BYTES] == relayKeys.pk && U16At(a, 1) == out.playerId;
  }

  /** The handshake answers Ack exactly when nothing stands in its way. */
  lemma AckIff(cfg: Config, s: State, token: Bytes, pk: Bytes, from: Addr, now: nat, self: KeyPair)
    requires |token| == TOKEN_BYTES && |pk| == KEY_BYTES
    ensures OnHandshake(cfg, s, RequestBytes(token, pk), from, now, self).1.Ack? <==>
            && |s.sessions| < cfg.maxPlayers
            && cfg.kx(self, pk, false).Some?
            && exists i :: FirstMatch(s.pending, token, now, i) && IpAllowed(cfg, s.pending[i], from)
  {
    hide Find, RequestBytes;
    RequestReadsBack(token, pk);
    var i := Find(s.pending, token, now);
    if i < |s.pending| {
      assert FirstMatch(s.pending, token, now, i);
    }
    assert forall j :: FirstMatch(s.pending, token, now, j) ==> j == i;
  }

  ghost predicate FirstMatch(ps: seq<PendingToken>, token: Bytes, now: nat, i: int) {
    0 <= i < |ps| && Matches(ps[i], token, now) && forall k :: 0 <= k < i ==> !Matches(ps[k], token, now)
  }

  /** A voice packet as the client builds it. */
  function AudioBytes(seqNo: u16, flags: u8, opus: Bytes): Bytes
    requires |opus| <= MAX_OPUS_BYTES
  {
    [PKT_AUDIO_UP] + U16Bytes(seqNo) + [flags] + U16Bytes(|opus|) + opus
  }

  /** The voice a packet of the player's session carries, if any. */
  function VoiceOf(pid: u16, plain: Bytes): Option<Out> {
    if |plain| < AUDIO_UP_BYTES || plain[0] != PKT_AUDIO_UP || AUDIO_UP_BYTES + U16At(plain, 4) > |plain| then None
    else Some(Voice(pid, U16At(plain, 1), plain[3], plain[AUDIO_UP_BYTES..AUDIO_UP_BYTES + U16At(plain, 4)]))
  }

  /** The engine is handed what the client's microphone produced, and the packet is never too large. */
  lemma VoiceReadsBack(pid: u16, seqNo: u16, flags: u8, opus: Bytes)
    requires |opus| <= MAX_OPUS_BYTES
    ensures VoiceOf(pid, AudioBytes(seqNo, flags, opus)) == Some(Voice(pid, seqNo, flags, opus))
    ensures 0 < |AudioBytes(seqNo, flags, opus)| <= RECV_CAP
    ensures |AudioBytes(seqNo, flags, opus)| + OVERHEAD <= SEND_CAP
  {
    var b := AudioBytes(seqNo, flags, opus);
    assert b[4..6] == U16Bytes(|opus|);
    assert b[AUDIO_UP_BYTES..AUDIO_UP_BYTES + |opus|] == opus;
  }

  /** What a session end does is what the sealed channel does: client sending, relay receiving. */
  lemma UplinkIsChannel(
      cfg: Config, c: Client, prefix: Bytes, plain: Bytes, s: State, pid: u16, buf: Bytes, now: nat, ch: Chan)
    requires |prefix| == PREFIX_BYTES && c.established && pid in s.sessions && s.sessions[pid].playerId == pid
    requires ch.tx == c.tx && ch.seen == s.sessions[pid].rxLastSeen
    ensures var (c', sent) := SendSealed(cfg, c, prefix, plain);
            var ch' := OnSend(cfg.aead, c.keys.tx, ch, prefix, plain);
            && c'.tx == ch'.tx
            && ch'.sent == ch.sent + (if sent == None then [] else [Sent(c.tx, plain, sent.value)])
    ensures var (s', out) := OnEncrypted(cfg, s, pid, buf, now);
            var ch' := OnDeliver(cfg.aead, s.sessions[pid].keys.rx, ch, buf);
            && (pid in s'.sessions ==> s'.sessions[pid].rxLastSeen == ch'.seen)
            && (ch'.got == ch.got ==> out == Nothing && pid in s'.sessions)
            && (ch'.got != ch.got ==> |ch'.got| == |ch.got| + 1 && ch'.got[..|ch.got|] == ch.got)
            && (out.Voice? <==> ch'.got != ch.got && VoiceOf(pid, ch'.got[|ch.got|].plain).Some?)
            && (out.Voice? ==> VoiceOf(pid, ch'.got[|ch.got|].plain) == Some(out))
  {
    hide OpenWire, Wire, Claimed;
    var m := OpenWire(cfg.aead, s.sessions[pid].keys.rx, ch.seen, buf, RECV_CAP).0;
    if m != None && m.value != [] {
      assert |ch.got + [Got(Claimed(buf), m.value)]| == |ch.got| + 1;
    }
  }

  /** The other direction: relay sending, client receiving. */
  lemma DownlinkIsChannel(cfg: Config, c: Client, s: Session, prefix: Bytes, plain: Bytes, buf: Bytes, ch: Chan)
    requires |prefix| == PREFIX_BYTES && ch.tx == s.txCounter && ch.seen == c.rxLastSeen
    ensures var (s', out) := Emit(s, plain);
            var ch' := OnSend(cfg.aead, s.keys.tx, ch, prefix, plain);
            && s'.txCounter == ch'.tx
            && (out.Sealed? <==> |ch'.sent| == |ch.sent| + 1)
            && (out.Sealed? ==> ch'.sent == ch.sent + [
                 Sent(out.counter, out.plain, Wire(cfg.aead, s.keys.tx, prefix, out.counter, out.plain))])
    ensures var (c', got) := OnSealed(cfg, c, buf);
            var ch' := OnDeliver(cfg.aead, c.keys.rx, ch, buf);
            && c'.rxLastSeen == ch'.seen
            && (got == None <==> ch'.got == ch.got)
            && (got.Some? ==> ch'.got == ch.got + [Got(Claimed(buf), got.value)])
  {
    hide OpenWire, Wire, Claimed;
    var m := OpenWire(cfg.aead, c.keys.rx, ch.seen, buf, RECV_CAP).0;
    if m.Some? {
      assert |ch.got + [Got(Claimed(buf), m.value)]| == |ch.got| + 1;
    }
  }

  /** The client's session object. */
  class ClientSession {
    const cfg: Config
    var self: KeyPair
    var keys: Keys
    var tx: u64
    var rxLastSeen: u64
    var established: bool
    var nak: bool
    var playerId: u16
    var outbox: seq<Bytes>     // datagrams handed to the socket
    var delivered: seq<Bytes>  // plaintexts handed to the playback layer

    function State(): Client
      reads this
    {
      Client(self, keys, tx, rxLastSeen, established, nak, playerId)
    }

    constructor (cfg: Config)
      ensures this.cfg == cfg && outbox == [] && delivered == []
      ensures State() == Client(KeyPair([], []), Keys([], []), 1, 0, false, false, 0xFFFF)
    {
      this.cfg := cfg;
      self, keys, tx, rxLastSeen := KeyPair([], []), Keys([], []), 1, 0;
      established, nak, playerId, outbox, delivered := false, false, 0xFFFF, [], [];
    }

    /** A new key pair, a fresh counter, and the request with the token. */
    method Connect(pair: KeyPair, token: Bytes)
      modifies this
      ensures State() == Connecting(old(State()), pair)
      ensures outbox == old(outbox) + [RequestBytes(token, pair.pk)] && delivered == old(delivered)
    {
      self := pair;
      tx := 1;
      established := false;
      nak := false;
      outbox := outbox + [RequestBytes(token, self.pk)];
    }

    method SendPacket(prefix: Bytes, plain: Bytes)
      requires |prefix| == PREFIX_BYTES
      modifies this
      ensures State() == SendSealed(cfg, old(State()), prefix, plain).0 && delivered == old(delivered)
      ensures var sent := SendSealed(cfg, old(State()), prefix, plain).1;
              outbox == old(outbox) + (if sent == None then [] else [sent.value])
    {
      if !established { return; }
      var counter := tx;
      tx := Inc64(tx);
      if |plain| + OVERHEAD > SEND_CAP { return; }
      outbox := outbox + [Wire(cfg.aead, keys.tx, prefix, counter, plain)];
    }

    /** Packing and sealing one frame of the microphone. */
    method SendAudio(prefix: Bytes, seqNo: u16, flags: u8, opus: Bytes)
      requires |prefix| == PREFIX_BYTES
      modifies this
      ensures delivered == old(delivered)
      ensures !old(established) || |opus| > MAX_OPUS_BYTES ==> State() == old(State()) && outbox == old(outbox)
      ensures old(established) && |opus| <= MAX_OPUS_BYTES ==>
                && State() == old(State()).(tx := Inc64(old(tx)))
                && outbox == old(outbox) + [Wire(cfg.aead, keys.tx, prefix, old(tx), AudioBytes(seqNo, flags, opus))]
    {
      if !established || |opus| > MAX_OPUS_BYTES { return; }
      VoiceReadsBack(0, seqNo, flags, opus);
      SendPacket(prefix, AudioBytes(seqNo, flags, opus));
    }

    /** One datagram from the socket: a handshake reply before, a sealed packet after. */
    method Receive(buf: Bytes)
      modifies this
      ensures !old(established) ==> State() == OnReply(cfg, old(State()), buf) && delivered == old(delivered)
      ensures old(established) ==> State() == OnSealed(cfg, old(State()), buf).0
      ensures old(established) ==>
                var got := OnSealed(cfg, old(State()), buf).1;
                delivered == old(delivered) + (if got == None then [] else [got.value])
      ensures outbox == old(outbox)
    {
      if !established {
        if |buf| >= NAK_BYTES && buf[0] == PKT_NAK {
          nak := true;
          return;
        }
        if |buf| >= ACK_BYTES && buf[0] == PKT_ACK {
          var derived := cfg.kx(self, buf[3..3 + KEY_BYTES], true);
          if derived.Some? {
            keys, playerId, rxLastSeen, established := derived.value, U16At(buf, 1), 0, true;
          }
        }
        return;
      }
      var (m, seen) := OpenWire(cfg.aead, keys.rx, rxLastSeen, buf, RECV_CAP);
      rxLastSeen := seen;
      if m != None && m.value != [] {
        delivered := delivered + [m.value];
      }
    }
  }
}
