/** Tokens, sessions and addresses of the relay: relay/src/relay.cpp. */
module Relay {
  import opened Common
  import opened Ints
  import opened Crypto
  import opened SealedChannel

  const TOKEN_BYTES := 32
  const KEY_BYTES := 32
  const HANDSHAKE_BYTES := 1 + 2 + 2 + TOKEN_BYTES + KEY_BYTES
  const AUDIO_UP_BYTES := 6
  const PING_BYTES := 7
  const VERSION_MAJOR := 2
  const SESSION_TIMEOUT := 15

  const PKT_HANDSHAKE := 0x01
  const PKT_AUDIO_UP := 0x10
  const PKT_PING := 0x1A
  const PKT_PONG := 0x1B
  const PKT_BYE := 0x1F

  const NAK_TOKEN := 0
  const NAK_VERSION := 2
  const NAK_FULL := 3

  /** An IPv4 address as loaded from network order on a little-endian host, and a port. */
  datatype Addr = Addr(ip: u32, port: u16)

  function PackAddr(a: Addr): u64 {
    a.ip * 0x1_0000 + a.port
  }

  predicate Loopback(a: Addr) {
    a.ip % 256 == 127
  }

  lemma PackAddrInjective(a: Addr, b: Addr)
    requires PackAddr(a) == PackAddr(b)
    ensures a == b
  {
  }

  datatype KeyPair = KeyPair(pk: Bytes, sk: Bytes)

  datatype Keys = Keys(rx: Bytes, tx: Bytes)

  datatype Session = Session(
    playerId: u16, addr: Addr, keys: Keys, txCounter: u64, rxLastSeen: u64, lastSeen: int, established: bool)

  datatype PendingToken = PendingToken(token: Bytes, playerId: u16, expiresUnix: u32, expectedIp: u32)

  /** Configuration, cipher, and key exchange (own pair, peer's public key, client role). */
  datatype Config = Config(
    maxPlayers: int, ipSecondaryCheck: bool, aead: Aead, kx: (KeyPair, Bytes, bool) -> Option<Keys>)

  datatype State = State(sessions: map<u16, Session>, index: map<u64, u16>, pending: seq<PendingToken>)

  const EMPTY := State(map[], map[], [])

  /** What leaves the relay in answer to a datagram. */
  datatype Out =
    | Nothing
    | Nak(to: Addr, reason: u8)
    | Ack(to: Addr, playerId: u16, relayPk: Bytes)
    | Sealed(to: Addr, counter: u64, plain: Bytes)
    | Voice(playerId: u16, seqNo: u16, flags: u8, opus: Bytes)

  /** The low 32 bits of the clock, as compared with expiry times. */
  function Clock32(now: nat): u32 {
    now % 0x1_0000_0000
  }

  predicate Expired(p: PendingToken, now: nat) {
    p.expiresUnix < Clock32(now)
  }

  predicate Idle(s: Session, now: nat) {
    now - s.lastSeen > SESSION_TIMEOUT
  }

  // ---- binding ----

  function OthersThan(ps: seq<PendingToken>, pid: u16): (r: seq<PendingToken>)
    ensures forall p :: p in r <==> p in ps && p.playerId != pid
  {
    if ps == [] then []
    else
      var n := |ps| - 1;
      OthersThan(ps[..n], pid) + (if ps[n].playerId == pid then [] else [ps[n]])
  }

  function OnBind(s: State, p: PendingToken): State {
    s.(pending := OthersThan(s.pending, p.playerId) + [p])
  }

  // ---- handshake ----

  function U16At(b: Bytes, i: nat): u16
    requires i + 1 < |b|
  {
    var lo: int, hi: int := b[i], b[i + 1];
    lo + 256 * hi
  }

  function TokenOf(buf: Bytes): Bytes
    requires |buf| >= HANDSHAKE_BYTES
  {
    buf[5..5 + TOKEN_BYTES]
  }

  function PubKeyOf(buf: Bytes): Bytes
    requires |buf| >= HANDSHAKE_BYTES
  {
    buf[5 + TOKEN_BYTES..HANDSHAKE_BYTES]
  }

  predicate Matches(p: PendingToken, token: Bytes, now: nat) {
    !Expired(p, now) && p.token == token
  }

  /** The first unexpired entry with the presented token, or the length of the table. */
  function Find(ps: seq<PendingToken>, token: Bytes, now: nat): (i: nat)
    ensures i <= |ps|
    ensures i < |ps| ==> Matches(ps[i], token, now)
    ensures forall k :: 0 <= k < i ==> !Matches(ps[k], token, now)
  {
    if ps == [] || Matches(ps[0], token, now) then 0 else 1 + Find(ps[1..], token, now)
  }

  /** Is the source address one the token may be presented from? */
  predicate IpAllowed(cfg: Config, p: PendingToken, from: Addr) {
    !cfg.ipSecondaryCheck || p.expectedIp == 0 || Loopback(from) || from.ip == p.expectedIp
  }

  function OnHandshake(cfg: Config, s: State, buf: Bytes, from: Addr, now: nat, self: KeyPair): (State, Out) {
    if |buf| < HANDSHAKE_BYTES || buf[0] != PKT_HANDSHAKE then (s, Nothing)
    else if U16At(buf, 1) != VERSION_MAJOR then (s, Nak(from, NAK_VERSION))
    else if |s.sessions| >= cfg.maxPlayers then (s, Nak(from, NAK_FULL))
    else
      var i := Find(s.pending, TokenOf(buf), now);
      if i == |s.pending| || !IpAllowed(cfg, s.pending[i], from) then (s, Nak(from, NAK_TOKEN))
      else Redeem(cfg, s, i, PubKeyOf(buf), from, now, self)
  }

  /** The token is spent; the session is opened if the key exchange succeeds. */
  function Redeem(
      cfg: Config, s: State, i: nat, clientPk: Bytes, from: Addr, now: nat, self: KeyPair): (State, Out)
    requires i < |s.pending|
  {
    var pid := s.pending[i].playerId;
    var spent := s.(pending := s.pending[..i] + s.pending[i + 1..]);
    match cfg.kx(self, clientPk, false)
    case None => (spent, Nak(from, NAK_TOKEN))
    case Some(keys) =>
      (spent.(index := s.index[PackAddr(from) := pid],
              sessions := s.sessions[pid := Session(pid, from, keys, 1, 0, now, true)]),
       Ack(from, pid, self.pk))
  }

  // ---- sealed datagrams ----

  /** Sealing to a session spends a counter, whether or not the packet fits. */
  function Emit(s: Session, plain: Bytes): (Session, Out) {
    (s.(txCounter := Inc64(s.txCounter)),
     if |plain| + OVERHEAD > SEND_CAP then Nothing else Sealed(s.addr, s.txCounter, plain))
  }

  /** The engine sending something to a player. */
  function OnPush(s: State, pid: u16, plain: Bytes): (State, Out) {
    if pid !in s.sessions || !s.sessions[pid].established then (s, Nothing)
    else
      var (x, out) := Emit(s.sessions[pid], plain);
      (s.(sessions := s.sessions[pid := x]), out)
  }

  function OnEncrypted(cfg: Config, s: State, pid: u16, buf: Bytes, now: nat): (State, Out)
    requires pid in s.sessions
  {
    var was := s.sessions[pid];
    var (m, seen) := OpenWire(cfg.aead, was.keys.rx, was.rxLastSeen, buf, RECV_CAP);
    if m == None || m.value == [] then
      (s.(sessions := s.sessions[pid := was.(rxLastSeen := seen)]), Nothing)
    else
      var cur := was.(rxLastSeen := seen, lastSeen := now);
      OnPlain(s, pid, cur, m.value)
  }

  /** Acting on an opened packet of a session whose record is now `cur`. */
  function OnPlain(s: State, pid: u16, cur: Session, plain: Bytes): (State, Out)
    requires plain != []
  {
    var kept := s.(sessions := s.sessions[pid := cur]);
    if plain[0] == PKT_AUDIO_UP then
      if |plain| < AUDIO_UP_BYTES || AUDIO_UP_BYTES + U16At(plain, 4) > |plain| then (kept, Nothing)
      else (kept, Voice(cur.playerId, U16At(plain, 1), plain[3],
                        plain[AUDIO_UP_BYTES..AUDIO_UP_BYTES + U16At(plain, 4)]))
    else if plain[0] == PKT_PING && |plain| >= PING_BYTES then
      var (sent, out) := Emit(cur, [PKT_PONG] + plain[1..PING_BYTES]);
      (s.(sessions := s.sessions[pid := sent]), out)
    else if plain[0] == PKT_BYE then
      (s.(sessions := kept.sessions - {cur.playerId}, index := s.index - {PackAddr(cur.addr)}), Nothing)
    else (kept, Nothing)
  }

  /** Which session, if any, a datagram from this address is taken to belong to. */
  function Owner(s: State, from: Addr): Option<u16> {
    var key := PackAddr(from);
    if key in s.index && s.index[key] in s.sessions && s.sessions[s.index[key]].established
    then Some(s.index[key]) else None
  }

  function OnDatagram(cfg: Config, s: State, buf: Bytes, from: Addr, now: nat, self: KeyPair): (State, Out) {
    match Owner(s, from)
    case Some(pid) => OnEncrypted(cfg, s, pid, buf, now)
    case None => OnHandshake(cfg, s, buf, from, now, self)
  }

  // ---- cleanup ----

  function Unexpired(ps: seq<PendingToken>, now: nat): (r: seq<PendingToken>)
    ensures forall p :: p in r <==> p in ps && !Expired(p, now)
  {
    if ps == [] then []
    else
      var n := |ps| - 1;
      Unexpired(ps[..n], now) + (if Expired(ps[n], now) then [] else [ps[n]])
  }

  function TimedOut(s: State, now: nat): set<u16> {
    set pid | pid in s.sessions && Idle(s.sessions[pid], now)
  }

  /** The packed addresses of some live sessions. */
  function AddressesOf(s: State, pids: set<u16>): set<u64>
    requires pids <= s.sessions.Keys
  {
    set pid | pid in pids :: PackAddr(s.sessions[pid].addr)
  }

  function OnCleanup(s: State, now: nat): State {
    State(
      s.sessions - TimedOut(s, now),
      s.index - AddressesOf(s, TimedOut(s, now)),
      Unexpired(s.pending, now))
  }

  // ---- invariants ----

  /** Sessions are filed under their own id, and the address index leads back to each of them. */
  ghost predicate SessionsInv(cfg: Config, s: State) {
    && (|s.sessions| <= cfg.maxPlayers || |s.sessions| == 0)
    && forall pid :: pid in s.sessions ==> Indexed(s, pid)
  }

  ghost predicate Indexed(s: State, pid: u16)
    requires pid in s.sessions
  {
    var x := s.sessions[pid];
    x.playerId == pid && x.established && PackAddr(x.addr) in s.index && s.index[PackAddr(x.addr)] == pid
  }

  ghost predicate OnePerPlayer(ps: seq<PendingToken>) {
    forall i, j :: 0 <= i < j < |ps| ==> ps[i].playerId != ps[j].playerId
  }

  /** No two live sessions share an address. */
  lemma AddressesDistinct(cfg: Config, s: State, p: u16, q: u16)
    requires SessionsInv(cfg, s) && p in s.sessions && q in s.sessions
    requires s.sessions[p].addr == s.sessions[q].addr
    ensures p == q
  {
    assert Indexed(s, p) && Indexed(s, q);
  }

  lemma {:induction false} OthersOnePerPlayer(ps: seq<PendingToken>, pid: u16)
    requires OnePerPlayer(ps)
    ensures OnePerPlayer(OthersThan(ps, pid))
  {
    if ps != [] {
      OthersOnePerPlayer(ps[..|ps| - 1], pid);
    }
  }

  lemma {:induction false} UnexpiredOnePerPlayer(ps: seq<PendingToken>, now: nat)
    requires OnePerPlayer(ps)
    ensures OnePerPlayer(Unexpired(ps, now))
  {
    if ps != [] {
      var n := |ps| - 1;
      UnexpiredOnePerPlayer(ps[..n], now);
      var r := Unexpired(ps[..n], now);
      assert forall p :: p in ps[..n] ==> p.playerId != ps[n].playerId;
      assert forall k :: 0 <= k < |r| ==> r[k] in ps[..n];
    }
  }

  lemma RedeemKeepsSessions(
      cfg: Config, s: State, i: nat, clientPk: Bytes, from: Addr, now: nat, self: KeyPair)
    requires SessionsInv(cfg, s) && |s.sessions| < cfg.maxPlayers
    requires i < |s.pending| && Owner(s, from) == None
    ensures SessionsInv(cfg, Redeem(cfg, s, i, clientPk, from, now, self).0)
  {
    var s' := Redeem(cfg, s, i, clientPk, from, now, self).0;
    if s'.sessions != s.sessions {
      var pid := s.pending[i].playerId;
      assert s'.sessions.Keys == s.sessions.Keys + {pid};
      forall q | q in s'.sessions ensures Indexed(s', q) {
        if q != pid {
          assert Indexed(s, q);
          assert PackAddr(s.sessions[q].addr) != PackAddr(from);
        }
      }
    }
  }

  /** Changing a live session's counters and clock keeps the invariant. */
  lemma TouchKeepsSessions(cfg: Config, s: State, pid: u16, x: Session)
    requires SessionsInv(cfg, s) && pid in s.sessions
    requires x.playerId == pid && x.established && x.addr == s.sessions[pid].addr
    ensures SessionsInv(cfg, s.(sessions := s.sessions[pid := x]))
  {
    var s' := s.(sessions := s.sessions[pid := x]);
    assert Indexed(s, pid);
    assert s'.sessions.Keys == s.sessions.Keys;
    forall q | q in s'.sessions ensures Indexed(s', q) {
      assert Indexed(s, q);
    }
  }

  /** Dropping sessions together with their addresses keeps the invariant. */
  lemma DropKeepsSessions(cfg: Config, s: State, gone: set<u16>, ps: seq<PendingToken>)
    requires SessionsInv(cfg, s) && gone <= s.sessions.Keys
    ensures SessionsInv(cfg, State(s.sessions - gone, s.index - AddressesOf(s, gone), ps))
  {
    var dead := AddressesOf(s, gone);
    var s' := State(s.sessions - gone, s.index - dead, ps);
    assert |s'.sessions.Keys| <= |s.sessions.Keys| by {
      assert s.sessions.Keys == s'.sessions.Keys + gone && s'.sessions.Keys !! gone;
    }
    forall q | q in s'.sessions ensures Indexed(s', q) {
      assert Indexed(s, q);
      forall p | p in gone ensures PackAddr(s.sessions[p].addr) != PackAddr(s.sessions[q].addr) {
        assert Indexed(s, p);
      }
    }
  }

  lemma PlainKeepsSessions(cfg: Config, s: State, pid: u16, cur: Session, plain: Bytes)
    requires SessionsInv(cfg, s) && pid in s.sessions && plain != []
    requires cur.playerId == pid && cur.established && cur.addr == s.sessions[pid].addr
    ensures SessionsInv(cfg, OnPlain(s, pid, cur, plain).0)
  {
    hide SessionsInv;
    TouchKeepsSessions(cfg, s, pid, cur);
    TouchKeepsSessions(cfg, s, pid, cur.(txCounter := Inc64(cur.txCounter)));
    DropKeepsSessions(cfg, s, {pid}, s.pending);
    assert AddressesOf(s, {pid}) == {PackAddr(cur.addr)};
    assert s.sessions[pid := cur] - {pid} == s.sessions - {pid};
    var dropped := State(s.sessions - {pid}, s.index - {PackAddr(cur.addr)}, s.pending);
    assert SessionsInv(cfg, dropped);
    assert OnPlain(s, pid, cur, plain).0 in
        {s.(sessions := s.sessions[pid := cur]), dropped,
         s.(sessions := s.sessions[pid := cur.(txCounter := Inc64(cur.txCounter))])};
  }

  lemma DatagramKeepsSessions(cfg: Config, s: State, buf: Bytes, from: Addr, now: nat, self: KeyPair)
    requires SessionsInv(cfg, s)
    ensures SessionsInv(cfg, OnDatagram(cfg, s, buf, from, now, self).0)
  {
    hide OpenWire, OnPlain, Redeem, Find;
    match Owner(s, from)
    case Some(pid) =>
      var was := s.sessions[pid];
      assert Indexed(s, pid);
      var (m, seen) := OpenWire(cfg.aead, was.keys.rx, was.rxLastSeen, buf, RECV_CAP);
      TouchKeepsSessions(cfg, s, pid, was.(rxLastSeen := seen));
      if m != None && m.value != [] {
        PlainKeepsSessions(cfg, s, pid, was.(rxLastSeen := seen, lastSeen := now), m.value);
      }
    case None =>
      if |buf| >= HANDSHAKE_BYTES && |s.sessions| < cfg.maxPlayers {
        var i := Find(s.pending, TokenOf(buf), now);
        if i < |s.pending| {
          RedeemKeepsSessions(cfg, s, i, PubKeyOf(buf), from, now, self);
        }
      }
  }

  lemma CleanupKeepsSessions(cfg: Config, s: State, now: nat)
    requires SessionsInv(cfg, s)
    ensures SessionsInv(cfg, OnCleanup(s, now))
    ensures forall pid :: pid in OnCleanup(s, now).sessions ==> !Idle(OnCleanup(s, now).sessions[pid], now)
  {
    hide SessionsInv;
    DropKeepsSessions(cfg, s, TimedOut(s, now), Unexpired(s.pending, now));
  }

  // ---- addresses ----

  /**
    A player who redeems a new token from a new address keeps the old one: datagrams from there are
    still taken to belong to the new session.
   */
  lemma OldAddressStaysOwned(
      cfg: Config, s: State, i: nat, clientPk: Bytes, from: Addr, now: nat, self: KeyPair)
    requires SessionsInv(cfg, s) && i < |s.pending| && cfg.kx(self, clientPk, false).Some?
    requires s.pending[i].playerId in s.sessions && from != s.sessions[s.pending[i].playerId].addr
    ensures var pid := s.pending[i].playerId;
            var s' := Redeem(cfg, s, i, clientPk, from, now, self).0;
            && Owner(s', s.sessions[pid].addr) == Some(pid)
            && s'.sessions[pid].addr == from
  {
    var pid := s.pending[i].playerId;
    assert Indexed(s, pid);
    if PackAddr(from) == PackAddr(s.sessions[pid].addr) {
      PackAddrInjective(from, s.sessions[pid].addr);
    }
  }

  /** Does the token table hold an acceptable entry for this request? */
  predicate Redeemable(cfg: Config, s: State, buf: Bytes, from: Addr, now: nat)
    requires |buf| >= HANDSHAKE_BYTES
  {
    var i := Find(s.pending, TokenOf(buf), now);
    i < |s.pending| && IpAllowed(cfg, s.pending[i], from)
  }

  /** All that stands between a datagram and an Ack, read off before it is handled. */
  predicate Acceptable(cfg: Config, s: State, buf: Bytes, from: Addr, now: nat, self: KeyPair) {
    && Owner(s, from) == None
    && |buf| >= HANDSHAKE_BYTES && buf[0] == PKT_HANDSHAKE && U16At(buf, 1) == VERSION_MAJOR
    && |s.sessions| < cfg.maxPlayers
    && Redeemable(cfg, s, buf, from, now)
    && cfg.kx(self, PubKeyOf(buf), false).Some?
  }

  /**
    A datagram is acknowledged exactly when it is a well-formed, current request with a redeemable
    token, there is room, the key exchange succeeds, and the index leads the address to no live
    session; the Ack is to the player of the matching token.
   */
  lemma AcknowledgedIff(cfg: Config, s: State, buf: Bytes, from: Addr, now: nat, self: KeyPair)
    ensures OnDatagram(cfg, s, buf, from, now, self).1.Ack? <==> Acceptable(cfg, s, buf, from, now, self)
    ensures Acceptable(cfg, s, buf, from, now, self) ==>
              OnDatagram(cfg, s, buf, from, now, self).1.playerId ==
              s.pending[Find(s.pending, TokenOf(buf), now)].playerId
  {
    hide OpenWire;
  }

  /** Acting on a packet replaces the session's record, whatever it was. */
  lemma PlainForgets(s: State, pid: u16, cur: Session, plain: Bytes)
    requires plain != []
    ensures OnPlain(s.(sessions := s.sessions[pid := cur]), pid, cur, plain) == OnPlain(s, pid, cur, plain)
  {
    var t := s.(sessions := s.sessions[pid := cur]);
    assert t.sessions[pid := cur] == t.sessions;
    var pong := if |plain| >= PING_BYTES then Emit(cur, [PKT_PONG] + plain[1..PING_BYTES]).0 else cur;
    assert t.sessions[pid := pong] == s.sessions[pid := pong];
  }

  // ---- the server object ----

  lemma {:induction false} FindFrom(ps: seq<PendingToken>, token: Bytes, now: nat, i: nat)
    requires i <= |ps| && forall k :: 0 <= k < i ==> !Matches(ps[k], token, now)
    ensures Find(ps, token, now) == i + Find(ps[i..], token, now)
  {
    if i > 0 {
      assert ps[1..][i - 1..] == ps[i..];
      FindFrom(ps[1..], token, now, i - 1);
    }
  }

  class Relay {
    const cfg: Config
    var sessions: map<u16, Session>
    var addrIndex: map<u64, u16>
    var pending: seq<PendingToken>
    var haveBridge: bool
    var sent: seq<Out>        // answers to datagrams
    var timeouts: seq<u16>    // SessionTimeout events pushed to the bridge

    function Snapshot(): State
      reads this
    {
      State(sessions, addrIndex, pending)
    }

    constructor (cfg: Config)
      ensures this.cfg == cfg && Snapshot() == EMPTY && !haveBridge && sent == [] && timeouts == []
    {
      this.cfg := cfg;
      sessions, addrIndex, pending := map[], map[], [];
      haveBridge, sent, timeouts := false, [], [];
    }

    method BindToken(p: PendingToken)
      modifies this
      ensures Snapshot() == OnBind(old(Snapshot()), p) && haveBridge
      ensures sent == old(sent) && timeouts == old(timeouts)
    {
      haveBridge := true;
      var kept: seq<PendingToken> := [];
      for i := 0 to |pending|
        invariant kept == OthersThan(pending[..i], p.playerId)
        invariant unchanged(this`pending, this`sessions, this`addrIndex, this`sent, this`timeouts)
      {
        assert pending[..i + 1][..i] == pending[..i];
        if pending[i].playerId != p.playerId {
          kept := kept + [pending[i]];
        }
      }
      assert pending[..|pending|] == pending;
      pending := kept + [p];
    }

    /** Scans the token table for the first unexpired match. */
    method Search(token: Bytes, now: nat) returns (found: int)
      ensures -1 <= found < |pending|
      ensures Find(pending, token, now) == if found >= 0 then found else |pending|
    {
      found := -1;
      var i := 0;
      while i < |pending|
        invariant 0 <= i <= |pending|
        invariant forall k :: 0 <= k < i ==> !Matches(pending[k], token, now)
      {
        if !Expired(pending[i], now) && pending[i].token == token {
          FindFrom(pending, token, now, i);
          return i;
        }
        i := i + 1;
      }
      FindFrom(pending, token, now, |pending|);
    }

    method HandleHandshake(buf: Bytes, from: Addr, now: nat, self: KeyPair)
      modifies this
      ensures Snapshot() == OnHandshake(cfg, old(Snapshot()), buf, from, now, self).0
      ensures sent == old(sent) + [OnHandshake(cfg, old(Snapshot()), buf, from, now, self).1]
      ensures timeouts == old(timeouts) && haveBridge == old(haveBridge)
    {
      if |buf| < HANDSHAKE_BYTES || buf[0] != PKT_HANDSHAKE {
        sent := sent + [Nothing];
        return;
      }
      if U16At(buf, 1) != VERSION_MAJOR {
        sent := sent + [Nak(from, NAK_VERSION)];
        return;
      }
      if |sessions| >= cfg.maxPlayers {
        sent := sent + [Nak(from, NAK_FULL)];
        return;
      }
      var found := Search(TokenOf(buf), now);
      if found < 0 || !IpAllowed(cfg, pending[found], from) {
        sent := sent + [Nak(from, NAK_TOKEN)];
        return;
      }
      var pid := pending[found].playerId;
      pending := pending[..found] + pending[found + 1..];
      var keys := cfg.kx(self, PubKeyOf(buf), false);
      if keys == None {
        sent := sent + [Nak(from, NAK_TOKEN)];
        return;
      }
      addrIndex := addrIndex[PackAddr(from) := pid];
      sessions := sessions[pid := Session(pid, from, keys.value, 1, 0, now, true)];
      sent := sent + [Ack(from, pid, self.pk)];
    }

    method HandleEncrypted(pid: u16, buf: Bytes, now: nat)
      requires pid in sessions
      modifies this
      ensures Snapshot() == OnEncrypted(cfg, old(Snapshot()), pid, buf, now).0
      ensures sent == old(sent) + [OnEncrypted(cfg, old(Snapshot()), pid, buf, now).1]
      ensures timeouts == old(timeouts) && haveBridge == old(haveBridge)
    {
      hide OpenWire, OnPlain;
      var s := sessions[pid];
      var (m, seen) := OpenWire(cfg.aead, s.keys.rx, s.rxLastSeen, buf, RECV_CAP);
      if m == None || m.value == [] {
        sessions := sessions[pid := s.(rxLastSeen := seen)];
        sent := sent + [Nothing];
        return;
      }
      s := s.(rxLastSeen := seen, lastSeen := now);
      sessions := sessions[pid := s];
      PlainForgets(old(Snapshot()), pid, s, m.value);
      HandlePlain(pid, m.value);
    }

    /** Acting on an opened packet. */
    method HandlePlain(pid: u16, plain: Bytes)
      requires pid in sessions && plain != []
      modifies this
      ensures Snapshot() == OnPlain(old(Snapshot()), pid, old(sessions[pid]), plain).0
      ensures sent == old(sent) + [OnPlain(old(Snapshot()), pid, old(sessions[pid]), plain).1]
      ensures timeouts == old(timeouts) && haveBridge == old(haveBridge)
    {
      hide PackAddr, Emit;
      var s := sessions[pid];
      assert sessions[pid := s] == sessions;
      var out := Nothing;
      if plain[0] == PKT_AUDIO_UP {
        if |plain| >= AUDIO_UP_BYTES && AUDIO_UP_BYTES + U16At(plain, 4) <= |plain| {
          out := Voice(s.playerId, U16At(plain, 1), plain[3], plain[AUDIO_UP_BYTES..AUDIO_UP_BYTES + U16At(plain, 4)]);
        }
      } else if plain[0] == PKT_PING {
        if |plain| >= PING_BYTES {
          s, out := Emit(s, [PKT_PONG] + plain[1..PING_BYTES]).0, Emit(s, [PKT_PONG] + plain[1..PING_BYTES]).1;
          sessions := sessions[pid := s];
        }
      } else if plain[0] == PKT_BYE {
        addrIndex := addrIndex - {PackAddr(s.addr)};
        sessions := sessions - {s.playerId};
      }
      sent := sent + [out];
    }

    /** Sealing something for a player, if there is a session to send it to. */
    method EmitToPlayer(pid: u16, plain: Bytes)
      modifies this
      ensures Snapshot() == OnPush(old(Snapshot()), pid, plain).0
      ensures sent == old(sent) + (if old(pid in sessions && sessions[pid].established)
                                   then [OnPush(old(Snapshot()), pid, plain).1] else [])
      ensures timeouts == old(timeouts) && haveBridge == old(haveBridge)
    {
      if pid !in sessions || !sessions[pid].established { return; }
      var s := sessions[pid];
      var counter := s.txCounter;
      sessions := sessions[pid := s.(txCounter := Inc64(counter))];
      sent := sent + [if |plain| + OVERHEAD > SEND_CAP then Nothing else Sealed(s.addr, counter, plain)];
    }

    /** One datagram on the audio socket. */
    method OnAudioSocket(buf: Bytes, from: Addr, now: nat, self: KeyPair)
      modifies this
      ensures Snapshot() == OnDatagram(cfg, old(Snapshot()), buf, from, now, self).0
      ensures sent == old(sent) + [OnDatagram(cfg, old(Snapshot()), buf, from, now, self).1]
      ensures timeouts == old(timeouts) && haveBridge == old(haveBridge)
    {
      hide OnEncrypted, OnHandshake;
      var key := PackAddr(from);
      if key in addrIndex {
        var pid := addrIndex[key];
        if pid in sessions && sessions[pid].established {
          HandleEncrypted(pid, buf, now);
          return;
        }
      }
      HandleHandshake(buf, from, now, self);
    }

    /** The 200 ms sweep: expired tokens go, idle sessions go, one event for each of the latter. */
    method CleanupPass(now: nat)
      modifies this
      ensures Snapshot() == OnCleanup(old(Snapshot()), now)
      ensures old(timeouts) <= timeouts
      ensures multiset(timeouts[|old(timeouts)|..]) ==
              multiset(if old(haveBridge) then TimedOut(old(Snapshot()), now) else {})
      ensures sent == old(sent) && haveBridge == old(haveBridge)
    {
      SweepTokens(now);
      SweepEnd(Snapshot(), now);
      var news := SweepSessions(now);
      if haveBridge {
        timeouts := timeouts + news;
        assert timeouts[|old(timeouts)|..] == news;
      } else {
        assert timeouts[|old(timeouts)|..] == [];
      }
    }

    method SweepTokens(now: nat)
      modifies this`pending
      ensures pending == Unexpired(old(pending), now)
    {
      var kept: seq<PendingToken> := [];
      for i := 0 to |pending|
        invariant kept == Unexpired(pending[..i], now) && pending == old(pending)
      {
        assert pending[..i + 1][..i] == pending[..i];
        if !Expired(pending[i], now) {
          kept := kept + [pending[i]];
        }
      }
      assert pending[..|pending|] == pending;
      pending := kept;
    }

    /** Removes idle sessions and lists each once. */
    method SweepSessions(now: nat) returns (news: seq<u16>)
      modifies this`sessions, this`addrIndex
      ensures Snapshot() == Swept(old(Snapshot()), now, {})
      ensures multiset(news) == multiset(TimedOut(old(Snapshot()), now))
    {
      hide Swept, TimedOut, Idle, PackAddr;
      ghost var was := Snapshot();
      SweepStart(was, now);
      news := [];
      var todo := sessions.Keys;
      while todo != {}
        invariant todo <= was.sessions.Keys
        invariant Snapshot() == Swept(was, now, todo)
        invariant multiset(news) == multiset(TimedOut(was, now) - todo)
        decreases todo
      {
        var pid :| pid in todo;
        SweepStep(was, now, todo, pid, news);
        if Idle(sessions[pid], now) {
          addrIndex := addrIndex - {PackAddr(sessions[pid].addr)};
          sessions := sessions - {pid};
          news := news + [pid];
        }
        todo := todo - {pid};
      }
      assert TimedOut(was, now) - todo == TimedOut(was, now);
    }
  }

  /** The state when only the sessions in `todo` remain to be looked at. */
  ghost function Swept(s: State, now: nat, todo: set<u16>): State {
    State(s.sessions - (TimedOut(s, now) - todo),
          s.index - AddressesOf(s, TimedOut(s, now) - todo),
          s.pending)
  }

  lemma SweepEnd(s: State, now: nat)
    ensures Swept(s, now, {}) ==
            State(s.sessions - TimedOut(s, now), s.index - AddressesOf(s, TimedOut(s, now)), s.pending)
  {
    assert TimedOut(s, now) - {} == TimedOut(s, now);
  }

  lemma SweepStart(s: State, now: nat)
    ensures Swept(s, now, s.sessions.Keys) == s
    ensures TimedOut(s, now) - s.sessions.Keys == {}
  {
    assert TimedOut(s, now) - s.sessions.Keys == {};
    assert s.index - AddressesOf(s, {}) == s.index;
  }

  lemma SweepStep(s: State, now: nat, todo: set<u16>, pid: u16, news: seq<u16>)
    requires pid in todo && todo <= s.sessions.Keys
    requires multiset(news) == multiset(TimedOut(s, now) - todo)
    ensures var st := Swept(s, now, todo);
            && pid in st.sessions
            && if Idle(st.sessions[pid], now) then
                 && Swept(s, now, todo - {pid}) ==
                    State(st.sessions - {pid}, st.index - {PackAddr(st.sessions[pid].addr)}, st.pending)
                 && multiset(news + [pid]) == multiset(TimedOut(s, now) - (todo - {pid}))
               else
                 && Swept(s, now, todo - {pid}) == st
                 && multiset(news) == multiset(TimedOut(s, now) - (todo - {pid}))
  {
    var gone := TimedOut(s, now) - todo;
    if Idle(s.sessions[pid], now) {
      assert TimedOut(s, now) - (todo - {pid}) == gone + {pid};
      assert AddressesOf(s, gone + {pid}) == AddressesOf(s, gone) + {PackAddr(s.sessions[pid].addr)};
      ListedOnce(news, gone, pid);
    } else {
      assert TimedOut(s, now) - (todo - {pid}) == gone;
    }
  }

  lemma ListedOnce(news: seq<u16>, gone: set<u16>, pid: u16)
    requires multiset(news) == multiset(gone) && pid !in gone
    ensures multiset(news + [pid]) == multiset(gone + {pid})
  {
    assert multiset(gone + {pid}) == multiset(gone) + multiset{pid};
  }
}
