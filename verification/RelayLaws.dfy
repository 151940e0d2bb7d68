/** What each datagram does, byte by byte and field by field: relay/src/relay.cpp, client/src/net_session.cpp. */
module RelayLaws {
  import opened Common
  import opened Ints
  import opened Crypto
  import SealedChannel
  import opened Relay
  import opened NetSession

  /** A little-endian number in two bytes. */
  predicate Word(b: Bytes, i: nat, x: u16) {
    i + 1 < |b| &&
    var lo: int, hi: int := b[i], b[i + 1];
    x == lo + 256 * hi
  }

  // ---- handshake ----

  /** A request of 69 bytes or more that begins with the byte 1. */
  predicate IsRequest(buf: Bytes) {
    |buf| >= 69 && buf[0] == 1
  }

  /** The token is the one in the request, and not yet expired by the low half of the clock. */
  predicate Good(p: PendingToken, buf: Bytes, now: nat)
    requires |buf| >= 69
  {
    p.token == buf[5..37] && p.expiresUnix >= now % 0x1_0000_0000
  }

  /** The request comes from where the token is expected, or from this very host, or nobody cares. */
  predicate From(cfg: Config, p: PendingToken, from: Addr) {
    !cfg.ipSecondaryCheck || p.expectedIp == 0 || from.ip % 256 == 127 || from.ip == p.expectedIp
  }

  /** Entry `i` is the first with the token. */
  ghost predicate First(s: State, buf: Bytes, now: nat, i: nat)
    requires |buf| >= 69
  {
    i < |s.pending| && Good(s.pending[i], buf, now) && forall k :: 0 <= k < i ==> !Good(s.pending[k], buf, now)
  }

  lemma FindIsFirst(s: State, buf: Bytes, now: nat)
    requires |buf| >= 69
    ensures var i := Find(s.pending, TokenOf(buf), now);
            && (i < |s.pending| ==> First(s, buf, now, i))
            && (i == |s.pending| ==> forall k :: 0 <= k < |s.pending| ==> !Good(s.pending[k], buf, now))
  {
    assert forall p :: Matches(p, TokenOf(buf), now) <==> Good(p, buf, now);
    hide Matches, Good, TokenOf;
  }

  /** A fresh session: counter 1, nothing seen, heard from now. */
  predicate FreshSession(x: Session, pid: u16, from: Addr, keys: Keys, now: nat) {
    && x.playerId == pid && x.addr == from && x.keys == keys && x.txCounter == 1 && x.rxLastSeen == 0
    && x.lastSeen == now && x.established
  }

  /** The Ack and all it changes: the token is spent, the address indexed, the session opened. */
  ghost predicate Opens(
      cfg: Config, s: State, s': State, out: Out, buf: Bytes, from: Addr, now: nat, self: KeyPair, i: nat)
    requires |buf| >= 69 && i < |s.pending|
  {
    var pid := s.pending[i].playerId;
    && s'.pending == s.pending[..i] + s.pending[i + 1..]
    && cfg.kx(self, buf[37..69], false).Some?
    && out == Ack(from, pid, self.pk)
    && s'.index == s.index[PackAddr(from) := pid]
    && pid in s'.sessions && s'.sessions == s.sessions[pid := s'.sessions[pid]]
    && FreshSession(s'.sessions[pid], pid, from, cfg.kx(self, buf[37..69], false).value, now)
  }

  /** How a request with this token goes: wrong place, failed exchange (the token is spent), or a session. */
  ghost predicate Turns(
      cfg: Config, s: State, s': State, out: Out, buf: Bytes, from: Addr, now: nat, self: KeyPair, i: nat)
    requires |buf| >= 69 && i < |s.pending|
  {
    if !From(cfg, s.pending[i], from) then s' == s && out == Nak(from, 0)
    else if cfg.kx(self, buf[37..69], false) == None
    then s' == s.(pending := s.pending[..i] + s.pending[i + 1..]) && out == Nak(from, 0)
    else Opens(cfg, s, s', out, buf, from, now, self, i)
  }

  /** Every way a handshake can go, in the order of the checks. */
  lemma HandshakeByField(cfg: Config, s: State, buf: Bytes, from: Addr, now: nat, self: KeyPair)
    ensures var (s', out) := OnHandshake(cfg, s, buf, from, now, self);
            if !IsRequest(buf) then s' == s && out == Nothing
            else if !Word(buf, 1, 2) then s' == s && out == Nak(from, 2)
            else if |s.sessions| >= cfg.maxPlayers then s' == s && out == Nak(from, 3)
            else if forall k :: 0 <= k < |s.pending| ==> !Good(s.pending[k], buf, now)
            then s' == s && out == Nak(from, 0)
            else exists i: nat :: First(s, buf, now, i) && Turns(cfg, s, s', out, buf, from, now, self, i)
  {
    if IsRequest(buf) {
      FindIsFirst(s, buf, now);
      var i := Find(s.pending, TokenOf(buf), now);
      assert buf[37..69] == PubKeyOf(buf);
      if i < |s.pending| {
        assert First(s, buf, now, i) && Good(s.pending[i], buf, now);
      }
    }
    hide Find, Good, PackAddr;
  }

  // ---- packets of a session ----

  /** Every packet a session may say, byte by byte, when it is its own record that is current. */
  lemma PlainByField(s: State, pid: u16, cur: Session, plain: Bytes)
    requires plain != [] && cur.playerId == pid
    ensures var (s', out) := OnPlain(s, pid, cur, plain);
            if plain[0] == 0x10 then
              && s' == s.(sessions := s.sessions[pid := cur])
              && (if exists n: u16 :: Word(plain, 4, n) && 6 + n <= |plain|
                  then exists n: u16, seqNo: u16 :: Word(plain, 4, n) && Word(plain, 1, seqNo) && 6 + n <= |plain|
                         && out == Voice(pid, seqNo, plain[3], plain[6..6 + n])
                  else out == Nothing)
            else if plain[0] == 0x1A && |plain| >= 7 then
              && pid in s'.sessions && s' == s.(sessions := s.sessions[pid := s'.sessions[pid]])
              && s'.sessions[pid] == cur.(txCounter := (cur.txCounter + 1) % 0x1_0000_0000_0000_0000)
              && out == Sealed(cur.addr, cur.txCounter, [0x1B] + plain[1..7])
            else if plain[0] == 0x1F then
              && out == Nothing && pid !in s'.sessions && PackAddr(cur.addr) !in s'.index
              && (forall q :: q != pid ==> (q in s.sessions <==> q in s'.sessions))
              && (forall q :: q in s'.sessions ==> s'.sessions[q] == s.sessions[q])
              && (forall k :: k != PackAddr(cur.addr) ==> (k in s.index <==> k in s'.index))
              && (forall k :: k in s'.index ==> s'.index[k] == s.index[k])
              && s'.pending == s.pending
            else s' == s.(sessions := s.sessions[pid := cur]) && out == Nothing
  {
    if plain[0] == 0x10 && |plain| >= 6 {
      assert Word(plain, 4, U16At(plain, 4)) && Word(plain, 1, U16At(plain, 1));
    }
    hide PackAddr;
  }

  /** Sending spends one counter; what does not fit into 1528 bytes sealed is not sent. */
  lemma EmitByField(x: Session, plain: Bytes)
    ensures var (x', out) := Emit(x, plain);
            && x' == x.(txCounter := (x.txCounter + 1) % 0x1_0000_0000_0000_0000)
            && out == if |plain| + 40 > 1528 then Nothing else Sealed(x.addr, x.txCounter, plain)
  {
  }

  /** A datagram that is refused or empty leaves everything but the mark; one that opens is acted on. */
  lemma EncryptedByField(cfg: Config, s: State, pid: u16, buf: Bytes, now: nat)
    requires pid in s.sessions
    ensures var x := s.sessions[pid];
            var (m, seen) := OpenWire(cfg.aead, x.keys.rx, x.rxLastSeen, buf, 1464);
            OnEncrypted(cfg, s, pid, buf, now) ==
            if m == None || m.value == [] then (s.(sessions := s.sessions[pid := x.(rxLastSeen := seen)]), Nothing)
            else OnPlain(s, pid, x.(rxLastSeen := seen, lastSeen := now), m.value)
  {
    hide OpenWire, OnPlain;
  }

  // ---- cleanup and binding ----

  /** Cleanup keeps exactly the tokens that are not expired, the sessions heard from, and their addresses. */
  lemma CleanupByField(s: State, now: nat)
    ensures var s' := OnCleanup(s, now);
            && (forall p :: p in s'.pending <==> p in s.pending && p.expiresUnix >= now % 0x1_0000_0000)
            && (forall pid :: pid in s'.sessions <==> pid in s.sessions && now - s.sessions[pid].lastSeen <= 15)
            && (forall pid :: pid in s'.sessions ==> s'.sessions[pid] == s.sessions[pid])
            && (forall k :: k in s'.index ==> k in s.index && s'.index[k] == s.index[k])
            && (forall k :: k in s.index && k !in s'.index ==>
                  exists pid :: pid in s.sessions && now - s.sessions[pid].lastSeen > 15
                                && PackAddr(s.sessions[pid].addr) == k)
  {
    hide PackAddr;
  }

  /** Binding leaves the tokens of others, and this one as the player's only. */
  lemma BindByField(s: State, p: PendingToken)
    ensures var s' := OnBind(s, p);
            && s'.sessions == s.sessions && s'.index == s.index
            && (forall q :: q in s'.pending <==> q == p || (q in s.pending && q.playerId != p.playerId))
            && |s'.pending| > 0 && s'.pending[|s'.pending| - 1] == p
  {
  }

  // ---- the client ----

  /** Before a session: two bytes beginning with 3 are a refusal, 44 beginning with 2 an Ack, all else is ignored. */
  lemma ReplyByField(cfg: Config, c: Client, buf: Bytes)
    ensures var c' := OnReply(cfg, c, buf);
            if |buf| >= 2 && buf[0] == 3 then c' == c.(nak := true)
            else if |buf| >= 44 && buf[0] == 2 && cfg.kx(c.self, buf[3..35], true).Some? then
              && c'.established && c'.rxLastSeen == 0 && Word(buf, 1, c'.playerId)
              && c'.keys == cfg.kx(c.self, buf[3..35], true).value
              && c'.tx == c.tx && c'.self == c.self && c'.nak == c.nak
            else c' == c
  {
    if |buf| >= 44 {
      assert buf[3..3 + KEY_BYTES] == buf[3..35];
    }
  }

  /** In a session one counter is spent for each packet, and what would exceed 1528 bytes is not sent. */
  lemma SendByField(cfg: Config, c: Client, prefix: Bytes, plain: Bytes)
    requires |prefix| == 16
    ensures var (c', sent) := SendSealed(cfg, c, prefix, plain);
            if !c.established then c' == c && sent == None
            else
              && c' == c.(tx := (c.tx + 1) % 0x1_0000_0000_0000_0000)
              && sent == if |plain| + 40 > 1528 then None else Some(Wire(cfg.aead, c.keys.tx, prefix, c.tx, plain))
  {
  }

  /** Connecting starts counting at one under a new pair, and the request is 69 bytes: 1, version 2.0, token, key. */
  lemma ConnectByField(c: Client, self: KeyPair, token: Bytes)
    requires |token| == 32 && |self.pk| == 32
    ensures Connecting(c, self) == c.(self := self, tx := 1, established := false, nak := false)
    ensures var b := RequestBytes(token, self.pk);
            |b| == 69 && b[0] == 1 && Word(b, 1, 2) && Word(b, 3, 0) && b[5..37] == token && b[37..69] == self.pk
  {
  }
}
