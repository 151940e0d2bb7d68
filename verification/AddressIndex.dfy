/** When the relay's address index leads only to the addresses sessions really have: relay/src/relay.cpp. */
module AddressIndex {
  import opened Common
  import opened Ints
  import opened Crypto
  import SealedChannel
  import opened Relay
  import opened TokenHistory

  /** Every entry of the index leads to a live session at that very address. */
  ghost predicate Exact(s: State) {
    forall k :: k in s.index ==> Leads(s, k)
  }

  ghost predicate Leads(s: State, k: u64)
    requires k in s.index
  {
    s.index[k] in s.sessions && PackAddr(s.sessions[s.index[k]].addr) == k
  }

  /** The entry leads to no session, or to one that has moved elsewhere. */
  ghost predicate Stale(s: State, k: u64) {
    k in s.index && !Leads(s, k)
  }

  // ---- one step ----

  /** A successful handshake keeps the index exact if and only if the player had no live session. */
  lemma RedeemExactIff(
      cfg: Config, s: State, i: nat, clientPk: Bytes, from: Addr, now: nat, self: KeyPair)
    requires SessionsInv(cfg, s) && Exact(s) && i < |s.pending| && Owner(s, from) == None
    requires cfg.kx(self, clientPk, false).Some?
    ensures var pid := s.pending[i].playerId;
            && (Exact(Redeem(cfg, s, i, clientPk, from, now, self).0) <==> pid !in s.sessions)
            && (pid in s.sessions ==> s.sessions[pid].addr != from)
  {
    hide PackAddr;
    var pid := s.pending[i].playerId;
    var s' := Redeem(cfg, s, i, clientPk, from, now, self).0;
    if pid in s.sessions {
      assert Indexed(s, pid);
      var left := PackAddr(s.sessions[pid].addr);
      assert left in s'.index && !Leads(s', left) by {
        assert PackAddr(from) != left;
      }
    } else {
      forall k | k in s'.index ensures Leads(s', k) {
        if k != PackAddr(from) {
          assert Leads(s, k);
        }
      }
    }
  }

  /** A change of counters and clocks alone does not touch the addresses. */
  lemma TouchKeepsExact(s: State, pid: u16, x: Session)
    requires Exact(s) && pid in s.sessions && x.addr == s.sessions[pid].addr
    ensures Exact(s.(sessions := s.sessions[pid := x]))
  {
    hide PackAddr;
    forall k | k in s.index ensures Leads(s.(sessions := s.sessions[pid := x]), k) {
      assert Leads(s, k);
    }
  }

  /** Sessions that go take their addresses along. */
  lemma DropKeepsExact(s: State, gone: set<u16>, ps: seq<PendingToken>)
    requires Exact(s) && gone <= s.sessions.Keys
    ensures Exact(State(s.sessions - gone, s.index - AddressesOf(s, gone), ps))
  {
    hide PackAddr;
    var dead := AddressesOf(s, gone);
    var s' := State(s.sessions - gone, s.index - dead, ps);
    assert forall pid :: pid in gone ==> PackAddr(s.sessions[pid].addr) in dead;
    forall k | k in s'.index ensures Leads(s', k) {
      assert Leads(s, k);
    }
  }

  /** Voice, ping, bye and anything else a session may say. */
  lemma PlainKeepsExact(s: State, pid: u16, cur: Session, plain: Bytes)
    requires Exact(s) && pid in s.sessions && plain != []
    requires cur.playerId == pid && cur.addr == s.sessions[pid].addr
    ensures Exact(OnPlain(s, pid, cur, plain).0)
  {
    hide Exact;
    TouchKeepsExact(s, pid, cur);
    TouchKeepsExact(s, pid, cur.(txCounter := SealedChannel.Inc64(cur.txCounter)));
    DropKeepsExact(s, {pid}, s.pending);
    assert AddressesOf(s, {pid}) == {PackAddr(cur.addr)};
    assert s.sessions[pid := cur] - {pid} == s.sessions - {pid};
    var dropped := State(s.sessions - {pid}, s.index - {PackAddr(cur.addr)}, s.pending);
    assert OnPlain(s, pid, cur, plain).0 in
        {s.(sessions := s.sessions[pid := cur]), dropped,
         s.(sessions := s.sessions[pid := cur.(txCounter := SealedChannel.Inc64(cur.txCounter))])};
  }

  /** A datagram of a session. */
  lemma OwnKeepsExact(cfg: Config, s: State, pid: u16, buf: Bytes, now: nat)
    requires SessionsInv(cfg, s) && Exact(s) && pid in s.sessions
    ensures Exact(OnEncrypted(cfg, s, pid, buf, now).0)
  {
    hide OpenWire, OnPlain, Exact;
    var was := s.sessions[pid];
    assert Indexed(s, pid);
    var (m, seen) := OpenWire(cfg.aead, was.keys.rx, was.rxLastSeen, buf, SealedChannel.RECV_CAP);
    TouchKeepsExact(s, pid, was.(rxLastSeen := seen));
    if m != None && m.value != [] {
      PlainKeepsExact(s, pid, was.(rxLastSeen := seen, lastSeen := now), m.value);
    }
  }

  /** The request is acceptable, and its token is that of a player who has a live session already. */
  predicate Replaces(cfg: Config, s: State, e: Event) {
    && e.Datagram? && Acceptable(cfg, s, e.buf, e.from, e.now, e.self)
    && s.pending[Find(s.pending, TokenOf(e.buf), e.now)].playerId in s.sessions
  }

  /** Which is to say that it is acknowledged to such a player. */
  lemma ReplacesIff(cfg: Config, s: State, e: Event)
    requires e.Datagram?
    ensures var out := OnDatagram(cfg, s, e.buf, e.from, e.now, e.self).1;
            Replaces(cfg, s, e) <==> out.Ack? && out.playerId in s.sessions
  {
    hide OnDatagram, Acceptable;
    AcknowledgedIff(cfg, s, e.buf, e.from, e.now, e.self);
    if Acceptable(cfg, s, e.buf, e.from, e.now, e.self) {
      AcceptableMatches(cfg, s, e.buf, e.from, e.now, e.self);
    }
  }

  lemma AcceptableMatches(cfg: Config, s: State, buf: Bytes, from: Addr, now: nat, self: KeyPair)
    requires Acceptable(cfg, s, buf, from, now, self)
    ensures |buf| >= HANDSHAKE_BYTES && Find(s.pending, TokenOf(buf), now) < |s.pending|
  {
  }

  /** A datagram keeps the index exact if and only if it does not replace a live session. */
  lemma DatagramExactIff(cfg: Config, s: State, e: Event)
    requires SessionsInv(cfg, s) && Exact(s) && e.Datagram?
    ensures Exact(OnDatagram(cfg, s, e.buf, e.from, e.now, e.self).0) <==> !Replaces(cfg, s, e)
    ensures Replaces(cfg, s, e) ==>
              s.sessions[OnDatagram(cfg, s, e.buf, e.from, e.now, e.self).1.playerId].addr != e.from
  {
    hide Exact, Find, OnEncrypted, Replaces;
    ReplacesIff(cfg, s, e);
    match Owner(s, e.from)
    case Some(pid) =>
      OwnKeepsExact(cfg, s, pid, e.buf, e.now);
      NoAckForOwned(cfg, s, e.buf, e.from, e.now, e.self);
    case None =>
      if |e.buf| >= HANDSHAKE_BYTES {
        var i := Find(s.pending, TokenOf(e.buf), e.now);
        var cut := if i < |s.pending| then i else 0;
        PendingAlone(s, s.pending[..cut] + s.pending[if i < |s.pending| then i + 1 else 0..]);
        if i < |s.pending| && cfg.kx(e.self, PubKeyOf(e.buf), false).Some? {
          RedeemExactIff(cfg, s, i, PubKeyOf(e.buf), e.from, e.now, e.self);
        }
      }
  }

  /** The token table plays no part. */
  lemma PendingAlone(s: State, ps: seq<PendingToken>)
    ensures Exact(s.(pending := ps)) == Exact(s)
  {
    forall k | k in s.index ensures Leads(s.(pending := ps), k) == Leads(s, k) {
    }
  }

  /** As long as an address leads to a live session, stale entry or not, no request from it is acknowledged. */
  lemma NoAckForOwned(cfg: Config, s: State, buf: Bytes, from: Addr, now: nat, self: KeyPair)
    requires Owner(s, from).Some?
    ensures !OnDatagram(cfg, s, buf, from, now, self).1.Ack?
  {
    hide OpenWire;
  }

  lemma StepExactIff(cfg: Config, w: World, e: Event)
    requires SessionsInv(cfg, w.st) && Exact(w.st)
    ensures Exact(Step(cfg, w, e).st) <==> !Replaces(cfg, w.st, e)
  {
    hide Exact, OnDatagram, SessionsInv;
    match e
    case Bind(p) => PendingAlone(w.st, OnBind(w.st, p).pending);
    case Datagram(_, _, _, _) => DatagramExactIff(cfg, w.st, e);
    case Push(pid, plain) =>
      if pid in w.st.sessions {
        TouchKeepsExact(w.st, pid, Emit(w.st.sessions[pid], plain).0);
      }
    case Cleanup(now) => DropKeepsExact(w.st, TimedOut(w.st, now), Unexpired(w.st.pending, now));
  }

  // ---- every run ----

  /** No Ack of the run went to a player whose session was still live. */
  ghost predicate NeverReplaces(cfg: Config, events: seq<Event>) {
    forall n :: 0 <= n < |events| ==> !Replaces(cfg, Exec(cfg, events[..n]).st, events[n])
  }

  ghost predicate AlwaysExact(cfg: Config, events: seq<Event>) {
    forall n :: 0 <= n <= |events| ==> Exact(Exec(cfg, events[..n]).st)
  }

  /** The index is exact in every state of a run if and only if no Ack replaced a live session. */
  lemma {:induction false} AlwaysExactIff(cfg: Config, events: seq<Event>)
    ensures AlwaysExact(cfg, events) <==> NeverReplaces(cfg, events)
  {
    hide Exact, Step, Replaces;
    if events == [] {
      NoEntries(cfg);
    } else {
      var n := |events| - 1;
      AlwaysExactIff(cfg, events[..n]);
      Fronts(cfg, events);
      assert events[..n + 1] == events;
      if AlwaysExact(cfg, events[..n]) {
        assert events[..n][..n] == events[..n];
        ReachableSessions(cfg, events[..n]);
        StepExactIff(cfg, Exec(cfg, events[..n]), events[n]);
      }
    }
  }

  lemma NoEntries(cfg: Config)
    ensures AlwaysExact(cfg, []) && NeverReplaces(cfg, [])
  {
    var none: seq<Event> := [];
    assert none[..0] == none;
  }

  lemma Fronts(cfg: Config, events: seq<Event>)
    requires events != []
    ensures var n := |events| - 1;
            && (AlwaysExact(cfg, events) <==> AlwaysExact(cfg, events[..n]) && Exact(Exec(cfg, events).st))
            && (NeverReplaces(cfg, events) <==>
                  NeverReplaces(cfg, events[..n]) && !Replaces(cfg, Exec(cfg, events[..n]).st, events[n]))
  {
    ExactFront(cfg, events);
    ReplacesFront(cfg, events);
    hide AlwaysExact, NeverReplaces, Exact, Exec, Replaces;
  }

  lemma SameFront(events: seq<Event>, k: nat)
    requires k < |events|
    ensures events[..|events| - 1][..k] == events[..k]
  {
  }

  lemma ExactFront(cfg: Config, events: seq<Event>)
    requires events != []
    ensures AlwaysExact(cfg, events) <==>
            AlwaysExact(cfg, events[..|events| - 1]) && Exact(Exec(cfg, events).st)
  {
    hide Exact, Exec;
    var n := |events| - 1;
    var front := events[..n];
    assert events[..n + 1] == events;
    forall k | 0 <= k <= n ensures front[..k] == events[..k] {
      SameFront(events, k);
    }
    if AlwaysExact(cfg, events) {
      forall k | 0 <= k <= n ensures Exact(Exec(cfg, front[..k]).st) {
        assert Exact(Exec(cfg, events[..k]).st);
      }
      assert Exact(Exec(cfg, events[..n + 1]).st);
    }
    if AlwaysExact(cfg, front) && Exact(Exec(cfg, events).st) {
      forall k | 0 <= k <= n + 1 ensures Exact(Exec(cfg, events[..k]).st) {
        assert k <= n ==> Exact(Exec(cfg, front[..k]).st);
      }
    }
  }

  lemma ReplacesFront(cfg: Config, events: seq<Event>)
    requires events != []
    ensures var n := |events| - 1;
            NeverReplaces(cfg, events) <==>
            NeverReplaces(cfg, events[..n]) && !Replaces(cfg, Exec(cfg, events[..n]).st, events[n])
  {
    hide Exec, Replaces;
    var n := |events| - 1;
    var front := events[..n];
    forall k | 0 <= k <= n ensures front[..k] == events[..k] {
      SameFront(events, k);
    }
    if NeverReplaces(cfg, events) {
      forall k | 0 <= k < n ensures !Replaces(cfg, Exec(cfg, front[..k]).st, front[k]) {
        assert !Replaces(cfg, Exec(cfg, events[..k]).st, events[k]);
      }
    }
    if NeverReplaces(cfg, front) && !Replaces(cfg, Exec(cfg, front).st, events[n]) {
      forall k | 0 <= k < |events| ensures !Replaces(cfg, Exec(cfg, events[..k]).st, events[k]) {
        if k < n {
          assert !Replaces(cfg, Exec(cfg, front[..k]).st, front[k]);
        }
      }
    }
  }

  // ---- what a stale entry costs ----

  /** The entry is still there, for the same player, and still stale. */
  ghost predicate Stays(s: State, s': State, k: u64)
    requires k in s.index
  {
    Stale(s', k) && s'.index[k] == s.index[k]
  }

  /** A request from this address is acknowledged. */
  predicate AckedAt(cfg: Config, s: State, e: Event, k: u64) {
    e.Datagram? && PackAddr(e.from) == k && OnDatagram(cfg, s, e.buf, e.from, e.now, e.self).1.Ack?
  }

  /**
    A stale entry outlives every step, the end of its session by bye or cleanup included: only an
    Ack to that very address removes it. While it leads to a live session no such Ack is given.
   */
  lemma StaleStays(cfg: Config, w: World, e: Event, k: u64)
    requires SessionsInv(cfg, w.st) && Stale(w.st, k)
    ensures Stays(w.st, Step(cfg, w, e).st, k) || AckedAt(cfg, w.st, e, k)
    ensures w.st.index[k] in w.st.sessions ==> !AckedAt(cfg, w.st, e, k)
  {
    hide OnDatagram, SessionsInv, PackAddr;
    match e
    case Bind(p) =>
    case Datagram(buf, from, now, self) =>
      StaleAfterDatagram(cfg, w.st, buf, from, now, self, k);
      if PackAddr(from) == k && w.st.index[k] in w.st.sessions {
        LiveIsEstablished(cfg, w.st, w.st.index[k]);
        NoAckForOwned(cfg, w.st, buf, from, now, self);
      }
    case Push(pid, plain) =>
    case Cleanup(now) => StaleAfterDrop(cfg, w.st, TimedOut(w.st, now), Unexpired(w.st.pending, now), k);
  }

  lemma LiveIsEstablished(cfg: Config, s: State, pid: u16)
    requires SessionsInv(cfg, s) && pid in s.sessions
    ensures s.sessions[pid].established && s.sessions[pid].playerId == pid
  {
    assert Indexed(s, pid);
  }

  lemma StaleAfterDrop(cfg: Config, s: State, gone: set<u16>, ps: seq<PendingToken>, k: u64)
    requires SessionsInv(cfg, s) && Stale(s, k) && gone <= s.sessions.Keys
    ensures var s' := State(s.sessions - gone, s.index - AddressesOf(s, gone), ps);
            Stays(s, s', k)
  {
    hide PackAddr;
    forall pid | pid in gone ensures PackAddr(s.sessions[pid].addr) != k {
      assert Indexed(s, pid);
    }
  }

  lemma StaleAfterDatagram(cfg: Config, s: State, buf: Bytes, from: Addr, now: nat, self: KeyPair, k: u64)
    requires SessionsInv(cfg, s) && Stale(s, k)
    ensures var (s', out) := OnDatagram(cfg, s, buf, from, now, self);
            Stays(s, s', k) || (PackAddr(from) == k && out.Ack?)
  {
    hide OpenWire, Find, PackAddr, OnPlain;
    match Owner(s, from)
    case Some(pid) =>
      var was := s.sessions[pid];
      assert Indexed(s, pid);
      var (m, seen) := OpenWire(cfg.aead, was.keys.rx, was.rxLastSeen, buf, SealedChannel.RECV_CAP);
      if m != None && m.value != [] {
        StaleAfterPlain(cfg, s, pid, was.(rxLastSeen := seen, lastSeen := now), m.value, k);
      }
    case None =>
  }

  lemma StaleAfterPlain(cfg: Config, s: State, pid: u16, cur: Session, plain: Bytes, k: u64)
    requires SessionsInv(cfg, s) && Stale(s, k) && pid in s.sessions && plain != []
    requires cur.playerId == pid && cur.addr == s.sessions[pid].addr
    ensures Stays(s, OnPlain(s, pid, cur, plain).0, k)
  {
    hide PackAddr;
    assert Indexed(s, pid);
  }
}
