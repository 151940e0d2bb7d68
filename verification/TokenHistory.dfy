/** Whole runs of the relay: which tokens were bound, which were redeemed, and for whom. */
module TokenHistory {
  import opened Common
  import opened Ints
  import opened Crypto
  import opened SealedChannel
  import opened Relay

  datatype Event =
    | Bind(p: PendingToken)
    | Datagram(buf: Bytes, from: Addr, now: nat, self: KeyPair)
    | Push(playerId: u16, plain: Bytes)
    | Cleanup(now: nat)

  /** An Ack sent: the bind it redeems, how many binds there were by then, and what it said. */
  datatype AckRec = AckRec(bind: nat, binds: nat, playerId: u16, to: Addr, token: Bytes, now: nat)

  /** A relay state with the history that led to it. */
  datatype World = World(st: State, binds: seq<PendingToken>, acks: seq<AckRec>)

  const START := World(EMPTY, [], [])

  /** Bind `i` is the last one for its player. */
  ghost predicate IsLatest(binds: seq<PendingToken>, i: nat) {
    i < |binds| && forall k :: i < k < |binds| ==> binds[k].playerId != binds[i].playerId
  }

  /** The last bind for a player, or the number of binds. */
  function LatestFor(binds: seq<PendingToken>, pid: u16): (i: nat)
    ensures i < |binds| ==> IsLatest(binds, i) && binds[i].playerId == pid
    ensures i >= |binds| ==> forall k :: 0 <= k < |binds| ==> binds[k].playerId != pid
  {
    if binds == [] then 0
    else
      var n := |binds| - 1;
      if binds[n].playerId == pid then n
      else
        var i := LatestFor(binds[..n], pid);
        if i >= n then n + 1 else i
  }

  function Step(cfg: Config, w: World, e: Event): World {
    match e
    case Bind(p) => w.(st := OnBind(w.st, p), binds := w.binds + [p])
    case Datagram(buf, from, now, self) =>
      var (st, out) := OnDatagram(cfg, w.st, buf, from, now, self);
      if out.Ack? && |buf| >= HANDSHAKE_BYTES then
        w.(st := st, acks := w.acks + [
          AckRec(LatestFor(w.binds, out.playerId), |w.binds|, out.playerId, out.to, TokenOf(buf), now)])
      else w.(st := st)
    case Push(pid, plain) => w.(st := OnPush(w.st, pid, plain).0)
    case Cleanup(now) => w.(st := OnCleanup(w.st, now))
  }

  function Exec(cfg: Config, events: seq<Event>): World {
    if events == [] then START
    else Step(cfg, Exec(cfg, events[..|events| - 1]), events[|events| - 1])
  }

  // ---- the invariant ----

  /** The pending entry is the last bind of its player, and has not been redeemed. */
  ghost predicate Unspent(w: World, p: PendingToken) {
    exists i: nat :: Awaits(w, p, i)
  }

  /** Bind `i` is the last of its player, brought the entry, and no Ack has answered it. */
  ghost predicate Awaits(w: World, p: PendingToken, i: nat) {
    IsLatest(w.binds, i) && w.binds[i] == p && forall j :: 0 <= j < |w.acks| ==> w.acks[j].bind != i
  }

  ghost predicate PendingInv(w: World) {
    OnePerPlayer(w.st.pending) && forall p :: p in w.st.pending ==> Unspent(w, p)
  }

  /** The Ack answers a live bind for the player it names, the last one for that player by then. */
  ghost predicate Earned(binds: seq<PendingToken>, a: AckRec) {
    && a.bind < a.binds <= |binds|
    && binds[a.bind].token == a.token && binds[a.bind].playerId == a.playerId
    && !Expired(binds[a.bind], a.now)
    && forall k :: a.bind < k < a.binds ==> binds[k].playerId != a.playerId
  }

  ghost predicate AckInv(w: World) {
    && (forall j :: 0 <= j < |w.acks| ==> Earned(w.binds, w.acks[j]))
    && (forall i, j :: 0 <= i < j < |w.acks| ==> w.acks[i].bind != w.acks[j].bind)
  }

  /** Every live session was opened by an Ack to its player at its address. */
  ghost predicate Backed(w: World) {
    forall pid :: pid in w.st.sessions ==> HasAck(w.acks, pid, w.st.sessions[pid].addr)
  }

  ghost predicate HasAck(acks: seq<AckRec>, pid: u16, addr: Addr) {
    exists j :: 0 <= j < |acks| && acks[j].playerId == pid && acks[j].to == addr
  }

  ghost predicate Inv(cfg: Config, w: World) {
    SessionsInv(cfg, w.st) && PendingInv(w) && AckInv(w) && Backed(w)
  }

  lemma LatestUnique(binds: seq<PendingToken>, i: nat, j: nat)
    requires IsLatest(binds, i) && IsLatest(binds, j) && binds[i].playerId == binds[j].playerId
    ensures i == j
  {
  }

  /** Fewer pending entries, same history. */
  lemma ShrinkKeepsPending(w: World, st: State)
    requires PendingInv(w) && OnePerPlayer(st.pending)
    requires forall p :: p in st.pending ==> p in w.st.pending
    ensures PendingInv(w.(st := st))
  {
    forall p | p in st.pending ensures Unspent(w.(st := st), p) {
      var i: nat :| Awaits(w, p, i);
      assert Awaits(w.(st := st), p, i);
    }
  }

  lemma BindKeepsPending(w: World, p: PendingToken)
    requires PendingInv(w) && AckInv(w)
    ensures PendingInv(w.(st := OnBind(w.st, p), binds := w.binds + [p]))
  {
    var w' := w.(st := OnBind(w.st, p), binds := w.binds + [p]);
    var others := OthersThan(w.st.pending, p.playerId);
    OthersOnePerPlayer(w.st.pending, p.playerId);
    assert forall k :: 0 <= k < |others| ==> others[k] in others;
    forall q | q in w'.st.pending ensures Unspent(w', q) {
      if q in others {
        var i: nat :| Awaits(w, q, i);
        assert Awaits(w', q, i);
      } else {
        var n := |w.binds|;
        assert forall j :: 0 <= j < |w.acks| ==> Earned(w.binds, w.acks[j]);
        assert Awaits(w', q, n);
      }
    }
  }

  lemma BindKeepsAcks(w: World, p: PendingToken)
    requires AckInv(w)
    ensures AckInv(w.(st := OnBind(w.st, p), binds := w.binds + [p]))
  {
    forall j | 0 <= j < |w.acks| ensures Earned(w.binds + [p], w.acks[j]) {
      assert Earned(w.binds, w.acks[j]);
    }
  }

  lemma RedeemKeeps(w: World, i: nat, st: State, to: Addr, token: Bytes, now: nat)
    requires PendingInv(w) && AckInv(w) && i < |w.st.pending|
    requires Matches(w.st.pending[i], token, now)
    requires st.pending == w.st.pending[..i] + w.st.pending[i + 1..]
    ensures var pid := w.st.pending[i].playerId;
            var a := AckRec(LatestFor(w.binds, pid), |w.binds|, pid, to, token, now);
            var w' := w.(st := st, acks := w.acks + [a]);
            PendingInv(w') && AckInv(w')
  {
    var p := w.st.pending[i];
    var b := LatestFor(w.binds, p.playerId);
    var a := AckRec(b, |w.binds|, p.playerId, to, token, now);
    var w' := w.(st := st, acks := w.acks + [a]);
    assert Unspent(w, p);
    var i': nat :| Awaits(w, p, i');
    LatestUnique(w.binds, i', b);
    assert Earned(w.binds, a);
    forall q | q in st.pending ensures Unspent(w', q) {
      var k :| 0 <= k < |st.pending| && st.pending[k] == q;
      assert q == w.st.pending[if k < i then k else k + 1];
      assert q in w.st.pending && q.playerId != p.playerId;
      var m: nat :| Awaits(w, q, m);
      assert m != b && Awaits(w', q, m);
    }
  }

  /** How a datagram can change the token table and earn an Ack. */
  lemma DatagramTokens(cfg: Config, s: State, buf: Bytes, from: Addr, now: nat, self: KeyPair)
    ensures var (s', out) := OnDatagram(cfg, s, buf, from, now, self);
            if s'.pending == s.pending then !out.Ack?
            else
              && |buf| >= HANDSHAKE_BYTES
              && var i := Find(s.pending, TokenOf(buf), now);
                 && i < |s.pending| && s'.pending == s.pending[..i] + s.pending[i + 1..]
                 && (out.Ack? ==>
                       && out.playerId == s.pending[i].playerId && out.to == from
                       && s'.sessions == s.sessions[out.playerId := s'.sessions[out.playerId]]
                       && out.playerId in s'.sessions && s'.sessions[out.playerId].addr == from)
                 && (!out.Ack? ==> s'.sessions == s.sessions)
  {
    hide OpenWire;
    if Owner(s, from) == None && |buf| >= HANDSHAKE_BYTES {
      var i := Find(s.pending, TokenOf(buf), now);
      if i < |s.pending| {
        assert |s.pending[..i] + s.pending[i + 1..]| == |s.pending| - 1;
      }
    }
  }

  /** Apart from redeeming, a datagram opens no session and moves none. */
  lemma DatagramSessions(cfg: Config, s: State, buf: Bytes, from: Addr, now: nat, self: KeyPair)
    requires SessionsInv(cfg, s)
    ensures var (s', out) := OnDatagram(cfg, s, buf, from, now, self);
            !out.Ack? ==> forall pid :: pid in s'.sessions ==>
                            pid in s.sessions && s'.sessions[pid].addr == s.sessions[pid].addr
  {
    hide OpenWire;
  }

  lemma DatagramKeeps(cfg: Config, w: World, buf: Bytes, from: Addr, now: nat, self: KeyPair)
    requires Inv(cfg, w)
    ensures Inv(cfg, Step(cfg, w, Datagram(buf, from, now, self)))
  {
    hide SessionsInv, OnDatagram, PendingInv, AckInv;
    DatagramKeepsSessions(cfg, w.st, buf, from, now, self);
    DatagramTokens(cfg, w.st, buf, from, now, self);
    DatagramSessions(cfg, w.st, buf, from, now, self);
    var w' := Step(cfg, w, Datagram(buf, from, now, self));
    var (st, out) := OnDatagram(cfg, w.st, buf, from, now, self);
    PendingOf(w);
    if st.pending == w.st.pending {
      ShrinkKeepsPending(w, st);
      AcksAlone(w, st);
    } else {
      var i := Find(w.st.pending, TokenOf(buf), now);
      if out.Ack? {
        RedeemKeeps(w, i, st, from, TokenOf(buf), now);
      } else {
        CutOnePerPlayer(w.st.pending, i);
        ShrinkKeepsPending(w, st);
        AcksAlone(w, st);
      }
    }
    forall pid | pid in w'.st.sessions ensures HasAck(w'.acks, pid, w'.st.sessions[pid].addr) {
      if out.Ack? && pid == out.playerId {
        assert w'.acks[|w.acks|].playerId == pid && w'.acks[|w.acks|].to == from;
      } else {
        var j :| 0 <= j < |w.acks| && w.acks[j].playerId == pid && w.acks[j].to == w.st.sessions[pid].addr;
        assert w'.acks[j] == w.acks[j];
      }
    }
  }

  lemma PendingOf(w: World)
    requires PendingInv(w)
    ensures OnePerPlayer(w.st.pending)
  {
  }

  lemma AcksAlone(w: World, st: State)
    requires AckInv(w)
    ensures AckInv(w.(st := st))
  {
  }

  lemma CutOnePerPlayer(ps: seq<PendingToken>, i: nat)
    requires OnePerPlayer(ps) && i < |ps|
    ensures OnePerPlayer(ps[..i] + ps[i + 1..])
    ensures forall p :: p in ps[..i] + ps[i + 1..] ==> p in ps
  {
  }

  lemma StepKeeps(cfg: Config, w: World, e: Event)
    requires Inv(cfg, w)
    ensures Inv(cfg, Step(cfg, w, e))
  {
    hide SessionsInv, PendingInv, AckInv, OnDatagram;
    match e
    case Bind(p) =>
      BindKeepsPending(w, p);
      BindKeepsAcks(w, p);
      SessionsAlone(cfg, w.st, OnBind(w.st, p));
    case Datagram(buf, from, now, self) => DatagramKeeps(cfg, w, buf, from, now, self);
    case Push(pid, plain) =>
      if pid in w.st.sessions {
        SessionHere(cfg, w.st, pid);
        TouchKeepsSessions(cfg, w.st, pid, Emit(w.st.sessions[pid], plain).0);
      }
      PendingOf(w);
      ShrinkKeepsPending(w, OnPush(w.st, pid, plain).0);
      AcksAlone(w, OnPush(w.st, pid, plain).0);
    case Cleanup(now) =>
      CleanupKeepsSessions(cfg, w.st, now);
      PendingOf(w);
      UnexpiredOnePerPlayer(w.st.pending, now);
      ShrinkKeepsPending(w, OnCleanup(w.st, now));
      AcksAlone(w, OnCleanup(w.st, now));
  }

  lemma SessionsAlone(cfg: Config, s: State, s': State)
    requires SessionsInv(cfg, s) && s'.sessions == s.sessions && s'.index == s.index
    ensures SessionsInv(cfg, s')
  {
    forall q | q in s'.sessions ensures Indexed(s', q) {
      assert Indexed(s, q);
    }
  }

  lemma SessionHere(cfg: Config, s: State, pid: u16)
    requires SessionsInv(cfg, s) && pid in s.sessions
    ensures s.sessions[pid].playerId == pid && s.sessions[pid].established
  {
    assert Indexed(s, pid);
  }

  // ---- every run ----

  lemma {:induction false} RunKeeps(cfg: Config, events: seq<Event>)
    ensures Inv(cfg, Exec(cfg, events))
  {
    hide Step;
    if events == [] {
      assert Inv(cfg, START);
    } else {
      RunKeeps(cfg, events[..|events| - 1]);
      StepKeeps(cfg, Exec(cfg, events[..|events| - 1]), events[|events| - 1]);
    }
  }

  /** If the tokens minted are distinct, no token is ever acknowledged twice. */
  lemma AtMostOneAck(cfg: Config, events: seq<Event>, i: nat, j: nat)
    requires var w := Exec(cfg, events);
             && i < |w.acks| && j < |w.acks| && w.acks[i].token == w.acks[j].token
             && forall a, b ::
                  0 <= a < |w.binds| && 0 <= b < |w.binds| && w.binds[a].token == w.binds[b].token ==> a == b
    ensures i == j
  {
    RunKeeps(cfg, events);
    var w := Exec(cfg, events);
    assert Earned(w.binds, w.acks[i]) && Earned(w.binds, w.acks[j]);
  }

  /** Every Ack was earned, and every live session was opened by one. */
  lemma AcksAreEarned(cfg: Config, events: seq<Event>)
    ensures var w := Exec(cfg, events);
            && (forall j :: 0 <= j < |w.acks| ==> Earned(w.binds, w.acks[j]))
            && (forall pid :: pid in w.st.sessions ==> HasAck(w.acks, pid, w.st.sessions[pid].addr))
  {
    RunKeeps(cfg, events);
  }

  /** In every reachable state sessions are bounded, indexed, and at distinct addresses. */
  lemma ReachableSessions(cfg: Config, events: seq<Event>)
    ensures var s := Exec(cfg, events).st;
            && SessionsInv(cfg, s) && OnePerPlayer(s.pending)
            && forall p, q :: p in s.sessions && q in s.sessions && s.sessions[p].addr == s.sessions[q].addr ==> p == q
  {
    RunKeeps(cfg, events);
    var s := Exec(cfg, events).st;
    forall p, q | p in s.sessions && q in s.sessions && s.sessions[p].addr == s.sessions[q].addr ensures p == q {
      AddressesDistinct(cfg, s, p, q);
    }
  }

  // ---- the server over whole runs ----

  /** The server object serves any run of events and ends where the history says. */
  method Serve(cfg: Config, events: seq<Event>) returns (server: Relay)
    ensures fresh(server) && server.Snapshot() == Exec(cfg, events).st
    ensures SessionsInv(cfg, server.Snapshot()) && OnePerPlayer(server.pending)
  {
    hide Step, SessionsInv;
    server := new Relay(cfg);
    for n := 0 to |events|
      invariant fresh(server) && server.cfg == cfg && server.Snapshot() == Exec(cfg, events[..n]).st
    {
      assert events[..n + 1][..n] == events[..n];
      ServeOne(server, Exec(cfg, events[..n]), events[n]);
    }
    assert events[..|events|] == events;
    ReachableSessions(cfg, events);
  }

  method ServeOne(server: Relay, ghost w: World, e: Event)
    requires server.Snapshot() == w.st
    modifies server
    ensures server.Snapshot() == Step(server.cfg, w, e).st
  {
    hide OnDatagram, OnBind, OnPush, OnCleanup;
    match e
    case Bind(p) => server.BindToken(p);
    case Datagram(buf, from, now, self) => server.OnAudioSocket(buf, from, now, self);
    case Push(pid, plain) => server.EmitToPlayer(pid, plain);
    case Cleanup(now) => server.CleanupPass(now);
  }
}
