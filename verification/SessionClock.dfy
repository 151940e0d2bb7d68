/** What keeps a session of the relay alive, and when it ends, over whole runs: relay/src/relay.cpp. */
module SessionClock {
  import opened Common
  import opened Ints
  import opened Crypto
  import SealedChannel
  import opened Relay
  import opened TokenHistory

  /** Does the datagram open, under the session's key and mark, to a text that is not empty? */
  predicate Speaks(cfg: Config, x: Session, buf: Bytes) {
    var m := OpenWire(cfg.aead, x.keys.rx, x.rxLastSeen, buf, 1464).0;
    m.Some? && m.value != []
  }

  /** Is the player heard from: a handshake acknowledged to them, or a datagram of their session that opens? */
  predicate HeardBy(cfg: Config, s: State, e: Event, pid: u16) {
    e.Datagram? &&
    if Owner(s, e.from) == Some(pid) then Speaks(cfg, s.sessions[pid], e.buf)
    else
      var out := OnDatagram(cfg, s, e.buf, e.from, e.now, e.self).1;
      out.Ack? && out.playerId == pid
  }

  /** When the player was last heard from, if ever. */
  function LastHeard(cfg: Config, events: seq<Event>, pid: u16): Option<int> {
    if events == [] then None
    else
      var front, e := events[..|events| - 1], events[|events| - 1];
      if HeardBy(cfg, Exec(cfg, front).st, e, pid) then Some(e.now) else LastHeard(cfg, front, pid)
  }

  // ---- one step ----

  /** A datagram of a session moves its clock exactly when it opens to something. */
  lemma OwnMoves(cfg: Config, s: State, pid: u16, buf: Bytes, now: nat)
    requires SessionsInv(cfg, s) && pid in s.sessions
    ensures var s' := OnEncrypted(cfg, s, pid, buf, now).0;
            && (pid in s'.sessions ==>
                  s'.sessions[pid].lastSeen ==
                  if Speaks(cfg, s.sessions[pid], buf) then now else s.sessions[pid].lastSeen)
            && s'.sessions.Keys <= s.sessions.Keys
            && forall q :: q in s'.sessions && q != pid ==> s'.sessions[q] == s.sessions[q]
  {
    hide OpenWire;
    assert Indexed(s, pid);
  }

  /** A handshake starts the clock of the session it opens, and moves no other. */
  lemma HandshakeMoves(cfg: Config, s: State, buf: Bytes, from: Addr, now: nat, self: KeyPair)
    ensures var (s', out) := OnHandshake(cfg, s, buf, from, now, self);
            forall q :: q in s'.sessions ==>
              if out.Ack? && out.playerId == q then s'.sessions[q].lastSeen == now
              else q in s.sessions && s'.sessions[q] == s.sessions[q]
  {
    hide Find, PackAddr;
  }

  lemma DatagramMoves(cfg: Config, s: State, e: Event, pid: u16)
    requires SessionsInv(cfg, s) && e.Datagram?
    ensures var s' := OnDatagram(cfg, s, e.buf, e.from, e.now, e.self).0;
            pid in s'.sessions ==>
              if HeardBy(cfg, s, e, pid) then s'.sessions[pid].lastSeen == e.now
              else pid in s.sessions && s'.sessions[pid].lastSeen == s.sessions[pid].lastSeen
  {
    hide OnEncrypted, OnHandshake, Speaks;
    match Owner(s, e.from)
    case Some(q) =>
      OwnMoves(cfg, s, q, e.buf, e.now);
      AddressIndexFree(cfg, s, q, e.buf, e.now);
    case None => HandshakeMoves(cfg, s, e.buf, e.from, e.now, e.self);
  }

  /** What a session says is never answered by an Ack. */
  lemma AddressIndexFree(cfg: Config, s: State, pid: u16, buf: Bytes, now: nat)
    requires pid in s.sessions
    ensures !OnEncrypted(cfg, s, pid, buf, now).1.Ack?
  {
    hide OpenWire;
  }

  /** Cleanup ends a session exactly when it was not heard from for more than 15 seconds. */
  lemma CleanupEndsIff(s: State, now: nat, pid: u16)
    ensures var s' := OnCleanup(s, now);
            && (pid in s'.sessions <==> pid in s.sessions && now - s.sessions[pid].lastSeen <= 15)
            && (pid in s'.sessions ==> s'.sessions[pid] == s.sessions[pid])
            && (pid in TimedOut(s, now) <==> pid in s.sessions && now - s.sessions[pid].lastSeen > 15)
  {
  }

  lemma StepMoves(cfg: Config, w: World, e: Event, pid: u16)
    requires SessionsInv(cfg, w.st)
    ensures var s, s' := w.st, Step(cfg, w, e).st;
            pid in s'.sessions ==>
              if HeardBy(cfg, s, e, pid) then s'.sessions[pid].lastSeen == e.now
              else pid in s.sessions && s'.sessions[pid].lastSeen == s.sessions[pid].lastSeen
  {
    hide OnDatagram, SessionsInv, Speaks, OnCleanup;
    match e
    case Datagram(_, _, _, _) => DatagramMoves(cfg, w.st, e, pid);
    case Cleanup(now) => CleanupEndsIff(w.st, now, pid);
    case Bind(_) =>
    case Push(_, _) =>
  }

  // ---- every run ----

  /**
    In every run the clock of a live session is the time of its player's last handshake or of the
    last datagram of theirs that opened to something, whichever came later. Refused and empty
    datagrams do not move it.
   */
  lemma {:induction false} ClockIsLastHeard(cfg: Config, events: seq<Event>, pid: u16)
    ensures var s := Exec(cfg, events).st;
            pid in s.sessions ==> LastHeard(cfg, events, pid) == Some(s.sessions[pid].lastSeen)
  {
    hide Step, HeardBy, SessionsInv;
    if events != [] {
      var n := |events| - 1;
      ClockIsLastHeard(cfg, events[..n], pid);
      RunKeeps(cfg, events[..n]);
      StepMoves(cfg, Exec(cfg, events[..n]), events[n], pid);
    }
  }

  /**
    So a cleanup after any run ends exactly the sessions of players last heard from more than 15
    seconds before.
   */
  lemma EndsAfterSilence(cfg: Config, events: seq<Event>, now: nat, pid: u16)
    requires pid in Exec(cfg, events).st.sessions
    ensures LastHeard(cfg, events, pid).Some?
    ensures pid in Exec(cfg, events + [Cleanup(now)]).st.sessions <==> now - LastHeard(cfg, events, pid).value <= 15
    ensures pid in TimedOut(Exec(cfg, events).st, now) <==> now - LastHeard(cfg, events, pid).value > 15
  {
    ClockIsLastHeard(cfg, events, pid);
    CleanupEndsIff(Exec(cfg, events).st, now, pid);
    assert (events + [Cleanup(now)])[..|events|] == events;
    hide OnCleanup, TimedOut, LastHeard;
  }

  /** A session heard from outlives a cleanup up to 15 seconds later. */
  lemma VoiceKeepsAlive(cfg: Config, events: seq<Event>, e: Event, now: nat, pid: u16)
    requires HeardBy(cfg, Exec(cfg, events).st, e, pid) && pid in Exec(cfg, events + [e]).st.sessions
    requires now - e.now <= 15
    ensures pid in Exec(cfg, events + [e] + [Cleanup(now)]).st.sessions
  {
    assert (events + [e])[..|events|] == events;
    EndsAfterSilence(cfg, events + [e], now, pid);
  }
}
