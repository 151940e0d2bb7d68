/** Talk detection: the SpeakerStart and SpeakerStop events of core/src/engine.cpp. */
module Talk {
  import opened Ints
  import opened Registry

  const SILENCE_TICKS := 8

  /** What the engine reports; `Left` marks the end of a player's lifetime in the log. */
  datatype Event =
    | SpeakerStart(playerId: u16)
    | SpeakerStop(playerId: u16)
    | RadioKey(playerId: u16, channelId: u16, down: bool)
    | Left(playerId: u16)

  /** Was the last talk event of the player's current lifetime a start? */
  function Talking(log: seq<Event>, pid: u16): bool {
    if log == [] then false
    else
      var e := log[|log| - 1];
      if e.playerId != pid || e.RadioKey? then Talking(log[..|log| - 1], pid)
      else e.SpeakerStart?
  }

  predicate InTurn(log: seq<Event>, e: Event) {
    (e.SpeakerStart? ==> !Talking(log, e.playerId)) && (e.SpeakerStop? ==> Talking(log, e.playerId))
  }

  /** Starts and stops take turns in every lifetime of every player, beginning with a start. */
  ghost predicate Alternating(log: seq<Event>) {
    forall n :: 0 <= n < |log| ==> InTurn(log[..n], log[n])
  }

  /** The flag in the registry says what the log says. */
  ghost predicate Reported(log: seq<Event>, ps: Players) {
    && Alternating(log)
    && forall p: u16 :: Talking(log, p) <==> p in ps && ps[p].audioActive
  }

  /** No active player has been silent for the timeout. */
  ghost predicate Timely(ps: Players, tick: u32) {
    forall p :: p in ps && ps[p].audioActive ==> Sub32(tick, ps[p].lastAudioTick) < SILENCE_TICKS
  }

  predicate Silent(p: Player, tick: u32) {
    p.audioActive && Sub32(tick, p.lastAudioTick) >= SILENCE_TICKS
  }

  lemma TalkingAfter(log: seq<Event>, e: Event, p: u16)
    ensures Talking(log + [e], p) ==
            if e.playerId == p && !e.RadioKey? then e.SpeakerStart? else Talking(log, p)
  {
    assert (log + [e])[..|log|] == log;
  }

  lemma Push(log: seq<Event>, e: Event)
    requires Alternating(log) && InTurn(log, e)
    ensures Alternating(log + [e])
    ensures forall p: u16 :: Talking(log + [e], p) ==
                             if e.playerId == p && !e.RadioKey? then e.SpeakerStart? else Talking(log, p)
  {
    hide Talking;
    forall p: u16 ensures Talking(log + [e], p) ==
                          if e.playerId == p && !e.RadioKey? then e.SpeakerStart? else Talking(log, p)
    {
      TalkingAfter(log, e, p);
    }
    var l := log + [e];
    forall n | 0 <= n < |l| ensures InTurn(l[..n], l[n]) {
      if n < |log| {
        assert l[..n] == log[..n];
      } else {
        assert l[..n] == log;
      }
    }
  }

  /** Reporting an event together with the matching change of the record. */
  lemma PushReported(log: seq<Event>, ps: Players, e: Event, ps': Players)
    requires Reported(log, ps) && InTurn(log, e)
    requires forall p: u16 :: (p in ps' && ps'[p].audioActive) ==
               if e.playerId == p && !e.RadioKey? then e.SpeakerStart? else p in ps && ps[p].audioActive
    ensures Reported(log + [e], ps')
  {
    hide Alternating, Talking;
    Push(log, e);
  }

  /** Records that agree on the flag are reported alike. */
  lemma SameReported(log: seq<Event>, ps: Players, ps': Players)
    requires Reported(log, ps)
    requires forall p: u16 :: (p in ps' && ps'[p].audioActive) == (p in ps && ps[p].audioActive)
    ensures Reported(log, ps')
  {
  }

  // ---- timing ----

  /** The tick counter after `k` more ticks. */
  function TickAfter(tick: u32, k: nat): u32 {
    (tick + k) % 0x1_0000_0000
  }

  /**
    A player whose last frame came at tick `last`, however the counter wraps, is silent after `k`
    ticks exactly when `k` has reached eight; so the stop comes on the eighth tick.
   */
  lemma SilentOnEighth(p: Player, k: nat)
    requires p.audioActive && k < 0x1_0000_0000
    ensures Silent(p, TickAfter(p.lastAudioTick, k)) <==> k >= 8
    ensures TickAfter(p.lastAudioTick, k + 1) == Inc32(TickAfter(p.lastAudioTick, k))
  {
    assert Sub32(TickAfter(p.lastAudioTick, k), p.lastAudioTick) == k;
  }
}
