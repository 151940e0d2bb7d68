/**
  What a run of messages makes of the records, field by field, and what follows for the packets sent:
  core/src/engine.cpp.
 */
module RunLaws {
  import opened Common
  import opened Ints
  import opened Registry
  import opened Proximity
  import Talk
  import opened BusRouter
  import opened Engine

  /** The groups of fields that one kind of message sets. */
  datatype Kind = Place | Status | Key | Policy | Phone

  /** Is this a message of the kind about the player? */
  predicate Sets(c: Ctrl, kind: Kind, p: u16) {
    match kind
    case Place => c.PlayerPos? && c.id == p
    case Status => c.PlayerMeta? && c.id == p
    case Key => c.Transmit? && c.id == p
    case Policy => c.MixPolicy? && c.id == p
    case Phone => c.Speakerphone? && c.id == p
  }

  /** The record holds what the message says. */
  predicate Holds(q: Player, kind: Kind, c: Ctrl, p: u16)
    requires Sets(c, kind, p)
  {
    match kind
    case Place =>
      q.pos == c.pos && q.interior == c.interior && q.vworld == c.vworld && q.vehicle == c.vehicle
    case Status =>
      && q.muted == c.muted && q.deafen == c.deafen && q.alive == c.alive && q.spectator == c.spectator
      && q.range == c.range
    case Key => q.transmitting == c.on && q.channelMask == c.mask
    case Policy => q.policy == c.policy && q.duckLevel == c.duckLevel && q.proximityFloor == c.proximityFloor
    case Phone => q.speakerphone == c.on
  }

  /** The record holds what a newcomer starts with. */
  predicate Default(q: Player, kind: Kind) {
    match kind
    case Place => q.pos == Vec3(0.0, 0.0, 0.0) && q.interior == 0 && q.vworld == 0 && q.vehicle == 0
    case Status => !q.muted && !q.deafen && q.alive && !q.spectator && q.range == 1
    case Key => !q.transmitting && q.channelMask == 0
    case Policy => q.policy == 1 && q.duckLevel == 0.5 && q.proximityFloor == 0.25
    case Phone => !q.speakerphone
  }

  /** These fields of the two records are the same. */
  predicate Kept(q: Player, q': Player, kind: Kind) {
    match kind
    case Place => q'.pos == q.pos && q'.interior == q.interior && q'.vworld == q.vworld && q'.vehicle == q.vehicle
    case Status =>
      && q'.muted == q.muted && q'.deafen == q.deafen && q'.alive == q.alive && q'.spectator == q.spectator
      && q'.range == q.range
    case Key => q'.transmitting == q.transmitting && q'.channelMask == q.channelMask
    case Policy => q'.policy == q.policy && q'.duckLevel == q.duckLevel && q'.proximityFloor == q.proximityFloor
    case Phone => q'.speakerphone == q.speakerphone
  }

  // ---- one message ----

  /** A range override that is positive is kept, but no more than the shouting range; any other means none. */
  predicate OverrideIs(r: real, sent: real, shout: real) {
    if sent > 0.0 then r <= sent && r <= shout && (r == sent || r == shout) else r == -1.0
  }

  /** What any control message does to the record of any player who stays. */
  ghost predicate ByField(q: Player, q': Player, p: u16, c: Ctrl, shout: real) {
    && (forall kind :: if Sets(c, kind, p) then Holds(q', kind, c, p) else Kept(q, q', kind))
    && (if c.PlayerMeta? && c.id == p then OverrideIs(q'.rangeOverride, c.rangeOverride, shout)
        else q'.rangeOverride == q.rangeOverride)
    && (forall t: u16 ::
          t in q'.mutedTargets <==>
          if c.PairMute? && c.listener == p && c.target == t then c.on
          else if c == Chan(Gone(t)) then false
          else t in q.mutedTargets)
    && (!c.Chan? ==> q'.channels == q.channels)
    && q'.id == q.id && q'.audioActive == q.audioActive && q'.lastAudioTick == q.lastAudioTick
  }

  lemma SettingByField(q: Player, p: u16, c: Ctrl, shout: real)
    requires !c.Chan? && (if c.PairMute? then c.listener else if c.Config? || c.Other? then p + 1 else c.id) == p
    ensures ByField(q, Amended(q, c, shout), p, c, shout)
  {
  }

  lemma KeptByField(q: Player, p: u16, c: Ctrl, shout: real)
    requires !c.Chan? && (if c.PairMute? then c.listener else if c.Config? || c.Other? then p + 1 else c.id) != p
    ensures ByField(q, q, p, c, shout)
  {
  }

  lemma OperationByField(q: Player, q': Player, p: u16, op: ChanOp, shout: real)
    requires !op.Gone? && q' == q.(channels := q'.channels)
    ensures ByField(q, q', p, Chan(op), shout)
  {
  }

  lemma LeftByField(q: Player, q': Player, p: u16, gone: u16, shout: real)
    requires q' == q.(mutedTargets := q.mutedTargets - {gone})
    ensures ByField(q, q', p, Chan(Gone(gone)), shout)
  {
  }

  lemma SameChannels(q: Player)
    ensures q.(channels := q.channels) == q
  {
  }

  lemma DestroyOnly(ps: Players, cs: Channels, id: u16, p: u16)
    ensures var q, q' := PlayerOr(ps, p), PlayerOr(ApplyToPlayers(ps, cs, Destroy(id)), p);
            q' == q || q' == q.(channels := q.channels - {id})
  {
    hide Newcomer;
  }

  lemma JoinOnly(ps: Players, cs: Channels, pid: u16, id: u16, p: u16)
    ensures var q, q' := PlayerOr(ps, p), PlayerOr(ApplyToPlayers(ps, cs, Join(pid, id)), p);
            q' == q || q' == q.(channels := q.channels + {id})
  {
    hide Newcomer;
  }

  lemma LeaveOnly(ps: Players, cs: Channels, pid: u16, id: u16, p: u16)
    ensures var q, q' := PlayerOr(ps, p), PlayerOr(ApplyToPlayers(ps, cs, Leave(pid, id)), p);
            q' == q || q' == q.(channels := q.channels - {id})
  {
    hide Newcomer;
  }

  /** A channel operation changes nothing of a record but the channels. */
  lemma OnlyChannels(ps: Players, cs: Channels, op: ChanOp, p: u16)
    requires !op.Gone?
    ensures var q, q' := PlayerOr(ps, p), PlayerOr(ApplyToPlayers(ps, cs, op), p);
            q' == q.(channels := q'.channels)
  {
    SameChannels(PlayerOr(ps, p));
    match op
    case Destroy(id) =>
      DestroyOnly(ps, cs, id, p);
      hide ApplyToPlayers, PlayerOr;
    case Join(pid, id) =>
      JoinOnly(ps, cs, pid, id, p);
      hide ApplyToPlayers, PlayerOr;
    case Leave(pid, id) =>
      LeaveOnly(ps, cs, pid, id, p);
      hide ApplyToPlayers, PlayerOr;
    case Create(_, _, _, _) =>
    case SetFilter(_, _) =>
    case SetPrio(_, _) =>
  }

  /**
    Every control message, field by field: the record it is about holds what it says, all other
    fields and records stay; the departed are gone, and nobody mutes them any more.
   */
  lemma ControlByField(ps: Players, cs: Channels, c: Ctrl, shout: real, p: u16)
    ensures c == Chan(Gone(p)) ==> p !in PlayersAfter(ps, cs, c, shout)
    ensures c != Chan(Gone(p)) ==>
              (p in ps ==> p in PlayersAfter(ps, cs, c, shout))
              && ByField(PlayerOr(ps, p), PlayerOr(PlayersAfter(ps, cs, c, shout), p), p, c, shout)
  {
    hide ByField, Amended, Newcomer;
    if c.Chan? {
      if c.op.Gone? {
        if c.op.pid != p {
          NobodyMuted(p);
          LeftByField(PlayerOr(ps, p), PlayerOr(PlayersAfter(ps, cs, c, shout), p), p, c.op.pid, shout);
        }
      } else {
        OnlyChannels(ps, cs, c.op, p);
        OperationByField(PlayerOr(ps, p), PlayerOr(PlayersAfter(ps, cs, c, shout), p), p, c.op, shout);
      }
    } else if (if c.PairMute? then c.listener else if c.Config? || c.Other? then p + 1 else c.id) == p {
      SettingByField(PlayerOr(ps, p), p, c, shout);
    } else {
      KeptByField(PlayerOr(ps, p), p, c, shout);
    }
  }

  lemma NobodyMuted(p: u16)
    ensures forall t: u16 :: Newcomer(p).mutedTargets - {t} == Newcomer(p).mutedTargets
  {
  }

  // ---- every run ----

  /** The last message of the kind about the player since they last left. */
  function LastSaid(inputs: seq<Input>, kind: Kind, p: u16): Option<Ctrl> {
    if inputs == [] then None
    else
      var i := inputs[|inputs| - 1];
      if i.Control? && i.c == Chan(Gone(p)) then None
      else if i.Control? && Sets(i.c, kind, p) then Some(i.c)
      else LastSaid(inputs[..|inputs| - 1], kind, p)
  }

  lemma {:induction false} SaidSets(inputs: seq<Input>, kind: Kind, p: u16)
    ensures LastSaid(inputs, kind, p).Some? ==> Sets(LastSaid(inputs, kind, p).value, kind, p)
  {
    if inputs != [] {
      SaidSets(inputs[..|inputs| - 1], kind, p);
    }
  }

  /** Does the listener mute the target, by the last word on that since either last left? */
  function LastMute(inputs: seq<Input>, l: u16, t: u16): bool {
    if inputs == [] then false
    else
      var i := inputs[|inputs| - 1];
      if i.Control? && (i.c == Chan(Gone(l)) || i.c == Chan(Gone(t))) then false
      else if i.Control? && i.c.PairMute? && i.c.listener == l && i.c.target == t then i.c.on
      else LastMute(inputs[..|inputs| - 1], l, t)
  }

  function PlayersOf(prox: ProximityTuning, inputs: seq<Input>): Players {
    RunCore(StartUp(prox), inputs).ps
  }

  /** The record is what was last said, or what a newcomer starts with. */
  ghost predicate Reflects(q: Player, inputs: seq<Input>, kind: Kind, p: u16) {
    var said := LastSaid(inputs, kind, p);
    if said == None then Default(q, kind) else Sets(said.value, kind, p) && Holds(q, kind, said.value, p)
  }

  /** Same record, but for talk detection. */
  predicate OnlyTalk(q: Player, q': Player) {
    && q'.mutedTargets == q.mutedTargets
    && Kept(q, q', Place) && Kept(q, q', Status) && Kept(q, q', Key) && Kept(q, q', Policy) && Kept(q, q', Phone)
  }

  lemma TalkedOnly(q: Player, active: bool, tick: u32)
    ensures OnlyTalk(q, q) && OnlyTalk(q, q.(audioActive := active, lastAudioTick := tick))
    ensures OnlyTalk(q, q.(audioActive := active))
  {
  }

  /** Frames and ticks change nothing else. */
  lemma QuietKeeps(c: Core, i: Input, p: u16)
    requires !i.Control?
    ensures OnlyTalk(PlayerOr(c.ps, p), PlayerOr(StepPlayers(c, i), p))
  {
    TalkedOnly(PlayerOr(c.ps, p), true, c.tick);
    TalkedOnly(PlayerOr(c.ps, p), false, 0);
    hide Newcomer, OnlyTalk, Talk.Silent, Inc32;
  }

  lemma StepsPlayers(c: Core, i: Input)
    ensures StepCore(c, i).ps == StepPlayers(c, i)
    ensures i.Control? ==> StepPlayers(c, i) == PlayersAfter(c.ps, c.cs, i.c, c.shout)
  {
    hide PlayersAfter, Hushed;
  }

  lemma StepReflects(c: Core, inputs: seq<Input>, i: Input, kind: Kind, p: u16)
    requires Reflects(PlayerOr(c.ps, p), inputs, kind, p)
    ensures Reflects(PlayerOr(StepCore(c, i).ps, p), inputs + [i], kind, p)
  {
    assert (inputs + [i])[..|inputs|] == inputs;
    SaidSets(inputs, kind, p);
    StepsPlayers(c, i);
    hide StepCore, PlayersAfter, StepPlayers;
    if i.Control? {
      ControlByField(c.ps, c.cs, i.c, c.shout, p);
      var q, q' := PlayerOr(c.ps, p), PlayerOr(StepCore(c, i).ps, p);
      if i.c == Chan(Gone(p)) {
        assert q' == Newcomer(p);
      } else {
        assert if Sets(i.c, kind, p) then Holds(q', kind, i.c, p) else Kept(q, q', kind);
      }
    } else {
      QuietKeeps(c, i, p);
    }
  }

  /**
    In every run, what a record holds is what the last message of each kind about the player said,
    since they last left: position, status (muted, deaf, alive, spectating, range), keying, mix policy
    and phone.
   */
  lemma {:induction false} RecordAsSaid(prox: ProximityTuning, inputs: seq<Input>, kind: Kind, p: u16)
    ensures Reflects(PlayerOr(PlayersOf(prox, inputs), p), inputs, kind, p)
  {
    hide StepCore, Reflects, PlayerOr;
    if inputs == [] {
      AtFirst(prox, kind, p);
    } else {
      var n := |inputs| - 1;
      RecordAsSaid(prox, inputs[..n], kind, p);
      StepReflects(RunCore(StartUp(prox), inputs[..n]), inputs[..n], inputs[n], kind, p);
      assert inputs[..n] + [inputs[n]] == inputs;
    }
  }

  lemma AtFirst(prox: ProximityTuning, kind: Kind, p: u16)
    ensures Reflects(PlayerOr(PlayersOf(prox, []), p), [], kind, p)
  {
  }

  lemma StepMutes(c: Core, i: Input, l: u16, t: u16, was: bool)
    requires t in PlayerOr(c.ps, l).mutedTargets <==> was
    ensures t in PlayerOr(StepCore(c, i).ps, l).mutedTargets <==>
            if i.Control? && (i.c == Chan(Gone(l)) || i.c == Chan(Gone(t))) then false
            else if i.Control? && i.c.PairMute? && i.c.listener == l && i.c.target == t then i.c.on
            else was
  {
    StepsPlayers(c, i);
    hide StepCore, PlayersAfter, StepPlayers, Sets, Holds, Kept;
    if i.Control? {
      ControlByField(c.ps, c.cs, i.c, c.shout, l);
    } else {
      QuietKeeps(c, i, l);
    }
  }

  /** In every run a listener mutes a target if and only if that is the last word since either left. */
  lemma {:induction false} MutesAsSaid(prox: ProximityTuning, inputs: seq<Input>, l: u16, t: u16)
    ensures t in PlayerOr(PlayersOf(prox, inputs), l).mutedTargets <==> LastMute(inputs, l, t)
  {
    hide StepCore;
    if inputs != [] {
      var n := |inputs| - 1;
      MutesAsSaid(prox, inputs[..n], l, t);
      StepMutes(RunCore(StartUp(prox), inputs[..n]), inputs[n], l, t, LastMute(inputs[..n], l, t));
    }
  }

  /** Was the player last said to be muted? */
  predicate SaidMuted(inputs: seq<Input>, p: u16) {
    var said := LastSaid(inputs, Status, p);
    said.Some? && said.value.PlayerMeta? && said.value.muted
  }

  /**
    In every run of the engine a frame of a player last said to be muted, or unknown, adds no direct
    packet, no burst on any bus and no event.
   */
  lemma MutedAddNothing(
      prox: ProximityTuning, inputs: seq<Input>, n: nat, was: Mark, now: Mark, bs: seq<Burst>)
    requires n < |inputs| && inputs[n].Audio?
    requires Adds(RunCore(StartUp(prox), inputs[..n]), inputs[n], was, now, bs)
    requires SaidMuted(inputs[..n], inputs[n].speaker) || inputs[n].speaker !in PlayersOf(prox, inputs[..n])
    ensures now == was
  {
    RecordAsSaid(prox, inputs[..n], Status, inputs[n].speaker);
    hide RunCore, LastSaid, FreshSources, StepCore;
  }

  // ---- who spoke when ----

  /** Is the frame carried on the channel: of a known player, not muted, who keys it, and decodable? */
  predicate KeyedOn(c: Core, i: Input, cid: u16) {
    && i.Audio? && i.speaker in c.ps && !c.ps[i.speaker].muted && c.ps[i.speaker].transmitting && i.pcm != []
    && cid in c.ps[i.speaker].channels && cid in c.cs && c.cs[cid].filter != 0
    && (c.ps[i.speaker].channelMask == 0 || c.ps[i.speaker].channelMask / Pow2(cid % 32) % 2 == 1)
  }

  /** When a frame of the player was last carried on the channel since they left or it was destroyed. */
  function LastKeyed(prox: ProximityTuning, inputs: seq<Input>, p: u16, cid: u16): Option<nat> {
    if inputs == [] then None
    else
      var front, i := inputs[..|inputs| - 1], inputs[|inputs| - 1];
      if i.Control? && (i.c == Chan(Gone(p)) || i.c == Chan(Destroy(cid))) then None
      else if i.Audio? && i.speaker == p && KeyedOn(RunCore(StartUp(prox), front), i, cid) then Some(i.at)
      else LastKeyed(prox, front, p, cid)
  }

  lemma KeyedByField(c: Core, i: Input, cid: u16)
    ensures cid in KeyedOf(c, i) <==> KeyedOn(c, i, cid)
  {
  }

  ghost predicate SpokeAt(spoke: map<u32, u32>, k: u32, at: Option<nat>) {
    if at == None then k !in spoke else k in spoke && spoke[k] == at.value % 0x1_0000_0000
  }

  lemma PairIn(speaker: u16, keyed: set<u16>, p: u16, cid: u16)
    ensures Key2(p, cid) in PairsOf(speaker, keyed) <==> p == speaker && cid in keyed
  {
    Key2Halves(p, cid);
    forall c: u16 ensures Key2(speaker, c) == Key2(p, cid) ==> speaker == p && c == cid {
      Key2Halves(speaker, c);
    }
    hide Key2, High, Low;
  }

  lemma StepSpoke(c: Core, i: Input, p: u16, cid: u16, at: Option<nat>)
    requires SpokeAt(c.spoke, Key2(p, cid), at)
    ensures SpokeAt(StepCore(c, i).spoke, Key2(p, cid),
                    if i.Control? && (i.c == Chan(Gone(p)) || i.c == Chan(Destroy(cid))) then None
                    else if i.Audio? && i.speaker == p && KeyedOn(c, i, cid) then Some(i.at) else at)
  {
    match i
    case Control(m) =>
      Key2Halves(p, cid);
      hide Key2, High, Low;
    case Audio(speaker, _, _, _, _, _) =>
      KeyedByField(c, i, cid);
      PairIn(speaker, KeyedOf(c, i), p, cid);
      hide Key2, KeyedOf, KeyedOn, PairsOf;
    case TickInput =>
  }

  lemma {:induction false} SpokeAsRun(prox: ProximityTuning, inputs: seq<Input>, p: u16, cid: u16)
    ensures SpokeAt(RunCore(StartUp(prox), inputs).spoke, Key2(p, cid), LastKeyed(prox, inputs, p, cid))
  {
    hide StepCore, SpokeAt, KeyedOn;
    if inputs == [] {
      NobodySpoke(prox, Key2(p, cid));
    } else {
      var n := |inputs| - 1;
      SpokeAsRun(prox, inputs[..n], p, cid);
      StepSpoke(RunCore(StartUp(prox), inputs[..n]), inputs[n], p, cid, LastKeyed(prox, inputs[..n], p, cid));
    }
  }

  lemma NobodySpoke(prox: ProximityTuning, k: u32)
    ensures SpokeAt(StartUp(prox).spoke, k, None)
  {
  }

  /**
    In every run of the engine: whoever is mixed into a packet on a channel had a frame carried on that
    channel no more than 60 ms before, by the clock modulo 2^32, and is not the one it goes to.
   */
  lemma SilentLeftOut(
      prox: ProximityTuning, inputs: seq<Input>, n: nat, was: Mark, now: Mark, bs: seq<Burst>, b: nat, k: nat, s: u16)
    requires n < |inputs| && inputs[n].Audio?
    requires Adds(RunCore(StartUp(prox), inputs[..n]), inputs[n], was, now, bs)
    requires b < |bs| && bs[b].Mixed? && k < |bs[b].packets| && s in bs[b].packets[k].sources
    ensures var at := LastKeyed(prox, inputs[..n + 1], s, bs[b].channel);
            at.Some? && (inputs[n].at - at.value) % 0x1_0000_0000 <= 60 && s != bs[b].packets[k].to
  {
    hide RunCore, LastKeyed, Key2, StepCore, Adds, SpokeAt;
    RunStep(StartUp(prox), inputs, n);
    SpokeAsRun(prox, inputs[..n + 1], s, bs[b].channel);
    var c := RunCore(StartUp(prox), inputs[..n]);
    SourceSpoke(c, inputs[n], was, now, bs, b, k, s);
    var at := LastKeyed(prox, inputs[..n + 1], s, bs[b].channel);
    SpokeWhen(StepCore(c, inputs[n]).spoke, Key2(s, bs[b].channel), at, inputs[n].at);
  }

  lemma SourceSpoke(c: Core, i: Input, was: Mark, now: Mark, bs: seq<Burst>, b: nat, k: nat, s: u16)
    requires i.Audio? && Adds(c, i, was, now, bs)
    requires b < |bs| && bs[b].Mixed? && k < |bs[b].packets| && s in bs[b].packets[k].sources
    ensures var spoke, key := StepCore(c, i).spoke, Key2(s, bs[b].channel);
            key in spoke && (Millis(i.at) - spoke[key]) % 0x1_0000_0000 <= 60 && s != bs[b].packets[k].to
  {
    hide StepCore, Key2, Millis;
    assert FreshIn(bs[b].packets[k], bs[b].channel, StepCore(c, i).spoke, Millis(i.at));
  }

  lemma SpokeWhen(spoke: map<u32, u32>, key: u32, at: Option<nat>, now: nat)
    requires SpokeAt(spoke, key, at) && key in spoke && (Millis(now) - spoke[key]) % 0x1_0000_0000 <= 60
    ensures at.Some? && (now - at.value) % 0x1_0000_0000 <= 60
  {
    ClockDifference(now, at.value);
  }

  lemma ClockDifference(a: nat, b: nat)
    ensures (a % 0x1_0000_0000 - b % 0x1_0000_0000) % 0x1_0000_0000 == (a - b) % 0x1_0000_0000
  {
  }

  // ---- which channels are active ----

  /** When any frame was last carried on the channel since it was destroyed. */
  function LastCarried(prox: ProximityTuning, inputs: seq<Input>, cid: u16): Option<nat> {
    if inputs == [] then None
    else
      var front, i := inputs[..|inputs| - 1], inputs[|inputs| - 1];
      if i.Control? && i.c == Chan(Destroy(cid)) then None
      else if KeyedOn(RunCore(StartUp(prox), front), i, cid) then Some(i.at)
      else LastCarried(prox, front, cid)
  }

  ghost predicate ActiveAt(active: map<u16, u32>, cid: u16, at: Option<nat>) {
    if at == None then cid !in active else cid in active && active[cid] == at.value % 0x1_0000_0000
  }

  lemma StepActive(c: Core, i: Input, cid: u16, at: Option<nat>)
    requires ActiveAt(c.active, cid, at)
    ensures ActiveAt(StepCore(c, i).active, cid,
                     if i.Control? && i.c == Chan(Destroy(cid)) then None
                     else if KeyedOn(c, i, cid) then Some(i.at) else at)
  {
    KeyedByField(c, i, cid);
    if i.Audio? {
      hide KeyedOn, KeyedOf;
    }
  }

  /** In every run a channel's activity is the time of the last frame carried on it. */
  lemma {:induction false} ActiveAsRun(prox: ProximityTuning, inputs: seq<Input>, cid: u16)
    ensures ActiveAt(RunCore(StartUp(prox), inputs).active, cid, LastCarried(prox, inputs, cid))
  {
    hide StepCore, KeyedOn;
    if inputs != [] {
      var n := |inputs| - 1;
      ActiveAsRun(prox, inputs[..n], cid);
      StepActive(RunCore(StartUp(prox), inputs[..n]), inputs[n], cid, LastCarried(prox, inputs[..n], cid));
    }
  }
}
