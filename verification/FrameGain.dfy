/** What the packets of one frame carry, and when their gain depends on the order of the walk. */
module FrameGain {
  import opened Ints
  import opened Registry
  import opened Proximity
  import opened BusRouter

  /** The tables as a frame leaves them, but with only these of its channels active yet. */
  function Seen(end: Scene, before: map<u16, u32>, did: set<u16>): Scene {
    end.(active := Stamp(before, did, end.now))
  }

  /** The gain of a channel's packet when the speaker's channels are walked in this order. */
  function GainIn(end: Scene, before: map<u16, u32>, walk: seq<u16>, keyed: set<u16>, cid: u16, l: u16): real
    requires cid in end.cs && l in end.ps
  {
    VolumeFor(Seen(end, before, UpTo(walk, keyed, cid)), cid, l)
  }

  /** Does the listener's policy turn outranked buses down at all? */
  predicate Lowers(li: Player) {
    li.policy == POLICY_EXCLUSIVE || (li.policy == POLICY_DUCK && li.duckLevel != 1.0)
  }

  // ---- every packet of a frame ----

  /** An emission's scene and the final tables give the same talkers, sources and mixes on its channel. */
  lemma SceneAgrees(sc: Scene, end: Scene, before: map<u16, u32>, did: set<u16>, cid: u16, l: u16)
    requires SceneOf(sc, end, before, did, cid) && cid in end.cs
    ensures Talkers(sc, cid) == Talkers(end, cid) && Sources(sc, cid, l) == Sources(end, cid, l)
    ensures Listens(sc, cid, l) == Listens(end, cid, l)
    ensures forall n :: Longest(sc.ss, Talkers(sc, cid), cid, n) ==> Longest(end.ss, Talkers(end, cid), cid, n)
  {
    hide Key2, InPerson, Stamp;
    assert forall id: u16 :: SameEntry(sc.ss, end.ss, Key2(id, cid));
    assert forall id :: FreshStream(sc.ss, id, cid, sc.now) == FreshStream(end.ss, id, cid, end.now);
    assert Talkers(sc, cid) == Talkers(end, cid);
  }

  lemma {:induction false} SameMixAt(ss: Streams, ss': Streams, ids: set<u16>, cid: u16, i: nat)
    requires forall id: u16 :: SameEntry(ss, ss', Key2(id, cid))
    ensures MixAt(ss, ids, cid, i) == MixAt(ss', ids, cid, i)
  {
    hide Key2;
    if ids != {} {
      var y :| y in ids;
      MixAtPick(ss, ids, cid, i, y);
      MixAtPick(ss', ids, cid, i, y);
      SameMixAt(ss, ss', ids - {y}, cid, i);
    }
  }

  lemma SameMix(ss: Streams, ss': Streams, ids: set<u16>, cid: u16, n: nat)
    requires forall id: u16 :: SameEntry(ss, ss', Key2(id, cid))
    ensures Mix(ss, ids, cid, n) == Mix(ss', ids, cid, n)
  {
    hide Key2, SameEntry;
    forall i: nat | i < n ensures MixAt(ss, ids, cid, i) == MixAt(ss', ids, cid, i) {
      SameMixAt(ss, ss', ids, cid, i);
    }
  }

  /** The scene of an emission may be replaced by what it amounts to in the final tables. */
  lemma SeenServes(sc: Scene, end: Scene, before: map<u16, u32>, did: set<u16>, codec: Codec, cid: u16, n: nat, l: u16)
    requires SceneOf(sc, end, before, did, cid) && cid in end.cs
    ensures var seen := Seen(end, before, did);
            && Served(sc, codec, cid, n, l) == Served(seen, codec, cid, n, l)
            && OnSpeaker(sc, cid, l) == OnSpeaker(seen, cid, l)
            && Mix(sc.ss, Sources(sc, cid, l), cid, n) == Mix(seen.ss, Sources(seen, cid, l), cid, n)
            && forall p: BusDown :: p.to == l ==>
                 RightPacket(sc, codec, cid, n, p) == RightPacket(seen, codec, cid, n, p)
  {
    var seen := Seen(end, before, did);
    SeenIsScene(sc, end, before, did, cid);
    SceneAgrees(sc, seen, before, did, cid, l);
    SameMix(sc.ss, seen.ss, Sources(sc, cid, l), cid, n);
    SameGain(sc, seen, cid, l);
    ListenersKnown(sc, cid, l);
    hide SceneOf, Seen, Sources, Listens, VolumeFor, Mix;
  }

  lemma SeenIsScene(sc: Scene, end: Scene, before: map<u16, u32>, did: set<u16>, cid: u16)
    requires SceneOf(sc, end, before, did, cid)
    ensures var seen := Seen(end, before, did);
            && SceneOf(sc, seen, before, did, cid) && sc.active == seen.active && sc.conf == seen.conf
            && sc.cs == seen.cs && sc.ps == seen.ps && sc.now == seen.now && seen.cs == end.cs && seen.ps == end.ps
            && forall id: u16 :: SameEntry(sc.ss, seen.ss, Key2(id, cid))
  {
    hide SameEntry, Key2, Stamp;
  }

  /** The gain goes by players, channels and activity alone. */
  lemma SameGain(a: Scene, b: Scene, cid: u16, l: u16)
    requires a.ps == b.ps && a.cs == b.cs && a.active == b.active && a.now == b.now
    ensures cid in a.cs && l in a.ps ==>
              VolumeFor(a, cid, l) == VolumeFor(b, cid, l) && Outranked(a, cid, l) == Outranked(b, cid, l)
  {
    hide ActiveBuses;
  }

  ghost predicate PacketTo(b: Burst, l: u16)
    requires b.Mixed?
  {
    exists k :: 0 <= k < |b.packets| && b.packets[k].to == l
  }

  /** What a member of the channel gets of one burst, by this scene: the one right packet, or none. */
  ghost predicate MemberGets(b: Burst, sc: Scene, codec: Codec, l: u16)
    requires b.Mixed? && b.channel in sc.cs
  {
    exists n: nat ::
      && Longest(sc.ss, Talkers(sc, b.channel), b.channel, n)
      && (PacketTo(b, l) <==> Served(sc, codec, b.channel, n, l))
      && forall k :: 0 <= k < |b.packets| && b.packets[k].to == l ==>
           RightPacket(sc, codec, b.channel, n, b.packets[k])
  }

  /** Each right burst serves the member as the final tables and its place in the walk say. */
  lemma BurstServes(b: Burst, end: Scene, before: map<u16, u32>, did: set<u16>, codec: Codec, l: u16)
    requires RightBurst(b, codec) && SceneOf(b.scene, end, before, did, b.channel)
    requires b.channel in end.cs && l in end.cs[b.channel].members
    ensures MemberGets(b, Seen(end, before, did), codec, l)
  {
    var cid, sc := b.channel, b.scene;
    var seen := Seen(end, before, did);
    SeenIsScene(sc, end, before, did, cid);
    SceneAgrees(sc, seen, before, did, cid, l);
    var n: nat :|
      && Longest(sc.ss, Talkers(sc, cid), cid, n)
      && RightPackets(sc, codec, cid, n, sc.cs[cid].members, b.packets)
      && RightCalls(sc, cid, n, sc.cs[cid].members, b.calls);
    SeenServes(sc, end, before, did, codec, cid, n, l);
    hide Longest, Talkers, Served, RightPacket, RightCalls, SceneOf, Seen;
    assert PacketTo(b, l) <==> Served(sc, codec, cid, n, l);
  }

  /**
    Every packet of a frame's bursts. A member of an emitted channel gets the one right packet or
    none, by the final tables and the channels walked so far. The emitted channel counts among the
    member's active buses; the gain is full exactly when no bus active by then outranks it, so under
    the exclusive policy an outranked bus is never sent and any other is never muted.
   */
  lemma FramePackets(
      bs: seq<Burst>, walk: seq<u16>, keyed: set<u16>, due: set<u16>, end: Scene, before: map<u16, u32>,
      codec: Codec, b: nat, l: u16)
    requires RightBursts(bs, walk, keyed, due, end, before, codec) && b < |bs| && due <= keyed
    requires Filed(end.ps, end.cs) && Symmetric(end.ps, end.cs)
    requires bs[b].channel in end.cs && end.cs[bs[b].channel].filter != FILTER_NONE
    requires l in end.cs[bs[b].channel].members
    ensures l in end.ps
    ensures var cid := bs[b].channel;
            var li := end.ps[l];
            var seen := Seen(end, before, UpTo(walk, keyed, cid));
            var gain := GainIn(end, before, walk, keyed, cid, l);
            var buses := ActiveBuses(li, end.cs, seen.active, end.now);
            && MemberGets(bs[b], seen, codec, l)
            && cid in buses
            && (Lowers(li) ==> (gain == 1.0 <==> forall c :: c in buses ==> end.cs[c].priority <= end.cs[cid].priority))
            && (li.policy == POLICY_EXCLUSIVE ==>
                  (gain > AUDIBLE <==> forall c :: c in buses ==> end.cs[c].priority <= end.cs[cid].priority))
  {
    var cid := bs[b].channel;
    assert l in end.ps && cid in end.ps[l].channels;
    assert cid in UpTo(walk, keyed, cid);
    BurstServes(bs[b], end, before, UpTo(walk, keyed, cid), codec, l);
    hide MemberGets, RightBurst, RightBursts, SceneOf, UpTo;
  }

  // ---- the order of the walk ----

  /** The more channels are active, the more outrank. */
  lemma OutrankedGrows(sc: Scene, before: map<u16, u32>, did: set<u16>, did': set<u16>, cid: u16, l: u16)
    requires did <= did' && cid in sc.cs && l in sc.ps
    ensures Outranked(Seen(sc, before, did), cid, l) ==> Outranked(Seen(sc, before, did'), cid, l)
  {
    assert ActiveBuses(sc.ps[l], sc.cs, Stamp(before, did, sc.now), sc.now)
        <= ActiveBuses(sc.ps[l], sc.cs, Stamp(before, did', sc.now), sc.now);
  }

  /** Is the gain of the channel the same whatever the order? Known before the frame is walked. */
  predicate Settled(sc: Scene, before: map<u16, u32>, keyed: set<u16>, cid: u16, l: u16)
    requires cid in sc.cs && l in sc.ps
  {
    Outranked(Seen(sc, before, {cid}), cid, l) || !Outranked(Seen(sc, before, keyed), cid, l)
  }

  /** A walk may come to the channel before all the others. */
  lemma WalkedFirst(rest: seq<u16>, ids: set<u16>, keyed: set<u16>, cid: u16)
    requires cid in keyed && keyed <= ids && Lists(rest, ids - {cid})
    ensures var walk := [cid] + rest;
            Lists(walk, ids) && Arranges(walk, keyed) && UpTo(walk, keyed, cid) == {cid}
  {
    var walk := [cid] + rest;
    assert forall x :: x in ids <==> x in walk;
    WalkStarts(walk, keyed, ids);
    assert Place(walk, walk[0]) == 0;
  }

  /** And it may come to it after all the others. */
  lemma WalkedLast(rest: seq<u16>, ids: set<u16>, keyed: set<u16>, cid: u16)
    requires cid in keyed && keyed <= ids && Lists(rest, ids - {cid})
    ensures var walk := rest + [cid];
            Lists(walk, ids) && Arranges(walk, keyed) && UpTo(walk, keyed, cid) == keyed
  {
    var walk := rest + [cid];
    assert forall x :: x in ids <==> x in walk;
    WalkStarts(walk, keyed, ids);
    assert walk[|rest|] == cid && Place(walk, walk[|rest|]) == |rest|;
  }

  lemma {:induction false} Listing(ids: set<u16>) returns (walk: seq<u16>)
    ensures Lists(walk, ids)
    decreases |ids|
  {
    if ids == {} {
      walk := [];
    } else {
      var x :| x in ids;
      walk := Listing(ids - {x});
      walk := walk + [x];
    }
  }

  /**
    For a listener whose policy turns outranked buses down, the gain of a channel is the same in
    every order the speaker's channels can be walked in, exactly when the channel is outranked
    already by buses active before the frame, or is not even outranked once all keyed ones are.
   */
  lemma GainSettledIff(sc: Scene, before: map<u16, u32>, keyed: set<u16>, cid: u16, l: u16)
    requires cid in keyed && cid in sc.cs && l in sc.ps && Lowers(sc.ps[l])
    ensures (forall v, w :: Arranges(v, keyed) && Arranges(w, keyed) ==>
               GainIn(sc, before, v, keyed, cid, l) == GainIn(sc, before, w, keyed, cid, l))
            <==> Settled(sc, before, keyed, cid, l)
  {
    hide Arranges, Outranked, GainIn, Seen, UpTo, Lowers, LoweredGain;
    var low := LoweredGain(sc.ps[l]);
    forall walk: seq<u16>
      ensures Swings(sc, before, walk, keyed, cid, l, low)
    {
      WalkGain(sc, before, walk, keyed, cid, l);
    }
    LoweredIs(sc.ps[l], 0);
    var v, w := TwoWalks(keyed, cid);
    assert Swings(sc, before, v, keyed, cid, l, low) && Swings(sc, before, w, keyed, cid, l, low);
    if Settled(sc, before, keyed, cid, l) {
      forall v, w | Arranges(v, keyed) && Arranges(w, keyed)
        ensures GainIn(sc, before, v, keyed, cid, l) == GainIn(sc, before, w, keyed, cid, l)
      {
        assert Swings(sc, before, v, keyed, cid, l, low) && Swings(sc, before, w, keyed, cid, l, low);
      }
    }
  }

  /** The gain is lowered exactly when outranked by then, which is between at first and at last. */
  predicate Swings(sc: Scene, before: map<u16, u32>, walk: seq<u16>, keyed: set<u16>, cid: u16, l: u16, low: real)
    requires cid in sc.cs && l in sc.ps
  {
    var now := Outranked(Seen(sc, before, UpTo(walk, keyed, cid)), cid, l);
    && GainIn(sc, before, walk, keyed, cid, l) == (if now then low else 1.0)
    && (Outranked(Seen(sc, before, {cid}), cid, l) ==> now)
    && (now ==> Outranked(Seen(sc, before, keyed), cid, l))
  }

  lemma TwoWalks(keyed: set<u16>, cid: u16) returns (v: seq<u16>, w: seq<u16>)
    requires cid in keyed
    ensures Arranges(v, keyed) && Arranges(w, keyed)
    ensures UpTo(v, keyed, cid) == {cid} && UpTo(w, keyed, cid) == keyed
  {
    hide Arranges, UpTo, Lists;
    var rest := Listing(keyed - {cid});
    WalkedFirst(rest, keyed, keyed, cid);
    WalkedLast(rest, keyed, keyed, cid);
    v, w := [cid] + rest, rest + [cid];
  }

  lemma WalkGain(sc: Scene, before: map<u16, u32>, walk: seq<u16>, keyed: set<u16>, cid: u16, l: u16)
    requires cid in keyed && cid in sc.cs && l in sc.ps
    ensures Swings(sc, before, walk, keyed, cid, l, LoweredGain(sc.ps[l]))
  {
    OutrankedGrows(sc, before, {cid}, UpTo(walk, keyed, cid), cid, l);
    OutrankedGrows(sc, before, UpTo(walk, keyed, cid), keyed, cid, l);
    hide Outranked, UpTo;
  }

  /** The burst of a due channel, and what it gives a member. */
  lemma BurstOf(
      bs: seq<Burst>, walk: seq<u16>, keyed: set<u16>, due: set<u16>, end: Scene, before: map<u16, u32>,
      codec: Codec, cid: u16, l: u16) returns (b: nat)
    requires RightBursts(bs, walk, keyed, due, end, before, codec) && cid in due
    requires cid in end.cs && l in end.cs[cid].members
    ensures b < |bs| && bs[b].Mixed? && bs[b].channel == cid
    ensures MemberGets(bs[b], Seen(end, before, UpTo(walk, keyed, cid)), codec, l)
  {
    b :| 0 <= b < |bs| && bs[b].channel == cid;
    BurstServes(bs[b], end, before, UpTo(walk, keyed, cid), codec, l);
  }

  /** The gain of an outranked bus. */
  function LoweredGain(li: Player): real {
    DesignGain(li, 0, true)
  }

  /** The channel is due on the speaker's frame, and the member's gain on it hangs on the order. */
  predicate Unsettled(sc: Scene, lastEmit: map<u16, u32>, speaker: u16, cid: u16, l: u16) {
    && Transmits(sc.ps, speaker) && cid in sc.cs && l in sc.cs[cid].members && l in sc.ps && Lowers(sc.ps[l])
    && var keyed := KeyedChannels(sc.ps[speaker], sc.cs);
       cid in Due(keyed, lastEmit, sc.now) && !Settled(sc, sc.active, keyed, cid, l)
  }

  /** The burst is one of these, and serves the member by this scene, at this gain. */
  ghost predicate Shows(b: Burst, bs: seq<Burst>, sc: Scene, codec: Codec, cid: u16, l: u16, gain: real) {
    && b in bs && b.Mixed? && b.channel == cid && cid in sc.cs && l in sc.ps
    && MemberGets(b, sc, codec, l) && VolumeFor(sc, cid, l) == gain
  }

  /** A frame walked in a given order, and the burst of one of its channels. */
  method WalkFrame(x: BusRouter, speaker: u16, pcm: seq<real>, now: u32, walk: seq<u16>, cid: u16, l: u16, gain: real)
    returns (ghost b: Burst)
    requires x.Valid() && Unsettled(x.SceneAt(now), x.lastEmit, speaker, cid, l) && pcm != []
    requires Lists(walk, x.reg.players[speaker].channels)
    requires gain == GainIn(x.SceneAt(now), x.chanActive, walk, KeyedChannels(x.reg.players[speaker], x.reg.channels),
                            cid, l)
    modifies x
    ensures x.Valid() && old(x.bursts) <= x.bursts
    ensures Shows(b, x.bursts[|old(x.bursts)|..],
                  Seen(x.SceneAt(now), old(x.chanActive),
                       UpTo(walk, KeyedChannels(x.reg.players[speaker], x.reg.channels), cid)),
                  x.codec, cid, l, gain)
  {
    hide RightBursts, MemberGets, Recorded, Stamp, Lists, Arranges, KeyedChannels, UpTo, Outranked, VolumeFor, Settled,
         BusRouter.Valid;
    ghost var before, emit, start0 := x.chanActive, x.lastEmit, x.SceneAt(now);
    ghost var keyed := KeyedChannels(x.reg.players[speaker], x.reg.channels);
    var start := |x.bursts|;
    x.FrameInOrder(speaker, pcm, now, walk);
    ghost var due := Due(keyed, emit, now);
    ghost var k := BurstOf(x.bursts[start..], walk, keyed, due, x.SceneAt(now), before, x.codec, cid, l);
    ghost var did := UpTo(walk, keyed, cid);
    SameGain(Seen(start0, before, did), Seen(x.SceneAt(now), before, did), cid, l);
    b := x.bursts[start..][k];
  }

  /**
    Two routers in the same state are given the same frame and walk the channels in two orders. When
    the gain is not settled, the member's packet has full gain from one, and is turned down by the
    other.
   */
  method BothOrders(x: BusRouter, y: BusRouter, speaker: u16, pcm: seq<real>, now: u32, cid: u16, l: u16)
    returns (ghost early: Burst, ghost late: Burst)
    requires x != y && x.Valid() && y.Valid() && x.reg == y.reg
    requires x.SceneAt(now) == y.SceneAt(now) && x.lastEmit == y.lastEmit
    requires Unsettled(x.SceneAt(now), x.lastEmit, speaker, cid, l) && pcm != []
    modifies x, y
    ensures old(x.bursts) <= x.bursts && old(y.bursts) <= y.bursts && l in x.reg.players && speaker in x.reg.players
    ensures Shows(early, x.bursts[|old(x.bursts)|..], Seen(x.SceneAt(now), old(x.chanActive), {cid}),
                  x.codec, cid, l, 1.0)
    ensures Shows(late, y.bursts[|old(y.bursts)|..],
                  Seen(y.SceneAt(now), old(x.chanActive), KeyedChannels(x.reg.players[speaker], x.reg.channels)),
                  y.codec, cid, l, LoweredGain(x.reg.players[l]))
    ensures LoweredGain(x.reg.players[l]) != 1.0
  {
    hide Shows, Lists, Arranges, KeyedChannels, UpTo, Outranked, BusRouter.Valid;
    ghost var keyed := KeyedChannels(x.reg.players[speaker], x.reg.channels);
    var rest := AnyOrder(x.reg.players[speaker].channels - {cid});
    KeyedAreOwn(x.reg.players[speaker], x.reg.channels);
    WalkedFirst(rest, x.reg.players[speaker].channels, keyed, cid);
    WalkedLast(rest, x.reg.players[speaker].channels, keyed, cid);
    ghost var li := x.reg.players[l];
    LoweredIs(li, x.reg.channels[cid].priority);
    early := WalkFrame(x, speaker, pcm, now, [cid] + rest, cid, l, 1.0);
    var low := LoweredGain(x.reg.players[l]);
    late := WalkFrame(y, speaker, pcm, now, rest + [cid], cid, l, low);
  }

  /** Two players on two radio channels of different priority, and the first starts to speak on both. */
  function FirstFrame(m: Maths, t: ProximityTuning, conf: Behavior): Scene {
    var one := Newcomer(1).(channels := {1, 2}, transmitting := true);
    var two := Newcomer(2).(channels := {1, 2}, policy := POLICY_EXCLUSIVE);
    Scene(m, map[1 := one, 2 := two],
          map[1 := Channel(1, FILTER_RADIO, false, 100, {1, 2}), 2 := Channel(2, FILTER_RADIO, false, 200, {1, 2})],
          t, conf, map[], map[], 1000)
  }

  /** There the gain of the lower channel hangs on the order. */
  lemma FirstFrameUnsettled(m: Maths, t: ProximityTuning, conf: Behavior)
    ensures var sc := FirstFrame(m, t, conf);
            Filed(sc.ps, sc.cs) && Symmetric(sc.ps, sc.cs) && Unsettled(sc, map[], 1, 1, 2)
  {
    FirstFrameKeyed(m, t, conf);
    FirstFrameActive(m, t, conf);
    hide KeyedChannels, ActiveBuses, Stamp;
  }

  lemma FirstFrameKeyed(m: Maths, t: ProximityTuning, conf: Behavior)
    ensures var sc := FirstFrame(m, t, conf);
            Transmits(sc.ps, 1) && KeyedChannels(sc.ps[1], sc.cs) == {1, 2}
  {
    hide Keyed;
  }

  lemma FirstFrameActive(m: Maths, t: ProximityTuning, conf: Behavior)
    ensures var sc := FirstFrame(m, t, conf);
            && ActiveBuses(sc.ps[2], sc.cs, Stamp(sc.active, {1}, 1000), 1000) == {1}
            && 2 in ActiveBuses(sc.ps[2], sc.cs, Stamp(sc.active, {1, 2}, 1000), 1000)
  {
  }

  lemma LoweredIs(li: Player, prio: u8)
    ensures DesignGain(li, prio, true) == LoweredGain(li) && DesignGain(li, prio, false) == 1.0
    ensures Lowers(li) ==> LoweredGain(li) != 1.0
  {
  }

  lemma KeyedAreOwn(sp: Player, cs: Channels)
    ensures KeyedChannels(sp, cs) <= sp.channels
  {
  }
}
