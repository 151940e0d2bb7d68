/**
  Double-play suppression and direct delivery together: core/src/bus_router.cpp and
  core/src/engine.cpp.
 */
module Suppression {
  import opened Common
  import opened Ints
  import Reals
  import opened Registry
  import opened Proximity
  import opened SpatialGrid
  import opened NearSet
  import opened BusRouter
  import opened Engine

  // ---- pair mutes and the bus ----

  /** The records differ in nothing but whom they mute. */
  ghost predicate OnlyMutesDiffer(ps: Players, ps': Players) {
    && ps.Keys == ps'.Keys
    && forall p :: p in ps ==> ps'[p] == ps[p].(mutedTargets := ps'[p].mutedTargets)
  }

  lemma MutesLeaveSources(sc: Scene, sc': Scene, cid: u16, l: u16)
    requires sc' == sc.(ps := sc'.ps) && OnlyMutesDiffer(sc.ps, sc'.ps) && cid in sc.cs
    ensures Talkers(sc', cid) == Talkers(sc, cid) && Sources(sc', cid, l) == Sources(sc, cid, l)
    ensures Listens(sc', cid, l) == Listens(sc, cid, l)
    ensures l in sc.ps ==> VolumeFor(sc', cid, l) == VolumeFor(sc, cid, l)
  {
    hide FreshStream, Evaluate;
    forall c: u16
      ensures InPerson(sc'.maths, sc'.ps, sc'.prox, c, l) == InPerson(sc.maths, sc.ps, sc.prox, c, l)
    {
      if c in sc.ps && l in sc.ps {
        MutesLeaveEarshot(sc.maths, sc.ps[c], sc'.ps[c], sc.ps[l], sc'.ps[l], sc.prox);
      }
    }
    hide InPerson;
  }

  lemma MutesLeaveEarshot(m: Maths, sp: Player, sp': Player, li: Player, li': Player, t: ProximityTuning)
    requires sp' == sp.(mutedTargets := sp'.mutedTargets) && li' == li.(mutedTargets := li'.mutedTargets)
    ensures Evaluate(m, sp', li', t) == Evaluate(m, sp, li, t)
  {
  }

  lemma MutesLeavePackets(sc: Scene, sc': Scene, codec: Codec, cid: u16, n: nat, done: set<u16>, ps: seq<BusDown>)
    requires sc' == sc.(ps := sc'.ps) && OnlyMutesDiffer(sc.ps, sc'.ps) && cid in sc.cs
    ensures RightPackets(sc', codec, cid, n, done, ps) == RightPackets(sc, codec, cid, n, done, ps)
  {
    hide Listens, VolumeFor, Mix, Sources;
    forall l: u16
      ensures Served(sc', codec, cid, n, l) == Served(sc, codec, cid, n, l)
      ensures forall p: BusDown :: p.to == l ==> RightPacket(sc', codec, cid, n, p) == RightPacket(sc, codec, cid, n, p)
    {
      MutesLeaveSources(sc, sc', cid, l);
      ListenersKnown(sc, cid, l);
      ListenersKnown(sc', cid, l);
    }
    hide Served, RightPacket;
  }

  lemma MutesLeaveCalls(sc: Scene, sc': Scene, cid: u16, n: nat, done: set<u16>, calls: seq<PhoneCall>)
    requires sc' == sc.(ps := sc'.ps) && OnlyMutesDiffer(sc.ps, sc'.ps) && cid in sc.cs
    ensures RightCalls(sc', cid, n, done, calls) == RightCalls(sc, cid, n, done, calls)
  {
    hide Listens, Sources, Mix;
    forall l: u16
      ensures OnSpeaker(sc', cid, l) == OnSpeaker(sc, cid, l)
      ensures Sources(sc', cid, l) == Sources(sc, cid, l)
    {
      MutesLeaveSources(sc, sc', cid, l);
      ListenersKnown(sc, cid, l);
      ListenersKnown(sc', cid, l);
    }
    hide OnSpeaker;
  }

  /** Pair mutes leave the buses alone: the right burst of a channel is the same whoever mutes whom. */
  lemma MutesLeaveTheBus(b: Burst, sc': Scene, codec: Codec)
    requires b.Mixed? && sc' == b.scene.(ps := sc'.ps) && OnlyMutesDiffer(b.scene.ps, sc'.ps)
    ensures RightBurst(b.(scene := sc'), codec) == RightBurst(b, codec)
  {
    hide Longest, RightPackets, RightCalls;
    var sc, cid := b.scene, b.channel;
    if cid in sc.cs {
      MutesLeaveSources(sc, sc', cid, 0);
      hide Talkers;
      forall n: nat
        ensures RightPackets(sc', codec, cid, n, sc.cs[cid].members, b.packets)
             == RightPackets(sc, codec, cid, n, sc.cs[cid].members, b.packets)
        ensures RightCalls(sc', cid, n, sc.cs[cid].members, b.calls)
             == RightCalls(sc, cid, n, sc.cs[cid].members, b.calls)
      {
        MutesLeavePackets(sc, sc', codec, cid, n, sc.cs[cid].members, b.packets);
        MutesLeaveCalls(sc, sc', cid, n, sc.cs[cid].members, b.calls);
      }
    }
  }

  // ---- who gets a talker one way or the other ----

  /** Does the cap let the speaker through to the listener? Known before the frame. */
  ghost predicate CapAdmits(near: NearTable, n: nat, tick: u32, l: u16, speaker: u16, vol: real) {
    n == 0 || MakesRoom(Fresh(NearOf(near, l), tick), speaker, vol, n)
  }

  /** Of the placed players exactly those get the direct frame who may hear it and whose cap admits it. */
  lemma DirectIff(
      f: Fan, where: Where, cell: real, near: NearTable, near': NearTable, direct: seq<ProximityDown>, l: u16)
    requires cell > 0.0 && RightDirect(f, where, cell, near, near', direct)
    requires Placed(where, f.ps, cell) && EffectiveRange(f.sp, f.t) >= 0.0
    ensures SentTo(direct, l) <==>
            && Carried(f) && l in where && MayGet(f.m, f.ps, f.t, f.sp, {}, l)
            && CapAdmits(near, f.n, f.tick, l, f.head.speaker, Evaluate(f.m, f.sp, f.ps[l], f.t).volume)
  {
    HearsIff(f.m, f.ps, f.t, f.sp, {}, l);
    NaiveIff(f.m, f.ps, where, f.t, f.sp, l);
    hide MayGet, Hears, NaiveHearers, GridHearers, Placed, EffectiveRange, Evaluate, RightDown, Admits, MakesRoom;
    var hearers := GridHearers(f.m, f.ps, where, cell, f.t, f.sp, {});
    GridMissesNobody(f.m, f.ps, where, cell, f.t, f.sp, {});
    if Carried(f) && l in hearers && f.n > 0 {
      AdmittedIff(Fresh(NearOf(near, l), f.tick), Entries(NearOf(near', l)), f.head.speaker,
                  Evaluate(f.m, f.sp, f.ps[l], f.t).volume, f.tick, f.n, SentTo(direct, l));
    }
  }

  lemma NaiveIff(m: Maths, ps: Players, where: Where, t: ProximityTuning, sp: Player, l: u16)
    ensures l in NaiveHearers(m, ps, where, t, sp, {}) <==> l in where && MayGet(m, ps, t, sp, {}, l)
  {
    HearsIff(m, ps, t, sp, {}, l);
    hide Hears, MayGet;
  }

  /**
    With suppression on, a listening member of a channel gets a talker of it, directly or as a source
    of the bus, if and only if the talker is out of earshot, or the direct frame is carried to the
    listener: the listener is placed, does not mute the talker, and has room for them under the cap.
   */
  lemma HeardEitherWayIff(
      f: Fan, where: Where, cell: real, near: NearTable, near': NearTable, direct: seq<ProximityDown>,
      sc: Scene, cid: u16, l: u16)
    requires cell > 0.0 && RightDirect(f, where, cell, near, near', direct)
    requires Placed(where, f.ps, cell) && EffectiveRange(f.sp, f.t) >= 0.0
    requires f.sp.id in f.ps && f.ps[f.sp.id] == f.sp && f.head.speaker == f.sp.id
    requires sc.maths == f.m && sc.ps == f.ps && sc.prox == f.t && sc.conf.suppressDoublePlay
    requires cid in sc.cs && f.sp.id in Talkers(sc, cid)
    requires l in sc.cs[cid].members && l in sc.ps && !sc.ps[l].deafen && l != f.sp.id
    ensures SentTo(direct, l) || f.sp.id in Sources(sc, cid, l) <==>
            || !InPerson(f.m, f.ps, f.t, f.sp.id, l)
            || (Carried(f) && l in where && f.sp.id !in f.ps[l].mutedTargets
                && CapAdmits(near, f.n, f.tick, l, f.sp.id, Evaluate(f.m, f.sp, f.ps[l], f.t).volume))
  {
    DirectIff(f, where, cell, near, near', direct, l);
    HearsIff(f.m, f.ps, f.t, f.sp, {}, l);
    hide Placed, EffectiveRange, Evaluate, RightDirect, CapAdmits, SentTo, MayGet;
  }

  // ---- a member who gets a talker neither way ----

  function Talker(): Player {
    Newcomer(1).(channels := {7}, transmitting := true)
  }

  function Muter(): Player {
    Newcomer(2).(channels := {7}, mutedTargets := {1})
  }

  /** Two members of a radio channel in one spot; the second mutes the first, who talks. */
  function OneSpot(conf: Behavior, cell: real): (Fan, Where, Scene)
    requires cell > 0.0
  {
    var m := Maths(x => 0.0, (x, e) => 1.0);
    var t := ProximityTuning(10.0, 20.0, 40.0, 1.0, false, 0.5, 0.5);
    var ps: Players := map[1 := Talker(), 2 := Muter()];
    (Fan(m, ps, t, Talker(), FrameOf(1, 0, 0, [0]), 0, 0),
     map[1 := KeyFor(Talker(), cell), 2 := KeyFor(Muter(), cell)],
     Scene(m, ps, map[7 := Channel(7, FILTER_RADIO, false, 100, {1, 2})], t, conf,
           map[Key2(1, 7) := Stream(FILTER_RADIO, [1.0], 1000)], map[7 := 1000], 1000))
  }

  /** There the second, though neither deaf nor far away, gets the first neither directly nor on the bus. */
  lemma HeardNeitherWay(conf: Behavior, cell: real)
    requires cell > 0.0 && conf.suppressDoublePlay
    ensures var (f, where, sc) := OneSpot(conf, cell);
            && Placed(where, f.ps, cell) && Carried(f) && 1 in Talkers(sc, 7)
            && InPerson(f.m, f.ps, f.t, 1, 2) && !f.ps[2].deafen
            && RightDirect(f, where, cell, map[], map[], []) && !SentTo([], 2)
            && 1 !in Sources(sc, 7, 2)
  {
    SpotPlaced(conf, cell);
    SpotEarshot(conf, cell);
    SpotTalker(conf, cell);
    SpotDirect(conf, cell);
    hide Talkers, InPerson, RightDirect, Placed, Carried, SentTo, OneSpot;
  }

  lemma SpotPlaced(conf: Behavior, cell: real)
    requires cell > 0.0
    ensures var (f, where, sc) := OneSpot(conf, cell);
            && Placed(where, f.ps, cell) && Carried(f) && !f.ps[2].deafen && !SentTo([], 2)
            && 7 in sc.cs && sc.conf == conf && sc.maths == f.m && sc.ps == f.ps && sc.prox == f.t
  {
    hide Key2, KeyFor;
  }

  lemma SpotTalker(conf: Behavior, cell: real)
    requires cell > 0.0
    ensures 1 in Talkers(OneSpot(conf, cell).2, 7)
  {
    hide Key2, KeyFor;
  }

  lemma SpotEarshot(conf: Behavior, cell: real)
    requires cell > 0.0
    ensures var f := OneSpot(conf, cell).0;
            InPerson(f.m, f.ps, f.t, 1, 2)
  {
    hide Key2, KeyFor;
    SquareZero();
  }

  lemma SquareZero()
    ensures Reals.Square(0.0) == 0.0 && Reals.Square(20.0) > 0.0
  {
    Reals.SquareSign(0.0);
    Reals.SquareSign(20.0);
  }

  lemma SpotDirect(conf: Behavior, cell: real)
    requires cell > 0.0
    ensures var (f, where, _) := OneSpot(conf, cell);
            RightDirect(f, where, cell, map[], map[], [])
  {
    hide Key2, KeyFor, Evaluate, EffectiveRange, InSquare, Span;
    var (f, where, _) := OneSpot(conf, cell);
    assert GridHearers(f.m, f.ps, where, cell, f.t, f.sp, {}) == {};
  }
}
