/** The filtered-bus router: core/src/bus_router.cpp and core/include/mixer.h. */
module BusRouter {
  import opened Ints
  import opened Registry
  import opened Proximity

  const FRAME_MS := 20
  const FRESH_MS := 60
  const AUDIBLE := 0.001

  // ---- packed keys ----

  function Key2(a: u16, b: u16): u32 {
    a * 0x1_0000 + b
  }

  function High(k: u32): u16 {
    k / 0x1_0000
  }

  function Low(k: u32): u16 {
    k % 0x1_0000
  }

  /** Packing loses nothing: the halves come back. */
  lemma Key2Halves(a: u16, b: u16)
    ensures High(Key2(a, b)) == a && Low(Key2(a, b)) == b
  {
  }

  /** Is the channel's bit set in the mask? */
  predicate Keyed(mask: u32, cid: u16) {
    mask / Pow2(cid % 32) % 2 == 1
  }

  // ---- mix policy ----

  function PolicyGain(policy: u8, prio: u8, top: u8, duckLevel: real): real {
    if policy == POLICY_DUCK then if prio >= top then 1.0 else duckLevel
    else if policy == POLICY_EXCLUSIVE then if prio >= top then 1.0 else 0.0
    else 1.0
  }

  /** A listener's filtered channels on which someone spoke recently. */
  function ActiveBuses(li: Player, cs: Channels, active: map<u16, u32>, now: u32): set<u16> {
    set c | c in li.channels && c in cs && cs[c].filter != FILTER_NONE
            && c in active && Sub32(now, active[c]) <= FRESH_MS
  }

  predicate TopPriority(prio: u8, buses: set<u16>, cs: Channels) {
    forall c :: c in buses && c in cs ==> cs[c].priority <= prio
  }

  /** The gain the design asks for: full for a bus no active bus outranks, else ducked or muted. */
  function DesignGain(li: Player, prio: u8, outranked: bool): real {
    if !outranked || (li.policy != POLICY_DUCK && li.policy != POLICY_EXCLUSIVE) then 1.0
    else if li.policy == POLICY_DUCK then li.duckLevel else 0.0
  }

  // ---- mixing ----

  /** The last filtered frame of one speaker on one channel. */
  datatype Stream = Stream(filter: u8, pcm: seq<real>, lastMs: u32)

  type Streams = map<u32, Stream>

  predicate FreshStream(ss: Streams, id: u16, cid: u16, now: u32) {
    && Key2(id, cid) in ss && ss[Key2(id, cid)].pcm != []
    && Sub32(now, ss[Key2(id, cid)].lastMs) <= FRESH_MS
  }

  function Contributors(ss: Streams, members: set<u16>, cid: u16, now: u32): set<u16> {
    set m | m in members && FreshStream(ss, m, cid, now)
  }

  function SampleAt(ss: Streams, id: u16, cid: u16, i: nat): real {
    if Key2(id, cid) in ss && i < |ss[Key2(id, cid)].pcm| then ss[Key2(id, cid)].pcm[i] else 0.0
  }

  /** The pointwise sum over a set of speakers. */
  ghost function MixAt(ss: Streams, ids: set<u16>, cid: u16, i: nat): real {
    if ids == {} then 0.0
    else
      var id :| id in ids;
      SampleAt(ss, id, cid, i) + MixAt(ss, ids - {id}, cid, i)
  }

  /** The sum does not depend on the order in which the set is walked. */
  lemma {:induction false} MixAtPick(ss: Streams, ids: set<u16>, cid: u16, i: nat, y: u16)
    requires y in ids
    ensures MixAt(ss, ids, cid, i) == SampleAt(ss, y, cid, i) + MixAt(ss, ids - {y}, cid, i)
  {
    var x :| x in ids && MixAt(ss, ids, cid, i) == SampleAt(ss, x, cid, i) + MixAt(ss, ids - {x}, cid, i);
    if x != y {
      MixAtPick(ss, ids - {x}, cid, i, y);
      MixAtPick(ss, ids - {y}, cid, i, x);
      assert ids - {x} - {y} == ids - {y} - {x};
    }
  }

  lemma MixAtAdd(ss: Streams, ids: set<u16>, cid: u16, i: nat, y: u16)
    requires y !in ids
    ensures MixAt(ss, ids + {y}, cid, i) == MixAt(ss, ids, cid, i) + SampleAt(ss, y, cid, i)
  {
    MixAtPick(ss, ids + {y}, cid, i, y);
    assert ids + {y} - {y} == ids;
  }

  /** The first `n` samples of the sum. */
  ghost function Mix(ss: Streams, ids: set<u16>, cid: u16, n: nat): (mix: seq<real>)
    ensures |mix| == n
  {
    seq(n, i requires 0 <= i => MixAt(ss, ids, cid, i))
  }

  /** The longest frame among some contributors. */
  ghost predicate Longest(ss: Streams, ids: set<u16>, cid: u16, n: nat) {
    && (forall c :: c in ids && Key2(c, cid) in ss ==> |ss[Key2(c, cid)].pcm| <= n)
    && (ids != {} ==> exists c :: c in ids && Key2(c, cid) in ss && |ss[Key2(c, cid)].pcm| == n)
  }

  predicate InPerson(m: Maths, ps: Players, t: ProximityTuning, speaker: u16, listener: u16) {
    speaker in ps && listener in ps && Evaluate(m, ps[speaker], ps[listener], t).audible
  }

  /** One packet on a channel's bus; `mix` is the sum before garbling and limiting. */
  datatype BusDown = BusDown(
    to: u16, channel: u16, filter: u8, seqNo: u16, volume: real, sources: set<u16>, mix: seq<real>)

  /** What a listener hears on their phone, handed back for their surroundings. */
  datatype PhoneCall = PhoneCall(holder: u16, channel: u16, mix: seq<real>)

  datatype Behavior = Behavior(
    suppressDoublePlay: bool, speakerphone: bool, squelchBeep: bool, halfDuplexGarble: bool)

  /** All that decides what one emission of a channel sends. */
  datatype Scene = Scene(
    maths: Maths, ps: Players, cs: Channels, prox: ProximityTuning, conf: Behavior,
    ss: Streams, active: map<u16, u32>, now: u32)

  /** Everything sent for one emission of a channel, or one beep. */
  datatype Burst =
    | Mixed(channel: u16, scene: Scene, packets: seq<BusDown>, calls: seq<PhoneCall>)
    | Beep(channel: u16, packets: seq<BusDown>)

  function Talkers(sc: Scene, cid: u16): set<u16>
    requires cid in sc.cs
  {
    Contributors(sc.ss, sc.cs[cid].members, cid, sc.now)
  }

  /** Whom a listener hears on the bus: the others, except those heard in person. */
  function Sources(sc: Scene, cid: u16, l: u16): set<u16>
    requires cid in sc.cs
  {
    set c | c in Talkers(sc, cid) && c != l
            && !(sc.conf.suppressDoublePlay && InPerson(sc.maths, sc.ps, sc.prox, c, l))
  }

  predicate Listens(sc: Scene, cid: u16, l: u16)
    requires cid in sc.cs
  {
    l in sc.cs[cid].members && l in sc.ps && !sc.ps[l].deafen && Sources(sc, cid, l) != {}
  }

  predicate Outranked(sc: Scene, cid: u16, l: u16)
    requires cid in sc.cs && l in sc.ps
  {
    !TopPriority(sc.cs[cid].priority, ActiveBuses(sc.ps[l], sc.cs, sc.active, sc.now), sc.cs)
  }

  function VolumeFor(sc: Scene, cid: u16, l: u16): real
    requires cid in sc.cs && l in sc.ps
  {
    DesignGain(sc.ps[l], sc.cs[cid].priority, Outranked(sc, cid, l))
  }

  /** Which (listener, channel, mix) the codec manages to encode. */
  type Codec = (u16, u16, seq<real>) -> bool

  /** Is a packet sent to the listener? */
  ghost predicate Served(sc: Scene, codec: Codec, cid: u16, n: nat, l: u16)
    requires cid in sc.cs
  {
    && Listens(sc, cid, l) && VolumeFor(sc, cid, l) > AUDIBLE
    && codec(l, cid, Mix(sc.ss, Sources(sc, cid, l), cid, n))
  }

  ghost predicate RightPacket(sc: Scene, codec: Codec, cid: u16, n: nat, p: BusDown)
    requires cid in sc.cs
  {
    && Served(sc, codec, cid, n, p.to)
    && p.channel == cid && p.filter == sc.cs[cid].filter
    && p.sources == Sources(sc, cid, p.to) && p.mix == Mix(sc.ss, p.sources, cid, n)
    && p.volume == VolumeFor(sc, cid, p.to)
  }

  /** Exactly the listeners to be served among `done` get a packet, each one and the right one. */
  ghost predicate RightPackets(sc: Scene, codec: Codec, cid: u16, n: nat, done: set<u16>, ps: seq<BusDown>)
    requires cid in sc.cs
  {
    && (forall k :: 0 <= k < |ps| ==> ps[k].to in done && RightPacket(sc, codec, cid, n, ps[k]))
    && (forall i, j :: 0 <= i < j < |ps| ==> ps[i].to != ps[j].to)
    && (forall l :: l in done && Served(sc, codec, cid, n, l) ==> exists k :: 0 <= k < |ps| && ps[k].to == l)
  }

  /** Is the listener's phone on speaker? */
  predicate OnSpeaker(sc: Scene, cid: u16, l: u16)
    requires cid in sc.cs
  {
    sc.conf.speakerphone && Listens(sc, cid, l) && sc.ps[l].speakerphone
  }

  ghost predicate RightCalls(sc: Scene, cid: u16, n: nat, done: set<u16>, calls: seq<PhoneCall>)
    requires cid in sc.cs
  {
    && (forall k :: 0 <= k < |calls| ==>
          calls[k].holder in done && OnSpeaker(sc, cid, calls[k].holder) && calls[k].channel == cid
          && calls[k].mix == Mix(sc.ss, Sources(sc, cid, calls[k].holder), cid, n))
    && (forall i, j :: 0 <= i < j < |calls| ==> calls[i].holder != calls[j].holder)
    && (forall l :: l in done && OnSpeaker(sc, cid, l) ==> exists k :: 0 <= k < |calls| && calls[k].holder == l)
  }

  /** What one emission of a channel must be, under the scene it saw. */
  ghost predicate RightBurst(b: Burst, codec: Codec) {
    && b.Mixed? && b.channel in b.scene.cs
    && exists n: nat ::
         && Longest(b.scene.ss, Talkers(b.scene, b.channel), b.channel, n)
         && RightPackets(b.scene, codec, b.channel, n, b.scene.cs[b.channel].members, b.packets)
         && RightCalls(b.scene, b.channel, n, b.scene.cs[b.channel].members, b.calls)
  }

  // ---- the packets of a burst, field by field ----

  /** A member with a frame on the channel stored no more than 60 ms ago, which is not empty. */
  predicate Recent(sc: Scene, cid: u16, c: u16) {
    && cid in sc.cs && c in sc.cs[cid].members && Key2(c, cid) in sc.ss
    && sc.ss[Key2(c, cid)].pcm != [] && (sc.now - sc.ss[Key2(c, cid)].lastMs) % 0x1_0000_0000 <= 60
  }

  /** Is the talker to be left out of the listener's mix, as one they hear in person? */
  predicate LeftOut(sc: Scene, c: u16, l: u16) {
    sc.conf.suppressDoublePlay && c in sc.ps && l in sc.ps && Evaluate(sc.maths, sc.ps[c], sc.ps[l], sc.prox).audible
  }

  /** A member who is not deaf. */
  predicate AtChannel(sc: Scene, cid: u16, l: u16) {
    cid in sc.cs && l in sc.cs[cid].members && l in sc.ps && !sc.ps[l].deafen
  }

  /** A filtered channel of the listener, active in the last 60 ms, with a higher priority. */
  predicate Above(sc: Scene, cid: u16, l: u16, c: u16) {
    && cid in sc.cs && l in sc.ps && c in sc.ps[l].channels && c in sc.cs && sc.cs[c].filter != 0
    && c in sc.active && (sc.now - sc.active[c]) % 0x1_0000_0000 <= 60
    && sc.cs[c].priority > sc.cs[cid].priority
  }

  /** The gain under the policies 1 (duck) and 2 (exclusive); all others leave it full. */
  ghost predicate GainIs(sc: Scene, cid: u16, l: u16, v: real) {
    l in sc.ps &&
    if sc.ps[l].policy == 1 && (exists c :: Above(sc, cid, l, c)) then v == sc.ps[l].duckLevel
    else if sc.ps[l].policy == 2 && (exists c :: Above(sc, cid, l, c)) then v == 0.0
    else v == 1.0
  }

  /** The packet is what its listener is to get. */
  ghost predicate PlainPacket(sc: Scene, cid: u16, p: BusDown) {
    && AtChannel(sc, cid, p.to)
    && p.channel == cid && p.filter == sc.cs[cid].filter
    && GainIs(sc, cid, p.to, p.volume) && p.volume > 0.001
    && p.sources != {}
    && (forall c: u16 :: c in p.sources <==> Recent(sc, cid, c) && c != p.to && !LeftOut(sc, c, p.to))
    && (forall i :: 0 <= i < |p.mix| ==> p.mix[i] == MixAt(sc.ss, p.sources, cid, i))
  }

  /** A member whose phone is on speaker, and what they hear of the call. */
  ghost predicate PlainCall(sc: Scene, cid: u16, call: PhoneCall) {
    && AtChannel(sc, cid, call.holder) && sc.conf.speakerphone && sc.ps[call.holder].speakerphone
    && call.channel == cid
    && (exists c: u16 :: Recent(sc, cid, c) && c != call.holder && !LeftOut(sc, c, call.holder))
  }

  /** All packets and calls of a burst are such, and whoever is to get one does if the codec never fails. */
  ghost predicate PlainBurst(b: Burst, codec: Codec) {
    && b.Mixed?
    && (forall k :: 0 <= k < |b.packets| ==> PlainPacket(b.scene, b.channel, b.packets[k]))
    && (forall k :: 0 <= k < |b.calls| ==> PlainCall(b.scene, b.channel, b.calls[k]))
    && (forall i, j :: 0 <= i < j < |b.packets| ==> b.packets[i].to != b.packets[j].to)
    && (forall l: u16 :: Due60(b.scene, b.channel, l) && (forall mix :: codec(l, b.channel, mix)) ==> HasPacket(b, l))
  }

  /** A member who is not deaf, with someone to hear and a gain that is not nil. */
  ghost predicate Due60(sc: Scene, cid: u16, l: u16) {
    && AtChannel(sc, cid, l)
    && (exists c: u16 :: Recent(sc, cid, c) && c != l && !LeftOut(sc, c, l))
    && (forall v: real :: GainIs(sc, cid, l, v) ==> v > 0.001)
  }

  ghost predicate HasPacket(b: Burst, l: u16)
    requires b.Mixed?
  {
    exists k :: 0 <= k < |b.packets| && b.packets[k].to == l
  }

  lemma SourcesByField(sc: Scene, cid: u16, l: u16)
    requires cid in sc.cs
    ensures forall c: u16 :: c in Sources(sc, cid, l) <==> Recent(sc, cid, c) && c != l && !LeftOut(sc, c, l)
  {
    hide Key2, Evaluate;
  }

  lemma ListensByField(sc: Scene, cid: u16, l: u16)
    requires cid in sc.cs
    ensures Listens(sc, cid, l) <==>
            AtChannel(sc, cid, l) && exists c: u16 :: Recent(sc, cid, c) && c != l && !LeftOut(sc, c, l)
  {
    SourcesByField(sc, cid, l);
    hide Recent, LeftOut, Talkers;
    if Sources(sc, cid, l) != {} {
      var c :| c in Sources(sc, cid, l);
      assert Recent(sc, cid, c) && c != l && !LeftOut(sc, c, l);
    }
  }

  lemma OutrankedByField(sc: Scene, cid: u16, l: u16)
    requires cid in sc.cs && l in sc.ps
    ensures Outranked(sc, cid, l) <==> exists c :: Above(sc, cid, l, c)
  {
    if Outranked(sc, cid, l) {
      var c :| c in ActiveBuses(sc.ps[l], sc.cs, sc.active, sc.now) && sc.cs[c].priority > sc.cs[cid].priority;
      assert Above(sc, cid, l, c);
    }
  }

  lemma GainByField(sc: Scene, cid: u16, l: u16)
    requires cid in sc.cs && l in sc.ps
    ensures forall v: real :: GainIs(sc, cid, l, v) <==> v == VolumeFor(sc, cid, l)
  {
    OutrankedByField(sc, cid, l);
    hide Above, Outranked;
  }

  lemma PacketByField(sc: Scene, codec: Codec, cid: u16, n: nat, p: BusDown)
    requires cid in sc.cs && RightPacket(sc, codec, cid, n, p)
    ensures PlainPacket(sc, cid, p)
  {
    ListensByField(sc, cid, p.to);
    SourcesByField(sc, cid, p.to);
    GainByField(sc, cid, p.to);
    SomeSource(sc, cid, p.to);
    hide Recent, LeftOut, VolumeFor, GainIs, Sources, MixAt;
  }

  lemma SomeSource(sc: Scene, cid: u16, l: u16)
    requires cid in sc.cs
    ensures Listens(sc, cid, l) ==> Sources(sc, cid, l) != {} && l in sc.ps
  {
  }

  lemma CallByField(sc: Scene, cid: u16, call: PhoneCall)
    requires cid in sc.cs && OnSpeaker(sc, cid, call.holder) && call.channel == cid
    ensures PlainCall(sc, cid, call)
  {
    ListensByField(sc, cid, call.holder);
    hide Recent, LeftOut, Sources;
  }

  lemma ServedByField(sc: Scene, codec: Codec, cid: u16, n: nat, l: u16)
    requires cid in sc.cs && Due60(sc, cid, l) && forall mix :: codec(l, cid, mix)
    ensures Served(sc, codec, cid, n, l)
  {
    ListensByField(sc, cid, l);
    GainByField(sc, cid, l);
    assert l in sc.ps && GainIs(sc, cid, l, VolumeFor(sc, cid, l));
    hide Recent, LeftOut, VolumeFor, GainIs, Sources, Mix, AtChannel, Listens;
  }

  lemma TalkersByField(sc: Scene, cid: u16)
    requires cid in sc.cs
    ensures forall c: u16 :: c in Talkers(sc, cid) <==> Recent(sc, cid, c)
  {
    hide Key2;
  }

  /** A right burst says what the fields say. */
  lemma BurstByField(b: Burst, codec: Codec)
    requires RightBurst(b, codec)
    ensures PlainBurst(b, codec)
  {
    var sc, cid := b.scene, b.channel;
    var members := sc.cs[cid].members;
    var n: nat :|
      && Longest(sc.ss, Talkers(sc, cid), cid, n)
      && RightPackets(sc, codec, cid, n, members, b.packets)
      && RightCalls(sc, cid, n, members, b.calls);
    hide Longest, Talkers, RightPacket, Served, OnSpeaker, Sources, Mix, PlainPacket, PlainCall, Due60;
    forall k | 0 <= k < |b.packets| ensures PlainPacket(sc, cid, b.packets[k]) {
      PacketByField(sc, codec, cid, n, b.packets[k]);
    }
    forall k | 0 <= k < |b.calls| ensures PlainCall(sc, cid, b.calls[k]) {
      CallByField(sc, cid, b.calls[k]);
    }
    forall l: u16 | Due60(sc, cid, l) && (forall mix :: codec(l, cid, mix)) ensures HasPacket(b, l) {
      ServedByField(sc, codec, cid, n, l);
      MemberOf(sc, cid, l);
    }
  }

  lemma MemberOf(sc: Scene, cid: u16, l: u16)
    requires Due60(sc, cid, l)
    ensures cid in sc.cs && l in sc.cs[cid].members
  {
  }

  // ---- packet numbers ----

  /** The number of a pair's last packet; zero stands for none yet. */
  function LastNo(seqs: map<u32, u16>, k: u32): u16 {
    if k in seqs then seqs[k] else 0
  }

  function PairOf(p: BusDown): u32 {
    Key2(p.to, p.channel)
  }

  /** Each packet has the number after the last one of its pair, and the table ends up accordingly. */
  ghost predicate Numbers(seqs: map<u32, u16>, seqs': map<u32, u16>, ps: seq<BusDown>)
    decreases |ps|
  {
    if ps == [] then seqs' == seqs
    else
      && ps[0].seqNo == Inc16(LastNo(seqs, PairOf(ps[0])))
      && Numbers(seqs[PairOf(ps[0]) := ps[0].seqNo], seqs', ps[1..])
  }

  lemma NumbersNone(seqs: map<u32, u16>)
    ensures Numbers(seqs, seqs, [])
  {
  }

  lemma NumbersOne(seqs: map<u32, u16>, p: BusDown)
    requires p.seqNo == Inc16(LastNo(seqs, PairOf(p)))
    ensures Numbers(seqs, seqs[PairOf(p) := p.seqNo], [p])
  {
    hide PairOf, LastNo;
    assert [p][1..] == [];
  }

  lemma {:induction false} NumbersJoin(
      a: map<u32, u16>, b: map<u32, u16>, c: map<u32, u16>, ps: seq<BusDown>, qs: seq<BusDown>)
    requires Numbers(a, b, ps) && Numbers(b, c, qs)
    ensures Numbers(a, c, ps + qs)
    decreases |ps|
  {
    hide PairOf, LastNo;
    if ps == [] {
      assert ps + qs == qs;
    } else {
      NumbersJoin(a[PairOf(ps[0]) := ps[0].seqNo], b, c, ps[1..], qs);
      assert (ps + qs)[1..] == ps[1..] + qs && (ps + qs)[0] == ps[0];
    }
  }

  /** All packets of some bursts, in order. */
  function PacketsOf(bs: seq<Burst>): seq<BusDown> {
    if bs == [] then [] else PacketsOf(bs[..|bs| - 1]) + bs[|bs| - 1].packets
  }

  lemma PacketsOfMore(bs: seq<Burst>, b: Burst)
    ensures PacketsOf(bs + [b]) == PacketsOf(bs) + b.packets && PacketsOf([]) == []
  {
    assert (bs + [b])[..|bs|] == bs;
  }

  /** Between two states of the router, the bursts added account for the change of numbers. */
  ghost predicate Numbered(bs: seq<Burst>, seqs: map<u32, u16>, bs': seq<Burst>, seqs': map<u32, u16>) {
    bs <= bs' && Numbers(seqs, seqs', PacketsOf(bs'[|bs|..]))
  }

  lemma NumberedNone(bs: seq<Burst>, seqs: map<u32, u16>)
    ensures Numbered(bs, seqs, bs, seqs)
  {
    assert bs[|bs|..] == [];
    PacketsOfMore([], Beep(0, []));
    NumbersNone(seqs);
  }

  /** One burst more. */
  lemma NumberedMore(
      bs: seq<Burst>, seqs: map<u32, u16>, bs1: seq<Burst>, seqs1: map<u32, u16>, b: Burst, seqs': map<u32, u16>)
    requires Numbered(bs, seqs, bs1, seqs1) && Numbers(seqs1, seqs', b.packets)
    ensures Numbered(bs, seqs, bs1 + [b], seqs')
  {
    hide Numbers;
    assert (bs1 + [b])[|bs|..] == bs1[|bs|..] + [b];
    PacketsOfMore(bs1[|bs|..], b);
    NumbersJoin(seqs, seqs1, seqs', PacketsOf(bs1[|bs|..]), b.packets);
  }

  /** And any bursts more. */
  lemma NumberedJoin(
      bs: seq<Burst>, seqs: map<u32, u16>, bs1: seq<Burst>, seqs1: map<u32, u16>, bs': seq<Burst>, seqs': map<u32, u16>)
    requires Numbered(bs, seqs, bs1, seqs1) && Numbered(bs1, seqs1, bs', seqs')
    ensures Numbered(bs, seqs, bs', seqs')
  {
    hide Numbers;
    assert bs'[|bs|..] == bs1[|bs|..] + bs'[|bs1|..];
    PacketsOfJoin(bs1[|bs|..], bs'[|bs1|..]);
    NumbersJoin(seqs, seqs1, seqs', PacketsOf(bs1[|bs|..]), PacketsOf(bs'[|bs1|..]));
  }

  lemma {:induction false} PacketsOfJoin(bs: seq<Burst>, cs: seq<Burst>)
    ensures PacketsOf(bs + cs) == PacketsOf(bs) + PacketsOf(cs)
  {
    if cs == [] {
      assert bs + cs == bs;
    } else {
      var n := |cs| - 1;
      PacketsOfJoin(bs, cs[..n]);
      assert (bs + cs)[..|bs + cs| - 1] == bs + cs[..n];
    }
  }

  // ---- table keys ----

  ghost predicate PairsLive(keys: set<u32>, ps: Players, cs: Channels) {
    forall k :: k in keys ==> High(k) in ps && Low(k) in cs
  }

  function WithoutHigh<T>(m: map<u32, T>, pid: u16): map<u32, T> {
    map k | k in m && High(k) != pid :: m[k]
  }

  function WithoutLow<T>(m: map<u32, T>, cid: u16): map<u32, T> {
    map k | k in m && Low(k) != cid :: m[k]
  }

  function KeysWithoutHigh(ks: set<u32>, pid: u16): set<u32> {
    set k | k in ks && High(k) != pid
  }

  function KeysWithoutLow(ks: set<u32>, cid: u16): set<u32> {
    set k | k in ks && Low(k) != cid
  }

  /** Erases the entries of a pair table whose first half is the player. */
  method EraseHigh<T>(m: map<u32, T>, pid: u16) returns (r: map<u32, T>)
    ensures r == WithoutHigh(m, pid)
  {
    r := m;
    var todo := m.Keys;
    while todo != {}
      invariant todo <= m.Keys
      invariant r == map k | k in m && (High(k) != pid || k in todo) :: m[k]
      decreases todo
    {
      var k :| k in todo;
      if High(k) == pid {
        r := r - {k};
      }
      todo := todo - {k};
    }
  }

  /** Erases the entries of a pair table whose second half is the channel. */
  method EraseLow<T>(m: map<u32, T>, cid: u16) returns (r: map<u32, T>)
    ensures r == WithoutLow(m, cid)
  {
    r := m;
    var todo := m.Keys;
    while todo != {}
      invariant todo <= m.Keys
      invariant r == map k | k in m && (Low(k) != cid || k in todo) :: m[k]
      decreases todo
    {
      var k :| k in todo;
      if Low(k) == cid {
        r := r - {k};
      }
      todo := todo - {k};
    }
  }

  lemma PacketsSkip(sc: Scene, codec: Codec, cid: u16, n: nat, done: set<u16>, ps: seq<BusDown>, l: u16)
    requires cid in sc.cs && RightPackets(sc, codec, cid, n, done, ps) && !Served(sc, codec, cid, n, l)
    ensures RightPackets(sc, codec, cid, n, done + {l}, ps)
  {
    hide Served, RightPacket;
  }

  lemma PacketsAdd(sc: Scene, codec: Codec, cid: u16, n: nat, done: set<u16>, ps: seq<BusDown>, p: BusDown)
    requires cid in sc.cs && RightPackets(sc, codec, cid, n, done, ps) && p.to !in done
    requires RightPacket(sc, codec, cid, n, p)
    ensures RightPackets(sc, codec, cid, n, done + {p.to}, ps + [p])
  {
    hide Served, RightPacket;
    var qs := ps + [p];
    assert qs[|ps|] == p;
    forall l | l in done + {p.to} && Served(sc, codec, cid, n, l) ensures exists k :: 0 <= k < |qs| && qs[k].to == l {
      if l != p.to {
        var k :| 0 <= k < |ps| && ps[k].to == l;
        assert qs[k] == ps[k];
      }
    }
  }

  lemma CallsSkip(sc: Scene, cid: u16, n: nat, done: set<u16>, calls: seq<PhoneCall>, l: u16)
    requires cid in sc.cs && RightCalls(sc, cid, n, done, calls) && !OnSpeaker(sc, cid, l)
    ensures RightCalls(sc, cid, n, done + {l}, calls)
  {
    hide OnSpeaker, Sources, Mix;
  }

  lemma CallsAdd(sc: Scene, cid: u16, n: nat, done: set<u16>, calls: seq<PhoneCall>, l: u16)
    requires cid in sc.cs && RightCalls(sc, cid, n, done, calls) && l !in done && OnSpeaker(sc, cid, l)
    ensures RightCalls(sc, cid, n, done + {l},
                       calls + [PhoneCall(l, cid, Mix(sc.ss, Sources(sc, cid, l), cid, n))])
  {
    hide OnSpeaker, Sources, Mix;
    var qs := calls + [PhoneCall(l, cid, Mix(sc.ss, Sources(sc, cid, l), cid, n))];
    assert qs[|calls|].holder == l;
    forall x | x in done + {l} && OnSpeaker(sc, cid, x) ensures exists k :: 0 <= k < |qs| && qs[k].holder == x {
      if x != l {
        var k :| 0 <= k < |calls| && calls[k].holder == x;
        assert qs[k] == calls[k];
      }
    }
  }

  /** Every table is keyed by live players, live channels, or live pairs of them. */
  ghost predicate TablesLive(
      decoders: set<u16>, encoders: set<u32>, ss: Streams, seqs: map<u32, u16>,
      lastEmit: map<u16, u32>, active: map<u16, u32>, garble: set<u16>, ps: Players, cs: Channels)
  {
    && decoders <= ps.Keys
    && PairsLive(encoders, ps, cs) && PairsLive(ss.Keys, ps, cs) && PairsLive(seqs.Keys, ps, cs)
    && lastEmit.Keys <= cs.Keys && active.Keys <= cs.Keys && garble <= cs.Keys
  }

  method EraseHighKeys(ks: set<u32>, pid: u16) returns (r: set<u32>)
    ensures r == KeysWithoutHigh(ks, pid)
  {
    r := ks;
    var todo := ks;
    while todo != {}
      invariant todo <= ks && r == set k | k in ks && (High(k) != pid || k in todo)
      decreases todo
    {
      var k :| k in todo;
      if High(k) == pid {
        r := r - {k};
      }
      todo := todo - {k};
    }
  }

  method EraseLowKeys(ks: set<u32>, cid: u16) returns (r: set<u32>)
    ensures r == KeysWithoutLow(ks, cid)
  {
    r := ks;
    var todo := ks;
    while todo != {}
      invariant todo <= ks && r == set k | k in ks && (Low(k) != cid || k in todo)
      decreases todo
    {
      var k :| k in todo;
      if Low(k) == cid {
        r := r - {k};
      }
      todo := todo - {k};
    }
  }

  /** Adds a frame to the scratch buffer, sample by sample. */
  method AddInto(scratch: array<real>, p: seq<real>)
    modifies scratch
    ensures forall i :: 0 <= i < scratch.Length ==>
                          scratch[i] == old(scratch[i]) + (if i < |p| then p[i] else 0.0)
  {
    var sn := if scratch.Length < |p| then scratch.Length else |p|;
    for i := 0 to sn
      invariant forall k :: 0 <= k < i ==> scratch[k] == old(scratch[k]) + p[k]
      invariant forall k :: i <= k < scratch.Length ==> scratch[k] == old(scratch[k])
    {
      scratch[i] := scratch[i] + p[i];
    }
  }

  class BusRouter {
    const reg: Registry
    const maths: Maths
    const codec: Codec
    var prox: ProximityTuning
    var conf: Behavior
    var decoders: set<u16>            // speaker
    var encoders: set<u32>            // (listener, channel)
    var streams: Streams              // (speaker, channel)
    var seqs: map<u32, u16>           // (listener, channel)
    var lastEmit: map<u16, u32>       // channel
    var chanActive: map<u16, u32>     // channel
    var garble: set<u16>              // channels with garbling state
    var bursts: seq<Burst>

    ghost predicate Valid()
      reads this, reg
    {
      && reg.Valid()
      && TablesLive(decoders, encoders, streams, seqs, lastEmit, chanActive, garble, reg.players, reg.channels)
    }

    /** What the next emission would go by. */
    function SceneAt(now: u32): Scene
      reads this, reg
    {
      Scene(maths, reg.players, reg.channels, prox, conf, streams, chanActive, now)
    }

    constructor (reg: Registry, maths: Maths, codec: Codec, prox: ProximityTuning, conf: Behavior)
      requires reg.Valid()
      ensures Valid() && this.reg == reg && bursts == []
      ensures this.maths == maths && this.codec == codec && this.prox == prox && this.conf == conf
    {
      this.reg, this.maths, this.codec, this.prox, this.conf := reg, maths, codec, prox, conf;
      decoders, encoders, streams, seqs := {}, {}, map[], map[];
      lastEmit, chanActive, garble, bursts := map[], map[], {}, [];
    }

    /** The members with a recent frame, and the longest of those frames. */
    method Gather(cid: u16, now: u32) returns (contrib: set<u16>, ns: nat)
      requires cid in reg.channels
      ensures contrib == Contributors(streams, reg.channels[cid].members, cid, now)
      ensures Longest(streams, contrib, cid, ns)
    {
      var members := reg.channels[cid].members;
      var todo := members;
      contrib, ns := {}, 0;
      while todo != {}
        invariant todo <= members
        invariant contrib == Contributors(streams, members - todo, cid, now)
        invariant Longest(streams, contrib, cid, ns)
        decreases todo
      {
        var mid :| mid in todo;
        if FreshStream(streams, mid, cid, now) {
          var n := |streams[Key2(mid, cid)].pcm|;
          if n > ns || contrib == {} {
            ns := n;
          }
          contrib := contrib + {mid};
        }
        todo := todo - {mid};
      }
      assert members - todo == members;
    }

    /** The sum of everyone else's frames, without those the listener hears in person. */
    method MixFor(contrib: set<u16>, cid: u16, lid: u16, ns: nat) returns (ids: set<u16>, mix: seq<real>)
      ensures ids == set c | c in contrib && c != lid
                             && !(conf.suppressDoublePlay && InPerson(maths, reg.players, prox, c, lid))
      ensures (forall c :: c in contrib ==> Key2(c, cid) in streams) ==> mix == Mix(streams, ids, cid, ns)
    {
      hide InPerson;
      var scratch := new real[ns](_ => 0.0);
      var todo := contrib;
      ids := {};
      while todo != {}
        invariant todo <= contrib && fresh(scratch)
        invariant ids == set c | c in contrib - todo && c != lid
                                 && !(conf.suppressDoublePlay && InPerson(maths, reg.players, prox, c, lid))
        invariant forall i :: 0 <= i < ns ==> scratch[i] == MixAt(streams, ids, cid, i)
        decreases todo
      {
        var c :| c in todo;
        todo := todo - {c};
        if c == lid { continue; }
        if conf.suppressDoublePlay && InPerson(maths, reg.players, prox, c, lid) { continue; }
        forall i | 0 <= i < ns
          ensures MixAt(streams, ids + {c}, cid, i) == MixAt(streams, ids, cid, i) + SampleAt(streams, c, cid, i)
        {
          MixAtAdd(streams, ids, cid, i, c);
        }
        if Key2(c, cid) in streams {
          AddInto(scratch, streams[Key2(c, cid)].pcm);
        }
        ids := ids + {c};
      }
      mix := scratch[..];
    }

    /** Duck, exclusive or plain: full volume for a bus no active bus outranks. */
    method BusVolume(li: Player, prio: u8, now: u32) returns (v: real)
      ensures v == DesignGain(li, prio,
                              !TopPriority(prio, ActiveBuses(li, reg.channels, chanActive, now), reg.channels))
    {
      var top: u8 := 0;
      var todo := li.channels;
      ghost var all := ActiveBuses(li, reg.channels, chanActive, now);
      while todo != {}
        invariant todo <= li.channels
        invariant forall c :: c in all && c !in todo ==> reg.channels[c].priority <= top
        invariant top == 0 || exists c :: c in all && reg.channels[c].priority == top
        decreases todo
      {
        var c :| c in todo;
        todo := todo - {c};
        if c !in reg.channels || reg.channels[c].filter == FILTER_NONE { continue; }
        if c !in chanActive || Sub32(now, chanActive[c]) > FRESH_MS { continue; }
        assert c in all;
        if reg.channels[c].priority > top {
          top := reg.channels[c].priority;
        }
      }
      v := PolicyGain(li.policy, prio, top, li.duckLevel);
    }

    /** Encodes and sends one packet; each (listener, channel) pair numbers its own. */
    method SendBus(lid: u16, cid: u16, filter: u8, sources: set<u16>, mix: seq<real>, volume: real)
      returns (ok: bool, p: BusDown)
      modifies this`encoders, this`seqs
      ensures encoders == old(encoders) + {Key2(lid, cid)}
      ensures ok == codec(lid, cid, mix)
      ensures !ok ==> seqs == old(seqs)
      ensures ok ==> seqs == old(seqs)[Key2(lid, cid) := p.seqNo]
      ensures ok ==> p.seqNo == Inc16(LastNo(old(seqs), Key2(lid, cid)))
      ensures ok ==> p == BusDown(lid, cid, filter, p.seqNo, volume, sources, mix)
    {
      var k := Key2(lid, cid);
      p := BusDown(lid, cid, filter, 0, volume, sources, mix);
      encoders := encoders + {k};
      ok := codec(lid, cid, mix);
      if !ok { return; }
      seqs := seqs[k := Inc16(LastNo(seqs, k))];
      p := p.(seqNo := seqs[k]);
    }

    /** The pair tables stay live when a live listener of a live channel is added. */
    ghost predicate PairTablesLive()
      reads this, reg
    {
      && PairsLive(encoders, reg.players, reg.channels) && PairsLive(seqs.Keys, reg.players, reg.channels)
      && garble <= reg.channels.Keys
    }

    /** One listener's part of an emission: at most one packet and one speakerphone call. */
    method ServeListener(ghost sc: Scene, contrib: set<u16>, cid: u16, ns: nat, lid: u16, now: u32)
      returns (packets: seq<BusDown>, calls: seq<PhoneCall>)
      requires cid in reg.channels && sc == SceneAt(now) && lid in reg.channels[cid].members
      requires contrib == Talkers(sc, cid) && PairTablesLive()
      modifies this`encoders, this`seqs, this`garble
      ensures PairTablesLive()
      ensures Served(sc, codec, cid, ns, lid) ==>
                |packets| == 1 && packets[0].to == lid && RightPacket(sc, codec, cid, ns, packets[0])
      ensures !Served(sc, codec, cid, ns, lid) ==> packets == []
      ensures calls == if OnSpeaker(sc, cid, lid)
                       then [PhoneCall(lid, cid, Mix(sc.ss, Sources(sc, cid, lid), cid, ns))] else []
      ensures Numbers(old(seqs), seqs, packets)
    {
      hide InPerson, Outranked, Numbers;
      packets, calls := [], [];
      NumbersNone(seqs);
      if lid !in reg.players || reg.players[lid].deafen { return; }
      var li := reg.players[lid];
      var ids, mix := MixFor(contrib, cid, lid, ns);
      assert ids == Sources(sc, cid, lid);
      if ids == {} { return; }
      if conf.halfDuplexGarble && |contrib| >= 2 {
        garble := garble + {cid};
      }
      if conf.speakerphone && li.speakerphone {
        calls := [PhoneCall(lid, cid, mix)];
      }
      var vol := BusVolume(li, reg.channels[cid].priority, now);
      assert vol == VolumeFor(sc, cid, lid) by { VolumeIs(sc, cid, lid); }
      if vol <= AUDIBLE { return; }
      packets := SendOne(lid, cid, ids, mix, vol);
    }

    /** One packet for one listener, if it can be encoded. */
    method SendOne(lid: u16, cid: u16, sources: set<u16>, mix: seq<real>, volume: real) returns (packets: seq<BusDown>)
      requires cid in reg.channels && lid in reg.players && PairTablesLive()
      modifies this`encoders, this`seqs
      ensures PairTablesLive() && Numbers(old(seqs), seqs, packets)
      ensures codec(lid, cid, mix) ==>
                |packets| == 1 &&
                packets[0] == BusDown(lid, cid, reg.channels[cid].filter, packets[0].seqNo, volume, sources, mix)
      ensures !codec(lid, cid, mix) ==> packets == []
    {
      Key2Halves(lid, cid);
      hide Numbers;
      ghost var seqs0 := seqs;
      NumbersNone(seqs);
      var ok, p := SendBus(lid, cid, reg.channels[cid].filter, sources, mix, volume);
      packets := [];
      if ok {
        NumbersOne(seqs0, p);
        packets := [p];
      }
    }

    /** Every member in turn. */
    method ServeMembers(ghost sc: Scene, contrib: set<u16>, cid: u16, ns: nat, now: u32)
      returns (packets: seq<BusDown>, calls: seq<PhoneCall>)
      requires cid in reg.channels && sc == SceneAt(now)
      requires contrib == Talkers(sc, cid) && PairTablesLive()
      modifies this`encoders, this`seqs, this`garble
      ensures PairTablesLive()
      ensures RightPackets(sc, codec, cid, ns, reg.channels[cid].members, packets)
      ensures RightCalls(sc, cid, ns, reg.channels[cid].members, calls)
      ensures Numbers(old(seqs), seqs, packets)
    {
      hide Numbers, RightPacket, Served, OnSpeaker, Talkers, Sources, Mix, RightPackets, RightCalls;
      var members := reg.channels[cid].members;
      var todo := members;
      packets, calls := [], [];
      NobodyYet(sc, codec, cid, ns);
      NumbersNone(seqs);
      ghost var seqs0 := seqs;
      assert members - todo == {};
      while todo != {}
        invariant todo <= members && sc == SceneAt(now) && PairTablesLive()
        invariant RightPackets(sc, codec, cid, ns, members - todo, packets)
        invariant RightCalls(sc, cid, ns, members - todo, calls)
        invariant Numbers(seqs0, seqs, packets)
        decreases todo
      {
        var lid :| lid in todo;
        ghost var seqs1 := seqs;
        var ps, cs := ServeListener(sc, contrib, cid, ns, lid, now);
        NumbersJoin(seqs0, seqs1, seqs, packets, ps);
        Extend(sc, codec, cid, ns, members - todo, packets, calls, lid, ps, cs);
        packets, calls := packets + ps, calls + cs;
        assert members - (todo - {lid}) == members - todo + {lid};
        todo := todo - {lid};
      }
      assert members - todo == members;
    }

    /** Mixes one channel's bus for each member, or does nothing when nobody spoke recently. */
    method EmitChannel(cid: u16, now: u32)
      requires Valid() && cid in reg.channels
      modifies this`encoders, this`seqs, this`garble, this`bursts
      ensures Valid()
      ensures Talkers(SceneAt(now), cid) == {} ==> bursts == old(bursts)
      ensures Talkers(SceneAt(now), cid) != {} ==>
                && |bursts| == |old(bursts)| + 1 && bursts[..|old(bursts)|] == old(bursts)
                && bursts[|old(bursts)|].channel == cid && bursts[|old(bursts)|].Mixed?
                && bursts[|old(bursts)|].scene == SceneAt(now) && RightBurst(bursts[|old(bursts)|], codec)
      // Without a recent frame of a member nothing is sent, and what is sent is plain from the fields.
      ensures (forall c: u16 :: !Recent(SceneAt(now), cid, c)) ==> bursts == old(bursts)
      ensures old(bursts) <= bursts && forall k :: |old(bursts)| <= k < |bursts| ==> PlainBurst(bursts[k], codec)
      ensures Numbered(old(bursts), old(seqs), bursts, seqs)
    {
      hide Numbered, Numbers, PlainBurst, Recent, RightBurst, TablesLive;
      TalkersByField(SceneAt(now), cid);
      NumberedNone(bursts, seqs);
      var contrib, ns := Gather(cid, now);
      if contrib == {} { return; }
      var b := MixBurst(contrib, ns, cid, now);
      BurstByField(b, codec);
      NumberedMore(bursts, old(seqs), bursts, old(seqs), b, seqs);
      bursts := bursts + [b];
    }

    /** All packets of one emission. */
    method MixBurst(contrib: set<u16>, ns: nat, cid: u16, now: u32) returns (b: Burst)
      requires Valid() && cid in reg.channels && contrib == Talkers(SceneAt(now), cid)
      requires Longest(streams, contrib, cid, ns)
      modifies this`encoders, this`seqs, this`garble
      ensures Valid() && b.Mixed? && b.channel == cid && b.scene == SceneAt(now) && RightBurst(b, codec)
      ensures Numbers(old(seqs), seqs, b.packets)
    {
      hide RightPackets, RightCalls, Longest, Numbers;
      var packets, calls := ServeMembers(SceneAt(now), contrib, cid, ns, now);
      b := Mixed(cid, SceneAt(now), packets, calls);
      assert RightBurst(b, codec);
    }

    /** Band-pass, drive and static keep the length of a frame; what else they do is not modelled. */
    method Colour(pcm: seq<real>) returns (r: seq<real>)
      ensures |r| == |pcm|
    {
      r :| |r| == |pcm|;
    }

    /** One keyed channel of a speaker's frame: record it, mark activity, and emit unless throttled. */
    method KeyChannel(speaker: u16, cid: u16, pcm: seq<real>, now: u32)
      requires Valid() && pcm != [] && speaker in reg.players
      requires cid in KeyedChannels(reg.players[speaker], reg.channels)
      modifies this`streams, this`chanActive, this`lastEmit, this`encoders, this`seqs, this`garble, this`bursts
      ensures Valid()
      ensures HasFrame(streams, Key2(speaker, cid), |pcm|, now)
      ensures streams == old(streams)[Key2(speaker, cid) := streams[Key2(speaker, cid)]]
      ensures chanActive == old(chanActive)[cid := now]
      ensures lastEmit == if Throttled(old(lastEmit), cid, now) then old(lastEmit) else old(lastEmit)[cid := now]
      ensures Throttled(old(lastEmit), cid, now) ==> bursts == old(bursts)
      ensures !Throttled(old(lastEmit), cid, now) ==>
                && |bursts| == |old(bursts)| + 1 && bursts[..|old(bursts)|] == old(bursts)
                && bursts[|old(bursts)|].channel == cid && bursts[|old(bursts)|].Mixed?
                && bursts[|old(bursts)|].scene == SceneAt(now) && RightBurst(bursts[|old(bursts)|], codec)
      ensures Numbered(old(bursts), old(seqs), bursts, seqs)
    {
      hide RightBurst, Talkers, TablesLive, Numbered;
      NumberedNone(bursts, seqs);
      Record(speaker, cid, pcm, now);
      var le := if cid in lastEmit then lastEmit[cid] else 0;
      if le != 0 && Sub32(now, le) < FRAME_MS - 2 { return; }
      MarkEmit(cid, now);
      SpeakerTalks(SceneAt(now), cid, speaker);
      EmitChannel(cid, now);
    }

    method MarkEmit(cid: u16, now: u32)
      requires Valid() && cid in reg.channels
      modifies this`lastEmit
      ensures Valid() && lastEmit == old(lastEmit)[cid := now]
    {
      lastEmit := lastEmit[cid := now];
    }

    /** Stores the filtered frame of a speaker on a channel and marks the channel active. */
    method Record(speaker: u16, cid: u16, pcm: seq<real>, now: u32)
      requires Valid() && speaker in reg.players && cid in reg.channels
      modifies this`streams, this`chanActive
      ensures Valid()
      ensures HasFrame(streams, Key2(speaker, cid), |pcm|, now)
      ensures streams == old(streams)[Key2(speaker, cid) := streams[Key2(speaker, cid)]]
      ensures chanActive == old(chanActive)[cid := now]
    {
      Key2Halves(speaker, cid);
      var frame := Colour(pcm);
      streams := streams[Key2(speaker, cid) := Stream(reg.channels[cid].filter, frame, now)];
      chanActive := chanActive[cid := now];
    }

    /**
      A speaker's decoded frame goes to every filtered channel they are keying. The channels are
      walked in whatever order the hash set gives, here `walk`.
     */
    method OnSpeakerFrame(speaker: u16, pcm: seq<real>, now: u32) returns (walk: seq<u16>)
      requires Valid()
      modifies this`decoders, this`streams, this`chanActive, this`lastEmit, this`encoders, this`seqs, this`garble,
               this`bursts
      ensures Valid() && old(bursts) <= bursts
      ensures var keyed := KeyedNow(reg.players, reg.channels, speaker, pcm);
              var due := Due(keyed, old(lastEmit), now);
              && Arranges(walk, keyed)
              && Recorded(old(streams), streams, speaker, keyed, reg.channels, |pcm|, now)
              && chanActive == Stamp(old(chanActive), keyed, now)
              && lastEmit == Stamp(old(lastEmit), due, now)
              && RightBursts(bursts[|old(bursts)|..], walk, keyed, due, SceneAt(now), old(chanActive), codec)
      ensures Numbered(old(bursts), old(seqs), bursts, seqs)
    {
      hide Recorded, RightBursts, RightBurst, Valid, Throttled, Due, Stamp, HasFrame, KeyedChannels, Numbered;
      NumberedNone(bursts, seqs);
      NothingKeyed(streams, speaker, reg.channels, |pcm|, now, SceneAt(now), lastEmit, chanActive, codec);
      assert bursts[|bursts|..] == [];
      walk := [];
      if !Transmits(reg.players, speaker) { return; }
      EnsureDecoder(speaker);
      if pcm == [] { return; }
      walk := AnyOrder(reg.players[speaker].channels);
      FrameInOrder(speaker, pcm, now, walk);
    }

    /** The walk over the speaker's channels, in a given order. */
    method FrameInOrder(speaker: u16, pcm: seq<real>, now: u32, walk: seq<u16>)
      requires Valid() && Transmits(reg.players, speaker) && pcm != []
      requires Lists(walk, reg.players[speaker].channels)
      modifies this`streams, this`chanActive, this`lastEmit, this`encoders, this`seqs, this`garble, this`bursts
      ensures Valid() && old(bursts) <= bursts
      ensures var keyed := KeyedChannels(reg.players[speaker], reg.channels);
              var due := Due(keyed, old(lastEmit), now);
              && Arranges(walk, keyed)
              && Recorded(old(streams), streams, speaker, keyed, reg.channels, |pcm|, now)
              && chanActive == Stamp(old(chanActive), keyed, now)
              && lastEmit == Stamp(old(lastEmit), due, now)
              && RightBursts(bursts[|old(bursts)|..], walk, keyed, due, SceneAt(now), old(chanActive), codec)
      ensures Numbered(old(bursts), old(seqs), bursts, seqs)
    {
      hide Recorded, RightBursts, RightBurst, Valid, Throttled, Due, Stamp, HasFrame, Key2, Keyed, Lists, Place,
           Arranges, Done, Numbered;
      NumberedNone(bursts, seqs);
      ghost var seqs0 := seqs;
      ghost var streams0, active0, emit0, bursts0 := streams, chanActive, lastEmit, bursts;
      ghost var keyed := KeyedChannels(reg.players[speaker], reg.channels);
      NothingKeyed(streams, speaker, reg.channels, |pcm|, now, SceneAt(now), lastEmit, chanActive, codec);
      RightStart(walk, keyed, SceneAt(now), active0, codec);
      assert bursts[|bursts|..] == [];
      WalkStarts(walk, keyed, reg.players[speaker].channels);
      for k := 0 to |walk|
        invariant Valid() && bursts0 <= bursts
        invariant Recorded(streams0, streams, speaker, Done(walk, keyed, k), reg.channels, |pcm|, now)
        invariant chanActive == Stamp(active0, Done(walk, keyed, k), now)
        invariant lastEmit == Stamp(emit0, Due(Done(walk, keyed, k), emit0, now), now)
        invariant RightBursts(bursts[|bursts0|..], walk, keyed, Due(Done(walk, keyed, k), emit0, now), SceneAt(now),
                              active0, codec)
        invariant Numbered(bursts0, seqs0, bursts, seqs)
      {
        var cid := walk[k];
        ghost var seqs1 := seqs;
        WalkStep(walk, keyed, k);
        if cid in KeyedChannels(reg.players[speaker], reg.channels) {
          ghost var was, end, did := bursts, SceneAt(now), Done(walk, keyed, k);
          StampStep(emit0, active0, did, cid, now);
          KeyChannel(speaker, cid, pcm, now);
          RecordedStep(streams0, end.ss, streams, speaker, did, cid, reg.channels, |pcm|, now);
          assert !Throttled(emit0, cid, now) ==> bursts == was + [bursts[|was|]];
          NumberedJoin(bursts0, seqs0, was, seqs1, bursts, seqs);
          BurstsStep(was[|bursts0|..], bursts[|bursts0|..], walk, keyed, did, cid, end, SceneAt(now), active0, emit0,
                     codec, speaker);
        }
      }
    }

    /** Creates the speaker's decoder on first use. */
    method EnsureDecoder(id: u16)
      requires Valid() && id in reg.players
      modifies this`decoders
      ensures Valid() && decoders == old(decoders) + {id}
    {
      decoders := decoders + {id};
    }

    /** The squelch or roger beep for the members of a radio channel other than the operator. */
    method OnRadioKey(speaker: u16, cid: u16) returns (ghost beep: seq<real>)
      requires Valid()
      modifies this`encoders, this`seqs, this`bursts
      ensures Valid()
      ensures !Beeps(conf, reg.channels, cid) ==> bursts == old(bursts)
      ensures Beeps(conf, reg.channels, cid) ==>
                && |bursts| == |old(bursts)| + 1 && bursts[..|old(bursts)|] == old(bursts)
                && bursts[|old(bursts)|].Beep? && bursts[|old(bursts)|].channel == cid
                && |beep| == FRAME_SAMPLES
                && RightBeeps(bursts[|old(bursts)|].packets, BeepListeners(reg.players, reg.channels, cid, speaker),
                              codec, cid, reg.channels[cid].filter, beep)
      ensures Numbered(old(bursts), old(seqs), bursts, seqs)
    {
      hide Numbered, Numbers;
      NumberedNone(bursts, seqs);
      if !Beeps(conf, reg.channels, cid) { return []; }
      var tone: seq<real> := seq(FRAME_SAMPLES, _ => 0.0);
      tone := Colour(tone);
      beep := tone;
      hide RightBeeps;
      var packets: seq<BusDown> := [];
      var all := BeepListeners(reg.players, reg.channels, cid, speaker);
      var todo := all;
      NoBeeps(codec, cid, reg.channels[cid].filter, tone);
      NumbersNone(seqs);
      while todo != {}
        invariant todo <= all && PairTablesLive() && bursts == old(bursts)
        invariant RightBeeps(packets, all - todo, codec, cid, reg.channels[cid].filter, tone)
        invariant Numbers(old(seqs), seqs, packets)
        decreases todo
      {
        var mid :| mid in todo;
        ghost var seqs1 := seqs;
        var more := SendOne(mid, cid, {}, tone, 1.0);
        NumbersJoin(old(seqs), seqs1, seqs, packets, more);
        BeepsStep(packets, all - todo, codec, cid, reg.channels[cid].filter, tone, mid, more);
        packets := packets + more;
        assert all - (todo - {mid}) == all - todo + {mid};
        todo := todo - {mid};
      }
      assert all - todo == all;
      NumberedMore(bursts, old(seqs), bursts, old(seqs), Beep(cid, packets), seqs);
      bursts := bursts + [Beep(cid, packets)];
    }

    /** Drops all state of a player who has just left the registry. */
    method PrunePlayer(pid: u16, ghost ps0: Players, ghost cs0: Channels)
      requires reg.Valid() && reg.players.Keys == ps0.Keys - {pid} && reg.channels.Keys == cs0.Keys
      requires TablesLive(decoders, encoders, streams, seqs, lastEmit, chanActive, garble, ps0, cs0)
      modifies this`decoders, this`streams, this`encoders, this`seqs
      ensures Valid() && decoders == old(decoders) - {pid}
      ensures streams == WithoutHigh(old(streams), pid) && seqs == WithoutHigh(old(seqs), pid)
      ensures encoders == KeysWithoutHigh(old(encoders), pid)
    {
      hide TablesLive, WithoutHigh, KeysWithoutHigh;
      PlayerPruned(decoders, encoders, streams, seqs, lastEmit, chanActive, garble, ps0, cs0, reg.players, reg.channels,
                   pid);
      decoders := decoders - {pid};
      streams := EraseHigh(streams, pid);
      encoders := EraseHighKeys(encoders, pid);
      seqs := EraseHigh(seqs, pid);
    }

    /** Drops all state of a channel that has just been destroyed. */
    method PruneChannel(cid: u16, ghost ps0: Players, ghost cs0: Channels)
      requires reg.Valid() && reg.players.Keys == ps0.Keys && reg.channels.Keys == cs0.Keys - {cid}
      requires TablesLive(decoders, encoders, streams, seqs, lastEmit, chanActive, garble, ps0, cs0)
      modifies this`streams, this`encoders, this`seqs, this`lastEmit, this`chanActive, this`garble
      ensures Valid()
      ensures streams == WithoutLow(old(streams), cid) && seqs == WithoutLow(old(seqs), cid)
      ensures encoders == KeysWithoutLow(old(encoders), cid)
      ensures lastEmit == old(lastEmit) - {cid} && chanActive == old(chanActive) - {cid}
      ensures garble == old(garble) - {cid}
    {
      hide TablesLive, WithoutLow, KeysWithoutLow;
      ChannelPruned(decoders, encoders, streams, seqs, lastEmit, chanActive, garble, ps0, cs0, reg.players,
                    reg.channels, cid);
      streams := EraseLow(streams, cid);
      encoders := EraseLowKeys(encoders, cid);
      seqs := EraseLow(seqs, cid);
      lastEmit, chanActive, garble := lastEmit - {cid}, chanActive - {cid}, garble - {cid};
    }
  }

  lemma PlayerPruned(
      decoders: set<u16>, encoders: set<u32>, ss: Streams, seqs: map<u32, u16>,
      lastEmit: map<u16, u32>, active: map<u16, u32>, garble: set<u16>,
      ps0: Players, cs0: Channels, ps: Players, cs: Channels, pid: u16)
    requires TablesLive(decoders, encoders, ss, seqs, lastEmit, active, garble, ps0, cs0)
    requires ps.Keys == ps0.Keys - {pid} && cs.Keys == cs0.Keys
    ensures TablesLive(decoders - {pid}, KeysWithoutHigh(encoders, pid), WithoutHigh(ss, pid), WithoutHigh(seqs, pid),
                       lastEmit, active, garble, ps, cs)
  {
  }

  lemma ChannelPruned(
      decoders: set<u16>, encoders: set<u32>, ss: Streams, seqs: map<u32, u16>,
      lastEmit: map<u16, u32>, active: map<u16, u32>, garble: set<u16>,
      ps0: Players, cs0: Channels, ps: Players, cs: Channels, cid: u16)
    requires TablesLive(decoders, encoders, ss, seqs, lastEmit, active, garble, ps0, cs0)
    requires ps.Keys == ps0.Keys && cs.Keys == cs0.Keys - {cid}
    ensures TablesLive(decoders, KeysWithoutLow(encoders, cid), WithoutLow(ss, cid), WithoutLow(seqs, cid),
                       lastEmit - {cid}, active - {cid}, garble - {cid}, ps, cs)
  {
  }

  const FRAME_SAMPLES := 960

  predicate Beeps(conf: Behavior, cs: Channels, cid: u16) {
    conf.squelchBeep && cid in cs && cs[cid].filter == FILTER_RADIO
  }

  function BeepListeners(ps: Players, cs: Channels, cid: u16, speaker: u16): set<u16>
    requires cid in cs
  {
    set m | m in cs[cid].members && m != speaker && m in ps && !ps[m].deafen
  }

  /** Every listed listener the codec can encode for gets the beep once, at full volume. */
  ghost predicate RightBeeps(
      packets: seq<BusDown>, to: set<u16>, codec: Codec, cid: u16, filter: u8, beep: seq<real>)
  {
    && (forall k :: 0 <= k < |packets| ==>
          packets[k].to in to && codec(packets[k].to, cid, beep)
          && packets[k] == BusDown(packets[k].to, cid, filter, packets[k].seqNo, 1.0, {}, beep))
    && (forall i, j :: 0 <= i < j < |packets| ==> packets[i].to != packets[j].to)
    && (forall l :: l in to && codec(l, cid, beep) ==> exists k :: 0 <= k < |packets| && packets[k].to == l)
  }

  lemma NoBeeps(codec: Codec, cid: u16, filter: u8, beep: seq<real>)
    ensures RightBeeps([], {}, codec, cid, filter, beep)
  {
  }

  lemma BeepsStep(
      ps: seq<BusDown>, to: set<u16>, codec: Codec, cid: u16, filter: u8, beep: seq<real>, l: u16, more: seq<BusDown>)
    requires RightBeeps(ps, to, codec, cid, filter, beep) && l !in to
    requires codec(l, cid, beep) ==> |more| == 1 && more[0] == BusDown(l, cid, filter, more[0].seqNo, 1.0, {}, beep)
    requires !codec(l, cid, beep) ==> more == []
    ensures RightBeeps(ps + more, to + {l}, codec, cid, filter, beep)
  {
    var qs := ps + more;
    assert codec(l, cid, beep) ==> qs[|ps|].to == l;
    forall x | x in to + {l} && codec(x, cid, beep) ensures exists k :: 0 <= k < |qs| && qs[k].to == x {
      if x != l {
        var k :| 0 <= k < |ps| && ps[k].to == x;
        assert qs[k] == ps[k];
      }
    }
  }

  /** Does a player's voice reach any channel at all? */
  predicate Transmits(ps: Players, id: u16) {
    id in ps && !ps[id].muted && ps[id].transmitting && ps[id].channels != {}
  }

  /** The channels a frame is carried on: those keyed, if the frame decodes. */
  function KeyedNow(ps: Players, cs: Channels, id: u16, pcm: seq<real>): set<u16> {
    if Transmits(ps, id) && pcm != [] then KeyedChannels(ps[id], cs) else {}
  }

  /** The filtered channels a transmitting player is keying. */
  function KeyedChannels(sp: Player, cs: Channels): set<u16> {
    set c | c in sp.channels && c in cs && cs[c].filter != FILTER_NONE
            && (sp.channelMask == 0 || Keyed(sp.channelMask, c))
  }

  /** Was the channel's bus sent too recently? Zero stands for never. */
  predicate Throttled(lastEmit: map<u16, u32>, cid: u16, now: u32) {
    cid in lastEmit && lastEmit[cid] != 0 && Sub32(now, lastEmit[cid]) < FRAME_MS - 2
  }

  function Stamp(m: map<u16, u32>, cs: set<u16>, now: u32): map<u16, u32> {
    m + (map c | c in cs :: now)
  }

  function Due(keyed: set<u16>, lastEmit: map<u16, u32>, now: u32): set<u16> {
    set c | c in keyed && !Throttled(lastEmit, c, now)
  }

  /** Only the speaker's streams on these channels changed, each to a fresh frame of `n` samples. */
  ghost predicate Recorded(ss: Streams, ss': Streams, speaker: u16, keyed: set<u16>, cs: Channels, n: nat, now: u32) {
    && (forall c :: c in keyed ==> HasFrame(ss', Key2(speaker, c), n, now))
    && (forall k :: (forall c :: c in keyed ==> k != Key2(speaker, c)) ==> SameEntry(ss, ss', k))
  }

  predicate HasFrame(ss: Streams, k: u32, n: nat, now: u32) {
    k in ss && |ss[k].pcm| == n && ss[k].lastMs == now
  }

  predicate SameEntry(ss: Streams, ss': Streams, k: u32) {
    (k in ss <==> k in ss') && (k in ss ==> ss'[k] == ss[k])
  }

  // ---- the order of a walk ----

  /** Where an id comes in a walk, or the walk's length. */
  function Place(walk: seq<u16>, x: u16): (p: nat)
    ensures p <= |walk| && (p < |walk| ==> walk[p] == x)
    ensures forall k :: 0 <= k < p ==> walk[k] != x
  {
    if walk == [] || walk[0] == x then 0 else 1 + Place(walk[1..], x)
  }

  /** The walk names each of these ids at a place of its own. */
  ghost predicate Arranges(walk: seq<u16>, ids: set<u16>) {
    && (forall x :: x in ids ==> Place(walk, x) < |walk|)
    && (forall x, y :: x in ids && y in ids && Place(walk, x) == Place(walk, y) ==> x == y)
  }

  /** The walk names exactly these ids, each once. */
  ghost predicate Lists(walk: seq<u16>, ids: set<u16>) {
    && (forall x :: x in ids <==> x in walk)
    && (forall i, j :: 0 <= i < j < |walk| ==> walk[i] != walk[j])
  }

  /** Those of the ids that come among the first `k` of the walk. */
  function Done(walk: seq<u16>, ids: set<u16>, k: nat): set<u16> {
    set x | x in ids && Place(walk, x) < k
  }

  /** Those of the ids that the walk has come to by the time it has dealt with `c`. */
  function UpTo(walk: seq<u16>, ids: set<u16>, c: u16): set<u16> {
    Done(walk, ids, Place(walk, c) + 1)
  }

  lemma WalkStarts(walk: seq<u16>, ids: set<u16>, all: set<u16>)
    requires Lists(walk, all) && ids <= all
    ensures Arranges(walk, ids) && Done(walk, ids, 0) == {} && Done(walk, ids, |walk|) == ids
    ensures forall k :: 0 <= k < |walk| ==> Place(walk, walk[k]) == k
  {
    forall k | 0 <= k < |walk| ensures Place(walk, walk[k]) == k {
      assert walk[Place(walk, walk[k])] == walk[k];
    }
    forall x | x in ids ensures Place(walk, x) < |walk| {
      var k :| 0 <= k < |walk| && walk[k] == x;
    }
  }

  lemma WalkStep(walk: seq<u16>, ids: set<u16>, k: nat)
    requires Arranges(walk, ids) && k < |walk| && Place(walk, walk[k]) == k
    ensures walk[k] in ids ==>
              && walk[k] !in Done(walk, ids, k) && Done(walk, ids, k + 1) == Done(walk, ids, k) + {walk[k]}
              && UpTo(walk, ids, walk[k]) == Done(walk, ids, k + 1)
              && forall x :: x in Done(walk, ids, k) ==> Place(walk, x) < Place(walk, walk[k])
    ensures walk[k] !in ids ==> Done(walk, ids, k + 1) == Done(walk, ids, k)
  {
  }

  /** The order in which a hash set happens to be walked. */
  method AnyOrder(ids: set<u16>) returns (walk: seq<u16>)
    ensures Lists(walk, ids)
  {
    walk := [];
    var todo := ids;
    while todo != {}
      invariant todo <= ids && Lists(walk, ids - todo)
      decreases todo
    {
      var x :| x in todo;
      walk, todo := walk + [x], todo - {x};
    }
    assert ids - todo == ids;
  }

  // ---- the bursts of one frame ----

  /**
    The scene of an emission agrees with the final tables on everything that concerns its channel,
    and saw exactly the channels in `did` newly active.
   */
  ghost predicate SceneOf(sc: Scene, end: Scene, before: map<u16, u32>, did: set<u16>, cid: u16) {
    && sc.maths == end.maths && sc.ps == end.ps && sc.cs == end.cs && sc.prox == end.prox && sc.conf == end.conf
    && sc.now == end.now
    && (forall id: u16 :: SameEntry(sc.ss, end.ss, Key2(id, cid)))
    && sc.active == Stamp(before, did, sc.now)
  }

  /** One right burst for each due channel and nothing else, in the order of the walk. */
  ghost predicate RightBursts(
      bs: seq<Burst>, walk: seq<u16>, keyed: set<u16>, due: set<u16>, end: Scene, before: map<u16, u32>, codec: Codec)
  {
    && (forall k :: 0 <= k < |bs| ==>
          && bs[k].Mixed? && bs[k].channel in due && RightBurst(bs[k], codec)
          && SceneOf(bs[k].scene, end, before, UpTo(walk, keyed, bs[k].channel), bs[k].channel))
    && (forall i, j :: 0 <= i < j < |bs| ==> Place(walk, bs[i].channel) < Place(walk, bs[j].channel))
    && (forall c :: c in due ==> exists k :: 0 <= k < |bs| && bs[k].channel == c)
  }

  lemma RightStart(walk: seq<u16>, keyed: set<u16>, end: Scene, before: map<u16, u32>, codec: Codec)
    ensures RightBursts([], walk, keyed, {}, end, before, codec)
  {
  }

  lemma NobodyYet(sc: Scene, codec: Codec, cid: u16, n: nat)
    requires cid in sc.cs
    ensures RightPackets(sc, codec, cid, n, {}, []) && RightCalls(sc, cid, n, {}, [])
  {
  }

  lemma ListenersKnown(sc: Scene, cid: u16, l: u16)
    requires cid in sc.cs
    ensures Listens(sc, cid, l) ==> l in sc.ps
  {
  }

  lemma VolumeIs(sc: Scene, cid: u16, l: u16)
    requires cid in sc.cs && l in sc.ps
    ensures VolumeFor(sc, cid, l) ==
            DesignGain(sc.ps[l], sc.cs[cid].priority,
                       !TopPriority(sc.cs[cid].priority, ActiveBuses(sc.ps[l], sc.cs, sc.active, sc.now), sc.cs))
  {
  }

  lemma Extend(
      sc: Scene, codec: Codec, cid: u16, n: nat, done: set<u16>,
      packets: seq<BusDown>, calls: seq<PhoneCall>, l: u16, ps: seq<BusDown>, cs: seq<PhoneCall>)
    requires cid in sc.cs && l !in done
    requires RightPackets(sc, codec, cid, n, done, packets) && RightCalls(sc, cid, n, done, calls)
    requires Served(sc, codec, cid, n, l) ==> |ps| == 1 && ps[0].to == l && RightPacket(sc, codec, cid, n, ps[0])
    requires !Served(sc, codec, cid, n, l) ==> ps == []
    requires cs == if OnSpeaker(sc, cid, l) then [PhoneCall(l, cid, Mix(sc.ss, Sources(sc, cid, l), cid, n))] else []
    ensures RightPackets(sc, codec, cid, n, done + {l}, packets + ps)
    ensures RightCalls(sc, cid, n, done + {l}, calls + cs)
  {
    hide RightPackets, RightCalls, RightPacket, Served, OnSpeaker;
    assert packets + [] == packets && calls + [] == calls;
    if Served(sc, codec, cid, n, l) {
      assert ps == [ps[0]];
      PacketsAdd(sc, codec, cid, n, done, packets, ps[0]);
    } else {
      PacketsSkip(sc, codec, cid, n, done, packets, l);
    }
    if OnSpeaker(sc, cid, l) {
      CallsAdd(sc, cid, n, done, calls, l);
    } else {
      CallsSkip(sc, cid, n, done, calls, l);
    }
  }

  /** A member whose frame has just been recorded counts as talking. */
  lemma SpeakerTalks(sc: Scene, cid: u16, speaker: u16)
    requires cid in sc.cs && speaker in sc.cs[cid].members
    requires exists n :: n > 0 && HasFrame(sc.ss, Key2(speaker, cid), n, sc.now)
    ensures speaker in Talkers(sc, cid)
  {
  }

  lemma NothingKeyed(
      ss: Streams, speaker: u16, cs: Channels, n: nat, now: u32, end: Scene,
      lastEmit: map<u16, u32>, active: map<u16, u32>, codec: Codec)
    ensures Recorded(ss, ss, speaker, {}, cs, n, now)
    ensures Due({}, lastEmit, now) == {} && Stamp(lastEmit, {}, now) == lastEmit && Stamp(active, {}, now) == active
    ensures RightBursts([], [], {}, {}, end, active, codec) && Arranges([], {})
  {
  }

  lemma StampAdd(m: map<u16, u32>, cs: set<u16>, cid: u16, now: u32)
    ensures Stamp(m, cs + {cid}, now) == Stamp(m, cs, now)[cid := now]
  {
  }

  lemma StampElsewhere(m: map<u16, u32>, cs: set<u16>, cid: u16, now: u32)
    requires cid !in cs
    ensures Throttled(Stamp(m, cs, now), cid, now) == Throttled(m, cid, now)
  {
    SameThrottle(m, Stamp(m, cs, now), cid, now);
  }

  lemma StampStep(emit: map<u16, u32>, active: map<u16, u32>, did: set<u16>, cid: u16, now: u32)
    requires cid !in did
    ensures Throttled(Stamp(emit, Due(did, emit, now), now), cid, now) == Throttled(emit, cid, now)
    ensures Stamp(emit, Due(did + {cid}, emit, now), now) ==
            if Throttled(emit, cid, now) then Stamp(emit, Due(did, emit, now), now)
            else Stamp(emit, Due(did, emit, now), now)[cid := now]
    ensures Stamp(active, did + {cid}, now) == Stamp(active, did, now)[cid := now]
  {
    hide Throttled, Stamp;
    var due := Due(did, emit, now);
    assert Due(did + {cid}, emit, now) == if Throttled(emit, cid, now) then due else due + {cid};
    StampElsewhere(emit, due, cid, now);
    StampAdd(emit, due, cid, now);
    StampAdd(active, did, cid, now);
  }

  lemma SameThrottle(a: map<u16, u32>, b: map<u16, u32>, cid: u16, now: u32)
    requires (cid in a <==> cid in b) && (cid in a ==> a[cid] == b[cid])
    ensures Throttled(a, cid, now) == Throttled(b, cid, now)
  {
  }

  lemma RecordedStep(
      ss0: Streams, ss: Streams, ss': Streams, speaker: u16, did: set<u16>, cid: u16, cs: Channels, n: nat, now: u32)
    requires Recorded(ss0, ss, speaker, did, cs, n, now)
    requires HasFrame(ss', Key2(speaker, cid), n, now)
    requires ss' == ss[Key2(speaker, cid) := ss'[Key2(speaker, cid)]]
    ensures Recorded(ss0, ss', speaker, did + {cid}, cs, n, now)
  {
    hide Key2;
    forall k | forall c :: c in did + {cid} ==> k != Key2(speaker, c) ensures SameEntry(ss0, ss', k) {
      assert cid in did + {cid} && forall c :: c in did ==> c in did + {cid};
      assert SameEntry(ss0, ss, k);
    }
  }

  lemma OtherChannelSame(ss: Streams, ss': Streams, speaker: u16, cid: u16, c: u16)
    requires Key2(speaker, cid) in ss' && ss' == ss[Key2(speaker, cid) := ss'[Key2(speaker, cid)]] && c != cid
    ensures forall id: u16 :: SameEntry(ss, ss', Key2(id, c))
  {
    forall id: u16 ensures SameEntry(ss, ss', Key2(id, c)) {
      Key2Halves(id, c);
      Key2Halves(speaker, cid);
    }
  }

  lemma SceneMoves(
      sc: Scene, end: Scene, end': Scene, before: map<u16, u32>, did: set<u16>, speaker: u16, cid: u16, c: u16)
    requires SceneOf(sc, end, before, did, c) && c != cid
    requires end' == end.(ss := end'.ss, active := end'.active)
    requires Key2(speaker, cid) in end'.ss && end'.ss == end.ss[Key2(speaker, cid) := end'.ss[Key2(speaker, cid)]]
    ensures SceneOf(sc, end', before, did, c)
  {
    hide Key2, SameEntry, Stamp;
    OtherChannelSame(end.ss, end'.ss, speaker, cid, c);
    forall id: u16 ensures SameEntry(sc.ss, end'.ss, Key2(id, c)) {
      SameEntryTwice(sc.ss, end.ss, end'.ss, Key2(id, c));
    }
  }

  lemma SameEntryTwice(a: Streams, b: Streams, c: Streams, k: u32)
    requires SameEntry(a, b, k) && SameEntry(b, c, k)
    ensures SameEntry(a, c, k)
  {
  }

  lemma BurstsStep(
      bs: seq<Burst>, bs': seq<Burst>, walk: seq<u16>, keyed: set<u16>, did: set<u16>, cid: u16,
      end: Scene, end': Scene, active: map<u16, u32>, emit: map<u16, u32>, codec: Codec, speaker: u16)
    requires cid !in did && RightBursts(bs, walk, keyed, Due(did, emit, end.now), end, active, codec)
    requires UpTo(walk, keyed, cid) == did + {cid} && forall x :: x in did ==> Place(walk, x) < Place(walk, cid)
    requires end' == end.(ss := end'.ss, active := end'.active)
    requires Key2(speaker, cid) in end'.ss && end'.ss == end.ss[Key2(speaker, cid) := end'.ss[Key2(speaker, cid)]]
    requires end'.active == Stamp(active, did + {cid}, end.now)
    requires Throttled(emit, cid, end.now) ==> bs' == bs
    requires !Throttled(emit, cid, end.now) ==>
               && |bs'| == |bs| + 1 && bs'[..|bs|] == bs && bs'[|bs|].Mixed?
               && bs'[|bs|].channel == cid && bs'[|bs|].scene == end' && RightBurst(bs'[|bs|], codec)
    ensures RightBursts(bs', walk, keyed, Due(did + {cid}, emit, end.now), end', active, codec)
  {
    hide RightBurst, RightBursts, Throttled, SceneOf, Key2, UpTo, Place, Stamp;
    var due, due' := Due(did, emit, end.now), Due(did + {cid}, emit, end.now);
    assert due' == if Throttled(emit, cid, end.now) then due else due + {cid};
    BurstsMove(bs, walk, keyed, due, cid, end, end', active, codec, speaker);
    if !Throttled(emit, cid, end.now) {
      OwnScene(end', active, did + {cid}, cid);
      assert bs' == bs + [bs'[|bs|]];
      BurstsAppend(bs, walk, keyed, due, bs'[|bs|], end', active, codec);
    }
  }

  /** Bursts of other channels are not touched by what one channel's turn changes. */
  lemma BurstsMove(
      bs: seq<Burst>, walk: seq<u16>, keyed: set<u16>, due: set<u16>, cid: u16, end: Scene, end': Scene,
      active: map<u16, u32>, codec: Codec, speaker: u16)
    requires RightBursts(bs, walk, keyed, due, end, active, codec) && cid !in due
    requires end' == end.(ss := end'.ss, active := end'.active)
    requires Key2(speaker, cid) in end'.ss && end'.ss == end.ss[Key2(speaker, cid) := end'.ss[Key2(speaker, cid)]]
    ensures RightBursts(bs, walk, keyed, due, end', active, codec)
  {
    hide RightBurst, SceneOf, Key2, UpTo, Place;
    forall k | 0 <= k < |bs|
      ensures SceneOf(bs[k].scene, end', active, UpTo(walk, keyed, bs[k].channel), bs[k].channel)
    {
      SceneMoves(bs[k].scene, end, end', active, UpTo(walk, keyed, bs[k].channel), speaker, cid, bs[k].channel);
    }
  }

  lemma BurstsAppend(
      bs: seq<Burst>, walk: seq<u16>, keyed: set<u16>, due: set<u16>, b: Burst, end: Scene,
      active: map<u16, u32>, codec: Codec)
    requires RightBursts(bs, walk, keyed, due, end, active, codec)
    requires b.Mixed? && RightBurst(b, codec)
    requires SceneOf(b.scene, end, active, UpTo(walk, keyed, b.channel), b.channel)
    requires forall x :: x in due ==> Place(walk, x) < Place(walk, b.channel)
    ensures RightBursts(bs + [b], walk, keyed, due + {b.channel}, end, active, codec)
  {
    hide RightBurst, SceneOf, UpTo, Place;
    var bs' := bs + [b];
    assert forall k :: 0 <= k < |bs| ==> bs'[k] == bs[k];
    assert bs'[|bs|] == b;
    forall c | c in due + {b.channel} ensures exists k :: 0 <= k < |bs'| && bs'[k].channel == c {
      if c != b.channel {
        var k :| 0 <= k < |bs| && bs[k].channel == c;
        assert bs'[k] == bs[k];
      }
    }
  }

  lemma OwnScene(end: Scene, before: map<u16, u32>, did: set<u16>, cid: u16)
    requires end.active == Stamp(before, did, end.now)
    ensures SceneOf(end, end, before, did, cid)
  {
  }

  // ---- the rate of a bus ----

  /** Is an emission at `prev` followed by another at `next` let through by the rate limit? */
  predicate LetThrough(prev: nat, next: nat) {
    !Throttled(map[0 := prev % 0x1_0000_0000], 0, next % 0x1_0000_0000)
  }

  /** The gap is guaranteed after every emission but those at a clock reading of zero. */
  lemma GapIff(prev: nat)
    ensures (forall next: nat :: next >= prev && LetThrough(prev, next) ==> next - prev >= FRAME_MS - 2)
            <==> prev % 0x1_0000_0000 != 0
  {
    if prev % 0x1_0000_0000 == 0 {
      assert LetThrough(prev, prev);
    } else {
      forall next: nat | next >= prev && LetThrough(prev, next) ensures next - prev >= FRAME_MS - 2 {
        assert Sub32(next % 0x1_0000_0000, prev % 0x1_0000_0000) == (next - prev) % 0x1_0000_0000;
      }
    }
  }

  /** Any stretch of emissions of one channel on a positive, nondecreasing clock is spread out. */
  lemma {:induction false} EmitsAreSpread(times: seq<nat>, i: nat, j: nat)
    requires forall k :: 0 <= k < |times| - 1 ==> times[k] <= times[k + 1] && LetThrough(times[k], times[k + 1])
    requires forall k :: 0 <= k < |times| ==> times[k] % 0x1_0000_0000 != 0
    requires i <= j < |times|
    ensures times[j] - times[i] >= (FRAME_MS - 2) * (j - i)
  {
    if i < j {
      EmitsAreSpread(times, i, j - 1);
      GapIff(times[j - 1]);
      assert LetThrough(times[j - 1], times[j - 1 + 1]);
    }
  }
}
