/** The routing engine: core/src/engine.cpp. */
module Engine {
  import opened Common
  import opened Ints
  import opened Reals
  import opened Registry
  import opened Proximity
  import opened SpatialGrid
  import opened NearSet
  import opened BusRouter
  import opened Talk
  import ControlLink

  const AF_OCCLUDED: u8 := 4
  const AF_SPEAKERPH: u8 := 8
  const REBUILD_TICKS := 1024
  const CELL := 50.0
  const SPEAKERPHONE_ID_BIT := 0x8000

  /** Proximity packets carry the speaker's own frame, or an encoded call. */
  datatype Payload = Opus(bytes: seq<u8>) | Call(mix: seq<real>)

  datatype ProximityDown = ProximityDown(
    to: u16, speaker: u16, seqNo: u16, flags: u8, volume: real, pan: real, payload: Payload)

  /** `flags | AF_OCCLUDED` when occluded. */
  function WithOccluded(flags: u8, occluded: bool): u8 {
    if occluded && flags / AF_OCCLUDED % 2 == 0 then flags + AF_OCCLUDED else flags
  }

  /** `id | SPEAKERPHONE_ID_BIT`. */
  function SynthId(id: u16): u16 {
    if id >= SPEAKERPHONE_ID_BIT then id else id + SPEAKERPHONE_ID_BIT
  }

  type NearTable = map<u16, seq<NearEntry>>

  function NearOf(near: NearTable, l: u16): seq<NearEntry> {
    if l in near then near[l] else []
  }

  // ---- who hears a speaker ----

  /** The placement table files live players under the cell of their current record. */
  ghost predicate Placed(where: Where, ps: Players, cell: real)
    requires cell > 0.0
  {
    forall id :: id in where ==> id in ps && where[id] == KeyFor(ps[id], cell)
  }

  /** May this listener hear the speaker in person? */
  predicate Hears(m: Maths, sp: Player, li: Player, t: ProximityTuning) {
    !li.deafen && sp.id !in li.mutedTargets && Evaluate(m, sp, li, t).audible
  }

  /** The plain rule: every placed player who may hear, found by looking at all of them. */
  function NaiveHearers(m: Maths, ps: Players, where: Where, t: ProximityTuning, sp: Player, but: set<u16>): set<u16> {
    set l | l in where && l in ps && l != sp.id && l !in but && Hears(m, sp, ps[l], t)
  }

  /** The grid's rule: those among the neighbouring cells. */
  function GridHearers(
      m: Maths, ps: Players, where: Where, cell: real, t: ProximityTuning, sp: Player, but: set<u16>): set<u16>
    requires cell > 0.0
  {
    set l | l in NaiveHearers(m, ps, where, t, sp, but)
            && InSquare(where[l], KeyFor(sp, cell), Span(EffectiveRange(sp, t), cell))
  }

  /** Looking at the neighbouring cells finds everyone, as long as the range is not negative. */
  lemma GridMissesNobody(
      m: Maths, ps: Players, where: Where, cell: real, t: ProximityTuning, sp: Player, but: set<u16>)
    requires cell > 0.0 && Placed(where, ps, cell) && EffectiveRange(sp, t) >= 0.0
    ensures GridHearers(m, ps, where, cell, t, sp, but) == NaiveHearers(m, ps, where, t, sp, but)
  {
    hide Evaluate, EffectiveRange, Span, CellOf, Dist2, Square;
    forall l | l in NaiveHearers(m, ps, where, t, sp, but)
      ensures InSquare(where[l], KeyFor(sp, cell), Span(EffectiveRange(sp, t), cell))
    {
      AudibleIsNear(m, sp, ps[l], t);
      NearIsInSpan(sp.pos, ps[l].pos, EffectiveRange(sp, t), cell);
    }
  }

  // ---- the batch of one fan-out ----

  predicate RightDown(m: Maths, ps: Players, t: ProximityTuning, sp: Player, head: ProximityDown, p: ProximityDown) {
    p.to in ps &&
    var r := Evaluate(m, sp, ps[p.to], t);
    p == head.(to := p.to, flags := WithOccluded(head.flags, r.occluded), volume := r.volume, pan := r.pan)
  }

  ghost predicate SentTo(batch: seq<ProximityDown>, l: u16) {
    exists k :: 0 <= k < |batch| && batch[k].to == l
  }

  /** The cap lets the speaker through to the listener and updates the listener's set. */
  ghost predicate Admission(
      near: NearTable, near': NearTable, n: nat, tick: u32, l: u16, speaker: u16, vol: real, ok: bool)
  {
    if n == 0 then ok && NearOf(near', l) == NearOf(near, l)
    else Admits(Fresh(NearOf(near, l), tick), Entries(NearOf(near', l)), speaker, vol, tick, n, ok)
  }

  datatype Fan = Fan(
    m: Maths, ps: Players, t: ProximityTuning, sp: Player, head: ProximityDown, n: nat, tick: u32)

  /**
    Packets go to hearers only, to each at most once, and rightly filled in; a hearer gets one
    exactly when the cap admits the speaker; nobody else's set changes.
   */
  ghost predicate RightFan(f: Fan, hearers: set<u16>, near: NearTable, near': NearTable, batch: seq<ProximityDown>) {
    && hearers <= f.ps.Keys
    && (forall k :: 0 <= k < |batch| ==> batch[k].to in hearers && RightDown(f.m, f.ps, f.t, f.sp, f.head, batch[k]))
    && (forall i, j :: 0 <= i < j < |batch| ==> batch[i].to != batch[j].to)
    && (forall l :: l in hearers ==>
          Admission(near, near', f.n, f.tick, l, f.head.speaker, Evaluate(f.m, f.sp, f.ps[l], f.t).volume,
                    SentTo(batch, l)))
    && (forall l: u16 :: l !in hearers ==> NearOf(near', l) == NearOf(near, l))
  }

  /** Without a cap the packets go to exactly the hearers. */
  lemma UncappedReachesAll(f: Fan, hearers: set<u16>, near: NearTable, near': NearTable, batch: seq<ProximityDown>)
    requires RightFan(f, hearers, near, near', batch) && f.n == 0
    ensures forall l: u16 :: SentTo(batch, l) <==> l in hearers
  {
    hide RightDown;
  }

  // ---- the same, field by field ----

  /** Same interior and world, nearer than the range, and loud enough to matter. */
  predicate InEarshot(m: Maths, sp: Player, li: Player, t: ProximityTuning) {
    && sp.interior == li.interior && sp.vworld == li.vworld
    && EffectiveRange(sp, t) != 0.0
    && Dist2(sp.pos, li.pos) < Square(EffectiveRange(sp, t))
    && Volume(m, sp, li, t) > 0.001
  }

  /** A listener who is neither deaf nor mutes the speaker, and who is in earshot. */
  predicate MayGet(m: Maths, ps: Players, t: ProximityTuning, sp: Player, but: set<u16>, l: u16) {
    && l in ps && l != sp.id && l !in but
    && !ps[l].deafen && sp.id !in ps[l].mutedTargets && InEarshot(m, sp, ps[l], t)
  }

  /** The packet is for such a listener, at the volume and from the side it is heard. */
  predicate PlainTo(m: Maths, ps: Players, t: ProximityTuning, sp: Player, but: set<u16>, p: ProximityDown) {
    && MayGet(m, ps, t, sp, but, p.to)
    && p.volume == Volume(m, sp, ps[p.to], t) && p.volume > 0.001 && p.pan == Pan(sp, ps[p.to], t)
  }

  /** What the packet carries: bit 2 of the flags is set when a closed vehicle is in between. */
  predicate PlainHead(
      ps: Players, t: ProximityTuning, sp: Player, speaker: u16, seqNo: u16, flags: u8, payload: Payload,
      p: ProximityDown)
  {
    && p.to in ps && p.speaker == speaker && p.seqNo == seqNo && p.payload == payload
    && p.flags == if t.occlusion && (sp.vehicle == 2 || ps[p.to].vehicle == 2) && flags / 4 % 2 == 0
                  then flags + 4 else flags
  }

  ghost predicate PlainBatch(f: Fan, but: set<u16>, batch: seq<ProximityDown>) {
    && (forall k :: 0 <= k < |batch| ==>
          && PlainTo(f.m, f.ps, f.t, f.sp, but, batch[k])
          && PlainHead(f.ps, f.t, f.sp, f.head.speaker, f.head.seqNo, f.head.flags, f.head.payload, batch[k]))
    && (forall i, j :: 0 <= i < j < |batch| ==> batch[i].to != batch[j].to)
  }

  /** Every placed player who may get the packet gets it. */
  ghost predicate ReachesAll(f: Fan, where: Where, but: set<u16>, batch: seq<ProximityDown>) {
    forall l: u16 :: l in where && MayGet(f.m, f.ps, f.t, f.sp, but, l) ==> SentTo(batch, l)
  }

  /** The rule the engine goes by and the fields agree. */
  lemma HearsIff(m: Maths, ps: Players, t: ProximityTuning, sp: Player, but: set<u16>, l: u16)
    ensures MayGet(m, ps, t, sp, but, l) <==>
            l in ps && l != sp.id && l !in but && Hears(m, sp, ps[l], t)
    ensures MayGet(m, ps, t, sp, but, l) ==>
              var r := Evaluate(m, sp, ps[l], t);
              && r.volume == Volume(m, sp, ps[l], t) && r.volume > 0.001 && r.pan == Pan(sp, ps[l], t)
              && (r.occluded <==> t.occlusion && (sp.vehicle == 2 || ps[l].vehicle == 2))
  {
    hide Dist2, Pan, Volume;
    SquareSign(EffectiveRange(sp, t));
    if l in ps {
      DistanceSign(sp.pos, ps[l].pos);
    }
    hide Square, EffectiveRange;
  }

  lemma DistanceSign(a: Vec3, b: Vec3)
    ensures Dist2(a, b) >= 0.0
  {
  }

  lemma FanIsPlain(
      f: Fan, where: Where, cell: real, but: set<u16>, near: NearTable, near': NearTable, batch: seq<ProximityDown>)
    requires cell > 0.0 && RightFan(f, GridHearers(f.m, f.ps, where, cell, f.t, f.sp, but), near, near', batch)
    ensures PlainBatch(f, but, batch)
    ensures f.n == 0 && Placed(where, f.ps, cell) && EffectiveRange(f.sp, f.t) >= 0.0 ==>
              ReachesAll(f, where, but, batch)
  {
    hide Evaluate, EffectiveRange, InSquare, Span, KeyFor, Placed, Admission, Pan, Volume, InEarshot;
    forall k | 0 <= k < |batch|
      ensures PlainTo(f.m, f.ps, f.t, f.sp, but, batch[k])
      ensures PlainHead(f.ps, f.t, f.sp, f.head.speaker, f.head.seqNo, f.head.flags, f.head.payload, batch[k])
    {
      HearsIff(f.m, f.ps, f.t, f.sp, but, batch[k].to);
    }
    if f.n == 0 && Placed(where, f.ps, cell) && EffectiveRange(f.sp, f.t) >= 0.0 {
      GridMissesNobody(f.m, f.ps, where, cell, f.t, f.sp, but);
      UncappedReachesAll(f, GridHearers(f.m, f.ps, where, cell, f.t, f.sp, but), near, near', batch);
      forall l: u16 | l in where && MayGet(f.m, f.ps, f.t, f.sp, but, l) ensures SentTo(batch, l) {
        HearsIff(f.m, f.ps, f.t, f.sp, but, l);
      }
    }
  }

  // ---- the direct packets of a frame ----

  /** May the speaker's frame be carried directly at all? */
  predicate Carried(f: Fan) {
    Speaks(f.ps, f.head.speaker) && f.head.payload.Opus? && |f.head.payload.bytes| <= MAX_OPUS_BYTES
  }

  /** The direct packets of a frame, and what the cap remembers of them. */
  ghost predicate RightDirect(
      f: Fan, where: Where, cell: real, near: NearTable, near': NearTable, direct: seq<ProximityDown>)
    requires cell > 0.0
  {
    if Carried(f) then RightFan(f, GridHearers(f.m, f.ps, where, cell, f.t, f.sp, {}), near, near', direct)
    else direct == [] && near' == near
  }

  /** The direct packet of a frame, but for what varies with the listener. */
  function FrameOf(speaker: u16, seqNo: u16, flags: u8, opus: seq<u8>): ProximityDown {
    ProximityDown(0, speaker, seqNo, flags, 0.0, 0.0, Opus(opus))
  }

  /** What goes out of a frame is the frame: its number, its flags, and its bytes. */
  predicate Carries(f: Fan, speaker: u16, seqNo: u16, flags: u8, opus: seq<u8>) {
    f.head.speaker == speaker && f.head.seqNo == seqNo && f.head.flags == flags && f.head.payload == Opus(opus)
  }

  lemma FanStarts(f: Fan, near: NearTable)
    ensures RightFan(f, {}, near, near, [])
  {
  }

  /** One more hearer, with or without a packet. */
  lemma FanStep(
      f: Fan, hearers: set<u16>, near: NearTable, mid: NearTable, near': NearTable,
      batch: seq<ProximityDown>, l: u16, p: ProximityDown, ok: bool)
    requires RightFan(f, hearers, near, mid, batch) && l !in hearers && l in f.ps
    requires p.to == l && RightDown(f.m, f.ps, f.t, f.sp, f.head, p)
    requires Admission(mid, near', f.n, f.tick, l, f.head.speaker, Evaluate(f.m, f.sp, f.ps[l], f.t).volume, ok)
    requires forall x: u16 :: x != l ==> NearOf(near', x) == NearOf(mid, x)
    ensures RightFan(f, hearers + {l}, near, near', batch + (if ok then [p] else []))
  {
    hide RightDown, Evaluate, Admits, NearOf;
    var batch' := batch + (if ok then [p] else []);
    assert !SentTo(batch, l);
    assert ok ==> batch'[|batch|] == p;
    forall x: u16 ensures SentTo(batch', x) == if x == l then ok else SentTo(batch, x) {
      if SentTo(batch, x) {
        var k :| 0 <= k < |batch| && batch[k].to == x;
        assert batch'[k].to == x;
      }
    }
    forall x | x in hearers
      ensures Admission(near, near', f.n, f.tick, x, f.head.speaker, Evaluate(f.m, f.sp, f.ps[x], f.t).volume,
                        SentTo(batch', x))
    {
      assert NearOf(near', x) == NearOf(mid, x);
    }
  }

  /** Near-sets belong to live listeners, list each speaker once, and respect the cap. */
  ghost predicate NearInv(near: NearTable, ps: Players, n: nat) {
    near.Keys <= ps.Keys
    && forall l :: l in near ==> UniqueSpeakers(near[l]) && (n > 0 ==> |near[l]| <= n)
  }

  /** Can the player be heard in person at all? */
  predicate Speaks(ps: Players, id: u16) {
    id in ps && (ps[id].alive || ps[id].spectator)
  }

  /** The part of a record that placement and talk detection go by. */
  predicate SameCore(p: Player, q: Player) {
    && p.pos == q.pos && p.interior == q.interior && p.vworld == q.vworld
    && p.audioActive == q.audioActive && p.lastAudioTick == q.lastAudioTick
  }

  ghost predicate CoreKept(ps: Players, ps': Players) {
    ps.Keys <= ps'.Keys && forall p :: p in ps' ==> SameCore(PlayerOr(ps, p), ps'[p])
  }

  /** Changes outside the core, and newcomers, disturb nothing. */
  lemma CoreSuffices(
      ps: Players, ps': Players, where: Where, cell: real, near: NearTable, n: nat, log: seq<Event>, tick: u32)
    requires cell > 0.0 && CoreKept(ps, ps')
    requires Placed(where, ps, cell) && NearInv(near, ps, n) && Reported(log, ps) && Timely(ps, tick)
    ensures Placed(where, ps', cell) && NearInv(near, ps', n) && Reported(log, ps') && Timely(ps', tick)
  {
    hide CellOf, UniqueSpeakers;
    assert forall p :: p in ps ==> p in ps' && SameCore(ps[p], ps'[p]);
    SameReported(log, ps, ps');
  }

  lemma TablesGrow(
      decoders: set<u16>, encoders: set<u32>, ss: Streams, seqs: map<u32, u16>,
      lastEmit: map<u16, u32>, active: map<u16, u32>, garble: set<u16>,
      ps: Players, cs: Channels, ps': Players, cs': Channels)
    requires TablesLive(decoders, encoders, ss, seqs, lastEmit, active, garble, ps, cs)
    requires ps.Keys <= ps'.Keys && cs.Keys <= cs'.Keys
    ensures TablesLive(decoders, encoders, ss, seqs, lastEmit, active, garble, ps', cs')
  {
  }

  /** The calls handed back by a list of bursts, in order. */
  function CallsOf(bs: seq<Burst>): seq<PhoneCall> {
    if bs == [] then [] else (if bs[0].Mixed? then bs[0].calls else []) + CallsOf(bs[1..])
  }

  /** None is left out and none is made up: they are those of each mixed burst in turn. */
  lemma {:induction false} CallsInTurn(bs: seq<Burst>, b: Burst)
    ensures CallsOf(bs + [b]) == CallsOf(bs) + (if b.Mixed? then b.calls else []) && CallsOf([]) == []
  {
    if bs == [] {
      assert bs + [b] == [b] && [b][1..] == [];
    } else {
      var x, y := if bs[0].Mixed? then bs[0].calls else [], if b.Mixed? then b.calls else [];
      assert (bs + [b])[1..] == bs[1..] + [b];
      CallsInTurn(bs[1..], b);
      assert CallsOf(bs) == x + CallsOf(bs[1..]);
      assert CallsOf(bs + [b]) == x + CallsOf(bs[1..] + [b]);
      assert x + (CallsOf(bs[1..]) + y) == x + CallsOf(bs[1..]) + y;
    }
  }

  /** No bus packet carries the speaker to someone who got the speaker's frame directly. */
  ghost predicate NoDouble(direct: seq<ProximityDown>, bs: seq<Burst>, speaker: u16) {
    forall b, k :: 0 <= b < |bs| && bs[b].Mixed? && 0 <= k < |bs[b].packets| && SentTo(direct, bs[b].packets[k].to)
                   ==> speaker !in bs[b].packets[k].sources
  }

  /** Who is heard in person is left out of the bus, so nobody is heard twice. */
  lemma HeardOnce(
      f: Fan, hearers: set<u16>, near: NearTable, near': NearTable, direct: seq<ProximityDown>,
      bs: seq<Burst>, walk: seq<u16>, keyed: set<u16>, due: set<u16>, end: Scene, before: map<u16, u32>, codec: Codec)
    requires RightFan(f, hearers, near, near', direct) && RightBursts(bs, walk, keyed, due, end, before, codec)
    requires end.conf.suppressDoublePlay && f.m == end.maths && f.ps == end.ps && f.t == end.prox
    requires f.sp.id in f.ps && f.ps[f.sp.id] == f.sp
    requires forall l :: l in hearers ==> Evaluate(f.m, f.sp, f.ps[l], f.t).audible
    ensures NoDouble(direct, bs, f.sp.id)
  {
    hide RightDown, Evaluate, Admission, Longest, RightCalls, VolumeFor, Mix, Talkers, Served, Place, UpTo, Stamp;
    forall b, k | 0 <= b < |bs| && bs[b].Mixed? && 0 <= k < |bs[b].packets| && SentTo(direct, bs[b].packets[k].to)
      ensures f.sp.id !in bs[b].packets[k].sources
    {
      var i :| 0 <= i < |direct| && direct[i].to == bs[b].packets[k].to;
      assert direct[i].to in hearers;
      assert InPerson(f.m, f.ps, f.t, f.sp.id, direct[i].to);
    }
  }

  /** The packet brings the call to a bystander: near the holder, not the holder, not on the channel. */
  predicate ForBystander(m: Maths, ps: Players, cs: Channels, t: ProximityTuning, call: PhoneCall, p: ProximityDown) {
    && call.holder in ps && (ps[call.holder].alive || ps[call.holder].spectator)
    && p.speaker == (if call.holder >= 0x8000 then call.holder else call.holder + 0x8000)
    && p.payload == Call(call.mix)
    && PlainTo(m, ps, t, ps[call.holder], if call.channel in cs then cs[call.channel].members else {}, p)
  }

  ghost predicate FromCalls(
      m: Maths, ps: Players, cs: Channels, t: ProximityTuning, calls: seq<PhoneCall>, batch: seq<ProximityDown>)
  {
    forall k :: 0 <= k < |batch| ==> FromACall(m, ps, cs, t, calls, batch[k])
  }

  ghost predicate FromACall(
      m: Maths, ps: Players, cs: Channels, t: ProximityTuning, calls: seq<PhoneCall>, p: ProximityDown)
  {
    exists c :: 0 <= c < |calls| && ForBystander(m, ps, cs, t, calls[c], p)
  }

  lemma NoCallsYet(m: Maths, ps: Players, cs: Channels, t: ProximityTuning, calls: seq<PhoneCall>)
    ensures FromCalls(m, ps, cs, t, calls, [])
  {
  }

  /** What decides where a call put on speaker is heard. */
  datatype Room = Room(
    m: Maths, ps: Players, cs: Channels, t: ProximityTuning, where: Where, cell: real, n: nat, tick: u32,
    spkCodec: (u16, seq<real>) -> bool)

  function CallFrame(call: PhoneCall, seqNo: u16): ProximityDown {
    ProximityDown(0, SynthId(call.holder), seqNo, AF_SPEAKERPH, 0.0, 0.0, Call(call.mix))
  }

  /** Those who hear the call on the channel anyway. */
  function OnTheCall(cs: Channels, call: PhoneCall): set<u16> {
    if call.channel in cs then cs[call.channel].members else {}
  }

  predicate Encoded(r: Room, call: PhoneCall) {
    Speaks(r.ps, call.holder) && call.mix != [] && r.spkCodec(call.holder, call.mix)
  }

  function NextSeq(seqs: map<u16, u16>, holder: u16): u16 {
    Inc16(if holder in seqs then seqs[holder] else 0)
  }

  function CallFan(r: Room, call: PhoneCall, seqNo: u16): Fan
    requires call.holder in r.ps
  {
    Fan(r.m, r.ps, r.t, r.ps[call.holder], CallFrame(call, seqNo), r.n, r.tick)
  }

  /** One call: the packets to exactly those the holder's surroundings and the cap admit, under the next number. */
  ghost predicate RightCall(
      r: Room, call: PhoneCall, near: NearTable, seqs: map<u16, u16>, near': NearTable, seqs': map<u16, u16>,
      batch: seq<ProximityDown>)
    requires r.cell > 0.0
  {
    if Encoded(r, call) then
      && seqs' == seqs[call.holder := NextSeq(seqs, call.holder)]
      && RightFan(CallFan(r, call, NextSeq(seqs, call.holder)),
                  GridHearers(r.m, r.ps, r.where, r.cell, r.t, r.ps[call.holder], OnTheCall(r.cs, call)),
                  near, near', batch)
    else batch == [] && near' == near && seqs' == seqs
  }

  /** The calls, one after the other, and all packets they bring about. */
  ghost predicate Played(
      r: Room, calls: seq<PhoneCall>, near: NearTable, seqs: map<u16, u16>, near': NearTable, seqs': map<u16, u16>,
      out: seq<ProximityDown>)
    requires r.cell > 0.0
  {
    if calls == [] then out == [] && near' == near && seqs' == seqs
    else
      var front, last := calls[..|calls| - 1], calls[|calls| - 1];
      exists near1: NearTable, seqs1: map<u16, u16>, out1: seq<ProximityDown>, batch: seq<ProximityDown> ::
        && Played(r, front, near, seqs, near1, seqs1, out1)
        && RightCall(r, last, near1, seqs1, near', seqs', batch)
        && out == out1 + batch
  }

  lemma PlayedMore(
      r: Room, calls: seq<PhoneCall>, call: PhoneCall, near: NearTable, seqs: map<u16, u16>, near1: NearTable,
      seqs1: map<u16, u16>, near': NearTable, seqs': map<u16, u16>, out1: seq<ProximityDown>, batch: seq<ProximityDown>)
    requires r.cell > 0.0 && Played(r, calls, near, seqs, near1, seqs1, out1)
    requires RightCall(r, call, near1, seqs1, near', seqs', batch)
    ensures Played(r, calls + [call], near, seqs, near', seqs', out1 + batch)
  {
    hide RightCall;
    var all := calls + [call];
    var front, last := all[..|all| - 1], all[|all| - 1];
    assert front == calls && last == call;
    assert Played(r, front, near, seqs, near1, seqs1, out1);
    assert RightCall(r, last, near1, seqs1, near', seqs', batch);
  }

  lemma PlayedNone(r: Room, near: NearTable, seqs: map<u16, u16>)
    requires r.cell > 0.0
    ensures Played(r, [], near, seqs, near, seqs, [])
  {
  }

  /** Without a cap a call reaches exactly the bystanders a look at all players finds. */
  lemma CallReachesAll(
      r: Room, call: PhoneCall, near: NearTable, seqs: map<u16, u16>, near': NearTable, seqs': map<u16, u16>,
      batch: seq<ProximityDown>)
    requires r.cell > 0.0 && RightCall(r, call, near, seqs, near', seqs', batch) && Encoded(r, call)
    requires r.n == 0 && Placed(r.where, r.ps, r.cell) && EffectiveRange(r.ps[call.holder], r.t) >= 0.0
    ensures forall l: u16 :: SentTo(batch, l) <==>
                             l in NaiveHearers(r.m, r.ps, r.where, r.t, r.ps[call.holder], OnTheCall(r.cs, call))
  {
    hide RightFan, NaiveHearers, GridHearers, Placed, EffectiveRange;
    var hearers := GridHearers(r.m, r.ps, r.where, r.cell, r.t, r.ps[call.holder], OnTheCall(r.cs, call));
    UncappedReachesAll(CallFan(r, call, NextSeq(seqs, call.holder)), hearers, near, near', batch);
    GridMissesNobody(r.m, r.ps, r.where, r.cell, r.t, r.ps[call.holder], OnTheCall(r.cs, call));
  }

  /** In fields: without a cap every placed bystander who may hear the holder gets the call. */
  lemma CallReachesBystanders(
      r: Room, call: PhoneCall, near: NearTable, seqs: map<u16, u16>, near': NearTable, seqs': map<u16, u16>,
      batch: seq<ProximityDown>, l: u16)
    requires r.cell > 0.0 && RightCall(r, call, near, seqs, near', seqs', batch)
    requires call.holder in r.ps && (r.ps[call.holder].alive || r.ps[call.holder].spectator)
    requires call.mix != [] && r.spkCodec(call.holder, call.mix)
    requires r.n == 0 && Placed(r.where, r.ps, r.cell) && EffectiveRange(r.ps[call.holder], r.t) >= 0.0
    requires l in r.where && (call.channel in r.cs ==> l !in r.cs[call.channel].members)
    requires MayGet(r.m, r.ps, r.t, r.ps[call.holder], {}, l)
    ensures SentTo(batch, l)
  {
    hide GridHearers, RightFan, Placed, EffectiveRange, InEarshot;
    var f := CallFan(r, call, NextSeq(seqs, call.holder));
    FanIsPlain(f, r.where, r.cell, OnTheCall(r.cs, call), near, near', batch);
  }

  lemma CallIsForBystanders(
      r: Room, call: PhoneCall, near: NearTable, seqs: map<u16, u16>, near': NearTable, seqs': map<u16, u16>,
      batch: seq<ProximityDown>)
    requires r.cell > 0.0 && RightCall(r, call, near, seqs, near', seqs', batch)
    ensures forall k :: 0 <= k < |batch| ==> ForBystander(r.m, r.ps, r.cs, r.t, call, batch[k])
  {
    hide GridHearers, RightFan, PlainTo, Placed, EffectiveRange;
    if Encoded(r, call) {
      var f := CallFan(r, call, NextSeq(seqs, call.holder));
      FanIsPlain(f, r.where, r.cell, OnTheCall(r.cs, call), near, near', batch);
    }
  }

  lemma FromCallsGrow(
      m: Maths, ps: Players, cs: Channels, t: ProximityTuning, calls: seq<PhoneCall>, batch: seq<ProximityDown>,
      c: nat, more: seq<ProximityDown>)
    requires FromCalls(m, ps, cs, t, calls, batch) && c < |calls|
    requires forall k :: 0 <= k < |more| ==> ForBystander(m, ps, cs, t, calls[c], more[k])
    ensures FromCalls(m, ps, cs, t, calls, batch + more)
  {
    hide ForBystander;
    forall k | 0 <= k < |more| ensures FromACall(m, ps, cs, t, calls, more[k]) {
      assert ForBystander(m, ps, cs, t, calls[c], more[k]);
    }
    hide FromACall;
  }

  lemma NothingDoubled(speaker: u16, bs: seq<Burst>)
    ensures NoDouble([], bs, speaker)
  {
  }

  lemma GridHearersHear(
      m: Maths, ps: Players, where: Where, cell: real, t: ProximityTuning, sp: Player, but: set<u16>)
    requires cell > 0.0
    ensures forall l :: l in GridHearers(m, ps, where, cell, t, sp, but) ==>
                          l in ps && Evaluate(m, sp, ps[l], t).audible
  {
    hide Evaluate, InSquare, Span, KeyFor;
  }

  predicate Accepted(ps: Players, id: u16) {
    id in ps && !ps[id].muted
  }

  lemma TalkStarts(log: seq<Event>, ps: Players, ps': Players, id: u16, tick: u32)
    requires Reported(log, ps) && Timely(ps, tick) && id in ps
    requires ps' == ps[id := ps[id].(audioActive := true, lastAudioTick := tick)]
    ensures Reported(if ps[id].audioActive then log else log + [SpeakerStart(id)], ps') && Timely(ps', tick)
  {
    hide Talking, Alternating;
    if ps[id].audioActive {
      SameReported(log, ps, ps');
    } else {
      PushReported(log, ps, SpeakerStart(id), ps');
    }
  }

  lemma PlacedKept(ps: Players, ps': Players, where: Where, cell: real, near: NearTable, n: nat)
    requires cell > 0.0 && Placed(where, ps, cell) && NearInv(near, ps, n)
    requires ps.Keys <= ps'.Keys
    requires forall p :: p in ps ==>
               ps'[p].pos == ps[p].pos && ps'[p].interior == ps[p].interior && ps'[p].vworld == ps[p].vworld
    ensures Placed(where, ps', cell) && NearInv(near, ps', n)
  {
    hide CellOf, UniqueSpeakers;
  }

  // ---- ticks ----

  function SilentIds(ps: Players, tick: u32): set<u16> {
    set p | p in ps && Silent(ps[p], tick)
  }

  /** The records once those in `done` have been looked at. */
  function Hushed(ps: Players, tick: u32, done: set<u16>): Players {
    map p | p in ps :: if p in done && Silent(ps[p], tick) then ps[p].(audioActive := false) else ps[p]
  }

  function Stops(ids: seq<u16>): seq<Event> {
    seq(|ids|, i requires 0 <= i < |ids| => SpeakerStop(ids[i]))
  }

  lemma HushStep(log: seq<Event>, ps: Players, tick: u32, todo: set<u16>, id: u16)
    requires todo <= ps.Keys && id in todo && Reported(log, Hushed(ps, tick, ps.Keys - todo))
    ensures var cur := Hushed(ps, tick, ps.Keys - todo);
            var nxt := Hushed(ps, tick, ps.Keys - (todo - {id}));
            && id in cur && cur[id] == ps[id]
            && if Silent(ps[id], tick) then
                 nxt == cur[id := ps[id].(audioActive := false)] && Reported(log + [SpeakerStop(id)], nxt)
               else nxt == cur
  {
    hide Talking, Alternating;
    var cur := Hushed(ps, tick, ps.Keys - todo);
    var nxt := Hushed(ps, tick, ps.Keys - (todo - {id}));
    if Silent(ps[id], tick) {
      assert nxt == cur[id := ps[id].(audioActive := false)];
      PushReported(log, cur, SpeakerStop(id), nxt);
    } else {
      assert nxt == cur;
    }
  }

  lemma StopsStep(ids: seq<u16>, ps: Players, tick: u32, todo: set<u16>, id: u16)
    requires id in todo && todo <= ps.Keys
    requires multiset(ids) == multiset(SilentIds(ps, tick) - todo)
    ensures if Silent(ps[id], tick) then multiset(ids + [id]) == multiset(SilentIds(ps, tick) - (todo - {id}))
            else multiset(ids) == multiset(SilentIds(ps, tick) - (todo - {id}))
    ensures Stops(ids + [id]) == Stops(ids) + [SpeakerStop(id)]
  {
    var s := SilentIds(ps, tick);
    if Silent(ps[id], tick) {
      assert s - (todo - {id}) == s - todo + {id};
      assert multiset(s - todo + {id}) == multiset(s - todo) + multiset{id};
    } else {
      assert s - (todo - {id}) == s - todo;
    }
  }

  lemma HushedEnds(ps: Players, tick: u32)
    ensures Hushed(ps, tick, ps.Keys - ps.Keys) == ps
    ensures SilentIds(ps, tick) - ps.Keys == {}
    ensures ps.Keys - {} == ps.Keys && SilentIds(ps, tick) - {} == SilentIds(ps, tick)
  {
  }

  lemma OneTickLater(tick: u32, last: u32)
    requires Sub32(tick, last) < SILENCE_TICKS
    ensures Sub32(Inc32(tick), last) == Sub32(tick, last) + 1
  {
  }

  /** After the pass nobody active has been silent too long; those stopped were silent for exactly eight ticks. */
  lemma HushedTimely(ps: Players, tick: u32)
    requires Timely(ps, tick)
    ensures Timely(Hushed(ps, Inc32(tick), ps.Keys), Inc32(tick))
    ensures forall p :: p in SilentIds(ps, Inc32(tick)) ==> Sub32(Inc32(tick), ps[p].lastAudioTick) == SILENCE_TICKS
  {
    hide Sub32, Inc32;
    forall p | p in ps && ps[p].audioActive
      ensures Sub32(Inc32(tick), ps[p].lastAudioTick) == Sub32(tick, ps[p].lastAudioTick) + 1
    {
      OneTickLater(tick, ps[p].lastAudioTick);
    }
  }

  lemma HushedKeeps(ps: Players, tick: u32, where: Where, cell: real, near: NearTable, n: nat)
    requires cell > 0.0 && Placed(where, ps, cell) && NearInv(near, ps, n)
    ensures Placed(where, Hushed(ps, tick, ps.Keys), cell) && NearInv(near, Hushed(ps, tick, ps.Keys), n)
    ensures Hushed(ps, tick, ps.Keys).Keys == ps.Keys
  {
    hide CellOf, Silent, UniqueSpeakers;
  }

  lemma StopsNone()
    ensures Stops([]) == []
  {
  }

  // ---- control messages ----

  /** The control packets the engine acts on; short packets and other types are `Other`. */
  datatype Ctrl =
    | PlayerPos(id: u16, pos: Vec3, interior: u16, vworld: u16, vehicle: u8)
    | PlayerMeta(id: u16, muted: bool, deafen: bool, alive: bool, spectator: bool, range: u8, rangeOverride: real)
    | Chan(op: ChanOp)
    | Transmit(id: u16, on: bool, mask: u32)
    | MixPolicy(id: u16, policy: u8, duckLevel: real, proximityFloor: real)
    | Config(bitrate: u16, whisper: real, normal: real, shout: real, falloffExp: real, occlusion: bool,
             limits: PolicyLimits)
    | PairMute(listener: u16, target: u16, on: bool)
    | Speakerphone(id: u16, on: bool)
    | Other

  /** A range override is clamped to the shouting range; anything not positive means none. */
  function ClampedOverride(r: real, shout: real): real {
    if r > 0.0 then (if r < shout then r else shout) else -1.0
  }

  /** The record of the one player a message is about. */
  function Amended(p: Player, c: Ctrl, shout: real): Player {
    match c
    case PlayerPos(_, pos, interior, vworld, vehicle) =>
      p.(pos := pos, interior := interior, vworld := vworld, vehicle := vehicle)
    case PlayerMeta(_, muted, deafen, alive, spectator, range, rangeOverride) =>
      p.(muted := muted, deafen := deafen, alive := alive, spectator := spectator, range := range,
         rangeOverride := ClampedOverride(rangeOverride, shout))
    case Transmit(_, on, mask) => p.(transmitting := on, channelMask := mask)
    case MixPolicy(_, policy, duckLevel, proximityFloor) =>
      p.(policy := policy, duckLevel := duckLevel, proximityFloor := proximityFloor)
    case PairMute(_, target, on) =>
      p.(mutedTargets := if on then p.mutedTargets + {target} else p.mutedTargets - {target})
    case Speakerphone(_, on) => p.(speakerphone := on)
    case _ => p
  }

  /** Nobody mutes the player any more. */
  function Unmuted(ps: Players, id: u16): Players {
    map p | p in ps :: ps[p].(mutedTargets := ps[p].mutedTargets - {id})
  }

  function PlayersAfter(ps: Players, cs: Channels, c: Ctrl, shout: real): Players {
    match c
    case Chan(op) =>
      if op.Gone? then Unmuted(ApplyToPlayers(ps, cs, op), op.pid) else ApplyToPlayers(ps, cs, op)
    case PairMute(l, _, _) => ps[l := Amended(PlayerOr(ps, l), c, shout)]
    case Config(_, _, _, _, _, _, _) => ps
    case Other => ps
    case _ => ps[c.id := Amended(PlayerOr(ps, c.id), c, shout)]
  }

  function ChannelsAfter(cs: Channels, c: Ctrl): Channels {
    if c.Chan? then ApplyOp(cs, c.op) else cs
  }

  /** Everything kept beside the registry by player, by channel, or by pair of both. */
  datatype Side = Side(
    where: Where, near: NearTable, spkEnc: set<u16>, spkSeq: map<u16, u16>, decoders: set<u16>, encoders: set<u32>,
    streams: Streams, seqs: map<u32, u16>, active: map<u16, u32>, garble: set<u16>)

  /** Where the players are placed after a control packet that left the records at `ps`. */
  function WhereAfter(where: Where, ps: Players, c: Ctrl, cell: real): Where
    requires cell > 0.0
  {
    if c.PlayerPos? then where[c.id := KeyFor(PlayerOr(ps, c.id), cell)]
    else if c.Chan? && c.op.Gone? then where - {c.op.pid}
    else where
  }

  /** What is left of a table by pairs when a player or a channel goes. */
  function PrunedPairs<T>(seqs: map<u32, T>, c: Ctrl): map<u32, T> {
    if !c.Chan? then seqs
    else if c.op.Gone? then WithoutHigh(seqs, c.op.pid)
    else if c.op.Destroy? then WithoutLow(seqs, c.op.id)
    else seqs
  }

  /** The side tables after a control packet, but for what beeps leave of themselves. */
  function SideAfter(s: Side, ps: Players, c: Ctrl, cell: real): Side
    requires cell > 0.0
  {
    var placed := s.(where := WhereAfter(s.where, ps, c, cell), seqs := PrunedPairs(s.seqs, c));
    if !c.Chan? then placed
    else
      match c.op
      case Gone(pid) =>
        placed.(near := s.near - {pid}, spkEnc := s.spkEnc - {pid}, spkSeq := s.spkSeq - {pid},
                decoders := s.decoders - {pid}, encoders := KeysWithoutHigh(s.encoders, pid),
                streams := WithoutHigh(s.streams, pid))
      case Destroy(id) =>
        placed.(encoders := KeysWithoutLow(s.encoders, id), streams := WithoutLow(s.streams, id),
                active := s.active - {id}, garble := s.garble - {id})
      case _ => placed
  }

  /** Destroying a channel forgets when its bus was last sent. */
  function EmitAfter(lastEmit: map<u16, u32>, c: Ctrl): map<u16, u32> {
    if c.Chan? && c.op.Destroy? then lastEmit - {c.op.id} else lastEmit
  }

  /** The radio channels on which a key transition is reported. */
  function RadioChannels(cs: Channels, id: u16): set<u16> {
    set c | c in cs && cs[c].filter == FILTER_RADIO && id in cs[c].members
  }

  lemma RadioByField(cs: Channels, id: u16, cids: seq<u16>)
    requires multiset(cids) == multiset(RadioChannels(cs, id))
    ensures forall cid: u16 :: cid in cids <==> cid in cs && cs[cid].filter == 1 && id in cs[cid].members
  {
    forall cid: u16 ensures cid in cids <==> cid in RadioChannels(cs, id) {
      assert cid in cids <==> multiset(cids)[cid] > 0;
    }
  }

  function Keys(id: u16, cids: seq<u16>, down: bool): seq<Event> {
    seq(|cids|, i requires 0 <= i < |cids| => RadioKey(id, cids[i], down))
  }

  lemma KeysStep(id: u16, cids: seq<u16>, down: bool, cid: u16)
    ensures Keys(id, cids + [cid], down) == Keys(id, cids, down) + [RadioKey(id, cid, down)]
    ensures Keys(id, [], down) == []
  {
  }

  /** Only beeps were added. */
  ghost predicate OnlyBeeps(bs: seq<Burst>, bs': seq<Burst>) {
    bs <= bs' && forall k :: |bs| <= k < |bs'| ==> bs'[k].Beep?
  }

  lemma NoBurstsYet(bs: seq<Burst>)
    ensures OnlyBeeps(bs, bs)
  {
  }

  /** The beep of a radio channel, to each of its other listening members whom the codec can encode for. */
  ghost predicate RightBeepBurst(b: Burst, cid: u16, ps: Players, cs: Channels, codec: Codec, speaker: u16) {
    && b.Beep? && b.channel == cid && cid in cs
    && exists beep: seq<real> :: |beep| == 960 && BeepsTo(b.packets, cid, ps, cs, codec, speaker, beep)
  }

  /** A member other than the operator who is not deaf. */
  predicate HearsBeep(ps: Players, cs: Channels, cid: u16, speaker: u16, l: u16) {
    cid in cs && l in cs[cid].members && l != speaker && l in ps && !ps[l].deafen
  }

  /** One packet at full volume for each such member whose packet encodes, and for nobody else. */
  ghost predicate BeepsTo(
      packets: seq<BusDown>, cid: u16, ps: Players, cs: Channels, codec: Codec, speaker: u16, beep: seq<real>)
    requires cid in cs
  {
    && (forall k :: 0 <= k < |packets| ==>
          var p := packets[k];
          && HearsBeep(ps, cs, cid, speaker, p.to) && codec(p.to, cid, beep)
          && p.channel == cid && p.filter == cs[cid].filter && p.volume == 1.0 && p.sources == {} && p.mix == beep)
    && (forall i, j :: 0 <= i < j < |packets| ==> packets[i].to != packets[j].to)
    && (forall l: u16 :: HearsBeep(ps, cs, cid, speaker, l) && codec(l, cid, beep) ==>
                           exists k :: 0 <= k < |packets| && packets[k].to == l)
  }

  lemma BeepsByField(
      packets: seq<BusDown>, cid: u16, ps: Players, cs: Channels, codec: Codec, speaker: u16, beep: seq<real>)
    requires cid in cs
    requires RightBeeps(packets, BeepListeners(ps, cs, cid, speaker), codec, cid, cs[cid].filter, beep)
    ensures BeepsTo(packets, cid, ps, cs, codec, speaker, beep)
  {
    forall l: u16 ensures HearsBeep(ps, cs, cid, speaker, l) <==> l in BeepListeners(ps, cs, cid, speaker) {
    }
    hide HearsBeep, BeepListeners;
    forall k | 0 <= k < |packets| ensures HearsBeep(ps, cs, cid, speaker, packets[k].to) {
      assert packets[k].to in BeepListeners(ps, cs, cid, speaker);
    }
  }

  /** One beep for each channel reported, in that order, if beeps are on. */
  ghost predicate RightKeyBeeps(
      bs: seq<Burst>, cids: seq<u16>, conf: Behavior, ps: Players, cs: Channels, codec: Codec, speaker: u16)
  {
    && |bs| == (if conf.squelchBeep then |cids| else 0)
    && forall i :: 0 <= i < |bs| ==> RightBeepBurst(bs[i], cids[i], ps, cs, codec, speaker)
  }

  lemma NoKeyBeeps(conf: Behavior, ps: Players, cs: Channels, codec: Codec, speaker: u16)
    ensures RightKeyBeeps([], [], conf, ps, cs, codec, speaker)
  {
  }

  lemma KeyBeepsMore(
      bs: seq<Burst>, bs': seq<Burst>, cids: seq<u16>, cid: u16, conf: Behavior, ps: Players, cs: Channels,
      codec: Codec, speaker: u16)
    requires RightKeyBeeps(bs, cids, conf, ps, cs, codec, speaker)
    requires !conf.squelchBeep ==> bs' == bs
    requires conf.squelchBeep ==>
               |bs'| == |bs| + 1 && bs'[..|bs|] == bs && RightBeepBurst(bs'[|bs|], cid, ps, cs, codec, speaker)
    ensures RightKeyBeeps(bs', cids + [cid], conf, ps, cs, codec, speaker)
  {
    hide RightBeepBurst;
    forall i | 0 <= i < |bs'| ensures RightBeepBurst(bs'[i], (cids + [cid])[i], ps, cs, codec, speaker) {
      if i < |bs| {
        assert bs'[i] == bs'[..|bs|][i] == bs[i];
      }
    }
  }

  lemma KeyBeepsAreBeeps(
      bs: seq<Burst>, bs': seq<Burst>, cids: seq<u16>, conf: Behavior, ps: Players, cs: Channels, codec: Codec,
      speaker: u16)
    requires bs <= bs' && RightKeyBeeps(bs'[|bs|..], cids, conf, ps, cs, codec, speaker)
    ensures OnlyBeeps(bs, bs')
  {
    forall k | |bs| <= k < |bs'| ensures bs'[k].Beep? {
      assert bs'[k] == bs'[|bs|..][k - |bs|];
      assert RightBeepBurst(bs'[|bs|..][k - |bs|], cids[k - |bs|], ps, cs, codec, speaker);
    }
  }

  /** What a control packet adds to the log. */
  function Reports(c: Ctrl, cids: seq<u16>): seq<Event> {
    match c
    case Transmit(id, on, _) => Keys(id, cids, on)
    case Chan(op) => if op.Gone? then [Left(op.pid)] else []
    case _ => []
  }

  lemma PlacedMoved(ps: Players, id: u16, p: Player, where: Where, cell: real, near: NearTable, n: nat)
    requires cell > 0.0 && Placed(where, ps, cell) && NearInv(near, ps, n)
    ensures Placed(where[id := KeyFor(p, cell)], ps[id := p], cell) && NearInv(near, ps[id := p], n)
  {
    hide CellOf, UniqueSpeakers;
  }

  lemma MovedTalk(ps: Players, id: u16, p: Player, log: seq<Event>, tick: u32)
    requires Reported(log, ps) && Timely(ps, tick)
    requires p.audioActive == PlayerOr(ps, id).audioActive && p.lastAudioTick == PlayerOr(ps, id).lastAudioTick
    ensures Reported(log, ps[id := p]) && Timely(ps[id := p], tick)
  {
    SameReported(log, ps, ps[id := p]);
  }

  /** Channel operations other than a departure keep every record's core. */
  lemma OpKeepsCore(ps: Players, cs: Channels, op: ChanOp)
    requires !op.Gone?
    ensures CoreKept(ps, ApplyToPlayers(ps, cs, op))
    ensures !op.Destroy? ==> cs.Keys <= ApplyOp(cs, op).Keys
    ensures op.Destroy? ==> ApplyToPlayers(ps, cs, op).Keys == ps.Keys
  {
  }

  lemma GoneSound(ps: Players, ps': Players, id: u16, where: Where, cell: real, near: NearTable, n: nat)
    requires cell > 0.0 && Placed(where, ps, cell) && NearInv(near, ps, n)
    requires ps'.Keys == ps.Keys - {id}
    requires forall p :: p in ps' ==> SameCore(ps[p], ps'[p])
    ensures Placed(where - {id}, ps', cell) && NearInv(near - {id}, ps', n)
  {
    hide CellOf, UniqueSpeakers;
  }

  lemma UnmutedCore(ps: Players, id: u16)
    ensures var ps' := Unmuted(ps - {id}, id);
            ps'.Keys == ps.Keys - {id} && forall p :: p in ps' ==> SameCore(ps[p], ps'[p])
  {
  }

  lemma GoneTalk(ps: Players, ps': Players, id: u16, log: seq<Event>, tick: u32)
    requires Reported(log, ps) && Timely(ps, tick) && ps'.Keys == ps.Keys - {id}
    requires forall p :: p in ps' ==> SameCore(ps[p], ps'[p])
    ensures Reported(log + [Left(id)], ps') && Timely(ps', tick)
  {
    hide Talking, Alternating;
    PushReported(log, ps, Left(id), ps');
  }

  lemma RadioTalk(ps: Players, log: seq<Event>, id: u16, cid: u16, down: bool)
    requires Reported(log, ps)
    ensures Reported(log + [RadioKey(id, cid, down)], ps)
  {
    hide Talking, Alternating;
    PushReported(log, ps, RadioKey(id, cid, down), ps);
  }

  lemma NewcomerFiled(ps: Players, cs: Channels, id: u16, ps': Players)
    requires Filed(ps, cs) && ps' == ps[id := PlayerOr(ps, id)]
    ensures ps'[id].id == id
  {
  }

  lemma SetStep(all: set<u16>, todo: set<u16>, x: u16, done: seq<u16>)
    requires x in todo && todo <= all && multiset(done) == multiset(all - todo)
    ensures multiset(done + [x]) == multiset(all - (todo - {x}))
  {
    assert all - (todo - {x}) == all - todo + {x};
    assert multiset(all - todo + {x}) == multiset(all - todo) + multiset{x};
  }

  lemma GoneTables(ps: Players, cs: Channels, op: ChanOp)
    requires op.Gone?
    ensures ApplyToPlayers(ps, cs, op) == ps - {op.pid} && ApplyOp(cs, op) == Without(cs, op.pid)
  {
  }

  datatype PolicyLimits = PolicyLimits(vadAllowed: u8, defaultMode: u8, maxStreams: u8)

  class Engine {
    const reg: Registry
    const grid: SpatialGrid
    const bus: BusRouter
    const spkCodec: (u16, seq<real>) -> bool   // which call mixes the codec manages to encode
    var tickCount: u32
    var nearestN: nat
    var near: NearTable                        // listener -> the speakers it hears
    var spkEnc: set<u16>                       // holders with a speakerphone encoder
    var spkSeq: map<u16, u16>                  // holder -> speakerphone sequence number
    var policy: PolicyLimits
    var bitrate: u16
    var sink: seq<ProximityDown>
    var events: seq<Event>

    /** Everything but the talk log. */
    ghost predicate Sound()
      reads this, reg, grid, bus
    {
      && bus.reg == reg && bus.Valid() && grid.Valid()
      && Placed(grid.where, reg.players, grid.cell)
      && NearInv(near, reg.players, nearestN)
      && spkEnc <= reg.players.Keys && spkSeq.Keys <= reg.players.Keys
    }

    ghost predicate Valid()
      reads this, reg, grid, bus
    {
      Sound() && Reported(events, reg.players) && Timely(reg.players, tickCount)
    }

    constructor (
      maths: Maths, codec: Codec, spkCodec: (u16, seq<real>) -> bool, prox: ProximityTuning, conf: Behavior,
      nearestN: nat)
      ensures Valid() && fresh(reg) && fresh(grid) && fresh(bus)
      ensures reg.players == map[] && reg.channels == map[] && sink == [] && events == [] && bus.bursts == []
      ensures bus.chanActive == map[] && bus.streams == map[]
      ensures bus.lastEmit == map[] && bus.seqs == map[] && grid.where == map[] && grid.cell == CELL
      ensures this.nearestN == nearestN && bus.conf == conf && bus.prox == prox && tickCount == 0
    {
      var r := new Registry();
      reg := r;
      grid := new SpatialGrid(CELL);
      bus := new BusRouter(r, maths, codec, prox, conf);
      this.spkCodec, this.nearestN := spkCodec, nearestN;
      tickCount, near, spkEnc, spkSeq := 0, map[], {}, map[];
      policy, bitrate, sink, events := PolicyLimits(1, 0, 8), 24000, [], [];
    }

    /** Admission of a speaker to one listener, under the cap if there is one. */
    method AdmitNear(listener: u16, speaker: u16, vol: real) returns (ok: bool)
      requires NearInv(near, reg.players, nearestN) && listener in reg.players
      modifies this`near
      ensures NearInv(near, reg.players, nearestN)
      ensures Admission(old(near), near, nearestN, tickCount, listener, speaker, vol, ok)
      ensures forall x: u16 :: x != listener ==> NearOf(near, x) == NearOf(old(near), x)
    {
      if nearestN == 0 { return true; }
      var s;
      s, ok := NearestAdmit(NearOf(near, listener), speaker, vol, tickCount, nearestN);
      near := near[listener := s];
    }

    ghost function FanOf(sp: Player, head: ProximityDown): Fan
      reads this, reg, bus
    {
      Fan(bus.maths, reg.players, bus.prox, sp, head, nearestN, tickCount)
    }

    /** Sends a packet to everyone in the neighbouring cells who may hear the speaker. */
    method FanOut(sp: Player, head: ProximityDown, but: set<u16>) returns (batch: seq<ProximityDown>)
      requires Sound()
      modifies this`near, this`sink
      ensures Sound() && sink == old(sink) + batch
      ensures RightFan(FanOf(sp, head), GridHearers(bus.maths, reg.players, grid.where, grid.cell, bus.prox, sp, but),
                       old(near), near, batch)
    {
      hide InSquare, Hears, RightFan, NearInv, Admission, Span, KeyFor, EffectiveRange, TablesLive, Evaluate;
      var neigh := grid.QueryNeighbours(sp, EffectiveRange(sp, bus.prox));
      ghost var f, near0 := FanOf(sp, head), near;
      ghost var hearers := GridHearers(bus.maths, reg.players, grid.where, grid.cell, bus.prox, sp, but);
      ghost var did: set<u16> := {};
      batch := [];
      FanStarts(f, near0);
      for i := 0 to |neigh|
        invariant sink == old(sink) && f == FanOf(sp, head) && NearInv(near, reg.players, nearestN)
        invariant did == set l | l in hearers && l in neigh[..i]
        invariant RightFan(f, did, near0, near, batch)
      {
        var lid := neigh[i];
        assert neigh[..i + 1] == neigh[..i] + [lid] && lid !in neigh[..i];
        if lid !in reg.players || lid in but { continue; }
        var li := reg.players[lid];
        if !Hears(bus.maths, sp, li, bus.prox) { continue; }
        assert lid in hearers;
        var r := Evaluate(bus.maths, sp, li, bus.prox);
        ghost var mid := near;
        var ok := AdmitNear(lid, head.speaker, r.volume);
        var p := head.(to := lid, flags := WithOccluded(head.flags, r.occluded), volume := r.volume, pan := r.pan);
        FanStep(f, did, near0, mid, near, batch, lid, p, ok);
        batch := batch + (if ok then [p] else []);
        did := did + {lid};
      }
      assert neigh[..|neigh|] == neigh;
      assert did == hearers;
      sink := sink + batch;
    }

    /** Proximity routing of one frame. */
    method RouteProximity(speaker: u16, seqNo: u16, flags: u8, opus: seq<u8>) returns (batch: seq<ProximityDown>)
      requires Sound()
      modifies this`near, this`sink
      ensures Sound() && sink == old(sink) + batch
      ensures speaker !in reg.players ==> batch == [] && near == old(near)
      // The dead, other than spectators, are not heard, and no frame above 1276 bytes is carried.
      ensures speaker in reg.players && !reg.players[speaker].alive && !reg.players[speaker].spectator ==> batch == []
      ensures |opus| > 1276 ==> batch == []
      // Everyone who gets a packet may, by their own record, and it is rightly filled in.
      ensures speaker in reg.players ==>
                PlainBatch(FanOf(reg.players[speaker], FrameOf(speaker, seqNo, flags, opus)), {}, batch)
      ensures speaker in reg.players ==>
                Carries(FanOf(reg.players[speaker], FrameOf(speaker, seqNo, flags, opus)), speaker, seqNo, flags, opus)
      // Without a cap, everyone placed who may get a packet does.
      ensures speaker in reg.players && (reg.players[speaker].alive || reg.players[speaker].spectator) && |opus| <= 1276
              && nearestN == 0 && EffectiveRange(reg.players[speaker], bus.prox) >= 0.0 ==>
                ReachesAll(FanOf(reg.players[speaker], FrameOf(speaker, seqNo, flags, opus)), grid.where, {}, batch)
      ensures speaker in reg.players ==>
                RightDirect(FanOf(reg.players[speaker], FrameOf(speaker, seqNo, flags, opus)), grid.where, grid.cell,
                            old(near), near, batch)
      // Without a cap, the fast routing sends to exactly those the plain rule names.
      ensures Speaks(reg.players, speaker) && |opus| <= MAX_OPUS_BYTES && nearestN == 0
              && EffectiveRange(reg.players[speaker], bus.prox) >= 0.0 ==>
                forall l: u16 ::
                  SentTo(batch, l) <==>
                  l in NaiveHearers(bus.maths, reg.players, grid.where, bus.prox, reg.players[speaker], {})
    {
      hide RightFan, EffectiveRange, KeyFor, Placed, NearInv, TablesLive, NaiveHearers, GridHearers, Inverse,
           PlainTo, PlainHead, ReachesAll;
      batch := [];
      if speaker !in reg.players { return; }
      var sp := reg.players[speaker];
      if !sp.alive && !sp.spectator { return; }
      if |opus| > MAX_OPUS_BYTES { return; }
      var head := FrameOf(speaker, seqNo, flags, opus);
      ghost var near0 := near;
      batch := FanOut(sp, head, {});
      FanIsPlain(FanOf(sp, head), grid.where, grid.cell, {}, near0, near, batch);
      ghost var hearers := GridHearers(bus.maths, reg.players, grid.where, grid.cell, bus.prox, sp, {});
      if nearestN == 0 {
        UncappedReachesAll(FanOf(sp, head), hearers, near0, near, batch);
      }
      if EffectiveRange(sp, bus.prox) >= 0.0 {
        GridMissesNobody(bus.maths, reg.players, grid.where, grid.cell, bus.prox, sp, {});
      }
    }

    /** What calls put on speaker go by. */
    ghost function RoomNow(): Room
      reads this, reg, grid, bus
    {
      Room(bus.maths, reg.players, reg.channels, bus.prox, grid.where, grid.cell, nearestN, tickCount, spkCodec)
    }

    /** A call comes out of its holder's phone, for bystanders who are not on the channel. */
    method RouteSpeakerphone(call: PhoneCall) returns (batch: seq<ProximityDown>)
      requires Sound()
      modifies this`near, this`sink, this`spkEnc, this`spkSeq
      ensures Sound() && sink == old(sink) + batch
      ensures RightCall(RoomNow(), call, old(near), old(spkSeq), near, spkSeq, batch)
      // Everyone who gets a packet is a bystander who may, by their own record, hear the holder.
      ensures forall k :: 0 <= k < |batch| ==>
                ForBystander(bus.maths, reg.players, reg.channels, bus.prox, call, batch[k])
    {
      hide RightFan, EffectiveRange, KeyFor, Placed, NearInv, TablesLive, GridHearers, Inverse, ForBystander;
      ghost var near0, seqs0 := near, spkSeq;
      batch := [];
      if call.holder !in reg.players || call.mix == [] { return; }
      var sp := reg.players[call.holder];
      if !sp.alive && !sp.spectator { return; }
      spkEnc := spkEnc + {call.holder};
      if !spkCodec(call.holder, call.mix) { return; }
      var but := if call.channel in reg.channels then reg.channels[call.channel].members else {};
      spkSeq := spkSeq[call.holder := Inc16(if call.holder in spkSeq then spkSeq[call.holder] else 0)];
      batch := FanOut(sp, CallFrame(call, spkSeq[call.holder]), but);
      CallIsForBystanders(RoomNow(), call, near0, seqs0, near, spkSeq, batch);
    }

    /** Overwrites a record outside its core, creating the player if need be. */
    method Amend(id: u16, p: Player)
      requires Valid() && p.id == id && p.channels == PlayerOr(reg.players, id).channels
      requires SameCore(PlayerOr(reg.players, id), p)
      modifies reg
      ensures Valid() && reg.players == old(reg.players)[id := p] && reg.channels == old(reg.channels)
    {
      hide Placed, NearInv, Reported, Timely, TablesLive, Filed, Symmetric, Inverse;
      ghost var ps0 := reg.players;
      var _ := reg.Touch(id);
      reg.Put(id, p);
      assert reg.players == ps0[id := p];
      CoreSuffices(ps0, reg.players, grid.where, grid.cell, near, nearestN, events, tickCount);
      TablesGrow(bus.decoders, bus.encoders, bus.streams, bus.seqs, bus.lastEmit, bus.chanActive, bus.garble,
                 ps0, reg.channels, reg.players, reg.channels);
    }

    /** A talking player's record: marked active, and stamped with the current tick. */
    method MarkTalking(id: u16)
      requires Valid() && id in reg.players
      modifies reg, this`events
      ensures Valid() && reg.channels == old(reg.channels)
      ensures reg.players ==
              old(reg.players)[id := old(reg.players)[id].(audioActive := true, lastAudioTick := tickCount)]
      ensures events == if old(reg.players)[id].audioActive then old(events) else old(events) + [SpeakerStart(id)]
    {
      hide Placed, NearInv, Reported, TablesLive, Symmetric, Inverse;
      ghost var ps0 := reg.players;
      var pl := reg.players[id];
      reg.Put(id, pl.(audioActive := true, lastAudioTick := tickCount));
      TalkStarts(events, ps0, reg.players, id, tickCount);
      if !pl.audioActive {
        events := events + [SpeakerStart(id)];
      }
      PlacedKept(ps0, reg.players, grid.where, grid.cell, near, nearestN);
      TablesGrow(bus.decoders, bus.encoders, bus.streams, bus.seqs, bus.lastEmit, bus.chanActive, bus.garble,
                 ps0, reg.channels, reg.players, reg.channels);
    }

    /**
      One audio frame: talk detection, direct routing, channel buses, and calls put on speaker. The
      bus walks the speaker's channels in the order `walk`; `mid` is what the cap remembers once the
      direct packets are out.
     */
    method OnAudioFrame(speaker: u16, seqNo: u16, flags: u8, opus: seq<u8>, pcm: seq<real>, now: u32)
      returns (direct: seq<ProximityDown>, ghost walk: seq<u16>, ghost mid: NearTable)
      requires Valid()
      modifies this, reg, bus
      ensures Valid() && reg.channels == old(reg.channels) && grid.where == old(grid.where)
      ensures tickCount == old(tickCount) && nearestN == old(nearestN)
      ensures bus.prox == old(bus.prox) && bus.conf == old(bus.conf)
      ensures old(bus.bursts) <= bus.bursts && old(sink) + direct <= sink
      ensures speaker !in old(reg.players) || old(reg.players)[speaker].muted ==>
                && reg.players == old(reg.players) && events == old(events) && sink == old(sink)
                && bus.bursts == old(bus.bursts) && bus.lastEmit == old(bus.lastEmit)
                && bus.streams == old(bus.streams) && bus.chanActive == old(bus.chanActive)
                && near == old(near) && spkSeq == old(spkSeq)
      ensures Accepted(old(reg.players), speaker) ==>
                && reg.players == old(reg.players)[speaker :=
                     old(reg.players)[speaker].(audioActive := true, lastAudioTick := tickCount)]
                && events == old(events) +
                     (if old(reg.players)[speaker].audioActive then [] else [SpeakerStart(speaker)])
      // The direct packets, each to someone who may get it by their own record.
      ensures Accepted(old(reg.players), speaker) ==>
                PlainBatch(FanOf(reg.players[speaker], FrameOf(speaker, seqNo, flags, opus)), {}, direct)
      // And to exactly those in earshot whom the cap admits.
      ensures Accepted(old(reg.players), speaker) ==>
                RightDirect(FanOf(reg.players[speaker], FrameOf(speaker, seqNo, flags, opus)), grid.where, grid.cell,
                            old(near), mid, direct)
      // The bursts, one for each keyed channel that is due.
      ensures Accepted(old(reg.players), speaker) ==>
                var keyed := KeyedNow(reg.players, reg.channels, speaker, pcm);
                && Arranges(walk, keyed)
                && RightBursts(bus.bursts[|old(bus.bursts)|..], walk, keyed, Due(keyed, old(bus.lastEmit), now),
                               bus.SceneAt(now), old(bus.chanActive), bus.codec)
                && bus.lastEmit == Stamp(old(bus.lastEmit), Due(keyed, old(bus.lastEmit), now), now)
                && bus.chanActive == Stamp(old(bus.chanActive), keyed, now)
                && Recorded(old(bus.streams), bus.streams, speaker, keyed, reg.channels, |pcm|, now)
      ensures Numbered(old(bus.bursts), old(bus.seqs), bus.bursts, bus.seqs)
      // The calls put on speaker, to exactly the bystanders the cap admits.
      ensures Accepted(old(reg.players), speaker) ==>
                Played(RoomNow(), CallsOf(bus.bursts[|old(bus.bursts)|..]), mid, old(spkSeq), near, spkSeq,
                       sink[|old(sink)| + |direct|..])
      ensures FromCalls(bus.maths, reg.players, reg.channels, bus.prox, CallsOf(bus.bursts[|old(bus.bursts)|..]),
                        sink[|old(sink)| + |direct|..])
      // Nobody gets the speaker both directly and on a channel's bus.
      ensures bus.conf.suppressDoublePlay ==> NoDouble(direct, bus.bursts[|old(bus.bursts)|..], speaker)
      // Without a cap, the direct packets go to exactly those the plain rule names.
      ensures Accepted(old(reg.players), speaker) && Speaks(reg.players, speaker) && |opus| <= MAX_OPUS_BYTES
              && nearestN == 0 && EffectiveRange(reg.players[speaker], bus.prox) >= 0.0 ==>
                forall l: u16 ::
                  SentTo(direct, l) <==>
                  l in NaiveHearers(bus.maths, reg.players, grid.where, bus.prox, reg.players[speaker], {})
    {
      hide RightFan, RightDirect, Placed, NearInv, TablesLive, NaiveHearers, GridHearers, Inverse, Reported, Timely,
           Filed, Symmetric, RightBursts, NoDouble, EffectiveRange, SentTo, FromCalls, Played, Arranges, Due, Stamp,
           KeyedNow;
      hide Numbered, PlainBatch, Recorded;
      NumberedNone(bus.bursts, bus.seqs);
      direct, walk, mid := [], [], near;
      if speaker !in reg.players || reg.players[speaker].muted {
        NothingDoubled(speaker, bus.bursts[|bus.bursts|..]);
        NoCallsYet(bus.maths, reg.players, reg.channels, bus.prox, CallsOf(bus.bursts[|bus.bursts|..]));
        assert sink[|sink|..] == [];
        return;
      }
      MarkTalking(speaker);
      var calls;
      direct, calls, walk := CarryFrame(speaker, seqNo, flags, opus, pcm, now);
      mid := near;
      assert |sink| == |old(sink)| + |direct|;
      PlayCalls(calls);
    }

    /** Direct routing, then the channel buses. */
    method CarryFrame(speaker: u16, seqNo: u16, flags: u8, opus: seq<u8>, pcm: seq<real>, now: u32)
      returns (direct: seq<ProximityDown>, calls: seq<PhoneCall>, ghost walk: seq<u16>)
      requires Sound() && speaker in reg.players
      modifies this`near, this`sink, bus
      ensures Sound() && sink == old(sink) + direct
      ensures bus.prox == old(bus.prox) && bus.conf == old(bus.conf) && old(bus.bursts) <= bus.bursts
      ensures calls == CallsOf(bus.bursts[|old(bus.bursts)|..])
      ensures Numbered(old(bus.bursts), old(bus.seqs), bus.bursts, bus.seqs)
      ensures bus.conf.suppressDoublePlay ==> NoDouble(direct, bus.bursts[|old(bus.bursts)|..], speaker)
      ensures PlainBatch(FanOf(reg.players[speaker], FrameOf(speaker, seqNo, flags, opus)), {}, direct)
      ensures RightDirect(FanOf(reg.players[speaker], FrameOf(speaker, seqNo, flags, opus)), grid.where, grid.cell,
                          old(near), near, direct)
      ensures var keyed := KeyedNow(reg.players, reg.channels, speaker, pcm);
              && Arranges(walk, keyed)
              && RightBursts(bus.bursts[|old(bus.bursts)|..], walk, keyed, Due(keyed, old(bus.lastEmit), now),
                             bus.SceneAt(now), old(bus.chanActive), bus.codec)
              && bus.lastEmit == Stamp(old(bus.lastEmit), Due(keyed, old(bus.lastEmit), now), now)
              && bus.chanActive == Stamp(old(bus.chanActive), keyed, now)
              && Recorded(old(bus.streams), bus.streams, speaker, keyed, reg.channels, |pcm|, now)
      ensures Speaks(reg.players, speaker) && |opus| <= MAX_OPUS_BYTES && nearestN == 0
              && EffectiveRange(reg.players[speaker], bus.prox) >= 0.0 ==>
                forall l: u16 ::
                  SentTo(direct, l) <==>
                  l in NaiveHearers(bus.maths, reg.players, grid.where, bus.prox, reg.players[speaker], {})
    {
      hide RightFan, Placed, NearInv, TablesLive, NaiveHearers, GridHearers, Inverse, Filed, Symmetric,
           RightBursts, NoDouble, EffectiveRange, SentTo, Recorded, Arranges, Due, Stamp, KeyedNow, Numbered,
           PlainBatch;
      ghost var near0, active0, emit0 := near, bus.chanActive, bus.lastEmit;
      direct := RouteProximity(speaker, seqNo, flags, opus);
      var before := |bus.bursts|;
      walk := bus.OnSpeakerFrame(speaker, pcm, now);
      var news := bus.bursts[before..];
      calls := CallsOf(news);
      if bus.conf.suppressDoublePlay {
        if Speaks(reg.players, speaker) && |opus| <= MAX_OPUS_BYTES {
          ghost var sp := reg.players[speaker];
          SpeakerFiled(speaker);
          GridHearersHear(bus.maths, reg.players, grid.where, grid.cell, bus.prox, sp, {});
          ghost var keyed := KeyedNow(reg.players, reg.channels, speaker, pcm);
          HeardOnce(FanOf(sp, FrameOf(speaker, seqNo, flags, opus)),
                    GridHearers(bus.maths, reg.players, grid.where, grid.cell, bus.prox, sp, {}), near0, near, direct,
                    news, walk, keyed, Due(keyed, emit0, now), bus.SceneAt(now), active0, bus.codec);
        } else {
          NothingDoubled(speaker, news);
        }
      }
    }

    lemma SpeakerFiled(id: u16)
      requires reg.Valid() && id in reg.players
      ensures reg.players[id].id == id
    {
    }

    /** Each call handed back by the bus, in turn. */
    method PlayCalls(calls: seq<PhoneCall>)
      requires Sound()
      modifies this`near, this`sink, this`spkEnc, this`spkSeq
      ensures Sound() && old(sink) <= sink
      ensures Played(RoomNow(), calls, old(near), old(spkSeq), near, spkSeq, sink[|old(sink)|..])
      ensures FromCalls(bus.maths, reg.players, reg.channels, bus.prox, calls, sink[|old(sink)|..])
    {
      hide RightFan, RightCall, Placed, NearInv, TablesLive, Inverse, GridHearers, ForBystander, FromCalls, Played;
      ghost var done: seq<ProximityDown> := [];
      ghost var near0, seqs0 := near, spkSeq;
      NoCallsYet(bus.maths, reg.players, reg.channels, bus.prox, calls);
      PlayedNone(RoomNow(), near, spkSeq);
      assert calls[..0] == [];
      for i := 0 to |calls|
        invariant Sound() && sink == old(sink) + done
        invariant Played(RoomNow(), calls[..i], near0, seqs0, near, spkSeq, done)
        invariant FromCalls(bus.maths, reg.players, reg.channels, bus.prox, calls, done)
      {
        ghost var near1, seqs1 := near, spkSeq;
        var batch := RouteSpeakerphone(calls[i]);
        PlayedMore(RoomNow(), calls[..i], calls[i], near0, seqs0, near1, seqs1, near, spkSeq, done, batch);
        assert calls[..i + 1] == calls[..i] + [calls[i]];
        FromCallsGrow(bus.maths, reg.players, reg.channels, bus.prox, calls, done, i, batch);
        done := done + batch;
      }
      assert calls[..|calls|] == calls;
      assert sink[|old(sink)|..] == done;
    }

    /** One engine tick: a rare rebuild of the grid, and stops for those silent for eight ticks. */
    method Tick() returns (stopped: seq<u16>)
      requires Valid()
      modifies this, reg, grid
      ensures Valid() && tickCount == Inc32(old(tickCount))
      ensures reg.channels == old(reg.channels)
      ensures reg.players == Hushed(old(reg.players), tickCount, old(reg.players).Keys)
      ensures events == old(events) + Stops(stopped)
      ensures multiset(stopped) == multiset(SilentIds(old(reg.players), tickCount))
      ensures forall p :: p in SilentIds(old(reg.players), tickCount) ==>
                            Sub32(tickCount, old(reg.players)[p].lastAudioTick) == 8
      ensures grid.where == if tickCount % 1024 == 0
                            then map id | id in old(reg.players) :: KeyFor(old(reg.players)[id], grid.cell)
                            else old(grid.where)
      ensures sink == old(sink) && near == old(near) && nearestN == old(nearestN)
      ensures spkEnc == old(spkEnc) && spkSeq == old(spkSeq)
    {
      hide NearInv, TablesLive, Reported, Timely, Hushed, SilentIds, Inverse, CellOf, Stops, Placed, Filed, Symmetric;
      HushedTimely(reg.players, tickCount);
      tickCount := Inc32(tickCount);
      if tickCount % REBUILD_TICKS == 0 {
        Refile();
      }
      stopped := StopAll();
    }

    /** The rare rebuild of the grid. */
    method Refile()
      requires Sound()
      modifies grid
      ensures Sound() && grid.where == map id | id in reg.players :: KeyFor(reg.players[id], grid.cell)
    {
      hide NearInv, TablesLive, Inverse, CellOf, Filed, Symmetric;
      grid.Rebuild(reg.players);
    }

    /** Stops for the silent, which disturb no table. */
    method StopAll() returns (stopped: seq<u16>)
      requires Sound() && Reported(events, reg.players)
      modifies reg, this`events
      ensures Sound() && Reported(events, reg.players)
      ensures reg.channels == old(reg.channels)
      ensures reg.players == Hushed(old(reg.players), tickCount, old(reg.players).Keys)
      ensures events == old(events) + Stops(stopped)
      ensures multiset(stopped) == multiset(SilentIds(old(reg.players), tickCount))
    {
      hide NearInv, TablesLive, Reported, Hushed, SilentIds, Inverse, Stops, Placed, Filed, Symmetric;
      ghost var ps0 := reg.players;
      stopped := StopSilent();
      HushedKeeps(ps0, tickCount, grid.where, grid.cell, near, nearestN);
      TablesGrow(bus.decoders, bus.encoders, bus.streams, bus.seqs, bus.lastEmit, bus.chanActive, bus.garble,
                 ps0, reg.channels, reg.players, reg.channels);
    }

    method StopSilent() returns (stopped: seq<u16>)
      requires reg.Valid() && Reported(events, reg.players)
      modifies reg, this`events
      ensures reg.Valid() && Reported(events, reg.players) && reg.channels == old(reg.channels)
      ensures reg.players == Hushed(old(reg.players), tickCount, old(reg.players).Keys)
      ensures events == old(events) + Stops(stopped)
      ensures multiset(stopped) == multiset(SilentIds(old(reg.players), tickCount))
    {
      hide NearInv, TablesLive, Reported, Placed, Hushed, SilentIds, Silent, Symmetric, Filed, Inverse, Stops;
      ghost var ps0, log0 := reg.players, events;
      HushedEnds(ps0, tickCount);
      StopsNone();
      stopped := [];
      var todo := reg.players.Keys;
      while todo != {}
        invariant todo <= ps0.Keys && reg.Valid() && reg.channels == old(reg.channels)
        invariant reg.players == Hushed(ps0, tickCount, ps0.Keys - todo)
        invariant Reported(events, reg.players)
        invariant events == log0 + Stops(stopped)
        invariant multiset(stopped) == multiset(SilentIds(ps0, tickCount) - todo)
        decreases todo
      {
        var id :| id in todo;
        HushStep(events, ps0, tickCount, todo, id);
        StopsStep(stopped, ps0, tickCount, todo, id);
        var pl := reg.players[id];
        if Silent(pl, tickCount) {
          SpeakerFiled(id);
          reg.Put(id, pl.(audioActive := false));
          events := events + [SpeakerStop(id)];
          stopped := stopped + [id];
        }
        todo := todo - {id};
      }
    }

    /** A position push also moves the player in the grid. */
    method OnPlayerPos(c: Ctrl)
      requires Valid() && c.PlayerPos?
      modifies reg, grid
      ensures Valid() && reg.channels == old(reg.channels)
      ensures reg.players == PlayersAfter(old(reg.players), old(reg.channels), c, bus.prox.shout)
      ensures grid.where == old(grid.where)[c.id := KeyFor(reg.players[c.id], grid.cell)]
    {
      hide NearInv, TablesLive, Reported, Timely, Inverse, Filed, Symmetric, Placed, CellOf;
      ghost var ps0 := reg.players;
      var pl := reg.Touch(c.id);
      var moved := Amended(pl, c, bus.prox.shout);
      NewcomerFiled(ps0, reg.channels, c.id, reg.players);
      reg.Put(c.id, moved);
      grid.Update(moved);
      assert reg.players == ps0[c.id := moved];
      PlacedMoved(ps0, c.id, moved, old(grid.where), grid.cell, near, nearestN);
      MovedTalk(ps0, c.id, moved, events, tickCount);
      TablesGrow(bus.decoders, bus.encoders, bus.streams, bus.seqs, bus.lastEmit, bus.chanActive, bus.garble,
                 ps0, reg.channels, reg.players, reg.channels);
    }

    /** A change to one record outside its core. */
    method OnRecord(id: u16, c: Ctrl)
      requires Valid()
      requires c.PlayerMeta? || c.Transmit? || c.MixPolicy? || c.PairMute? || c.Speakerphone?
      requires id == if c.PairMute? then c.listener else c.id
      modifies reg
      ensures Valid() && reg.channels == old(reg.channels)
      ensures reg.players == PlayersAfter(old(reg.players), old(reg.channels), c, bus.prox.shout)
    {
      hide NearInv, TablesLive, Reported, Timely, Inverse, Symmetric, Placed;
      OwnId(id);
      Amend(id, Amended(PlayerOr(reg.players, id), c, bus.prox.shout));
    }

    lemma OwnId(id: u16)
      requires reg.Valid()
      ensures PlayerOr(reg.players, id).id == id
    {
    }

    /** A key transition is reported on every radio channel of the player, with a beep to its members. */
    method OnTransmit(c: Ctrl) returns (cids: seq<u16>)
      requires Valid() && c.Transmit?
      modifies reg, bus`encoders, bus`seqs, bus`bursts, this`events
      ensures Valid() && reg.channels == old(reg.channels)
      ensures reg.players == PlayersAfter(old(reg.players), old(reg.channels), c, bus.prox.shout)
      ensures events == old(events) + Keys(c.id, cids, c.on)
      ensures multiset(cids) == multiset(if PlayerOr(old(reg.players), c.id).transmitting != c.on
                                         then RadioChannels(reg.channels, c.id) else {})
      // Reported are the radio channels of the player, on a change of key only.
      ensures PlayerOr(old(reg.players), c.id).transmitting == c.on ==> cids == []
      ensures PlayerOr(old(reg.players), c.id).transmitting != c.on ==>
                forall cid: u16 ::
                  cid in cids <==>
                  cid in reg.channels && reg.channels[cid].filter == 1 && c.id in reg.channels[cid].members
      ensures old(bus.bursts) <= bus.bursts && Numbered(old(bus.bursts), old(bus.seqs), bus.bursts, bus.seqs)
      ensures RightKeyBeeps(bus.bursts[|old(bus.bursts)|..], cids, bus.conf, reg.players, reg.channels, bus.codec, c.id)
      ensures OnlyBeeps(old(bus.bursts), bus.bursts)
      ensures PrunedPairs(old(bus.seqs), c) == old(bus.seqs)
      ensures EmitAfter(bus.lastEmit, c) == bus.lastEmit && ChannelsAfter(reg.channels, c) == reg.channels
      ensures events == old(events) + Reports(c, cids)
    {
      hide NearInv, TablesLive, Reported, Timely, Inverse, Symmetric, Filed, Placed, RadioChannels, Numbered,
           RightKeyBeeps, OnlyBeeps;
      NoBurstsYet(bus.bursts);
      ghost var bursts0 := bus.bursts;
      NumberedNone(bus.bursts, bus.seqs);
      var was := PlayerOr(reg.players, c.id).transmitting;
      OnRecord(c.id, c);
      NoKeyBeeps(bus.conf, reg.players, reg.channels, bus.codec, c.id);
      assert bus.bursts[|bus.bursts|..] == [];
      if was == c.on {
        KeysStep(c.id, [], c.on, 0);
        return [];
      }
      cids := ReportKeys(c.id, c.on);
      KeyBeepsAreBeeps(bursts0, bus.bursts, cids, bus.conf, reg.players, reg.channels, bus.codec, c.id);
      RadioByField(reg.channels, c.id, cids);
    }

    /** Each radio channel of the player in turn. */
    method ReportKeys(id: u16, on: bool) returns (cids: seq<u16>)
      requires Valid()
      modifies bus`encoders, bus`seqs, bus`bursts, this`events
      ensures Valid() && events == old(events) + Keys(id, cids, on)
      ensures multiset(cids) == multiset(RadioChannels(reg.channels, id))
      ensures old(bus.bursts) <= bus.bursts && Numbered(old(bus.bursts), old(bus.seqs), bus.bursts, bus.seqs)
      ensures RightKeyBeeps(bus.bursts[|old(bus.bursts)|..], cids, bus.conf, reg.players, reg.channels, bus.codec, id)
    {
      hide NearInv, TablesLive, Reported, Timely, Inverse, Symmetric, Filed, Placed, Numbered, RightKeyBeeps,
           RadioChannels;
      cids := [];
      KeysStep(id, [], on, 0);
      NumberedNone(bus.bursts, bus.seqs);
      NoKeyBeeps(bus.conf, reg.players, reg.channels, bus.codec, id);
      ghost var bursts0, seqs0 := bus.bursts, bus.seqs;
      assert bus.bursts[|bursts0|..] == [];
      var all := RadioChannels(reg.channels, id);
      var todo := all;
      assert all - todo == {};
      while todo != {}
        invariant todo <= all && Valid()
        invariant events == old(events) + Keys(id, cids, on)
        invariant multiset(cids) == multiset(all - todo)
        invariant bursts0 <= bus.bursts && Numbered(bursts0, seqs0, bus.bursts, bus.seqs)
        invariant RightKeyBeeps(bus.bursts[|bursts0|..], cids, bus.conf, reg.players, reg.channels, bus.codec, id)
        decreases todo
      {
        var cid :| cid in todo;
        KeysStep(id, cids, on, cid);
        RadioTalk(reg.players, events, id, cid, on);
        events := events + [RadioKey(id, cid, on)];
        ghost var bursts1, seqs1 := bus.bursts, bus.seqs;
        BeepOn(id, cid);
        NumberedJoin(bursts0, seqs0, bursts1, seqs1, bus.bursts, bus.seqs);
        KeyBeepsMore(bursts1[|bursts0|..], bus.bursts[|bursts0|..], cids, cid, bus.conf, reg.players, reg.channels,
                     bus.codec, id);
        SetStep(all, todo, cid, cids);
        cids := cids + [cid];
        todo := todo - {cid};
      }
      assert all - todo == all;
    }

    /** The beep on one radio channel. */
    method BeepOn(id: u16, cid: u16)
      requires Valid() && cid in RadioChannels(reg.channels, id)
      modifies bus`encoders, bus`seqs, bus`bursts
      ensures Valid() && old(bus.bursts) <= bus.bursts
      ensures Numbered(old(bus.bursts), old(bus.seqs), bus.bursts, bus.seqs)
      ensures !bus.conf.squelchBeep ==> bus.bursts == old(bus.bursts)
      ensures bus.conf.squelchBeep ==>
                && |bus.bursts| == |old(bus.bursts)| + 1
                && RightBeepBurst(bus.bursts[|old(bus.bursts)|], cid, reg.players, reg.channels, bus.codec, id)
    {
      hide NearInv, TablesLive, Reported, Timely, Inverse, Symmetric, Filed, Placed, Numbered, RightBeeps, BeepsTo;
      ghost var was := |bus.bursts|;
      ghost var beep := bus.OnRadioKey(id, cid);
      if bus.conf.squelchBeep {
        BeepsByField(bus.bursts[was].packets, cid, reg.players, reg.channels, bus.codec, id, beep);
      }
    }

    /** A player leaves: no table keeps the id, and nobody mutes it any more. */
    method OnGone(pid: u16)
      requires Valid()
      modifies this`near, this`spkEnc, this`spkSeq, this`events, reg, grid, bus
      ensures Valid()
      ensures reg.players == Unmuted(old(reg.players) - {pid}, pid) && reg.channels == Without(old(reg.channels), pid)
      ensures events == old(events) + [Left(pid)]
      ensures grid.where == old(grid.where) - {pid} && near == old(near) - {pid}
      ensures spkEnc == old(spkEnc) - {pid} && spkSeq == old(spkSeq) - {pid}
      ensures bus.decoders == old(bus.decoders) - {pid}
      ensures bus.streams == WithoutHigh(old(bus.streams), pid) && bus.seqs == WithoutHigh(old(bus.seqs), pid)
      ensures bus.encoders == KeysWithoutHigh(old(bus.encoders), pid)
      ensures bus.lastEmit == old(bus.lastEmit) && bus.chanActive == old(bus.chanActive)
      ensures bus.garble == old(bus.garble)
      ensures bus.prox == old(bus.prox) && bus.conf == old(bus.conf) && bus.bursts == old(bus.bursts)
    {
      hide NearInv, TablesLive, Reported, Timely, Inverse, Symmetric, Filed, Placed, WithoutHigh, KeysWithoutHigh,
           Unmuted, SameCore, Without;
      ghost var ps0 := reg.players;
      UnmutedCore(ps0, pid);
      Unregister(pid);
      grid.Remove(pid);
      near := near - {pid};
      spkEnc, spkSeq := spkEnc - {pid}, spkSeq - {pid};
      UnmuteAll(pid);
      TablesGrow(bus.decoders, bus.encoders, bus.streams, bus.seqs, bus.lastEmit, bus.chanActive, bus.garble,
                 ps0 - {pid}, reg.channels, reg.players, reg.channels);
      GoneSound(ps0, reg.players, pid, old(grid.where), grid.cell, old(near), nearestN);
      GoneTalk(ps0, reg.players, pid, events, tickCount);
      events := events + [Left(pid)];
    }

    /** Out of the registry and its channels, and out of the bus tables. */
    method Unregister(pid: u16)
      requires bus.reg == reg && bus.Valid()
      modifies reg, bus
      ensures bus.Valid() && reg.players == old(reg.players) - {pid} && reg.channels == Without(old(reg.channels), pid)
      ensures bus.decoders == old(bus.decoders) - {pid}
      ensures bus.streams == WithoutHigh(old(bus.streams), pid) && bus.seqs == WithoutHigh(old(bus.seqs), pid)
      ensures bus.encoders == KeysWithoutHigh(old(bus.encoders), pid)
      ensures bus.lastEmit == old(bus.lastEmit) && bus.chanActive == old(bus.chanActive)
      ensures bus.garble == old(bus.garble)
      ensures bus.prox == old(bus.prox) && bus.conf == old(bus.conf) && bus.bursts == old(bus.bursts)
    {
      hide Symmetric, Filed, TablesLive, WithoutHigh, KeysWithoutHigh;
      ghost var ps0, cs0 := reg.players, reg.channels;
      reg.RemovePlayer(pid);
      bus.PrunePlayer(pid, ps0, cs0);
    }

    /** Drops the id from everyone's mute set. */
    method UnmuteAll(id: u16)
      requires reg.Valid()
      modifies reg
      ensures reg.Valid() && reg.players == Unmuted(old(reg.players), id) && reg.channels == old(reg.channels)
    {
      hide Symmetric;
      ghost var ps0 := reg.players;
      var todo := reg.players.Keys;
      while todo != {}
        invariant todo <= ps0.Keys && reg.Valid() && reg.channels == old(reg.channels)
        invariant reg.players.Keys == ps0.Keys
        invariant forall p :: p in ps0 && p in todo ==> reg.players[p] == ps0[p]
        invariant forall p :: p in ps0 && p !in todo ==> reg.players[p] == Unmuted(ps0, id)[p]
        decreases todo
      {
        var p :| p in todo;
        var pl := reg.players[p];
        reg.Put(p, pl.(mutedTargets := pl.mutedTargets - {id}));
        todo := todo - {p};
      }
    }

    /** Channel operations; a destroyed channel takes its bus state with it. */
    method OnChannel(op: ChanOp)
      requires Valid() && !op.Gone?
      modifies reg, bus
      ensures Valid()
      ensures reg.players == ApplyToPlayers(old(reg.players), old(reg.channels), op)
      ensures reg.channels == ApplyOp(old(reg.channels), op)
      ensures op.Destroy? ==>
                && bus.streams == WithoutLow(old(bus.streams), op.id) && bus.seqs == WithoutLow(old(bus.seqs), op.id)
                && bus.encoders == KeysWithoutLow(old(bus.encoders), op.id)
                && bus.chanActive == old(bus.chanActive) - {op.id} && bus.garble == old(bus.garble) - {op.id}
      ensures bus.decoders == old(bus.decoders)
      ensures !op.Destroy? ==>
                && bus.streams == old(bus.streams) && bus.seqs == old(bus.seqs) && bus.encoders == old(bus.encoders)
                && bus.chanActive == old(bus.chanActive) && bus.garble == old(bus.garble)
      ensures bus.prox == old(bus.prox) && bus.conf == old(bus.conf) && bus.bursts == old(bus.bursts)
      ensures bus.lastEmit == EmitAfter(old(bus.lastEmit), Chan(op))
    {
      hide NearInv, TablesLive, Reported, Timely, Inverse, Symmetric, Filed, Placed;
      ghost var ps0, cs0 := reg.players, reg.channels;
      ControlLink.Apply(reg, op);
      OpKeepsCore(ps0, cs0, op);
      CoreSuffices(ps0, reg.players, grid.where, grid.cell, near, nearestN, events, tickCount);
      if op.Destroy? {
        bus.PruneChannel(op.id, ps0, cs0);
      } else {
        TablesGrow(bus.decoders, bus.encoders, bus.streams, bus.seqs, bus.lastEmit, bus.chanActive, bus.garble,
                   ps0, cs0, reg.players, reg.channels);
      }
    }

    /** A channel operation or a departure, with the side tables it touches. */
    method OnOperation(c: Ctrl)
      requires Valid() && c.Chan?
      modifies this`near, this`spkEnc, this`spkSeq, this`events, reg, grid, bus
      ensures Valid()
      ensures reg.players == PlayersAfter(old(reg.players), old(reg.channels), c, old(bus.prox.shout))
      ensures reg.channels == ChannelsAfter(old(reg.channels), c)
      ensures events == old(events) + Reports(c, [])
      ensures bus.lastEmit == EmitAfter(old(bus.lastEmit), c)
      ensures bus.prox == old(bus.prox) && bus.conf == old(bus.conf) && bus.bursts == old(bus.bursts)
      ensures bus.seqs == PrunedPairs(old(bus.seqs), c)
      ensures SideNow() == SideAfter(old(SideNow()), reg.players, c, grid.cell)
    {
      hide NearInv, TablesLive, Reported, Timely, Inverse, Symmetric, Filed, Placed, ApplyToPlayers, ApplyOp,
           WithoutHigh, WithoutLow, KeysWithoutHigh, KeysWithoutLow, Unmuted, Without, KeyFor;
      if c.op.Gone? {
        GoneTables(reg.players, reg.channels, c.op);
        OnGone(c.op.pid);
      } else {
        OnChannel(c.op);
      }
    }

    /** One control packet. */
    method OnControl(c: Ctrl) returns (cids: seq<u16>)
      requires Valid()
      modifies this, reg, grid, bus
      ensures Valid()
      ensures reg.players == PlayersAfter(old(reg.players), old(reg.channels), c, old(bus.prox.shout))
      ensures reg.channels == ChannelsAfter(old(reg.channels), c)
      ensures events == old(events) + Reports(c, cids)
      ensures c.Transmit? ==> multiset(cids) ==
                              multiset(if PlayerOr(old(reg.players), c.id).transmitting != c.on
                                       then RadioChannels(reg.channels, c.id) else {})
      ensures nearestN == old(nearestN) && tickCount == old(tickCount) && sink == old(sink)
      ensures c.Config? ==>
                && bus.prox == old(bus.prox).(whisper := c.whisper, normal := c.normal, shout := c.shout,
                                              falloffExp := c.falloffExp, occlusion := c.occlusion)
                && bitrate == c.bitrate && policy == c.limits
      ensures bus.conf == old(bus.conf) && bus.lastEmit == EmitAfter(old(bus.lastEmit), c)
      // Only key transitions send anything: the beeps of the channels reported.
      ensures OnlyBeeps(old(bus.bursts), bus.bursts)
      ensures !c.Transmit? ==> bus.bursts == old(bus.bursts)
      ensures c.Transmit? ==>
                RightKeyBeeps(bus.bursts[|old(bus.bursts)|..], cids, bus.conf, reg.players, reg.channels, bus.codec,
                              c.id)
      ensures Numbered(old(bus.bursts), PrunedPairs(old(bus.seqs), c), bus.bursts, bus.seqs)
      // Every side table, where beeps may add encoders and numbers.
      ensures !c.Transmit? ==> SideNow() == SideAfter(old(SideNow()), reg.players, c, grid.cell)
      ensures c.Transmit? ==> SideNow() == old(SideNow()).(encoders := bus.encoders, seqs := bus.seqs)
      ensures !c.Config? ==> bus.prox == old(bus.prox) && bitrate == old(bitrate) && policy == old(policy)
    {
      hide NearInv, TablesLive, Reported, Timely, Inverse, Symmetric, Filed, Placed, ApplyToPlayers, ApplyOp,
           RadioChannels, OnlyBeeps, Numbered, RightKeyBeeps, WithoutHigh, WithoutLow, KeysWithoutHigh, KeysWithoutLow,
           Unmuted, Amended, Without, KeyFor, SideAfter, PrunedPairs, EmitAfter, ChannelsAfter, PlayersAfter, Reports,
           WhereAfter;
      cids := [];
      NumberedNone(bus.bursts, PrunedPairs(bus.seqs, c));
      NoBurstsYet(bus.bursts);
      if c.Chan? {
        OnOperation(c);
      } else if c.Transmit? {
        cids := OnTransmit(c);
      } else {
        OnSetting(c);
      }
    }

    /** Packets that set something of one player, or of the tuning. */
    method OnSetting(c: Ctrl)
      requires Valid() && !c.Chan? && !c.Transmit?
      modifies reg, grid, bus`prox, this`bitrate, this`policy
      ensures Valid() && reg.channels == old(reg.channels)
      ensures reg.players == PlayersAfter(old(reg.players), old(reg.channels), c, old(bus.prox.shout))
      ensures SideNow() == SideAfter(old(SideNow()), reg.players, c, grid.cell)
      ensures PrunedPairs(old(bus.seqs), c) == old(bus.seqs) && Reports(c, []) == []
      ensures EmitAfter(bus.lastEmit, c) == bus.lastEmit && ChannelsAfter(reg.channels, c) == reg.channels
      ensures c.Config? ==>
                && bus.prox == old(bus.prox).(whisper := c.whisper, normal := c.normal, shout := c.shout,
                                              falloffExp := c.falloffExp, occlusion := c.occlusion)
                && bitrate == c.bitrate && policy == c.limits
      ensures !c.Config? ==> bus.prox == old(bus.prox) && bitrate == old(bitrate) && policy == old(policy)
    {
      hide NearInv, TablesLive, Reported, Timely, Inverse, Symmetric, Filed, Placed, Amended, KeyFor;
      match c
      case PlayerPos(_, _, _, _, _) => OnPlayerPos(c);
      case Config(rate, whisper, normal, shout, falloffExp, occlusion, limits) =>
        bus.prox := bus.prox.(whisper := whisper, normal := normal, shout := shout,
                              falloffExp := falloffExp, occlusion := occlusion);
        bitrate, policy := rate, limits;
      case PairMute(l, _, _) => OnRecord(l, c);
      case Other =>
      case PlayerMeta(id, _, _, _, _, _, _) => OnRecord(id, c);
      case MixPolicy(id, _, _, _) => OnRecord(id, c);
      case Speakerphone(id, _) => OnRecord(id, c);
    }

    /** The side tables by value. */
    function SideNow(): Side
      reads this, grid, bus
    {
      Side(grid.where, near, spkEnc, spkSeq, bus.decoders, bus.encoders, bus.streams, bus.seqs, bus.chanActive,
           bus.garble)
    }

    /** The state by value. */
    function State(): Snapshot
      reads this, reg, grid, bus
    {
      Snapshot(
        reg.players, reg.channels, grid.cells, grid.where, grid.cell, near, nearestN, spkEnc, spkSeq,
        bus.decoders, bus.encoders, bus.streams, bus.seqs, bus.lastEmit, bus.chanActive, bus.garble, events, tickCount)
    }
  }

  datatype Snapshot = Snapshot(
    ps: Players, cs: Channels, cells: Cells, where: Where, cell: real, near: NearTable, nearestN: nat,
    spkEnc: set<u16>, spkSeq: map<u16, u16>,
    decoders: set<u16>, encoders: set<u32>, streams: Streams, seqs: map<u32, u16>,
    lastEmit: map<u16, u32>, active: map<u16, u32>, garble: set<u16>, events: seq<Event>, tick: u32)

  /** Side tables name live players and channels only. */
  ghost predicate NoOrphans(s: Snapshot) {
    && TablesLive(s.decoders, s.encoders, s.streams, s.seqs, s.lastEmit, s.active, s.garble, s.ps, s.cs)
    && NearInv(s.near, s.ps, s.nearestN) && s.spkEnc <= s.ps.Keys && s.spkSeq.Keys <= s.ps.Keys
  }

  /** The grid is an index of live players by their current position. */
  ghost predicate GridCurrent(s: Snapshot) {
    s.cell > 0.0 && Inverse(s.cells, s.where) && Placed(s.where, s.ps, s.cell)
  }

  /** The placed players, filed anew by their current position. */
  function Refiled(ps: Players, where: Where, cell: real): Where
    requires cell > 0.0
  {
    map id | id in where && id in ps :: KeyFor(ps[id], cell)
  }

  /** In such a state a rebuild from the placed players gives the same grid, up to order in the cells. */
  lemma CurrentGridIsRebuilt(s: Snapshot, rebuilt: Cells)
    requires GridCurrent(s) && Inverse(rebuilt, Refiled(s.ps, s.where, s.cell))
    ensures s.cells.Keys == rebuilt.Keys
    ensures forall k :: k in s.cells ==> multiset(s.cells[k]) == multiset(rebuilt[k])
  {
    assert s.where == Refiled(s.ps, s.where, s.cell);
    InverseSettles(s.cells, rebuilt, s.where);
  }

  /** What the engine is fed; `pcm` is what the speaker's frame decodes to, `at` the clock in milliseconds. */
  datatype Input =
    | Control(c: Ctrl)
    | Audio(speaker: u16, seqNo: u16, flags: u8, opus: seq<u8>, pcm: seq<real>, at: nat)
    | TickInput

  /** The clock as the engine reads it. */
  function Millis(at: nat): u32 {
    at % 0x1_0000_0000
  }

  // ---- what a run does to the records ----

  /** The part of the state that is settled by the inputs alone. */
  datatype Core = Core(
    ps: Players, cs: Channels, shout: real, tick: u32, where: Where, lastEmit: map<u16, u32>, bus: seq<BusEntry>,
    active: map<u16, u32>, spoke: map<u32, u32>)

  /** What happened to the buses: a round of emissions, or a channel destroyed. */
  datatype BusEntry = Emitted(channels: set<u16>, at: nat) | Dropped(channel: u16)

  function StartUp(prox: ProximityTuning): Core {
    Core(map[], map[], prox.shout, 0, map[], map[], [], map[], map[])
  }

  /** The channels whose bus is emitted on an input. */
  function EmitsOf(c: Core, i: Input): set<u16> {
    if i.Audio? then Due(KeyedOf(c, i), c.lastEmit, Millis(i.at)) else {}
  }

  /** The channels a frame is carried on. */
  function KeyedOf(c: Core, i: Input): set<u16> {
    if i.Audio? && Accepted(c.ps, i.speaker) then KeyedNow(StepPlayers(c, i), c.cs, i.speaker, i.pcm) else {}
  }

  function PairsOf(speaker: u16, keyed: set<u16>): set<u32> {
    set c | c in keyed :: Key2(speaker, c)
  }

  function StepPlayers(c: Core, i: Input): Players {
    match i
    case Control(m) => PlayersAfter(c.ps, c.cs, m, c.shout)
    case Audio(speaker, _, _, _, _, _) =>
      if Accepted(c.ps, speaker)
      then c.ps[speaker := c.ps[speaker].(audioActive := true, lastAudioTick := c.tick)] else c.ps
    case TickInput => Hushed(c.ps, Inc32(c.tick), c.ps.Keys)
  }

  /** Who is placed: those who had a position since, and everyone at every 1024th tick. */
  function StepWhere(c: Core, i: Input): Where {
    match i
    case Control(m) => WhereAfter(c.where, StepPlayers(c, i), m, CELL)
    case Audio(_, _, _, _, _, _) => c.where
    case TickInput =>
      if Inc32(c.tick) % REBUILD_TICKS == 0 then map id | id in c.ps :: KeyFor(c.ps[id], CELL) else c.where
  }

  function DroppedBy(i: Input): seq<BusEntry> {
    if i.Control? && i.c.Chan? && i.c.op.Destroy? then [Dropped(i.c.op.id)] else []
  }

  function StepCore(c: Core, i: Input): Core {
    var ps := StepPlayers(c, i);
    match i
    case Control(m) =>
      Core(ps, ChannelsAfter(c.cs, m), if m.Config? then m.shout else c.shout, c.tick, StepWhere(c, i),
           EmitAfter(c.lastEmit, m), c.bus + DroppedBy(i), EmitAfter(c.active, m), PrunedPairs(c.spoke, m))
    case Audio(_, _, _, _, _, at) =>
      c.(ps := ps, lastEmit := Stamp(c.lastEmit, EmitsOf(c, i), Millis(at)),
         bus := c.bus + [Emitted(EmitsOf(c, i), at)],
         active := Stamp(c.active, KeyedOf(c, i), Millis(at)),
         spoke := c.spoke + (map k | k in PairsOf(i.speaker, KeyedOf(c, i)) :: Millis(at)))
    case TickInput => c.(ps := ps, tick := Inc32(c.tick), where := StepWhere(c, i))
  }

  function RunCore(c: Core, inputs: seq<Input>): Core {
    if inputs == [] then c else StepCore(RunCore(c, inputs[..|inputs| - 1]), inputs[|inputs| - 1])
  }

  function TicksIn(inputs: seq<Input>): nat {
    if inputs == [] then 0 else TicksIn(inputs[..|inputs| - 1]) + (if inputs[|inputs| - 1].TickInput? then 1 else 0)
  }

  /** The player neither speaks nor leaves. */
  predicate QuietFor(inputs: seq<Input>, p: u16) {
    forall k :: 0 <= k < |inputs| ==>
      !(inputs[k].Audio? && inputs[k].speaker == p) && !(inputs[k].Control? && inputs[k].c == Chan(Gone(p)))
  }

  lemma ControlKeepsTalk(ps: Players, cs: Channels, c: Ctrl, shout: real, p: u16)
    requires p in ps && c != Chan(Gone(p))
    ensures var ps' := PlayersAfter(ps, cs, c, shout);
            p in ps' && ps'[p].audioActive == ps[p].audioActive && ps'[p].lastAudioTick == ps[p].lastAudioTick
  {
  }

  /**
    From a frame of a player on, as long as they neither speak nor leave, they count as talking
    exactly until the eighth tick, whatever else happens and however the tick counter wraps.
   */
  lemma {:induction false} TalksUntilEighthTick(c: Core, inputs: seq<Input>, p: u16)
    requires p in c.ps && c.ps[p].audioActive && c.ps[p].lastAudioTick == c.tick
    requires QuietFor(inputs, p) && TicksIn(inputs) + 1 < 0x1_0000_0000
    ensures var end := RunCore(c, inputs);
            && p in end.ps && end.ps[p].lastAudioTick == c.tick && end.tick == TickAfter(c.tick, TicksIn(inputs))
            && (end.ps[p].audioActive <==> TicksIn(inputs) < 8)
  {
    hide StepCore, TickAfter;
    if inputs == [] {
      TickZero(c.tick);
    } else {
      var n := |inputs| - 1;
      TalksUntilEighthTick(c, inputs[..n], p);
      var mid := RunCore(c, inputs[..n]);
      QuietStep(mid, inputs[n], p, c.tick, TicksIn(inputs[..n]));
    }
  }

  /** One quiet step, `k` ticks after the last frame. */
  lemma QuietStep(mid: Core, i: Input, p: u16, last: u32, k: nat)
    requires p in mid.ps && mid.ps[p].lastAudioTick == last && mid.tick == TickAfter(last, k)
    requires mid.ps[p].audioActive <==> k < SILENCE_TICKS
    requires !(i.Audio? && i.speaker == p) && !(i.Control? && i.c == Chan(Gone(p)))
    requires k + 1 < 0x1_0000_0000
    ensures var end := StepCore(mid, i);
            var k' := k + (if i.TickInput? then 1 else 0);
            && p in end.ps && end.ps[p].lastAudioTick == last && end.tick == TickAfter(last, k')
            && (end.ps[p].audioActive <==> k' < SILENCE_TICKS)
  {
    hide PlayersAfter, ChannelsAfter, TickAfter, Silent, Inc32;
    match i
    case Control(m) => ControlKeepsTalk(mid.ps, mid.cs, m, mid.shout, p);
    case Audio(_, _, _, _, _, _) =>
    case TickInput =>
      var talking := mid.ps[p].(audioActive := true);
      SilentOnEighth(talking, k);
      SilentOnEighth(talking, k + 1);
      SilentNeedsTalk(mid.ps[p], talking, Inc32(mid.tick));
  }

  lemma SilentNeedsTalk(p: Player, q: Player, tick: u32)
    requires q == p.(audioActive := true)
    ensures Silent(p, tick) <==> p.audioActive && Silent(q, tick)
  {
  }

  lemma TickZero(tick: u32)
    ensures TickAfter(tick, 0) == tick
  {
  }

  // ---- the rate of a bus ----

  /** When the channel's bus was emitted since it was last destroyed. */
  function EmitTimes(bus: seq<BusEntry>, cid: u16): seq<nat> {
    if bus == [] then []
    else
      var before := EmitTimes(bus[..|bus| - 1], cid);
      var e := bus[|bus| - 1];
      if e.Dropped? then if e.channel == cid then [] else before
      else if cid in e.channels then before + [e.at] else before
  }

  lemma EmitTimesGrow(bus: seq<BusEntry>, e: BusEntry, cid: u16)
    ensures EmitTimes(bus + [e], cid) ==
            if e.Dropped? then if e.channel == cid then [] else EmitTimes(bus, cid)
            else if cid in e.channels then EmitTimes(bus, cid) + [e.at] else EmitTimes(bus, cid)
  {
    assert (bus + [e])[..|bus|] == bus;
  }

  /** Each emission was let through after the one before, and the last one is on record. */
  ghost predicate Spaced(times: seq<nat>, lastEmit: map<u16, u32>, cid: u16) {
    && (forall k :: 0 <= k < |times| - 1 ==> LetThrough(times[k], times[k + 1]))
    && (cid in lastEmit <==> times != [])
    && (times != [] ==> lastEmit[cid] == Millis(times[|times| - 1]))
  }

  lemma EmissionSpaced(times: seq<nat>, lastEmit: map<u16, u32>, due: set<u16>, keyed: set<u16>, at: nat, cid: u16)
    requires Spaced(times, lastEmit, cid) && due == Due(keyed, lastEmit, Millis(at))
    ensures Spaced(if cid in due then times + [at] else times, Stamp(lastEmit, due, Millis(at)), cid)
  {
    if cid in due && times != [] {
      var prev := times[|times| - 1];
      assert !Throttled(lastEmit, cid, Millis(at));
      assert LetThrough(prev, at);
    }
  }

  lemma {:induction false} RunSpaced(prox: ProximityTuning, inputs: seq<Input>, cid: u16)
    ensures var c := RunCore(StartUp(prox), inputs);
            Spaced(EmitTimes(c.bus, cid), c.lastEmit, cid)
  {
    hide Spaced, Due, Stamp, KeyedNow, StepPlayers, ChannelsAfter;
    if inputs == [] {
      NoEmissions(prox, cid);
    } else {
      RunSpaced(prox, inputs[..|inputs| - 1], cid);
      StepSpaced(RunCore(StartUp(prox), inputs[..|inputs| - 1]), inputs[|inputs| - 1], cid);
    }
  }

  lemma NoEmissions(prox: ProximityTuning, cid: u16)
    ensures Spaced(EmitTimes(StartUp(prox).bus, cid), StartUp(prox).lastEmit, cid)
  {
  }

  lemma StepSpaced(c: Core, i: Input, cid: u16)
    requires Spaced(EmitTimes(c.bus, cid), c.lastEmit, cid)
    ensures Spaced(EmitTimes(StepCore(c, i).bus, cid), StepCore(c, i).lastEmit, cid)
  {
    hide Due, Stamp, KeyedNow, StepPlayers, ChannelsAfter, Spaced, EmitTimes;
    match i
    case Control(m) =>
      assert c.bus + [] == c.bus;
      if m.Chan? && m.op.Destroy? {
        EmitTimesGrow(c.bus, Dropped(m.op.id), cid);
        DropSpaced(EmitTimes(c.bus, cid), c.lastEmit, m.op.id, cid);
      }
    case Audio(_, _, _, _, _, at) =>
      EmitTimesGrow(c.bus, Emitted(EmitsOf(c, i), at), cid);
      EmissionSpaced(EmitTimes(c.bus, cid), c.lastEmit, EmitsOf(c, i), KeyedOf(c, i), at, cid);
    case TickInput =>
  }

  lemma DropSpaced(times: seq<nat>, lastEmit: map<u16, u32>, gone: u16, cid: u16)
    requires Spaced(times, lastEmit, cid)
    ensures Spaced(if gone == cid then [] else times, lastEmit - {gone}, cid)
  {
  }

  /** The clock does not go back, and never reads zero. */
  ghost predicate GoodClock(inputs: seq<Input>) {
    && (forall i, j :: 0 <= i <= j < |inputs| && inputs[i].Audio? && inputs[j].Audio? ==> inputs[i].at <= inputs[j].at)
    && (forall i :: 0 <= i < |inputs| && inputs[i].Audio? ==> Millis(inputs[i].at) != 0)
  }

  /** Emission times go up, read non-zero, and come from the inputs. */
  ghost predicate FromInputs(times: seq<nat>, inputs: seq<Input>) {
    && (forall k :: 0 <= k < |times| - 1 ==> times[k] <= times[k + 1])
    && (forall k :: 0 <= k < |times| ==> ReadAt(inputs, times[k]))
  }

  /** Some frame came at this time. */
  ghost predicate ReadAt(inputs: seq<Input>, at: nat) {
    exists n :: 0 <= n < |inputs| && inputs[n].Audio? && inputs[n].at == at
  }

  lemma ReadBefore(inputs: seq<Input>, i: Input, at: nat)
    requires ReadAt(inputs, at) && GoodClock(inputs + [i])
    ensures ReadAt(inputs + [i], at) && Millis(at) != 0 && (i.Audio? ==> at <= i.at)
  {
    hide Millis;
    var all := inputs + [i];
    var n :| 0 <= n < |inputs| && inputs[n].Audio? && inputs[n].at == at;
    assert all[n] == inputs[n] && all[|inputs|] == i;
  }

  lemma FromInputsStep(times: seq<nat>, inputs: seq<Input>, i: Input)
    requires FromInputs(times, inputs) && GoodClock(inputs + [i])
    ensures FromInputs(times, inputs + [i]) && FromInputs([], inputs + [i])
    ensures i.Audio? ==> FromInputs(times + [i.at], inputs + [i])
  {
    hide GoodClock, ReadAt;
    forall k | 0 <= k < |times| ensures ReadAt(inputs + [i], times[k]) && (i.Audio? ==> times[k] <= i.at) {
      ReadBefore(inputs, i, times[k]);
    }
    ReadLast(inputs, i);
  }

  lemma ReadLast(inputs: seq<Input>, i: Input)
    ensures i.Audio? ==> ReadAt(inputs + [i], i.at)
  {
    assert (inputs + [i])[|inputs|] == i;
  }

  lemma {:induction false} TimesFromInputs(prox: ProximityTuning, inputs: seq<Input>, cid: u16)
    requires GoodClock(inputs)
    ensures FromInputs(EmitTimes(RunCore(StartUp(prox), inputs).bus, cid), inputs)
  {
    hide FromInputs, GoodClock, StepPlayers, EmitsOf, ChannelsAfter, EmitTimes;
    if inputs == [] {
      NoTimes(prox, cid);
    } else {
      var front, i := inputs[..|inputs| - 1], inputs[|inputs| - 1];
      assert inputs == front + [i];
      FrontClock(front, i);
      TimesFromInputs(prox, front, cid);
      var c := RunCore(StartUp(prox), front);
      FromInputsStep(EmitTimes(c.bus, cid), front, i);
      if i.Audio? {
        EmitTimesGrow(c.bus, Emitted(EmitsOf(c, i), i.at), cid);
      } else if DroppedBy(i) != [] {
        EmitTimesGrow(c.bus, Dropped(i.c.op.id), cid);
      } else {
        assert c.bus + [] == c.bus;
      }
    }
  }

  lemma NoTimes(prox: ProximityTuning, cid: u16)
    ensures FromInputs(EmitTimes(StartUp(prox).bus, cid), [])
  {
  }

  lemma FrontClock(front: seq<Input>, i: Input)
    requires GoodClock(front + [i])
    ensures GoodClock(front)
  {
    hide Millis;
    forall k | 0 <= k < |front| ensures (front + [i])[k] == front[k] {
    }
  }

  /**
    In every run, however many members key a channel, two emissions of its bus with `n` steps from
    one to the other are at least `18 * n` milliseconds apart, unless it was destroyed in between;
    so no stretch of `span` milliseconds holds more than `span / 18 + 1`.
   */
  lemma BusRate(prox: ProximityTuning, inputs: seq<Input>, cid: u16, i: nat, j: nat)
    requires GoodClock(inputs)
    requires i <= j < |EmitTimes(RunCore(StartUp(prox), inputs).bus, cid)|
    ensures var times := EmitTimes(RunCore(StartUp(prox), inputs).bus, cid);
            && times[j] - times[i] >= 18 * (j - i)
            && j - i <= (times[j] - times[i]) / 18
  {
    hide RunCore, EmitTimes, Throttled;
    RunSpaced(prox, inputs, cid);
    TimesFromInputs(prox, inputs, cid);
    EmitsAreSpread(EmitTimes(RunCore(StartUp(prox), inputs).bus, cid), i, j);
  }

  /** The numbers left when an input starts to send: a departure or a destroyed channel takes its own along. */
  function PrunedBy(seqs: map<u32, u16>, i: Input): map<u32, u16> {
    if i.Control? then PrunedPairs(seqs, i.c) else seqs
  }

  /** The packets of one input account for the change of the last numbers. */
  ghost predicate StepNumbers(seqs: map<u32, u16>, i: Input, seqs': map<u32, u16>, bs: seq<Burst>) {
    Numbers(PrunedBy(seqs, i), seqs', PacketsOf(bs))
  }

  /** So do those of all inputs, one after the other. */
  ghost predicate Chained(inputs: seq<Input>, news: seq<seq<Burst>>, tables: seq<map<u32, u16>>) {
    && |news| == |inputs| && |tables| == |inputs| + 1 && tables[0] == map[]
    && forall n :: 0 <= n < |inputs| ==> StepNumbers(tables[n], inputs[n], tables[n + 1], news[n])
  }

  /** Of the bursts of one input, the mixed ones are exactly one for each of these channels. */
  ghost predicate OnePerChannel(bs: seq<Burst>, due: set<u16>) {
    && (forall k :: 0 <= k < |bs| && bs[k].Mixed? ==> bs[k].channel in due)
    && (forall i, j :: 0 <= i < j < |bs| && bs[i].Mixed? && bs[j].Mixed? ==> bs[i].channel != bs[j].channel)
    && (forall c :: c in due ==> exists k :: 0 <= k < |bs| && bs[k].Mixed? && bs[k].channel == c)
  }

  lemma RightIsOnePerChannel(
      bs: seq<Burst>, walk: seq<u16>, keyed: set<u16>, due: set<u16>, end: Scene, before: map<u16, u32>, codec: Codec)
    requires RightBursts(bs, walk, keyed, due, end, before, codec)
    ensures OnePerChannel(bs, due)
  {
    hide RightBurst, SceneOf, Place, UpTo;
    forall i, j | 0 <= i < j < |bs| ensures bs[i].channel != bs[j].channel {
      assert Place(walk, bs[i].channel) < Place(walk, bs[j].channel);
    }
  }

  lemma BeepsAreNone(bs: seq<Burst>, bs': seq<Burst>)
    requires OnlyBeeps(bs, bs')
    ensures bs <= bs' && OnePerChannel(bs'[|bs|..], {})
  {
  }

  lemma NothingEmitted()
    ensures OnePerChannel([], {})
  {
  }

  /** What the engine has put out so far. */
  datatype Mark = Mark(sink: seq<ProximityDown>, bursts: seq<Burst>, events: seq<Event>)

  /** The stored frames were stored when the run says. */
  ghost predicate Spoken(ss: Streams, spoke: map<u32, u32>) {
    ss.Keys == spoke.Keys && forall k :: k in ss ==> ss[k].lastMs == spoke[k]
  }

  /** Everyone mixed into a packet last spoke on its channel no more than 60 ms ago. */
  ghost predicate FreshSources(bs: seq<Burst>, spoke: map<u32, u32>, now: u32) {
    forall b, k :: 0 <= b < |bs| && bs[b].Mixed? && 0 <= k < |bs[b].packets| ==>
      FreshIn(bs[b].packets[k], bs[b].channel, spoke, now)
  }

  ghost predicate FreshIn(p: BusDown, cid: u16, spoke: map<u32, u32>, now: u32) {
    && p.channel == cid && p.sources != {}
    && forall c: u16 :: c in p.sources ==>
         c != p.to && Key2(c, cid) in spoke && (now - spoke[Key2(c, cid)]) % 0x1_0000_0000 <= 60
  }

  lemma SourceIsFresh(b: Burst, end: Scene, before: map<u16, u32>, did: set<u16>, codec: Codec, spoke: map<u32, u32>)
    requires RightBurst(b, codec) && SceneOf(b.scene, end, before, did, b.channel) && Spoken(end.ss, spoke)
    ensures forall k :: 0 <= k < |b.packets| ==> FreshIn(b.packets[k], b.channel, spoke, end.now)
  {
    BurstByField(b, codec);
    hide Key2, LeftOut, AtChannel, GainIs, RightBurst, Stamp, MixAt;
    forall k | 0 <= k < |b.packets| ensures FreshIn(b.packets[k], b.channel, spoke, end.now) {
      assert PlainPacket(b.scene, b.channel, b.packets[k]);
      forall c: u16 | c in b.packets[k].sources
        ensures Key2(c, b.channel) in spoke && (end.now - spoke[Key2(c, b.channel)]) % 0x1_0000_0000 <= 60
      {
        assert Recent(b.scene, b.channel, c) && SameEntry(b.scene.ss, end.ss, Key2(c, b.channel));
      }
    }
  }

  lemma SourcesAreFresh(
      bs: seq<Burst>, walk: seq<u16>, keyed: set<u16>, due: set<u16>, end: Scene, before: map<u16, u32>, codec: Codec,
      spoke: map<u32, u32>)
    requires RightBursts(bs, walk, keyed, due, end, before, codec) && Spoken(end.ss, spoke)
    ensures FreshSources(bs, spoke, end.now)
  {
    hide RightBurst, SceneOf, Place, UpTo, Spoken, FreshIn;
    forall b | 0 <= b < |bs|
      ensures forall k :: 0 <= k < |bs[b].packets| ==> FreshIn(bs[b].packets[k], bs[b].channel, spoke, end.now)
    {
      SourceIsFresh(bs[b], end, before, UpTo(walk, keyed, bs[b].channel), codec, spoke);
    }
  }

  lemma NoSources(spoke: map<u32, u32>, now: u32)
    ensures FreshSources([], spoke, now)
  {
  }

  /** Storing a frame on the keyed channels is what the run records of it. */
  lemma RecordedIsSpoken(
      ss: Streams, ss': Streams, speaker: u16, keyed: set<u16>, cs: Channels, n: nat, now: u32, spoke: map<u32, u32>)
    requires Recorded(ss, ss', speaker, keyed, cs, n, now) && Spoken(ss, spoke)
    ensures Spoken(ss', spoke + (map k | k in PairsOf(speaker, keyed) :: now))
  {
    hide Key2;
    var pairs := PairsOf(speaker, keyed);
    forall k: u32
      ensures k in ss' <==> k in spoke || k in pairs
      ensures k in ss' ==> ss'[k].lastMs == if k in pairs then now else spoke[k]
    {
      if k !in pairs {
        assert forall c :: c in keyed ==> k != Key2(speaker, c);
        assert SameEntry(ss, ss', k);
      } else {
        var c :| c in keyed && k == Key2(speaker, c);
        assert HasFrame(ss', Key2(speaker, c), n, now);
      }
    }
  }

  lemma PrunedIsSpoken(ss: Streams, spoke: map<u32, u32>, c: Ctrl)
    requires Spoken(ss, spoke)
    ensures Spoken(PrunedPairs(ss, c), PrunedPairs(spoke, c))
  {
    hide High, Low;
  }

  /** Every run of the engine, from start-up and over any list of inputs. */
  method Drive(
      maths: Maths, codec: Codec, spkCodec: (u16, seq<real>) -> bool, prox: ProximityTuning, conf: Behavior,
      nearestN: nat, inputs: seq<Input>)
    returns (end: Snapshot, ghost news: seq<seq<Burst>>, ghost tables: seq<map<u32, u16>>, ghost marks: seq<Mark>)
    ensures NoOrphans(end) && GridCurrent(end)
    ensures Filed(end.ps, end.cs) && Symmetric(end.ps, end.cs)
    ensures Reported(end.events, end.ps) && Timely(end.ps, end.tick)
    ensures end.nearestN == nearestN
    ensures var c := RunCore(StartUp(prox), inputs);
            && end.ps == c.ps && end.cs == c.cs && end.tick == c.tick && end.lastEmit == c.lastEmit
            && end.where == c.where && end.cell == CELL && end.active == c.active && Spoken(end.streams, c.spoke)
    // The buses emitted on each input are those the rate limit lets through.
    ensures |news| == |inputs|
    ensures forall n :: 0 <= n < |inputs| ==>
              OnePerChannel(news[n], EmitsOf(RunCore(StartUp(prox), inputs[..n]), inputs[n]))
    // The packets sent account for the table of last numbers, before and after each input.
    ensures Chained(inputs, news, tables) && tables[|inputs|] == end.seqs
    // What each input adds to the output: nothing for the muted, and nobody who was silent for over 60 ms.
    ensures |marks| == |inputs| + 1 && marks[|inputs|].events == end.events
    ensures forall n :: 0 <= n < |inputs| ==>
              Adds(RunCore(StartUp(prox), inputs[..n]), inputs[n], marks[n], marks[n + 1], news[n])
  {
    hide RunCore, EmitsOf, OnePerChannel, StepNumbers, Adds;
    var e := new Engine(maths, codec, spkCodec, prox, conf, nearestN);
    news, tables, marks := FeedAll(e, inputs, StartUp(prox));
    end := e.State();
  }

  /** What one input may add to the output. */
  ghost predicate Adds(c: Core, i: Input, was: Mark, now: Mark, bs: seq<Burst>) {
    && was.bursts <= now.bursts && bs == now.bursts[|was.bursts|..]
    && (i.Audio? && (i.speaker !in c.ps || c.ps[i.speaker].muted) ==> now == was)
    && (i.Audio? ==> FreshSources(bs, StepCore(c, i).spoke, Millis(i.at)))
  }

  /** All inputs in turn. */
  method FeedAll(e: Engine, inputs: seq<Input>, ghost c0: Core)
    returns (ghost news: seq<seq<Burst>>, ghost tables: seq<map<u32, u16>>, ghost marks: seq<Mark>)
    requires e.Valid() && At(e, c0)
    modifies e, e.reg, e.grid, e.bus
    ensures e.Valid() && e.nearestN == old(e.nearestN) && At(e, RunCore(c0, inputs))
    ensures |news| == |inputs|
    ensures forall n :: 0 <= n < |inputs| ==> OnePerChannel(news[n], EmitsOf(RunCore(c0, inputs[..n]), inputs[n]))
    ensures |tables| == |inputs| + 1 && tables[0] == old(e.bus.seqs) && tables[|inputs|] == e.bus.seqs
    ensures forall n :: 0 <= n < |inputs| ==> StepNumbers(tables[n], inputs[n], tables[n + 1], news[n])
    ensures |marks| == |inputs| + 1 && marks[|inputs|] == Mark(e.sink, e.bus.bursts, e.events)
    ensures forall n :: 0 <= n < |inputs| ==>
              Adds(RunCore(c0, inputs[..n]), inputs[n], marks[n], marks[n + 1], news[n])
  {
    hide Engine.Valid, StepCore, At, Accounted, RunCore, Adds;
    ghost var c := c0;
    news, tables, marks := [], [e.bus.seqs], [Mark(e.sink, e.bus.bursts, e.events)];
    EmptyRun(c0, inputs);
    for n := 0 to |inputs|
      invariant e.Valid() && e.nearestN == old(e.nearestN)
      invariant c == RunCore(c0, inputs[..n]) && At(e, c)
      invariant |news| == n && |tables| == n + 1 && tables[0] == old(e.bus.seqs) && tables[n] == e.bus.seqs
      invariant |marks| == n + 1 && marks[n] == Mark(e.sink, e.bus.bursts, e.events)
      invariant forall m :: 0 <= m < n ==>
                  Accounted(c0, inputs, m, tables[m], tables[m + 1], news[m], marks[m], marks[m + 1])
    {
      RunStep(c0, inputs, n);
      ghost var was, seqs0 := marks[n], e.bus.seqs;
      Feed(e, inputs[n], c);
      ghost var bs := e.bus.bursts[|was.bursts|..];
      ghost var now := Mark(e.sink, e.bus.bursts, e.events);
      Account(c0, inputs, n, seqs0, e.bus.seqs, bs, was, now);
      news, tables, marks := news + [bs], tables + [e.bus.seqs], marks + [now];
      c := StepCore(c, inputs[n]);
    }
    assert inputs[..|inputs|] == inputs;
    AllAccounted(c0, inputs, news, tables, marks);
  }

  /** What one input of a run sent is what it should, and accounts for the last numbers. */
  ghost predicate Accounted(
      c0: Core, inputs: seq<Input>, n: nat, seqs: map<u32, u16>, seqs': map<u32, u16>, bs: seq<Burst>,
      was: Mark, now: Mark)
    requires n < |inputs|
  {
    && StepNumbers(seqs, inputs[n], seqs', bs) && OnePerChannel(bs, EmitsOf(RunCore(c0, inputs[..n]), inputs[n]))
    && Adds(RunCore(c0, inputs[..n]), inputs[n], was, now, bs)
  }

  lemma Account(
      c0: Core, inputs: seq<Input>, n: nat, seqs: map<u32, u16>, seqs': map<u32, u16>, bs: seq<Burst>,
      was: Mark, now: Mark)
    requires n < |inputs| && StepNumbers(seqs, inputs[n], seqs', bs)
    requires OnePerChannel(bs, EmitsOf(RunCore(c0, inputs[..n]), inputs[n]))
    requires Adds(RunCore(c0, inputs[..n]), inputs[n], was, now, bs)
    ensures Accounted(c0, inputs, n, seqs, seqs', bs, was, now)
  {
  }

  lemma AllAccounted(
      c0: Core, inputs: seq<Input>, news: seq<seq<Burst>>, tables: seq<map<u32, u16>>, marks: seq<Mark>)
    requires |news| == |inputs| && |tables| == |marks| == |inputs| + 1
    requires forall m :: 0 <= m < |inputs| ==>
               Accounted(c0, inputs, m, tables[m], tables[m + 1], news[m], marks[m], marks[m + 1])
    ensures forall n :: 0 <= n < |inputs| ==> OnePerChannel(news[n], EmitsOf(RunCore(c0, inputs[..n]), inputs[n]))
    ensures forall n :: 0 <= n < |inputs| ==> StepNumbers(tables[n], inputs[n], tables[n + 1], news[n])
    ensures forall n :: 0 <= n < |inputs| ==>
              Adds(RunCore(c0, inputs[..n]), inputs[n], marks[n], marks[n + 1], news[n])
  {
    hide EmitsOf, OnePerChannel, StepNumbers, RunCore, Adds;
    forall n | 0 <= n < |inputs|
      ensures OnePerChannel(news[n], EmitsOf(RunCore(c0, inputs[..n]), inputs[n]))
      ensures StepNumbers(tables[n], inputs[n], tables[n + 1], news[n])
      ensures Adds(RunCore(c0, inputs[..n]), inputs[n], marks[n], marks[n + 1], news[n])
    {
      assert Accounted(c0, inputs, n, tables[n], tables[n + 1], news[n], marks[n], marks[n + 1]);
    }
  }

  lemma EmptyRun(c: Core, inputs: seq<Input>)
    ensures RunCore(c, inputs[..0]) == c
  {
  }

  lemma RunStep(c: Core, inputs: seq<Input>, n: nat)
    requires n < |inputs|
    ensures RunCore(c, inputs[..n + 1]) == StepCore(RunCore(c, inputs[..n]), inputs[n])
  {
    hide StepCore;
    assert inputs[..n + 1][..n] == inputs[..n];
  }

  /** The engine stands where the run says. */
  ghost predicate At(e: Engine, c: Core)
    reads e, e.reg, e.grid, e.bus
  {
    && e.grid.where == c.where && e.grid.cell == CELL
    && e.reg.players == c.ps && e.reg.channels == c.cs && e.bus.prox.shout == c.shout
    && e.tickCount == c.tick && e.bus.lastEmit == c.lastEmit
    && e.bus.chanActive == c.active && Spoken(e.bus.streams, c.spoke)
  }

  /** One input. */
  method Feed(e: Engine, i: Input, ghost c: Core)
    requires e.Valid() && At(e, c)
    modifies e, e.reg, e.grid, e.bus
    ensures e.Valid() && e.nearestN == old(e.nearestN) && |old(e.bus.bursts)| <= |e.bus.bursts|
    ensures At(e, StepCore(c, i)) && OnePerChannel(e.bus.bursts[|old(e.bus.bursts)|..], EmitsOf(c, i))
    ensures StepNumbers(old(e.bus.seqs), i, e.bus.seqs, e.bus.bursts[|old(e.bus.bursts)|..])
    ensures Adds(c, i, old(Mark(e.sink, e.bus.bursts, e.events)), Mark(e.sink, e.bus.bursts, e.events),
                 e.bus.bursts[|old(e.bus.bursts)|..])
  {
    hide NearInv, TablesLive, Reported, Timely, Inverse, Symmetric, Filed, Placed, NoDouble, SentTo,
         NaiveHearers, RightBursts, PlayersAfter, ChannelsAfter, Hushed, Reports, RadioChannels, SilentIds,
         FromCalls, OnePerChannel, OnlyBeeps, KeyedNow, Due, Stamp, Numbers, PrunedPairs, PacketsOf, SideAfter,
         WhereAfter, KeyFor, Spoken, FreshSources, PairsOf, PlainBatch, RightDirect, Played, Arranges;
    match i
    case Control(m) => FeedControl(e, m, c);
    case Audio(_, _, _, _, _, _) => FeedAudio(e, i, c);
    case TickInput =>
      var _ := e.Tick();
      NumberedNone(e.bus.bursts, e.bus.seqs);
      assert e.bus.bursts[|e.bus.bursts|..] == [];
      NothingEmitted();
  }

  method FeedControl(e: Engine, m: Ctrl, ghost c: Core)
    requires e.Valid() && At(e, c)
    modifies e, e.reg, e.grid, e.bus
    ensures e.Valid() && e.nearestN == old(e.nearestN) && old(e.bus.bursts) <= e.bus.bursts
    ensures At(e, StepCore(c, Control(m))) && OnePerChannel(e.bus.bursts[|old(e.bus.bursts)|..], {})
    ensures StepNumbers(old(e.bus.seqs), Control(m), e.bus.seqs, e.bus.bursts[|old(e.bus.bursts)|..])
  {
    hide NearInv, TablesLive, Reported, Timely, Inverse, Symmetric, Filed, Placed,
         PlayersAfter, ChannelsAfter, Reports, RadioChannels,
         OnePerChannel, OnlyBeeps, Numbers, PrunedPairs, PacketsOf, SideAfter, WhereAfter, KeyFor, Spoken,
         RightKeyBeeps;
    ghost var was, side0 := e.bus.bursts, e.SideNow();
    var _ := e.OnControl(m);
    BeepsAreNone(was, e.bus.bursts);
    PlacedAs(side0, e.reg.players, m, e.grid.cell);
    PrunedIsSpoken(side0.streams, c.spoke, m);
  }

  method FeedAudio(e: Engine, i: Input, ghost c: Core)
    requires e.Valid() && At(e, c) && i.Audio?
    modifies e, e.reg, e.bus
    ensures e.Valid() && e.nearestN == old(e.nearestN) && old(e.bus.bursts) <= e.bus.bursts
    ensures At(e, StepCore(c, i)) && OnePerChannel(e.bus.bursts[|old(e.bus.bursts)|..], EmitsOf(c, i))
    ensures StepNumbers(old(e.bus.seqs), i, e.bus.seqs, e.bus.bursts[|old(e.bus.bursts)|..])
    ensures i.speaker !in c.ps || c.ps[i.speaker].muted ==>
              e.sink == old(e.sink) && e.bus.bursts == old(e.bus.bursts) && e.events == old(e.events)
    ensures FreshSources(e.bus.bursts[|old(e.bus.bursts)|..], StepCore(c, i).spoke, Millis(i.at))
  {
    hide NearInv, TablesLive, Reported, Timely, Inverse, Symmetric, Filed, Placed, NoDouble, SentTo,
         NaiveHearers, RightBursts, FromCalls, OnePerChannel, KeyedNow, Due, Stamp, Numbers, PacketsOf,
         Spoken, FreshSources, PairsOf, PlainBatch, RightDirect, Played, Arranges, Recorded;
    ghost var was, active0, emit0, ss0 := e.bus.bursts, e.bus.chanActive, e.bus.lastEmit, e.bus.streams;
    var _, walk, _ := e.OnAudioFrame(i.speaker, i.seqNo, i.flags, i.opus, i.pcm, Millis(i.at));
    ghost var keyed := KeyedOf(c, i);
    NothingKeyedNow(emit0, active0, c.spoke, i.speaker, Millis(i.at));
    if Accepted(c.ps, i.speaker) {
      RecordedIsSpoken(ss0, e.bus.streams, i.speaker, keyed, e.reg.channels, |i.pcm|, Millis(i.at), c.spoke);
      ghost var end := e.bus.SceneAt(Millis(i.at));
      RightIsOnePerChannel(e.bus.bursts[|was|..], walk, keyed, EmitsOf(c, i), end, active0, e.bus.codec);
      SourcesAreFresh(e.bus.bursts[|was|..], walk, keyed, EmitsOf(c, i), end, active0, e.bus.codec,
                      StepCore(c, i).spoke);
    } else {
      assert e.bus.bursts[|was|..] == [];
      NothingEmitted();
      NoSources(StepCore(c, i).spoke, Millis(i.at));
    }
  }

  lemma PlacedAs(s: Side, ps: Players, c: Ctrl, cell: real)
    requires cell > 0.0
    ensures SideAfter(s, ps, c, cell).where == WhereAfter(s.where, ps, c, cell)
    ensures SideAfter(s, ps, c, cell).streams == PrunedPairs(s.streams, c)
    ensures SideAfter(s, ps, c, cell).active == EmitAfter(s.active, c)
    ensures c.Transmit? ==> WhereAfter(s.where, ps, c, cell) == s.where && EmitAfter(s.active, c) == s.active
    ensures c.Transmit? ==> PrunedPairs(s.streams, c) == s.streams
  {
    SideWhere(s, ps, c, cell);
    SideStreams(s, ps, c, cell);
    SideActive(s, ps, c, cell);
    hide SideAfter, WithoutHigh, WithoutLow, KeyFor;
  }

  lemma SideWhere(s: Side, ps: Players, c: Ctrl, cell: real)
    requires cell > 0.0
    ensures SideAfter(s, ps, c, cell).where == WhereAfter(s.where, ps, c, cell)
  {
    hide WithoutHigh, WithoutLow, KeysWithoutHigh, KeysWithoutLow, WhereAfter, PrunedPairs;
  }

  lemma SideStreams(s: Side, ps: Players, c: Ctrl, cell: real)
    requires cell > 0.0
    ensures SideAfter(s, ps, c, cell).streams == PrunedPairs(s.streams, c)
  {
    hide WithoutHigh, WithoutLow, KeysWithoutHigh, KeysWithoutLow, WhereAfter;
  }

  lemma SideActive(s: Side, ps: Players, c: Ctrl, cell: real)
    requires cell > 0.0
    ensures SideAfter(s, ps, c, cell).active == EmitAfter(s.active, c)
  {
    hide WithoutHigh, WithoutLow, KeysWithoutHigh, KeysWithoutLow, WhereAfter, PrunedPairs;
  }

  lemma NothingKeyedNow(emit: map<u16, u32>, active: map<u16, u32>, spoke: map<u32, u32>, speaker: u16, now: u32)
    ensures Due({}, emit, now) == {} && Stamp(emit, {}, now) == emit && Stamp(active, {}, now) == active
    ensures spoke + (map k | k in PairsOf(speaker, {}) :: now) == spoke
  {
  }
}
