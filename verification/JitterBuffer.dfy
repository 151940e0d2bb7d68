/** The client's adaptive jitter buffer: one playback stream of client/src/audio_playback.cpp. */
module JitterBuffer {
  import opened Common
  import opened Ints

  const JITTER_MIN := 2
  const JITTER_MAX := 10
  const STARVE_RESET := 10
  const STABLE_SHRINK := 250
  const JITTER_CAP := 16

  datatype Frame = Frame(seqNo: u16, opus: seq<u8>)

  datatype Buffer = Buffer(jitter: seq<Frame>, target: int, playing: bool, starve: int, stable: int)

  const FRESH := Buffer([], 3, false, 0, 0)

  ghost predicate Sorted(q: seq<Frame>) {
    forall i, j :: 0 <= i < j < |q| ==> q[i].seqNo <= q[j].seqNo
  }

  /** Where a new frame goes: before the first buffered frame that is not older. */
  function Position(q: seq<Frame>, f: Frame): (p: nat)
    ensures p <= |q|
    ensures forall i :: 0 <= i < p ==> q[i].seqNo < f.seqNo
    ensures p < |q| ==> q[p].seqNo >= f.seqNo
  {
    if q != [] && q[0].seqNo < f.seqNo then 1 + Position(q[1..], f) else 0
  }

  function Insert(q: seq<Frame>, f: Frame): seq<Frame> {
    var p := Position(q, f);
    q[..p] + [f] + q[p..]
  }

  /** A frame arrives; beyond the cap the frame in front is dropped, be it the newcomer itself. */
  function Push(b: Buffer, f: Frame): (Buffer, Option<Frame>) {
    var q := Insert(b.jitter, f);
    if |q| > JITTER_CAP then (b.(jitter := q[1..]), Some(q[0])) else (b.(jitter := q), None)
  }

  /** Is the stream playing once this tick has looked at the prebuffer? */
  predicate Primed(b: Buffer) {
    b.playing || |b.jitter| >= b.target
  }

  /** One 20 ms tick: what is played, and the adaptation of the target depth. */
  function Tick(b: Buffer): (Buffer, Option<Frame>) {
    if !Primed(b) then (b, None)
    else if b.jitter != [] then
      var b' := b.(playing := true, jitter := b.jitter[1..], starve := 0);
      var b'' := if |b.jitter| < b.target then b'.(stable := 0)
                 else if b.stable + 1 >= STABLE_SHRINK && b.target > JITTER_MIN
                 then b'.(target := b.target - 1, stable := 0)
                 else b'.(stable := b.stable + 1);
      (b'', Some(b.jitter[0]))
    else
      var grown := if b.target < JITTER_MAX then b.target + 1 else b.target;
      var reset := b.starve + 1 >= STARVE_RESET;
      (Buffer([], grown, !reset, if reset then 0 else b.starve + 1, 0), None)
  }

  /** Is this tick a pop from a buffer at least as deep as its target? */
  predicate HealthyTick(b: Buffer) {
    Primed(b) && b.jitter != [] && |b.jitter| >= b.target
  }

  // ---- runs ----

  datatype Event = Arrive(f: Frame) | Play

  /** A run's buffer, what went in and out of it, and how healthy each tick was. */
  datatype Trace = Trace(
    buf: Buffer, pushed: seq<Frame>, popped: seq<Frame>, dropped: seq<Frame>, health: seq<bool>)

  function Exec(events: seq<Event>): Trace {
    if events == [] then Trace(FRESH, [], [], [], [])
    else After(Exec(events[..|events| - 1]), events[|events| - 1])
  }

  function After(t: Trace, e: Event): Trace {
    match e
    case Arrive(f) =>
      var (b, lost) := Push(t.buf, f);
      t.(buf := b, pushed := t.pushed + [f], dropped := t.dropped + Items(lost))
    case Play =>
      var (b, played) := Tick(t.buf);
      t.(buf := b, popped := t.popped + Items(played), health := t.health + [HealthyTick(t.buf)])
  }

  function Items(o: Option<Frame>): seq<Frame> {
    match o
    case None => []
    case Some(f) => [f]
  }

  ghost predicate Inv(b: Buffer) {
    && Sorted(b.jitter) && |b.jitter| <= JITTER_CAP
    && JITTER_MIN <= b.target <= JITTER_MAX
    && 0 <= b.starve < STARVE_RESET
    && b.target >= Min(JITTER_MAX, JITTER_MIN + b.starve)
    && 0 <= b.stable
    && (!b.playing ==> b.starve == 0 && b.stable == 0 && (b.target == FRESH.target || b.target == JITTER_MAX))
  }

  // ---- one step ----

  lemma InsertSorts(q: seq<Frame>, f: Frame)
    requires Sorted(q)
    ensures Sorted(Insert(q, f))
  {
    var p := Position(q, f);
    var r := Insert(q, f);
    forall i, j | 0 <= i < j < |r| ensures r[i].seqNo <= r[j].seqNo {
      assert r[i] == if i < p then q[i] else if i == p then f else q[i - 1];
      assert r[j] == if j < p then q[j] else if j == p then f else q[j - 1];
    }
  }

  lemma InsertAdds(q: seq<Frame>, f: Frame)
    ensures |Insert(q, f)| == |q| + 1
    ensures multiset(Insert(q, f)) == multiset(q) + multiset{f}
  {
    assert q == q[..Position(q, f)] + q[Position(q, f)..];
  }

  ghost predicate AtLeast(q: seq<Frame>, x: int) {
    forall i :: 0 <= i < |q| ==> x <= q[i].seqNo
  }

  lemma PushAtLeast(b: Buffer, f: Frame, x: int)
    requires AtLeast(b.jitter, x) && x <= f.seqNo
    ensures AtLeast(Push(b, f).0.jitter, x)
  {
  }

  lemma PushKeeps(b: Buffer, f: Frame)
    requires Inv(b)
    ensures Inv(Push(b, f).0)
    ensures |Push(b, f).0.jitter| == Min(JITTER_CAP, |b.jitter| + 1)
    ensures multiset(b.jitter) + multiset{f}
         == multiset(Push(b, f).0.jitter) + multiset(Items(Push(b, f).1))
  {
    InsertSorts(b.jitter, f);
    InsertAdds(b.jitter, f);
    var q := Insert(b.jitter, f);
    assert q == [q[0]] + q[1..];
  }

  lemma TickKeeps(b: Buffer)
    requires Inv(b)
    ensures Inv(Tick(b).0)
    ensures multiset(b.jitter) == multiset(Tick(b).0.jitter) + multiset(Items(Tick(b).1))
  {
    if b.jitter != [] {
      assert b.jitter == [b.jitter[0]] + b.jitter[1..];
    }
  }

  // ---- every run ----

  lemma {:induction false} RunKeeps(events: seq<Event>)
    ensures Inv(Exec(events).buf)
  {
    if events != [] {
      var front := events[..|events| - 1];
      RunKeeps(front);
      match events[|events| - 1]
      case Arrive(f) => PushKeeps(Exec(front).buf, f);
      case Play => TickKeeps(Exec(front).buf);
    }
  }

  ghost predicate Conserved(t: Trace) {
    multiset(t.pushed) == multiset(t.popped) + multiset(t.dropped) + multiset(t.buf.jitter)
  }

  lemma Regroup(
      all: multiset<Frame>, more: multiset<Frame>, out: multiset<Frame>, gone: multiset<Frame>,
      lost: multiset<Frame>, kept: multiset<Frame>, now: multiset<Frame>)
    requires all == out + gone + kept && kept + more == now + lost
    ensures all + more == out + (gone + lost) + now
  {
    forall x: Frame ensures (all + more)[x] == (out + (gone + lost) + now)[x] {
      assert (kept + more)[x] == (now + lost)[x];
    }
  }

  lemma StepConserves(t: Trace, e: Event)
    requires Inv(t.buf) && Conserved(t)
    ensures Conserved(After(t, e))
  {
    hide Push, Tick, Inv, HealthyTick;
    match e
    case Arrive(f) =>
      PushKeeps(t.buf, f);
      var lost := Items(Push(t.buf, f).1);
      assert After(t, e).dropped == t.dropped + lost && After(t, e).pushed == t.pushed + [f];
      Regroup(multiset(t.pushed), multiset{f}, multiset(t.popped), multiset(t.dropped),
              multiset(lost), multiset(t.buf.jitter), multiset(Push(t.buf, f).0.jitter));
    case Play => TickKeeps(t.buf);
  }

  /** No frame is lost, invented or played twice: pushed = played + dropped + still buffered. */
  lemma {:induction false} Conservation(events: seq<Event>)
    ensures Conserved(Exec(events))
  {
    hide After, Inv;
    if events != [] {
      var front := events[..|events| - 1];
      Conservation(front);
      RunKeeps(front);
      StepConserves(Exec(front), events[|events| - 1]);
    }
  }

  /** No frame arrives with a number below that of the frame last played. */
  ghost predicate Punctual(events: seq<Event>) {
    forall n :: 0 <= n < |events| && events[n].Arrive? ==>
      OnTime(Exec(events[..n]).popped, events[n].f)
  }

  predicate OnTime(played: seq<Frame>, f: Frame) {
    played == [] || played[|played| - 1].seqNo <= f.seqNo
  }

  /** What is buffered is not numbered below what was last played. */
  ghost predicate Ahead(t: Trace) {
    && Sorted(t.popped)
    && (t.popped != [] ==> AtLeast(t.buf.jitter, t.popped[|t.popped| - 1].seqNo))
  }

  lemma TickAhead(t: Trace)
    requires Inv(t.buf) && Ahead(t)
    ensures Ahead(After(t, Play))
  {
  }

  lemma PunctualSoFar(events: seq<Event>)
    requires events != [] && Punctual(events)
    ensures var n := |events| - 1;
            && Punctual(events[..n])
            && (events[n].Arrive? ==> OnTime(Exec(events[..n]).popped, events[n].f))
  {
    hide Exec, OnTime;
    var front := events[..|events| - 1];
    forall k | 0 <= k < |front| && front[k].Arrive? ensures OnTime(Exec(front[..k]).popped, front[k].f) {
      assert front[..k] == events[..k];
    }
  }

  lemma StepAhead(t: Trace, e: Event)
    requires Inv(t.buf) && Ahead(t) && (e.Arrive? ==> OnTime(t.popped, e.f))
    ensures Ahead(After(t, e))
  {
    hide Push, Tick, Inv, HealthyTick, Sorted, AtLeast;
    match e
    case Arrive(f) =>
      if t.popped != [] {
        PushAtLeast(t.buf, f, t.popped[|t.popped| - 1].seqNo);
      }
    case Play => TickAhead(t);
  }

  /** Without late arrivals, frames are played in number order. */
  lemma {:induction false} PlayedInOrder(events: seq<Event>)
    requires Punctual(events)
    ensures Sorted(Exec(events).popped)
    ensures Ahead(Exec(events))
  {
    hide After, Inv, Sorted, AtLeast, Punctual, OnTime;
    if events == [] {
      NothingAhead();
    } else {
      PunctualSoFar(events);
      PlayedInOrder(events[..|events| - 1]);
      RunKeeps(events[..|events| - 1]);
      StepAhead(Exec(events[..|events| - 1]), events[|events| - 1]);
    }
  }

  lemma NothingAhead()
    ensures Ahead(Exec([]))
  {
  }

  /** Playback that has begun falls back to prebuffering only with the target at its ceiling. */
  lemma RebufferAtCeiling(events: seq<Event>)
    requires Exec(events).buf.playing && !After(Exec(events), Play).buf.playing
    ensures After(Exec(events), Play).buf.target == JITTER_MAX
    ensures Exec(events).buf.jitter == []
  {
    RunKeeps(events);
  }

  function PushAll(b: Buffer, fs: seq<Frame>): Buffer
    decreases |fs|
  {
    if fs == [] then b else PushAll(Push(b, fs[0]).0, fs[1..])
  }

  lemma {:induction false} PushAllDepth(b: Buffer, fs: seq<Frame>)
    requires Inv(b)
    ensures var b' := PushAll(b, fs);
            && Inv(b') && b'.target == b.target && b'.playing == b.playing
            && |b'.jitter| == Min(JITTER_CAP, |b.jitter| + |fs|)
    decreases |fs|
  {
    if fs != [] {
      PushKeeps(b, fs[0]);
      PushAllDepth(Push(b, fs[0]).0, fs[1..]);
    }
  }

  /** The cap never blocks a restart: the next tick plays exactly when enough frames arrived. */
  lemma RestartsIff(events: seq<Event>, fs: seq<Frame>)
    requires !Exec(events).buf.playing
    ensures var b := Exec(events).buf;
            Tick(PushAll(b, fs)).1.Some? <==> |b.jitter| + |fs| >= b.target
  {
    RunKeeps(events);
    PushAllDepth(Exec(events).buf, fs);
  }

  /** The latency target shrinks only after 250 healthy ticks in a row. */
  lemma {:induction false} ShrinkIsEarned(events: seq<Event>)
    requires After(Exec(events), Play).buf.target < Exec(events).buf.target
    ensures var h := After(Exec(events), Play).health;
            |h| >= STABLE_SHRINK && forall i :: |h| - STABLE_SHRINK <= i < |h| ==> h[i]
  {
    StableCounts(events);
    RunKeeps(events);
  }

  lemma {:induction false} StableCounts(events: seq<Event>)
    ensures var t := Exec(events);
            && 0 <= t.buf.stable <= |t.health|
            && forall i :: |t.health| - t.buf.stable <= i < |t.health| ==> t.health[i]
  {
    if events != [] {
      StableCounts(events[..|events| - 1]);
      RunKeeps(events[..|events| - 1]);
    }
  }

  // ---- sixteen-bit numbering ----

  /**
    The sender numbers its frames modulo 2^16. A frame sent after the last of those buffered is
    queued behind them exactly when the counter did not wrap in between.
   */
  lemma SentOrderKeptIff(q: seq<Frame>, f: Frame, sentLast: nat, sent: nat)
    requires Sorted(q) && q != []
    requires q[|q| - 1].seqNo == sentLast % 0x1_0000 && f.seqNo == sent % 0x1_0000
    requires sentLast < sent < sentLast + 0x1_0000
    ensures Position(q, f) == |q| <==> sent / 0x1_0000 == sentLast / 0x1_0000
  {
    assert Position(q, f) == |q| <==> q[|q| - 1].seqNo < f.seqNo;
  }

  /** A run in which a frame from after the wrap is played before two buffered from before it. */
  lemma WrapPlaysNewestFirst(a: Frame, b: Frame, c: Frame)
    requires a.seqNo == 0xFFFE && b.seqNo == 0xFFFF && c.seqNo == 0
    ensures Exec([Arrive(a), Arrive(b), Arrive(c), Play]).popped == [c]
  {
    var e := [Arrive(a), Arrive(b), Arrive(c), Play];
    assert e[..1] == [Arrive(a)] && e[..1][..0] == [];
    assert e[..2][..1] == e[..1] && e[..3][..2] == e[..2];
    assert Exec(e[..1]).buf.jitter == [a];
    assert Position([a], b) == 1 && Exec(e[..2]).buf.jitter == [a, b];
    assert Position([a, b], c) == 0 && Exec(e[..3]).buf.jitter == [c, a, b];
  }

  // ---- the mutable stream ----

  class Stream {
    var jitter: seq<Frame>
    var target: int
    var playing: bool
    var starve: int
    var stable: int

    function State(): Buffer
      reads this
    {
      Buffer(jitter, target, playing, starve, stable)
    }

    constructor ()
      ensures State() == FRESH
    {
      jitter, target, playing, starve, stable := [], 3, false, 0, 0;
    }

    /** Receiving a frame: linear scan, insertion, cap. */
    method PushFrame(f: Frame)
      modifies this
      ensures State() == Push(old(State()), f).0
    {
      var at := 0;
      while at < |jitter| && jitter[at].seqNo < f.seqNo
        invariant 0 <= at <= |jitter| && unchanged(this)
        invariant Position(jitter, f) == at + Position(jitter[at..], f)
      {
        assert jitter[at..][1..] == jitter[at + 1..];
        at := at + 1;
      }
      jitter := jitter[..at] + [f] + jitter[at..];
      if |jitter| > JITTER_CAP {
        jitter := jitter[1..];
      }
    }

    /** The stream's part of one playback tick. */
    method Step() returns (played: Option<Frame>)
      modifies this
      ensures State() == Tick(old(State())).0 && played == Tick(old(State())).1
    {
      played := None;
      if !playing && |jitter| >= target {
        playing := true;
      }
      if playing {
        if jitter != [] {
          played := Some(jitter[0]);
          jitter := jitter[1..];
          starve := 0;
          if |jitter| + 1 >= target {
            stable := stable + 1;
            if stable >= STABLE_SHRINK && target > JITTER_MIN {
              target := target - 1;
              stable := 0;
            }
          } else {
            stable := 0;
          }
        } else {
          if target < JITTER_MAX {
            target := target + 1;
          }
          stable := 0;
          starve := starve + 1;
          if starve >= STARVE_RESET {
            playing := false;
            starve := 0;
          }
        }
      }
    }
  }
}
