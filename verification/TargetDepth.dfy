/**
  When the jitter buffer's target depth moves and when playback stops and starts, over whole runs:
  the adaptation in the playback loop of client/src/audio_playback.cpp.
 */
module TargetDepth {
  import opened Common
  import opened Ints
  import opened JitterBuffer

  /** The stream after a run. */
  function BufferOf(events: seq<Event>): Buffer {
    Exec(events).buf
  }

  lemma BufferGrows(events: seq<Event>, e: Event)
    ensures BufferOf(events + [e]) == if e.Play? then Tick(BufferOf(events)).0 else Push(BufferOf(events), e.f).0
  {
    assert (events + [e])[..|events|] == events;
  }

  /** Ticks in a row that found at least `target` frames buffered, up to now, since the target last moved. */
  function HealthyRow(events: seq<Event>): nat {
    if events == [] then 0
    else
      var front := events[..|events| - 1];
      if events[|events| - 1].Arrive? then HealthyRow(front)
      else if |BufferOf(front).jitter| >= BufferOf(front).target == BufferOf(events).target then HealthyRow(front) + 1
      else 0
  }

  /** Ticks in a row, up to now, that found the stream playing and nothing to play. */
  function EmptyRow(events: seq<Event>): nat {
    if events == [] then 0
    else
      var front := events[..|events| - 1];
      if events[|events| - 1].Arrive? then EmptyRow(front)
      else if BufferOf(front).playing && BufferOf(front).jitter == [] then EmptyRow(front) + 1
      else 0
  }

  lemma RowsGrow(events: seq<Event>, e: Event)
    ensures var b, b' := BufferOf(events), BufferOf(events + [e]);
            && HealthyRow(events + [e]) ==
               (if e.Arrive? then HealthyRow(events)
                else if |b.jitter| >= b.target == b'.target then HealthyRow(events) + 1 else 0)
            && EmptyRow(events + [e]) ==
               (if e.Arrive? then EmptyRow(events)
                else if b.playing && b.jitter == [] then EmptyRow(events) + 1 else 0)
  {
    assert (events + [e])[..|events|] == events;
  }

  /** The two counters of the stream count these rows. */
  ghost predicate Counted(events: seq<Event>) {
    var b := BufferOf(events);
    b.stable == HealthyRow(events) && (b.playing ==> b.starve == EmptyRow(events))
  }

  lemma StepCounted(events: seq<Event>, e: Event)
    requires Counted(events)
    ensures Counted(events + [e])
  {
    RunKeeps(events);
    RowsGrow(events, e);
    BufferGrows(events, e);
    var b := BufferOf(events);
    assert Inv(b);
    hide HealthyRow, EmptyRow, BufferOf, Insert, Sorted;
    match e
    case Arrive(f) =>
      assert Push(b, f).0.stable == b.stable && Push(b, f).0.starve == b.starve && Push(b, f).0.playing == b.playing;
    case Play =>
      TickCounts(b);
  }

  /** One tick's effect on the counters. */
  lemma TickCounts(b: Buffer)
    requires Inv(b)
    ensures var b' := Tick(b).0;
            && b'.stable == (if |b.jitter| >= b.target == b'.target then b.stable + 1 else 0)
            && (b'.playing ==> b'.starve == if b.playing && b.jitter == [] then b.starve + 1 else 0)
  {
    hide Sorted;
  }

  lemma {:induction false} RunCounted(events: seq<Event>)
    ensures Counted(events)
  {
    hide Counted;
    if events == [] {
      NothingCounted();
    } else {
      var n := |events| - 1;
      RunCounted(events[..n]);
      StepCounted(events[..n], events[n]);
      assert events[..n] + [events[n]] == events;
    }
  }

  lemma NothingCounted()
    ensures Counted([])
  {
  }

  /** Is this tick at least the 250th in a row, since the target last moved, to find enough buffered? */
  predicate Earned(events: seq<Event>) {
    |BufferOf(events).jitter| >= BufferOf(events).target && HealthyRow(events) + 1 >= 250
  }

  /**
    In every run: a tick lowers the target by exactly one if and only if it is above 2 and this tick
    makes 250 healthy ones in a row since it last moved; it raises it by exactly one if and only if
    the stream is playing with nothing buffered and the target is below 10; otherwise, and when a
    frame arrives, the target stays.
   */
  lemma TargetMoves(events: seq<Event>)
    ensures var b, b' := BufferOf(events), BufferOf(events + [Play]);
            && 2 <= b.target <= 10
            && (b'.target == b.target - 1 <==> b.target > 2 && Earned(events))
            && (b'.target == b.target + 1 <==> b.playing && b.jitter == [] && b.target < 10)
            && b.target - 1 <= b'.target <= b.target + 1
    ensures forall f :: BufferOf(events + [Arrive(f)]).target == BufferOf(events).target
  {
    RunKeeps(events);
    RunCounted(events);
    BufferGrows(events, Play);
    forall f ensures BufferOf(events + [Arrive(f)]).target == BufferOf(events).target {
      BufferGrows(events, Arrive(f));
    }
    hide HealthyRow, EmptyRow, BufferOf, Insert, Sorted;
  }

  /**
    In every run: a stream that is playing stops exactly at the tenth tick in a row that finds nothing
    buffered, and one that is not starts exactly at a tick that finds at least `target` frames; frames
    arriving do neither.
   */
  lemma PlayingStopsAndStarts(events: seq<Event>)
    ensures var b, b' := BufferOf(events), BufferOf(events + [Play]);
            && (b.playing ==> (!b'.playing <==> b.jitter == [] && EmptyRow(events) + 1 == 10))
            && (b.playing ==> EmptyRow(events) < 10)
            && (!b.playing ==> (b'.playing <==> |b.jitter| >= b.target))
    ensures forall f :: BufferOf(events + [Arrive(f)]).playing == BufferOf(events).playing
  {
    RunKeeps(events);
    RunCounted(events);
    BufferGrows(events, Play);
    forall f ensures BufferOf(events + [Arrive(f)]).playing == BufferOf(events).playing {
      BufferGrows(events, Arrive(f));
    }
    hide HealthyRow, EmptyRow, BufferOf, Insert, Sorted;
  }

  /**
    In every run a tick plays a frame if and only if one is buffered and the stream is playing or has
    at least `target` of them; it plays one, of the lowest number, and that one alone leaves the buffer.
   */
  lemma TickPlays(events: seq<Event>)
    ensures var b, b' := BufferOf(events), BufferOf(events + [Play]);
            var was, now := Exec(events).popped, Exec(events + [Play]).popped;
            if b.jitter != [] && (b.playing || |b.jitter| >= b.target)
            then
              && |now| == |was| + 1 && now[..|was|] == was && b.jitter == [now[|was|]] + b'.jitter
              && forall k :: 0 <= k < |b.jitter| ==> now[|was|].seqNo <= b.jitter[k].seqNo
            else now == was && b'.jitter == b.jitter
  {
    RunKeeps(events);
    assert (events + [Play])[..|events|] == events;
    var b := BufferOf(events);
    if b.jitter != [] {
      assert b.jitter == [b.jitter[0]] + b.jitter[1..];
    }
  }

  /** A frame arriving adds one to what is buffered, up to sixteen. */
  lemma ArrivalHolds(events: seq<Event>, f: Frame)
    ensures var b, b' := BufferOf(events), BufferOf(events + [Arrive(f)]);
            |b'.jitter| == (if |b.jitter| < 16 then |b.jitter| + 1 else 16) && |b.jitter| <= 16
  {
    RunKeeps(events);
    BufferGrows(events, Arrive(f));
    PushKeeps(BufferOf(events), f);
  }

  /** A new stream waits for three frames. */
  lemma StartsAtThree()
    ensures BufferOf([]).target == 3 && !BufferOf([]).playing && BufferOf([]).jitter == []
  {
  }
}
