/**
  Sending order across the wrap of the 16-bit frame number: what the jitter buffer of
  client/src/audio_playback.cpp makes of frames that arrive in the order they were sent.
 */
module SendOrder {
  import opened Common
  import opened Ints
  import opened JitterBuffer

  const WRAP := 0x1_0000

  /** The arrival of the `n`-th frame sent, or a playback tick. */
  datatype Step = Got(n: nat, opus: seq<u8>) | Played

  /** On the wire the frame carries the low 16 bits of its number. */
  function OnWire(s: Step): Event {
    match s
    case Got(n, opus) => Arrive(Frame(n % WRAP, opus))
    case Played => Play
  }

  function Wire(steps: seq<Step>): (events: seq<Event>)
    ensures |events| == |steps|
  {
    if steps == [] then [] else Wire(steps[..|steps| - 1]) + [OnWire(steps[|steps| - 1])]
  }

  function TraceOf(steps: seq<Step>): Trace {
    Exec(Wire(steps))
  }

  /** The number of the last frame to arrive; zero if there was none. */
  function LastGot(steps: seq<Step>): nat {
    if steps == [] then 0
    else if steps[|steps| - 1].Got? then steps[|steps| - 1].n
    else LastGot(steps[..|steps| - 1])
  }

  /** Has any frame arrived? */
  predicate AnyGot(steps: seq<Step>) {
    exists i :: 0 <= i < |steps| && steps[i].Got?
  }

  /** The frame comes after the last one, and fewer than 65536 were lost in between. */
  predicate Follows(before: seq<Step>, s: Step) {
    s.Got? && AnyGot(before) ==> LastGot(before) < s.n < LastGot(before) + WRAP
  }

  /** Frames arrive in the order they were sent. */
  ghost predicate InSendingOrder(steps: seq<Step>) {
    forall i :: 0 <= i < |steps| ==> Follows(steps[..i], steps[i])
  }

  /** The arrival, if it is one, is queued behind everything buffered. */
  predicate Behind(before: seq<Step>, s: Step) {
    s.Got? ==>
      var q := TraceOf(before).buf.jitter;
      Position(q, OnWire(s).f) == |q|
  }

  /** The arrival meets a buffer that is not empty, and the number wrapped since the arrival before. */
  predicate MeetsWrap(before: seq<Step>, s: Step) {
    s.Got? && TraceOf(before).buf.jitter != [] && s.n / WRAP != LastGot(before) / WRAP
  }

  ghost predicate AlwaysBehind(steps: seq<Step>) {
    forall i :: 0 <= i < |steps| ==> Behind(steps[..i], steps[i])
  }

  ghost predicate NeverMeetsWrap(steps: seq<Step>) {
    forall i :: 0 <= i < |steps| ==> !MeetsWrap(steps[..i], steps[i])
  }

  // ---- the newest frame is the last in the queue ----

  lemma TraceGrows(steps: seq<Step>, s: Step)
    ensures TraceOf(steps + [s]) == After(TraceOf(steps), OnWire(s))
    ensures LastGot(steps + [s]) == if s.Got? then s.n else LastGot(steps)
    ensures AnyGot(steps + [s]) <==> s.Got? || AnyGot(steps)
  {
    hide After;
    var all := steps + [s];
    assert all[..|all| - 1] == steps;
    assert Wire(all)[..|all| - 1] == Wire(steps);
    assert all[|steps|] == s;
    if AnyGot(steps) {
      var i :| 0 <= i < |steps| && steps[i].Got?;
      assert all[i].Got?;
    }
  }

  /** What is buffered ends with the frame that arrived last. */
  ghost predicate EndsWithLast(steps: seq<Step>) {
    var q := TraceOf(steps).buf.jitter;
    q != [] ==> AnyGot(steps) && q[|q| - 1].seqNo == LastGot(steps) % WRAP
  }

  lemma StepEnds(steps: seq<Step>, s: Step)
    requires EndsWithLast(steps) && Behind(steps, s)
    ensures EndsWithLast(steps + [s])
  {
    hide TraceOf, AnyGot, LastGot;
    TraceGrows(steps, s);
  }

  /** A sorted queue takes the next frame at its end exactly when the number did not wrap. */
  lemma BehindIff(steps: seq<Step>, s: Step)
    requires EndsWithLast(steps) && Follows(steps, s) && Sorted(TraceOf(steps).buf.jitter)
    ensures Behind(steps, s) <==> !MeetsWrap(steps, s)
  {
    hide TraceOf, AnyGot, LastGot;
    var q := TraceOf(steps).buf.jitter;
    if s.Got? && q != [] {
      SentOrderKeptIff(q, OnWire(s).f, LastGot(steps), s.n);
    }
  }

  lemma SortedSoFar(steps: seq<Step>)
    ensures Sorted(TraceOf(steps).buf.jitter)
  {
    RunKeeps(Wire(steps));
  }

  // ---- every run ----

  lemma BehindFront(steps: seq<Step>)
    requires steps != []
    ensures var n := |steps| - 1;
            AlwaysBehind(steps) <==> AlwaysBehind(steps[..n]) && Behind(steps[..n], steps[n])
  {
    hide Behind;
    var n := |steps| - 1;
    var front := steps[..n];
    assert forall i :: 0 <= i < n ==> front[..i] == steps[..i] && front[i] == steps[i];
    if AlwaysBehind(steps) {
      forall i | 0 <= i < n ensures Behind(front[..i], front[i]) {
        assert Behind(steps[..i], steps[i]);
      }
    }
    if AlwaysBehind(front) && Behind(front, steps[n]) {
      forall i | 0 <= i < |steps| ensures Behind(steps[..i], steps[i]) {
        assert i < n ==> Behind(front[..i], front[i]);
      }
    }
  }

  lemma WrapFront(steps: seq<Step>)
    requires steps != []
    ensures var n := |steps| - 1;
            NeverMeetsWrap(steps) <==> NeverMeetsWrap(steps[..n]) && !MeetsWrap(steps[..n], steps[n])
  {
    hide MeetsWrap;
    var n := |steps| - 1;
    var front := steps[..n];
    assert forall i :: 0 <= i < n ==> front[..i] == steps[..i] && front[i] == steps[i];
    if NeverMeetsWrap(steps) {
      forall i | 0 <= i < n ensures !MeetsWrap(front[..i], front[i]) {
        assert !MeetsWrap(steps[..i], steps[i]);
      }
    }
    if NeverMeetsWrap(front) && !MeetsWrap(front, steps[n]) {
      forall i | 0 <= i < |steps| ensures !MeetsWrap(steps[..i], steps[i]) {
        assert i < n ==> !MeetsWrap(front[..i], front[i]);
      }
    }
  }

  lemma OrderFront(steps: seq<Step>)
    requires steps != [] && InSendingOrder(steps)
    ensures InSendingOrder(steps[..|steps| - 1]) && Follows(steps[..|steps| - 1], steps[|steps| - 1])
  {
    hide Follows;
    var front := steps[..|steps| - 1];
    forall i | 0 <= i < |front| ensures Follows(front[..i], front[i]) {
      assert front[..i] == steps[..i] && front[i] == steps[i];
    }
  }

  lemma {:induction false} BehindRunEnds(steps: seq<Step>)
    requires AlwaysBehind(steps)
    ensures EndsWithLast(steps)
  {
    hide Behind, AlwaysBehind;
    if steps != [] {
      var n := |steps| - 1;
      BehindFront(steps);
      BehindRunEnds(steps[..n]);
      StepEnds(steps[..n], steps[n]);
      assert steps[..n] + [steps[n]] == steps;
    }
  }

  /**
    When frames arrive in sending order, each is queued behind all those buffered, in every state of
    a run, if and only if no arrival meets a non-empty buffer with a wrap since the arrival before.
   */
  lemma {:induction false} QueuedAsSentIff(steps: seq<Step>)
    requires InSendingOrder(steps)
    ensures AlwaysBehind(steps) <==> NeverMeetsWrap(steps)
  {
    hide Behind, MeetsWrap, Follows, AlwaysBehind, NeverMeetsWrap, InSendingOrder, EndsWithLast, Sorted;
    if steps == [] {
      NothingArrived();
    } else {
      var n := |steps| - 1;
      OrderFront(steps);
      BehindFront(steps);
      WrapFront(steps);
      QueuedAsSentIff(steps[..n]);
      if AlwaysBehind(steps[..n]) {
        BehindRunEnds(steps[..n]);
        SortedSoFar(steps[..n]);
        BehindIff(steps[..n], steps[n]);
      }
    }
  }

  lemma NothingArrived()
    ensures AlwaysBehind([]) && NeverMeetsWrap([])
  {
  }

  // ---- what is played then ----

  /** `a` is what is left of `b` when some of it is struck out. */
  ghost predicate Subsequence(a: seq<Frame>, b: seq<Frame>) {
    if a == [] then true
    else if b == [] then false
    else
      var a', b' := a[..|a| - 1], b[..|b| - 1];
      (a[|a| - 1] == b[|b| - 1] && Subsequence(a', b')) || Subsequence(a, b')
  }

  lemma SubsequenceBoth(a: seq<Frame>, b: seq<Frame>, x: Frame)
    requires Subsequence(a, b)
    ensures Subsequence(a + [x], b + [x])
  {
    assert (a + [x])[..|a|] == a && (b + [x])[..|b|] == b;
  }

  /** Striking out one more. */
  lemma {:induction false} SubsequenceDrop(u: seq<Frame>, x: Frame, v: seq<Frame>, b: seq<Frame>)
    requires Subsequence(u + [x] + v, b)
    ensures Subsequence(u + v, b)
    decreases |b|, |v|
  {
    var a := u + [x] + v;
    if b != [] {
      var b' := b[..|b| - 1];
      if Subsequence(a, b') {
        SubsequenceDrop(u, x, v, b');
        LongerWhole(u + v, b);
      } else if v == [] {
        assert a[..|a| - 1] == u && u + v == u;
        LongerWhole(u, b);
      } else {
        var v' := v[..|v| - 1];
        assert a[..|a| - 1] == u + [x] + v';
        SubsequenceDrop(u, x, v', b');
        assert (u + v)[..|u + v| - 1] == u + v';
      }
    }
  }

  lemma LongerWhole(a: seq<Frame>, b: seq<Frame>)
    requires b != [] && Subsequence(a, b[..|b| - 1])
    ensures Subsequence(a, b)
  {
  }

  /** Played and buffered frames, in this order, are some of those that arrived, in theirs. */
  ghost predicate AsSent(t: Trace) {
    Subsequence(t.popped + t.buf.jitter, t.pushed)
  }

  lemma StepAsSent(t: Trace, e: Event)
    requires AsSent(t) && (e.Arrive? ==> Position(t.buf.jitter, e.f) == |t.buf.jitter|)
    ensures AsSent(After(t, e))
  {
    hide Subsequence;
    var q := t.buf.jitter;
    match e
    case Arrive(f) =>
      assert Insert(q, f) == q + [f];
      assert t.popped + q + [f] == t.popped + (q + [f]);
      SubsequenceBoth(t.popped + q, t.pushed, f);
      if |q| + 1 > JITTER_CAP {
        assert q + [f] == [q[0]] + (q + [f])[1..];
        assert t.popped + (q + [f]) == t.popped + [q[0]] + (q + [f])[1..];
        SubsequenceDrop(t.popped, q[0], (q + [f])[1..], t.pushed + [f]);
      }
    case Play =>
      TickMoves(t);
  }

  /** A tick moves the first buffered frame to the end of those played, or none. */
  lemma TickMoves(t: Trace)
    ensures After(t, Play).popped + After(t, Play).buf.jitter == t.popped + t.buf.jitter
    ensures After(t, Play).pushed == t.pushed
  {
    if t.buf.jitter != [] {
      assert t.buf.jitter == [t.buf.jitter[0]] + t.buf.jitter[1..];
    }
  }

  /** Then frames are played in the order they were sent. */
  lemma {:induction false} PlayedAsSent(steps: seq<Step>)
    requires InSendingOrder(steps) && NeverMeetsWrap(steps)
    ensures AsSent(TraceOf(steps))
  {
    QueuedAsSentIff(steps);
    BehindPlaysAsSent(steps);
  }

  lemma {:induction false} BehindPlaysAsSent(steps: seq<Step>)
    requires AlwaysBehind(steps)
    ensures AsSent(TraceOf(steps))
  {
    hide AsSent, AlwaysBehind, After;
    if steps == [] {
      NothingPlayed();
    } else {
      var n := |steps| - 1;
      BehindFront(steps);
      BehindPlaysAsSent(steps[..n]);
      TraceGrows(steps[..n], steps[n]);
      assert steps[..n] + [steps[n]] == steps;
      StepAsSent(TraceOf(steps[..n]), OnWire(steps[n]));
    }
  }

  lemma NothingPlayed()
    ensures AsSent(TraceOf([]))
  {
  }

  // ---- a full buffer ----

  /** A full buffer drops a newcomer at once, unplayed, if and only if nothing buffered has a lower number. */
  lemma FullDropsNewcomerIff(b: Buffer, f: Frame)
    requires Sorted(b.jitter) && |b.jitter| == JITTER_CAP
    ensures Push(b, f) == (b, Some(f)) <==> forall i :: 0 <= i < JITTER_CAP ==> f.seqNo <= b.jitter[i].seqNo
  {
    if f.seqNo <= b.jitter[0].seqNo {
      assert Insert(b.jitter, f) == [f] + b.jitter;
      assert ([f] + b.jitter)[1..] == b.jitter;
    } else {
      assert Insert(b.jitter, f)[0] == b.jitter[0];
    }
  }
}
