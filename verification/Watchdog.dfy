/** The relay watchdog thread: the loop of `launch` in shared/relay_launcher.h. */
module Watchdog {
  import opened Ints
  import opened RestartPolicy

  /** What one turn of the loop observes; process, clock and shutdown flag are outside. */
  datatype Poll = Poll(
    lag: nat,           // sleeping overshoots by this much
    running: bool,      // shutdown flag after the first sleep
    alive: bool,        // is the relay process alive?
    cut: nat,           // if shut down while waiting: slices slept before noticing
    slack: nat -> nat,  // each slice of the wait overshoots by this much
    runningAfter: bool, // shutdown flag after the back-off
    aliveAfter: bool,   // is the relay alive after the back-off?
    spawned: bool)      // did the spawn call succeed?

  /** One call of `spawn`: the crash it answers, the policy's crash count, when, and whether it worked. */
  datatype Attempt = Attempt(crashAt: nat, consecutive: nat, at: nat, spawned: bool)

  /** The attempts answer distinct crashes in order, none of which overfilled the window. */
  ghost predicate Trace(t: Tuning, history: seq<nat>, attempts: seq<Attempt>, idx: seq<nat>) {
    && (forall i, j :: 0 <= i <= j < |history| ==> history[i] <= history[j])
    && |idx| == |attempts|
    && (forall i :: 0 <= i < |idx| ==> idx[i] < |history|)
    && (forall i, j :: 0 <= i < j < |idx| ==> idx[i] < idx[j])
    && (forall i :: 0 <= i < |idx| ==>
          attempts[i].crashAt == history[idx[i]] && Calm(t, history, idx[i]))
    && (forall i :: 0 <= i < |attempts| ==>
          attempts[i].at >= attempts[i].crashAt + Delay(t, attempts[i].consecutive))
    && (forall i, k :: 0 <= i < |idx| && idx[i] < k < |history| ==> attempts[i].at <= history[k])
  }

  /** At crash `k` the window did not hold more than the allowed number of crashes. */
  ghost predicate Calm(t: Tuning, history: seq<nat>, k: nat)
    requires k < |history|
  {
    |Recent(history[..k + 1], history[k], t.windowMs)| <= t.maxInWindow
  }

  /** Attempts that fit into one window are at most maxInWindow + 1. */
  lemma {:induction false} RespawnBound(
      t: Tuning, history: seq<nat>, attempts: seq<Attempt>, idx: seq<nat>, i: nat, j: nat)
    requires Trace(t, history, attempts, idx)
    requires i <= j < |attempts|
    requires attempts[j].at - attempts[i].at <= t.windowMs
    ensures j - i <= t.maxInWindow
  {
    if i < j {
      var seen := history[..idx[j] + 1];
      forall k | idx[i] + 1 <= k < |seen| ensures attempts[j].crashAt - seen[k] <= t.windowMs {
        assert attempts[i].at <= history[k];
      }
      RecentCountsTail(seen, idx[i] + 1, history[idx[j]], t.windowMs);
      assert Calm(t, history, idx[j]);
      IncreasingSpread(idx, i, j);
    }
  }

  lemma {:induction false} IncreasingSpread(idx: seq<nat>, i: nat, j: nat)
    requires i <= j < |idx|
    requires forall a, b :: 0 <= a < b < |idx| ==> idx[a] < idx[b]
    ensures idx[j] - idx[i] >= j - i
  {
    if i < j {
      IncreasingSpread(idx, i, j - 1);
    }
  }

  /** Giving up happened, if at all, at the last crash, the only one that overfilled the window. */
  ghost predicate Ledger(
      t: Tuning, history: seq<nat>, attempts: seq<Attempt>, idx: seq<nat>, gaveUp: bool)
  {
    && Trace(t, history, attempts, idx)
    && (gaveUp ==> history != [])
    && (forall k :: 0 <= k < |history| ==> (Calm(t, history, k) <==> !(gaveUp && k == |history| - 1)))
  }

  ghost predicate Before(history: seq<nat>, attempts: seq<Attempt>, now: nat) {
    && (forall k :: 0 <= k < |history| ==> history[k] <= now)
    && (forall i :: 0 <= i < |attempts| ==> attempts[i].at <= now)
  }

  lemma LedgerOpens(t: Tuning)
    ensures Ledger(t, [], [], [], false)
  {
  }

  lemma LedgerCrash(t: Tuning, history: seq<nat>, attempts: seq<Attempt>, idx: seq<nat>, now: nat)
    requires Ledger(t, history, attempts, idx, false) && Before(history, attempts, now)
    ensures Ledger(t, history + [now], attempts, idx,
                   |Recent(history + [now], now, t.windowMs)| > t.maxInWindow)
    ensures forall i :: 0 <= i < |idx| ==> idx[i] < |history|
  {
    hide Delay, Recent;
    var h := history + [now];
    assert h[..|h|] == h;
    forall k | 0 <= k < |history| ensures Calm(t, h, k) {
      assert h[..k + 1] == history[..k + 1];
      assert Calm(t, history, k);
    }
  }

  lemma LedgerAttempt(
      t: Tuning, history: seq<nat>, attempts: seq<Attempt>, idx: seq<nat>, a: Attempt)
    requires Ledger(t, history, attempts, idx, false) && history != []
    requires forall i :: 0 <= i < |idx| ==> idx[i] < |history| - 1
    requires a.crashAt == history[|history| - 1] && a.at >= a.crashAt + Delay(t, a.consecutive)
    ensures Ledger(t, history, attempts + [a], idx + [|history| - 1], false)
  {
  }

  /** What the ledger says of the finished run. */
  lemma LedgerSettled(
      t: Tuning, history: seq<nat>, attempts: seq<Attempt>, idx: seq<nat>, gaveUp: bool)
    requires Ledger(t, history, attempts, idx, gaveUp)
    ensures forall i, j :: 0 <= i <= j < |attempts| && attempts[j].at - attempts[i].at <= t.windowMs
                           ==> j - i <= t.maxInWindow
    ensures forall i :: 0 <= i < |attempts| ==>
                          attempts[i].at >= attempts[i].crashAt + Delay(t, attempts[i].consecutive)
    ensures forall i, j :: 0 <= i < j < |attempts| ==> attempts[i].at <= attempts[j].crashAt
    ensures forall k :: 0 <= k < |history| ==>
                          (Calm(t, history, k) <==> !(gaveUp && k == |history| - 1))
    ensures gaveUp ==> history != []
    ensures forall i :: 0 <= i < |attempts| && gaveUp ==> attempts[i].at <= history[|history| - 1]
  {
    forall i, j | 0 <= i <= j < |attempts| && attempts[j].at - attempts[i].at <= t.windowMs
      ensures j - i <= t.maxInWindow
    {
      RespawnBound(t, history, attempts, idx, i, j);
    }
    forall i | 0 <= i < |attempts| && gaveUp ensures attempts[i].at <= history[|history| - 1] {
      assert Calm(t, history, idx[i]);
    }
  }

  ghost predicate Undisturbed(polls: seq<Poll>) {
    forall i :: 0 <= i < |polls| ==> polls[i].running && polls[i].runningAfter && !polls[i].aliveAfter
  }

  ghost function Deaths(polls: seq<Poll>): nat {
    if polls == [] then 0
    else
      var n := |polls| - 1;
      Deaths(polls[..n]) + (if polls[n].alive then 0 else 1)
  }

  /**
    The log begins with the first spawn, and holds no other than those of successful attempts, each
    right behind the crash it answers; and each attempt goes by the crashes in a row up to there.
   */
  ghost predicate Account(t: Tuning, start: nat, log: seq<Entry>, attempts: seq<Attempt>, marks: seq<nat>) {
    && log != [] && log[0] == Spawned(start) && |marks| == |attempts|
    && (forall i :: 0 <= i < |marks| ==> AnsweredAt(t, log, attempts[i], marks[i]))
    && (forall k :: 0 < k < |log| && log[k].Spawned? ==>
          exists i :: 0 <= i < |marks| && marks[i] == k && attempts[i].spawned)
  }

  /** The attempt answers the crash just before this place in the log. */
  ghost predicate AnsweredAt(t: Tuning, log: seq<Entry>, a: Attempt, mark: nat) {
    && 0 < mark <= |log| && log[mark - 1] == Crashed(a.crashAt) && a.consecutive == Streak(t, log[..mark])
    && (a.spawned ==> mark < |log| && log[mark] == Spawned(a.at))
  }

  lemma AccountOpens(t: Tuning, start: nat)
    ensures Account(t, start, [Spawned(start)], [], []) && Crashes([Spawned(start)]) == []
  {
    LogGrows(t, [], Spawned(start));
    assert [] + [Spawned(start)] == [Spawned(start)];
  }

  lemma AccountCrash(t: Tuning, start: nat, log: seq<Entry>, attempts: seq<Attempt>, marks: seq<nat>, now: nat)
    requires Account(t, start, log, attempts, marks)
    ensures Account(t, start, log + [Crashed(now)], attempts, marks)
  {
    hide Streak;
    forall i | 0 <= i < |marks| ensures AnsweredAt(t, log + [Crashed(now)], attempts[i], marks[i]) {
      assert AnsweredAt(t, log, attempts[i], marks[i]);
      assert (log + [Crashed(now)])[..marks[i]] == log[..marks[i]];
    }
  }

  lemma AccountAttempt(
      t: Tuning, start: nat, log: seq<Entry>, attempts: seq<Attempt>, marks: seq<nat>, a: Attempt)
    requires Account(t, start, log, attempts, marks)
    requires log[|log| - 1] == Crashed(a.crashAt) && a.consecutive == Streak(t, log)
    ensures Account(t, start, log + (if a.spawned then [Spawned(a.at)] else []), attempts + [a], marks + [|log|])
  {
    hide Streak;
    var log' := log + (if a.spawned then [Spawned(a.at)] else []);
    var marks', attempts' := marks + [|log|], attempts + [a];
    assert log'[..|log|] == log;
    forall i | 0 <= i < |marks'| ensures AnsweredAt(t, log', attempts'[i], marks'[i]) {
      if i < |marks| {
        assert AnsweredAt(t, log, attempts[i], marks[i]);
        assert log'[..marks[i]] == log[..marks[i]];
      }
    }
    forall k | 0 < k < |log'| && log'[k].Spawned?
      ensures exists i :: 0 <= i < |marks'| && marks'[i] == k && attempts'[i].spawned
    {
      if k < |log| {
        var i :| 0 <= i < |marks| && marks[i] == k && attempts[i].spawned;
        assert marks'[i] == k && attempts'[i].spawned;
      } else {
        assert marks'[|marks|] == k && attempts'[|marks|].spawned;
      }
    }
  }

  /** The record of a run up to some instant. */
  datatype Books = Books(
    history: seq<nat>, attempts: seq<Attempt>, idx: seq<nat>, log: seq<Entry>, marks: seq<nat>, gaveUp: bool)

  ghost predicate Kept(t: Tuning, start: nat, b: Books, now: nat) {
    && Ledger(t, b.history, b.attempts, b.idx, b.gaveUp) && Account(t, start, b.log, b.attempts, b.marks)
    && Before(b.history, b.attempts, now)
  }

  lemma BooksOpen(t: Tuning, start: nat)
    ensures Kept(t, start, Books([], [], [], [Spawned(start)], [], false), start)
  {
    LedgerOpens(t);
    AccountOpens(t, start);
  }

  lemma TimePasses(t: Tuning, start: nat, b: Books, now: nat, later: nat)
    requires Kept(t, start, b, now) && now <= later
    ensures Kept(t, start, b, later)
  {
    hide Ledger, Account;
  }

  function WithCrash(b: Books, now: nat, gaveUp: bool): Books {
    b.(history := b.history + [now], log := b.log + [Crashed(now)], gaveUp := gaveUp)
  }

  lemma BookCrash(t: Tuning, start: nat, b: Books, now: nat)
    requires Kept(t, start, b, now) && !b.gaveUp
    ensures Kept(t, start, WithCrash(b, now, |Recent(b.history + [now], now, t.windowMs)| > t.maxInWindow), now)
    ensures forall i :: 0 <= i < |b.idx| ==> b.idx[i] < |b.history|
  {
    hide Ledger, Account, Recent, Calm;
    LedgerCrash(t, b.history, b.attempts, b.idx, now);
    AccountCrash(t, start, b.log, b.attempts, b.marks, now);
  }

  function WithAttempt(b: Books, a: Attempt): Books
    requires b.history != []
  {
    b.(attempts := b.attempts + [a], idx := b.idx + [|b.history| - 1],
       log := b.log + (if a.spawned then [Spawned(a.at)] else []), marks := b.marks + [|b.log|])
  }

  lemma BookAttempt(t: Tuning, start: nat, b: Books, now: nat, a: Attempt)
    requires Kept(t, start, b, now) && !b.gaveUp && b.history != [] && b.log != []
    requires forall i :: 0 <= i < |b.idx| ==> b.idx[i] < |b.history| - 1
    requires a.crashAt == b.history[|b.history| - 1] && a.at >= a.crashAt + Delay(t, a.consecutive) && a.at == now
    requires b.log[|b.log| - 1] == Crashed(a.crashAt) && a.consecutive == Streak(t, b.log)
    ensures Kept(t, start, WithAttempt(b, a), now)
  {
    hide Ledger, Account, Streak, Delay;
    LedgerAttempt(t, b.history, b.attempts, b.idx, a);
    AccountAttempt(t, start, b.log, b.attempts, b.marks, a);
  }

  lemma NoDeaths(polls: seq<Poll>)
    ensures Deaths(polls[..0]) == 0
  {
  }

  /** One poll of a run. */
  lemma PollOf(polls: seq<Poll>, n: nat)
    requires n < |polls|
    ensures Undisturbed(polls) ==> polls[n].running && polls[n].runningAfter && !polls[n].aliveAfter
    ensures Deaths(polls[..n + 1]) == Deaths(polls[..n]) + (if polls[n].alive then 0 else 1)
  {
    assert polls[..n + 1][..n] == polls[..n];
  }

  /** Every run of the watchdog loop, whatever it observes. */
  method Watch(t: Tuning, start: nat, polls: seq<Poll>)
    returns (attempts: seq<Attempt>, gaveUp: bool,
             ghost history: seq<nat>, ghost log: seq<Entry>, ghost marks: seq<nat>)
    // Respawns are throttled: no window holds more than maxInWindow + 1 of them.
    ensures forall i, j :: 0 <= i <= j < |attempts| && attempts[j].at - attempts[i].at <= t.windowMs
                           ==> j - i <= t.maxInWindow
    // Each waits out its back-off, and precedes the crash the next one answers.
    ensures forall i :: 0 <= i < |attempts| ==>
                          attempts[i].at >= attempts[i].crashAt + Delay(t, attempts[i].consecutive)
    ensures forall i, j :: 0 <= i < j < |attempts| ==> attempts[i].at <= attempts[j].crashAt
    // The back-off goes by the crashes in a row since the last healthy run.
    ensures Account(t, start, log, attempts, marks) && history == Crashes(log)
    // Giving up is final and happens exactly at the first crash that overfills the window.
    ensures forall k :: 0 <= k < |history| ==>
                          (Calm(t, history, k) <==> !(gaveUp && k == |history| - 1))
    ensures gaveUp ==> history != []
    ensures forall i :: 0 <= i < |attempts| && gaveUp ==> attempts[i].at <= history[|history| - 1]
    // Left running, with the relay staying dead through each wait, every death is answered.
    ensures Undisturbed(polls) ==> |attempts| == |history| - (if gaveUp then 1 else 0)
    ensures Undisturbed(polls) && !gaveUp ==> |history| == Deaths(polls)
  {
    hide Kept, Calm, Recent, Delay, Account, Streak, Crashes, LastSpawn, Policy.Valid, Policy.ClockAt, Undisturbed,
         Deaths;
    var policy := new Policy(t);
    var clock: nat := start;
    policy.OnSpawn(clock);
    attempts, gaveUp := [], false;
    ghost var b := Books([], [], [], [Spawned(start)], [], false);
    BooksOpen(t, start);
    assert policy.log == [] + b.log == b.log;
    var n := 0;
    NoDeaths(polls);
    while n < |polls|
      invariant 0 <= n <= |polls|
      invariant fresh(policy) && policy.t == t && policy.Valid() && policy.ClockAt(clock)
      invariant policy.log == b.log && policy.history == b.history
      invariant b.attempts == attempts && b.gaveUp == gaveUp && Kept(t, start, b, clock)
      invariant Undisturbed(polls) ==> |attempts| == |b.history| - (if gaveUp then 1 else 0)
      invariant Undisturbed(polls) && !gaveUp ==> |b.history| == Deaths(polls[..n])
    {
      var p := polls[n];
      PollOf(polls, n);
      n := n + 1;
      policy.ClockMovesOn(clock, clock + 250 + p.lag);
      TimePasses(t, start, b, clock, clock + 250 + p.lag);
      clock := clock + 250 + p.lag;
      if !p.running { break; }
      if gaveUp || p.alive { continue; }

      var now := clock;
      policy.OnCrash(now);
      BookCrash(t, start, b, now);
      var act := policy.Decide(now);
      b := WithCrash(b, now, act == GiveUp);
      if act == GiveUp {
        gaveUp := true;
        continue;
      }
      var wait := policy.BackoffMs();
      clock := SleepOut(clock, wait, p);
      policy.ClockMovesOn(now, clock);
      TimePasses(t, start, b, now, clock);
      if !p.runningAfter { break; }
      if !p.aliveAfter {
        policy.IsCounted();
        var a := Attempt(now, policy.consecutive, clock, p.spawned);
        BookAttempt(t, start, b, clock, a);
        b := WithAttempt(b, a);
        attempts := attempts + [a];
        if p.spawned { policy.OnSpawn(clock); }
      }
    }
    assert n == |polls| ==> polls[..n] == polls;
    policy.IsCounted();
    BooksClose(t, start, b, clock);
    history, log, marks := b.history, b.log, b.marks;
  }

  /** What the books say of the finished run. */
  lemma BooksClose(t: Tuning, start: nat, b: Books, now: nat)
    requires Kept(t, start, b, now)
    ensures forall i, j :: 0 <= i <= j < |b.attempts| && b.attempts[j].at - b.attempts[i].at <= t.windowMs
                           ==> j - i <= t.maxInWindow
    ensures forall i :: 0 <= i < |b.attempts| ==>
                          b.attempts[i].at >= b.attempts[i].crashAt + Delay(t, b.attempts[i].consecutive)
    ensures forall i, j :: 0 <= i < j < |b.attempts| ==> b.attempts[i].at <= b.attempts[j].crashAt
    ensures Account(t, start, b.log, b.attempts, b.marks)
    ensures forall k :: 0 <= k < |b.history| ==>
                          (Calm(t, b.history, k) <==> !(b.gaveUp && k == |b.history| - 1))
    ensures b.gaveUp ==> b.history != []
    ensures forall i :: 0 <= i < |b.attempts| && b.gaveUp ==> b.attempts[i].at <= b.history[|b.history| - 1]
  {
    hide Ledger, Account, Calm, Delay;
    LedgerSettled(t, b.history, b.attempts, b.idx, b.gaveUp);
  }

  /** Waits out the back-off in slices of at least 100 ms, unless shut down meanwhile. */
  method SleepOut(start: nat, wait: nat, p: Poll) returns (clock: nat)
    ensures clock >= start
    ensures p.runningAfter ==> clock >= start + wait
  {
    clock := start;
    var w, slices := 0, 0;
    while w < wait && (p.runningAfter || slices < p.cut)
      invariant clock >= start + w
      decreases wait - w
    {
      clock := clock + 100 + p.slack(slices);
      w := w + 100;
      slices := slices + 1;
    }
  }
}
