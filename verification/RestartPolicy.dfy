/** Watchdog restart policy: shared/restart_policy.h. */
module RestartPolicy {
  import opened Ints

  datatype Tuning = Tuning(
    baseDelayMs: u32, maxDelayMs: u32, windowMs: u32, maxInWindow: u32, healthyAfterMs: u32)

  datatype Action = Respawn | Wait | GiveUp

  /** The delay the design asks for after `n` consecutive crashes: base * 2^(n-1), capped. */
  function Delay(t: Tuning, n: nat): nat {
    if n == 0 then Min(t.baseDelayMs, t.maxDelayMs)
    else Min(t.baseDelayMs * Pow2(n - 1), t.maxDelayMs)
  }

  /** The first crash waits out the base delay, and each further one twice as long, up to the cap. */
  lemma DelayDoubles(t: Tuning, n: nat)
    requires n >= 1
    ensures Delay(t, 1) == if t.baseDelayMs < t.maxDelayMs then t.baseDelayMs else t.maxDelayMs
    ensures Delay(t, n + 1) == if 2 * Delay(t, n) < t.maxDelayMs then 2 * Delay(t, n) else t.maxDelayMs
  {
    var p := t.baseDelayMs * Pow2(n - 1);
    assert t.baseDelayMs * Pow2(n) == 2 * p by {
      assert Pow2(n) == 2 * Pow2(n - 1);
    }
    assert Pow2(0) == 1;
  }

  /** The crashes of `history` that still lie in the window ending at `now`. */
  function Recent(history: seq<nat>, now: nat, window: nat): (r: seq<nat>)
    ensures |r| <= |history|
    ensures forall c :: c in r ==> c in history
  {
    if history == [] then []
    else
      var c := history[|history| - 1];
      Recent(history[..|history| - 1], now, window) + (if now - c <= window then [c] else [])
  }

  /** Pruning at two successive instants is pruning at the later one. */
  lemma {:induction false} RecentTwice(history: seq<nat>, p: nat, now: nat, window: nat)
    requires p <= now
    ensures Recent(Recent(history, p, window), now, window) == Recent(history, now, window)
  {
    if history != [] {
      var n := |history| - 1;
      RecentTwice(history[..n], p, now, window);
      var head := Recent(history[..n], p, window);
      if p - history[n] <= window {
        assert (head + [history[n]])[..|head|] == head;
      } else {
        assert head + [] == head;
      }
    }
  }

  /** A tail of the history that lies wholly in the window is counted in full. */
  lemma {:induction false} RecentCountsTail(history: seq<nat>, m: nat, now: nat, window: nat)
    requires m <= |history|
    requires forall i :: m <= i < |history| ==> now - history[i] <= window
    ensures |Recent(history, now, window)| >= |history| - m
  {
    if m < |history| {
      RecentCountsTail(history[..|history| - 1], m, now, window);
    }
  }

  /** A crash after the last pruning is kept. */
  lemma RecentGrows(history: seq<nat>, p: nat, c: nat, window: nat)
    requires p <= c
    ensures Recent(history + [c], p, window) == Recent(history, p, window) + [c]
  {
    assert (history + [c])[..|history|] == history;
  }

  // ---- how many crashes in a row ----

  datatype Entry = Crashed(at: nat) | Spawned(at: nat)

  /** The last recorded spawn; zero stands for none. */
  function LastSpawn(log: seq<Entry>): nat {
    if log == [] then 0
    else if log[|log| - 1].Spawned? then log[|log| - 1].at
    else LastSpawn(log[..|log| - 1])
  }

  /** Did the process crash after having been up long enough to forget earlier crashes? */
  predicate Healthy(t: Tuning, lastSpawn: nat, crash: nat) {
    lastSpawn != 0 && crash - lastSpawn >= t.healthyAfterMs
  }

  /** The crashes in a row: those since, and with, the last crash of a healthy process. */
  function Streak(t: Tuning, log: seq<Entry>): nat {
    if log == [] then 0
    else
      var n := |log| - 1;
      match log[n]
      case Spawned(_) => Streak(t, log[..n])
      case Crashed(at) => if Healthy(t, LastSpawn(log[..n]), at) then 1 else Streak(t, log[..n]) + 1
  }

  /** The times of the recorded crashes. */
  function Crashes(log: seq<Entry>): seq<nat> {
    if log == [] then []
    else Crashes(log[..|log| - 1]) + (if log[|log| - 1].Crashed? then [log[|log| - 1].at] else [])
  }

  lemma LogGrows(t: Tuning, log: seq<Entry>, e: Entry)
    ensures Crashes(log + [e]) == Crashes(log) + (if e.Crashed? then [e.at] else [])
    ensures LastSpawn(log + [e]) == if e.Spawned? then e.at else LastSpawn(log)
    ensures Streak(t, log + [e]) ==
            if e.Spawned? then Streak(t, log)
            else if Healthy(t, LastSpawn(log), e.at) then 1 else Streak(t, log) + 1
  {
    assert (log + [e])[..|log|] == log;
  }

  /**
    Only spawns that succeed are recorded, and health is measured from the last of them. So while
    respawning keeps failing, the back-off grows exactly until the process would have counted as
    healthy, and then falls back to the base delay.
   */
  lemma {:induction false} FailedSpawnsReset(t: Tuning, log: seq<Entry>, spawn: nat, crashes: seq<Entry>)
    requires spawn > 0 && crashes != []
    requires forall k :: 0 <= k < |crashes| ==> crashes[k].Crashed? && crashes[k].at >= spawn
    requires forall i, j :: 0 <= i <= j < |crashes| ==> crashes[i].at <= crashes[j].at
    ensures var all := log + [Spawned(spawn)] + crashes;
            && LastSpawn(all) == spawn
            && Streak(t, all) == if crashes[|crashes| - 1].at - spawn >= t.healthyAfterMs then 1
                                 else Streak(t, log) + |crashes|
  {
    var n := |crashes| - 1;
    var base := log + [Spawned(spawn)];
    LogGrows(t, log, Spawned(spawn));
    assert base + crashes == base + crashes[..n] + [crashes[n]];
    LogGrows(t, base + crashes[..n], crashes[n]);
    if n == 0 {
      assert base + crashes[..n] == base;
    } else {
      FailedSpawnsReset(t, log, spawn, crashes[..n]);
    }
  }

  lemma {:induction false} Pow2Monotone(a: nat, b: nat)
    requires a <= b
    ensures Pow2(a) <= Pow2(b)
  {
    if a < b {
      Pow2Monotone(a, b - 1);
    }
  }

  class Policy {
    const t: Tuning
    var crashes: seq<nat>
    var consecutive: nat
    var lastSpawnMs: nat
    var nextAllowedMs: nat
    ghost var log: seq<Entry>     // every crash and spawn ever reported
    ghost var history: seq<nat>   // the crashes among them
    ghost var prunedAt: nat       // instant of the last window pruning

    /** The vector kept is the whole history seen through the last window. */
    ghost predicate Valid()
      reads this
    {
      && crashes == Recent(history, prunedAt, t.windowMs)
      && Counted()
    }

    /** The counters are what the log says. */
    ghost predicate Counted()
      reads this`log, this`history, this`consecutive, this`lastSpawnMs
    {
      history == Crashes(log) && consecutive == Streak(t, log) && lastSpawnMs == LastSpawn(log)
    }

    lemma IsCounted()
      requires Valid()
      ensures Counted()
    {
    }

    /** `now` is not before any instant the policy has been told about. */
    ghost predicate ClockAt(now: nat)
      reads this
    {
      prunedAt <= now && lastSpawnMs <= now && forall i :: 0 <= i < |history| ==> history[i] <= now
    }

    lemma ClockMovesOn(now: nat, later: nat)
      requires ClockAt(now) && now <= later
      ensures ClockAt(later)
    {
    }

    constructor (t: Tuning)
      ensures Valid() && this.t == t && log == [] && history == [] && crashes == []
      ensures consecutive == 0 && lastSpawnMs == 0 && nextAllowedMs == 0 && prunedAt == 0
    {
      this.t := t;
      crashes, consecutive, lastSpawnMs, nextAllowedMs := [], 0, 0, 0;
      log, history, prunedAt := [], [], 0;
    }

    method OnCrash(now: nat)
      requires Valid() && ClockAt(now)
      modifies this
      ensures Valid() && ClockAt(now)
      ensures log == old(log) + [Crashed(now)]
      ensures history == old(history) + [now] && crashes == old(crashes) + [now]
      ensures nextAllowedMs == now + Delay(t, consecutive)
      ensures lastSpawnMs == old(lastSpawnMs) && prunedAt == old(prunedAt)
    {
      hide Recent, Streak, LastSpawn, Crashes, Delay;
      LogGrows(t, log, Crashed(now));
      RecentGrows(history, prunedAt, now, t.windowMs);
      if lastSpawnMs != 0 && now - lastSpawnMs >= t.healthyAfterMs {
        consecutive := 0;
      }
      crashes := crashes + [now];
      log := log + [Crashed(now)];
      history := history + [now];
      consecutive := consecutive + 1;
      var delay := BackoffMs();
      nextAllowedMs := now + delay;
    }

    method OnSpawn(now: nat)
      requires Valid() && ClockAt(now)
      modifies this`lastSpawnMs, this`log
      ensures Valid() && ClockAt(now) && lastSpawnMs == now && log == old(log) + [Spawned(now)]
    {
      LogGrows(t, log, Spawned(now));
      log := log + [Spawned(now)];
      lastSpawnMs := now;
    }

    /** Gives up exactly when the full history holds too many crashes inside the window. */
    method Decide(now: nat) returns (a: Action)
      requires Valid() && ClockAt(now)
      modifies this`crashes, this`prunedAt
      ensures Valid() && ClockAt(now) && prunedAt == now
      ensures crashes == Recent(history, now, t.windowMs)
      ensures a == GiveUp <==> |Recent(history, now, t.windowMs)| > t.maxInWindow
      ensures a == Wait <==> a != GiveUp && nextAllowedMs != 0 && now < nextAllowedMs
    {
      hide Counted;
      PruneWindow(now);
      if |crashes| > t.maxInWindow {
        return GiveUp;
      }
      if nextAllowedMs != 0 && now < nextAllowedMs {
        return Wait;
      }
      return Respawn;
    }

    /** The doubling loop computes the capped power without leaving 34 bits. */
    method BackoffMs() returns (r: nat)
      ensures r == Delay(t, consecutive)
    {
      var d := t.baseDelayMs as int;
      var i := 1;
      while i < consecutive && d < t.maxDelayMs
        invariant 1 <= i && (if consecutive == 0 then i == 1 else i <= consecutive)
        invariant d == t.baseDelayMs * Pow2(i - 1)
        invariant 0 <= d < 0x2_0000_0000
      {
        d := d * 2;
        i := i + 1;
      }
      if consecutive >= 1 {
        Pow2Monotone(i - 1, consecutive - 1);
        ScaleMonotone(t.baseDelayMs, Pow2(i - 1), Pow2(consecutive - 1));
        assert i == consecutive || t.maxDelayMs <= d <= t.baseDelayMs * Pow2(consecutive - 1);
      }
      r := if d > t.maxDelayMs then t.maxDelayMs else d;
    }

    method PruneWindow(now: nat)
      requires Valid() && ClockAt(now)
      modifies this`crashes, this`prunedAt
      ensures Valid() && prunedAt == now
      ensures crashes == Recent(history, now, t.windowMs)
    {
      hide Counted, Recent;
      RecentTwice(history, prunedAt, now, t.windowMs);
      Compact(now);
      prunedAt := now;
    }

    /** In-place compaction of the crash vector. */
    method Compact(now: nat)
      modifies this`crashes
      ensures crashes == Recent(old(crashes), now, t.windowMs)
    {
      ghost var was := crashes;
      var keep := 0;
      for i := 0 to |crashes|
        invariant 0 <= keep <= i <= |crashes| == |was|
        invariant crashes[..keep] == Recent(was[..i], now, t.windowMs)
        invariant forall k :: i <= k < |was| ==> crashes[k] == was[k]
      {
        var c := crashes[i];
        assert was[..i + 1][..i] == was[..i];
        if now - c <= t.windowMs {
          crashes := crashes[keep := c];
          keep := keep + 1;
        }
      }
      crashes := crashes[..keep];
      assert was[..|was|] == was;
    }
  }

  lemma ScaleMonotone(k: nat, a: nat, b: nat)
    requires a <= b
    ensures k * a <= k * b
  {
  }
}
