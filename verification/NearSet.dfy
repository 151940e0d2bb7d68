/** The nearest-N admission of proximity speakers: `Engine::nearestAdmit` in core/src/engine.cpp. */
module NearSet {
  import opened Common
  import opened Ints

  const FRESH_TICKS := 2
  const LIMIT := 1000000000.0   // above every volume

  datatype NearEntry = NearEntry(speaker: u16, volume: real, tick: u32)

  predicate Stale(e: NearEntry, now: u32) {
    Sub32(now, e.tick) > FRESH_TICKS
  }

  ghost predicate UniqueSpeakers(s: seq<NearEntry>) {
    forall i, j :: 0 <= i < j < |s| ==> s[i].speaker != s[j].speaker
  }

  ghost function Entries(s: seq<NearEntry>): set<NearEntry> {
    set e | e in s
  }

  ghost function Fresh(s: seq<NearEntry>, now: u32): set<NearEntry> {
    set e | e in s && !Stale(e, now)
  }

  ghost predicate Heard(f: set<NearEntry>, speaker: u16) {
    exists e :: e in f && e.speaker == speaker
  }

  ghost predicate Weakest(f: set<NearEntry>, w: NearEntry) {
    w in f && w.volume < LIMIT && forall e :: e in f ==> w.volume <= e.volume
  }

  /**
    What admitting means, on the fresh entries `f` of a listener: a speaker already heard is
    refreshed, a free slot is taken, and a full set trades a weakest entry for a louder speaker.
   */
  ghost predicate Admits(
      f: set<NearEntry>, f': set<NearEntry>, speaker: u16, vol: real, now: u32, n: nat, ok: bool)
  {
    var entry := NearEntry(speaker, vol, now);
    if Heard(f, speaker) then
      ok && exists e :: e in f && e.speaker == speaker && f' == f - {e} + {entry}
    else if |f| < n then
      ok && f' == f + {entry}
    else if ok then
      exists w :: Weakest(f, w) && w.volume < vol && f' == f - {w} + {entry}
    else
      f' == f && forall w :: Weakest(f, w) ==> vol <= w.volume
  }

  /** Does the listener's set make room for the speaker? Known before the admission. */
  ghost predicate MakesRoom(f: set<NearEntry>, speaker: u16, vol: real, n: nat) {
    Heard(f, speaker) || |f| < n || exists w :: Weakest(f, w) && w.volume < vol
  }

  lemma AdmittedIff(
      f: set<NearEntry>, f': set<NearEntry>, speaker: u16, vol: real, now: u32, n: nat, ok: bool)
    requires Admits(f, f', speaker, vol, now, n, ok)
    ensures ok <==> MakesRoom(f, speaker, vol, n)
  {
  }

  lemma {:induction false} EntriesCount(s: seq<NearEntry>)
    requires UniqueSpeakers(s)
    ensures |Entries(s)| == |s|
  {
    if s != [] {
      var n := |s| - 1;
      EntriesCount(s[..n]);
      assert Entries(s) == Entries(s[..n]) + {s[n]};
      assert s[n] !in Entries(s[..n]);
    }
  }

  lemma SwapEraseKeeps(s: seq<NearEntry>, e: nat)
    requires UniqueSpeakers(s) && e < |s|
    ensures UniqueSpeakers(SwapErase(s, e)) && SwapErase(s, e)[..e] == s[..e]
    ensures Entries(SwapErase(s, e)) == Entries(s) - {s[e]}
  {
    var r := SwapErase(s, e);
    forall x | x in s && x != s[e] ensures x in r {
      var i :| 0 <= i < |s| && s[i] == x;
      assert r[if i == |s| - 1 then e else i] == x;
    }
  }

  /** The index of the weakest entry among the first `i`, and the least volume seen. */
  ghost predicate Tracks(s: seq<NearEntry>, i: nat, weakest: int, weakestVol: real)
    requires i <= |s|
  {
    && -1 <= weakest < i
    && (weakest == -1 ==> weakestVol == LIMIT)
    && (weakest >= 0 ==> s[weakest].volume == weakestVol < LIMIT)
    && forall k :: 0 <= k < i ==> s[k].volume >= weakestVol
  }

  ghost predicate Finds(s: seq<NearEntry>, i: nat, self: int, speaker: u16)
    requires i <= |s|
  {
    && -1 <= self < i
    && (self >= 0 ==> s[self].speaker == speaker)
    && (self == -1 ==> forall k :: 0 <= k < i ==> s[k].speaker != speaker)
  }

  /** One pass over the vector: swap-erases stale entries and finds the speaker and the weakest. */
  method Scan(set0: seq<NearEntry>, speaker: u16, now: u32)
    returns (s: seq<NearEntry>, self: int, weakest: int, weakestVol: real)
    requires UniqueSpeakers(set0)
    ensures UniqueSpeakers(s) && Entries(s) == Fresh(set0, now)
    ensures forall k :: 0 <= k < |s| ==> !Stale(s[k], now)
    ensures Finds(s, |s|, self, speaker) && Tracks(s, |s|, weakest, weakestVol)
  {
    s, self, weakest, weakestVol := set0, -1, -1, LIMIT;
    var i := 0;
    while i < |s|
      invariant 0 <= i <= |s|
      invariant UniqueSpeakers(s) && Fresh(s, now) == Fresh(set0, now)
      invariant forall k :: 0 <= k < i ==> !Stale(s[k], now)
      invariant Finds(s, i, self, speaker) && Tracks(s, i, weakest, weakestVol)
      decreases |s| - i
    {
      if Stale(s[i], now) {
        SwapEraseKeeps(s, i);
        ghost var r := SwapErase(s, i);
        assert forall e :: e in r <==> e in Entries(s) - {s[i]} by {
          assert forall e :: e in r <==> e in Entries(r);
        }
        assert forall k :: 0 <= k < i ==> r[k] == r[..i][k] == s[k];
        s := SwapErase(s, i);
        continue;
      }
      if s[i].speaker == speaker { self := i; }
      if s[i].volume < weakestVol { weakestVol := s[i].volume; weakest := i; }
      i := i + 1;
    }
    assert Entries(s) == Fresh(s, now);
  }

  lemma ReplaceKeeps(s: seq<NearEntry>, i: nat, entry: NearEntry)
    requires UniqueSpeakers(s) && i < |s|
    requires s[i].speaker == entry.speaker || forall k :: 0 <= k < |s| ==> s[k].speaker != entry.speaker
    ensures UniqueSpeakers(s[i := entry])
    ensures Entries(s[i := entry]) == Entries(s) - {s[i]} + {entry}
  {
    var r := s[i := entry];
    assert r[i] == entry;
    forall x | x in s && x != s[i] ensures x in r {
      var k :| 0 <= k < |s| && s[k] == x;
      assert r[k] == x;
    }
  }

  lemma Refresh(s: seq<NearEntry>, self: int, speaker: u16, vol: real, now: u32, n: nat)
    requires UniqueSpeakers(s) && Finds(s, |s|, self, speaker) && self >= 0
    ensures var r := s[self := NearEntry(speaker, vol, now)];
            UniqueSpeakers(r) && Admits(Entries(s), Entries(r), speaker, vol, now, n, true)
  {
    ReplaceKeeps(s, self, NearEntry(speaker, vol, now));
    assert s[self] in Entries(s);
  }

  lemma TakeSlot(s: seq<NearEntry>, speaker: u16, vol: real, now: u32, n: nat)
    requires UniqueSpeakers(s) && Finds(s, |s|, -1, speaker) && |s| < n
    ensures var r := s + [NearEntry(speaker, vol, now)];
            UniqueSpeakers(r) && Admits(Entries(s), Entries(r), speaker, vol, now, n, true)
  {
    EntriesCount(s);
    var entry := NearEntry(speaker, vol, now);
    assert Entries(s + [entry]) == Entries(s) + {entry};
  }

  lemma Trade(
      s: seq<NearEntry>, weakest: int, weakestVol: real, speaker: u16, vol: real, now: u32, n: nat)
    requires UniqueSpeakers(s) && Finds(s, |s|, -1, speaker) && |s| >= n
    requires Tracks(s, |s|, weakest, weakestVol)
    ensures weakest >= 0 && vol > weakestVol ==>
              var r := s[weakest := NearEntry(speaker, vol, now)];
              UniqueSpeakers(r) && Admits(Entries(s), Entries(r), speaker, vol, now, n, true)
    ensures !(weakest >= 0 && vol > weakestVol) ==>
              Admits(Entries(s), Entries(s), speaker, vol, now, n, false)
  {
    EntriesCount(s);
    if weakest >= 0 && vol > weakestVol {
      ReplaceKeeps(s, weakest, NearEntry(speaker, vol, now));
      assert Weakest(Entries(s), s[weakest]);
    }
  }

  /** Admission under a cap of `n` entries. */
  method NearestAdmit(set0: seq<NearEntry>, speaker: u16, vol: real, now: u32, n: nat)
    returns (s: seq<NearEntry>, ok: bool)
    requires UniqueSpeakers(set0)
    ensures UniqueSpeakers(s)
    ensures Admits(Fresh(set0, now), Entries(s), speaker, vol, now, n, ok)
    ensures forall e :: e in s ==> !Stale(e, now)
    // Entries older than two ticks are gone; the others stay, but for the speaker's own and one traded away.
    ensures forall e :: e in s ==> (now - e.tick) % 0x1_0000_0000 <= 2
    ensures forall e :: e in set0 && (now - e.tick) % 0x1_0000_0000 <= 2 ==>
                          e in s || e.speaker == speaker || (ok && e.volume < vol)
    ensures ok <==> NearEntry(speaker, vol, now) in s
    ensures |set0| <= n ==> |s| <= n
  {
    s, ok := Admit(set0, speaker, vol, now, n);
    EntriesStay(set0, s, speaker, vol, now, n, ok);
  }

  method Admit(set0: seq<NearEntry>, speaker: u16, vol: real, now: u32, n: nat)
    returns (s: seq<NearEntry>, ok: bool)
    requires UniqueSpeakers(set0)
    ensures UniqueSpeakers(s)
    ensures Admits(Fresh(set0, now), Entries(s), speaker, vol, now, n, ok)
    ensures forall e :: e in s ==> !Stale(e, now)
    ensures |set0| <= n ==> |s| <= n
  {
    hide Admits, UniqueSpeakers, Tracks, Finds, Entries, Fresh;
    var self, weakest, weakestVol;
    s, self, weakest, weakestVol := Scan(set0, speaker, now);
    InRange(s, self, speaker, weakest, weakestVol);
    EntriesCount(s);
    FreshFits(set0, now);
    var entry := NearEntry(speaker, vol, now);
    if self >= 0 {
      Refresh(s, self, speaker, vol, now, n);
      s := s[self := entry];
      return s, true;
    }
    if |s| < n {
      TakeSlot(s, speaker, vol, now, n);
      s := s + [entry];
      return s, true;
    }
    Trade(s, weakest, weakestVol, speaker, vol, now, n);
    if weakest >= 0 && vol > weakestVol {
      s := s[weakest := entry];
      return s, true;
    }
    return s, false;
  }

  /** What an admission means for the entries already there. */
  lemma EntriesStay(
      set0: seq<NearEntry>, s: seq<NearEntry>, speaker: u16, vol: real, now: u32, n: nat, ok: bool)
    requires Admits(Fresh(set0, now), Entries(s), speaker, vol, now, n, ok)
    ensures forall e :: e in s ==> (now - e.tick) % 0x1_0000_0000 <= 2
    ensures forall e :: e in set0 && (now - e.tick) % 0x1_0000_0000 <= 2 ==>
                          e in s || e.speaker == speaker || (ok && e.volume < vol)
    ensures ok <==> NearEntry(speaker, vol, now) in s
  {
    var f, f' := Fresh(set0, now), Entries(s);
    assert forall e :: e in s <==> e in f';
    assert forall e :: e in f <==> e in set0 && (now - e.tick) % 0x1_0000_0000 <= 2;
    hide Fresh, Entries;
  }

  lemma InRange(s: seq<NearEntry>, self: int, speaker: u16, weakest: int, weakestVol: real)
    requires Finds(s, |s|, self, speaker) && Tracks(s, |s|, weakest, weakestVol)
    ensures -1 <= self < |s| && -1 <= weakest < |s|
  {
  }

  lemma FreshFits(s: seq<NearEntry>, now: u32)
    requires UniqueSpeakers(s)
    ensures |Fresh(s, now)| <= |s|
  {
    EntriesCount(s);
    Subset(Fresh(s, now), Entries(s));
  }

  lemma {:induction false} Subset<T>(a: set<T>, b: set<T>)
    requires a <= b
    ensures |a| <= |b|
    ensures |a| == |b| ==> a == b
  {
    if a != {} {
      var x :| x in a;
      Subset(a - {x}, b - {x});
      assert a == a - {x} + {x} && b == b - {x} + {x};
    } else if b != {} {
      var x :| x in b;
      assert |b| == |b - {x}| + 1;
    }
  }

  // ---- runs in which nothing goes stale and every speaker keeps one volume ----

  type Volumes = u16 -> real

  ghost function SpeakersOf(f: set<NearEntry>): set<u16> {
    set e | e in f :: e.speaker
  }

  /** `f` is a loudest-`n` of the speakers offered so far. */
  ghost predicate TopN(f: set<NearEntry>, offered: set<u16>, v: Volumes, n: nat) {
    && SpeakersOf(f) <= offered
    && (forall e :: e in f ==> e.volume == v(e.speaker))
    && (forall e, e' :: e in f && e' in f && e.speaker == e'.speaker ==> e == e')
    && |f| == Min(n, |offered|)
    && (forall o, e :: o in offered && o !in SpeakersOf(f) && e in f ==> v(o) <= e.volume)
  }

  lemma {:induction false} SpeakersCount(f: set<NearEntry>)
    requires forall e, e' :: e in f && e' in f && e.speaker == e'.speaker ==> e == e'
    ensures |SpeakersOf(f)| == |f|
  {
    if f != {} {
      var e :| e in f;
      SpeakersCount(f - {e});
      assert SpeakersOf(f) == SpeakersOf(f - {e}) + {e.speaker};
    }
  }

  /** A set with a free slot holds everyone offered. */
  lemma RoomMeansAll(f: set<NearEntry>, offered: set<u16>, v: Volumes, n: nat)
    requires TopN(f, offered, v, n) && |f| < n
    ensures SpeakersOf(f) == offered
  {
    SpeakersCount(f);
    Subset(SpeakersOf(f), offered);
  }

  lemma TopNRefresh(
      f: set<NearEntry>, e: NearEntry, entry: NearEntry, offered: set<u16>, v: Volumes, n: nat)
    requires TopN(f, offered, v, n) && e in f && e.speaker == entry.speaker && entry.volume == v(entry.speaker)
    ensures TopN(f - {e} + {entry}, offered + {entry.speaker}, v, n)
    ensures SpeakersOf(f - {e} + {entry}) == SpeakersOf(f)
  {
    var f' := f - {e} + {entry};
    assert e.speaker in SpeakersOf(f) && offered + {entry.speaker} == offered;
    forall x ensures x in SpeakersOf(f') <==> x in SpeakersOf(f) {
      if x in SpeakersOf(f) && x != e.speaker {
        var y :| y in f && y.speaker == x;
        assert y in f';
      }
      if x == e.speaker {
        assert entry in f';
      }
    }
    assert entry !in f - {e};
  }

  lemma TopNSlot(f: set<NearEntry>, entry: NearEntry, offered: set<u16>, v: Volumes, n: nat)
    requires TopN(f, offered, v, n) && !Heard(f, entry.speaker) && |f| < n
    requires entry.volume == v(entry.speaker)
    ensures TopN(f + {entry}, offered + {entry.speaker}, v, n)
  {
    RoomMeansAll(f, offered, v, n);
    assert entry !in f && entry.speaker !in offered;
    assert SpeakersOf(f + {entry}) == SpeakersOf(f) + {entry.speaker};
  }

  lemma SpeakersAfterTrade(f: set<NearEntry>, w: NearEntry, entry: NearEntry)
    requires w in f && !Heard(f, entry.speaker)
    requires forall e, e' :: e in f && e' in f && e.speaker == e'.speaker ==> e == e'
    ensures SpeakersOf(f - {w} + {entry}) == SpeakersOf(f) - {w.speaker} + {entry.speaker}
  {
    var f' := f - {w} + {entry};
    forall x ensures x in SpeakersOf(f') <==> x in SpeakersOf(f) - {w.speaker} + {entry.speaker} {
      if x in SpeakersOf(f) - {w.speaker} {
        var y :| y in f && y.speaker == x;
        assert y in f';
      }
      if x == entry.speaker {
        assert entry in f';
      }
    }
  }

  lemma TradeLouder(
      f: set<NearEntry>, w: NearEntry, entry: NearEntry, offered: set<u16>, v: Volumes, n: nat,
      o: u16, e: NearEntry)
    requires TopN(f, offered, v, n)
    requires Weakest(f, w) && w.volume < entry.volume
    requires o in offered && (o == w.speaker || o !in SpeakersOf(f)) && e in f - {w} + {entry}
    ensures v(o) <= e.volume
  {
    hide SpeakersOf;
    assert v(o) <= w.volume;
  }

  lemma TradeEntries(f: set<NearEntry>, w: NearEntry, entry: NearEntry, v: Volumes)
    requires w in f && !Heard(f, entry.speaker) && entry.volume == v(entry.speaker)
    requires forall e :: e in f ==> e.volume == v(e.speaker)
    requires forall e, e' :: e in f && e' in f && e.speaker == e'.speaker ==> e == e'
    ensures var f' := f - {w} + {entry};
            && |f'| == |f|
            && (forall e :: e in f' ==> e.volume == v(e.speaker))
            && (forall e, e' :: e in f' && e' in f' && e.speaker == e'.speaker ==> e == e')
  {
    assert entry !in f;
  }

  lemma TradeAllLouder(
      f: set<NearEntry>, w: NearEntry, entry: NearEntry, offered: set<u16>, v: Volumes, n: nat)
    requires TopN(f, offered, v, n) && !Heard(f, entry.speaker)
    requires Weakest(f, w) && w.volume < entry.volume
    ensures var f' := f - {w} + {entry};
            forall o, e :: o in offered + {entry.speaker} && o !in SpeakersOf(f') && e in f' ==> v(o) <= e.volume
  {
    SpeakersAfterTrade(f, w, entry);
    hide SpeakersOf, Heard, TopN, Weakest;
    var f' := f - {w} + {entry};
    forall o, e | o in offered + {entry.speaker} && o !in SpeakersOf(f') && e in f' ensures v(o) <= e.volume {
      TradeLouder(f, w, entry, offered, v, n, o, e);
    }
  }

  lemma TopNTrade(
      f: set<NearEntry>, w: NearEntry, entry: NearEntry, offered: set<u16>, v: Volumes, n: nat)
    requires TopN(f, offered, v, n) && !Heard(f, entry.speaker) && |f| >= n
    requires Weakest(f, w) && w.volume < entry.volume == v(entry.speaker)
    ensures TopN(f - {w} + {entry}, offered + {entry.speaker}, v, n)
  {
    TradeSpeakers(f, w, entry, offered, v, n);
    TradeSize(f, w, entry, offered, v, n);
    TradeAllLouder(f, w, entry, offered, v, n);
    hide SpeakersOf, Heard, Weakest;
  }

  lemma TradeSpeakers(
      f: set<NearEntry>, w: NearEntry, entry: NearEntry, offered: set<u16>, v: Volumes, n: nat)
    requires TopN(f, offered, v, n) && !Heard(f, entry.speaker) && w in f
    ensures SpeakersOf(f - {w} + {entry}) <= offered + {entry.speaker}
  {
    SpeakersAfterTrade(f, w, entry);
    hide SpeakersOf, Heard;
  }

  lemma TradeSize(
      f: set<NearEntry>, w: NearEntry, entry: NearEntry, offered: set<u16>, v: Volumes, n: nat)
    requires TopN(f, offered, v, n) && !Heard(f, entry.speaker) && w in f && |f| >= n
    requires entry.volume == v(entry.speaker)
    ensures var f' := f - {w} + {entry};
            && |f'| == Min(n, |offered + {entry.speaker}|)
            && (forall e :: e in f' ==> e.volume == v(e.speaker))
            && (forall e, e' :: e in f' && e' in f' && e.speaker == e'.speaker ==> e == e')
  {
    TradeEntries(f, w, entry, v);
    Subset(offered, offered + {entry.speaker});
    hide SpeakersOf, Heard;
  }

  lemma {:induction false} WeakestExists(f: set<NearEntry>)
    requires f != {} && forall e :: e in f ==> e.volume < LIMIT
    ensures exists w :: Weakest(f, w)
  {
    var e :| e in f;
    if f == {e} {
      assert Weakest(f, e);
    } else {
      WeakestExists(f - {e});
      var w :| Weakest(f - {e}, w);
      assert Weakest(f, if e.volume < w.volume then e else w);
    }
  }

  lemma TopNRefuse(f: set<NearEntry>, speaker: u16, offered: set<u16>, v: Volumes, n: nat)
    requires TopN(f, offered, v, n) && !Heard(f, speaker) && |f| >= n
    requires forall x :: v(x) < LIMIT
    requires forall w :: Weakest(f, w) ==> v(speaker) <= w.volume
    ensures TopN(f, offered + {speaker}, v, n)
  {
    Subset(offered, offered + {speaker});
    if f != {} {
      WeakestExists(f);
      var w :| Weakest(f, w);
      assert forall e :: e in f ==> v(speaker) <= e.volume;
    }
  }

  /** Every admission keeps the set a loudest-`n` of the speakers offered so far. */
  lemma AdmitKeepsTopN(
      f: set<NearEntry>, f': set<NearEntry>, offered: set<u16>, v: Volumes,
      speaker: u16, now: u32, n: nat, ok: bool)
    requires forall x :: v(x) < LIMIT
    requires TopN(f, offered, v, n) && Admits(f, f', speaker, v(speaker), now, n, ok)
    ensures TopN(f', offered + {speaker}, v, n)
    ensures ok <==> speaker in SpeakersOf(f')
  {
    hide TopN;
    var entry := NearEntry(speaker, v(speaker), now);
    if Heard(f, speaker) {
      var e :| e in f && e.speaker == speaker && f' == f - {e} + {entry};
      TopNRefresh(f, e, entry, offered, v, n);
      assert entry in f';
    } else if |f| < n {
      TopNSlot(f, entry, offered, v, n);
      assert entry in f';
    } else if ok {
      var w :| Weakest(f, w) && w.volume < v(speaker) && f' == f - {w} + {entry};
      TopNTrade(f, w, entry, offered, v, n);
      assert entry in f';
    } else {
      TopNRefuse(f, speaker, offered, v, n);
    }
  }

  /** Once everyone has been offered, exactly those in the set are admitted, in any order. */
  lemma SettledAdmission(
      f: set<NearEntry>, f': set<NearEntry>, offered: set<u16>, v: Volumes,
      speaker: u16, now: u32, n: nat, ok: bool)
    requires TopN(f, offered, v, n) && speaker in offered
    requires Admits(f, f', speaker, v(speaker), now, n, ok)
    ensures ok <==> speaker in SpeakersOf(f)
    ensures SpeakersOf(f') == SpeakersOf(f) && TopN(f', offered, v, n)
  {
    var entry := NearEntry(speaker, v(speaker), now);
    assert offered + {speaker} == offered;
    if Heard(f, speaker) {
      var e :| e in f && e.speaker == speaker && f' == f - {e} + {entry};
      TopNRefresh(f, e, entry, offered, v, n);
      assert speaker in SpeakersOf(f);
    } else if |f| < n {
      RoomMeansAll(f, offered, v, n);
    } else {
      assert speaker !in SpeakersOf(f);
    }
  }

  lemma Louder(f: set<NearEntry>, offered: set<u16>, v: Volumes, n: nat, inside: u16, outside: u16)
    requires TopN(f, offered, v, n)
    requires inside in SpeakersOf(f) && outside in offered && outside !in SpeakersOf(f)
    ensures v(outside) <= v(inside)
  {
  }

  /** Of two sets of the same size, neither has more to offer. */
  lemma Other(a: set<u16>, b: set<u16>, x: u16) returns (y: u16)
    requires |a| == |b| && x in a && x !in b
    ensures y in b && y !in a
  {
    if b <= a {
      Subset(b, a);
    }
    y :| y in b && y !in a;
  }

  /** With distinct volumes there is only one loudest-`n`. */
  lemma TopNUnique(f: set<NearEntry>, g: set<NearEntry>, offered: set<u16>, v: Volumes, n: nat)
    requires TopN(f, offered, v, n) && TopN(g, offered, v, n)
    requires forall x, y :: x in offered && y in offered && v(x) == v(y) ==> x == y
    ensures SpeakersOf(f) == SpeakersOf(g)
  {
    SpeakersCount(f);
    SpeakersCount(g);
    var a, b := SpeakersOf(f), SpeakersOf(g);
    forall x | x in a ensures x in b {
      if x !in b {
        var y := Other(a, b, x);
        Louder(f, offered, v, n, x, y);
        Louder(g, offered, v, n, y, x);
      }
    }
    Subset(a, b);
  }

  // ---- whole runs ----

  /** A run of offers: the sets before and after each, with nothing going stale in between. */
  ghost predicate Run(
      states: seq<set<NearEntry>>, offers: seq<u16>, oks: seq<bool>, ticks: seq<u32>, v: Volumes, n: nat)
  {
    && |states| == |offers| + 1 && |oks| == |ticks| == |offers| && states[0] == {}
    && forall i :: 0 <= i < |offers| ==>
         Admits(states[i], states[i + 1], offers[i], v(offers[i]), ticks[i], n, oks[i])
  }

  /** The same with whatever volume each offer has. */
  ghost predicate Chain(
      states: seq<set<NearEntry>>, offers: seq<u16>, vols: seq<real>, oks: seq<bool>, ticks: seq<u32>, n: nat)
  {
    && |states| == |offers| + 1 && |vols| == |oks| == |ticks| == |offers| && states[0] == {}
    && forall i :: 0 <= i < |offers| ==>
         Admits(states[i], states[i + 1], offers[i], vols[i], ticks[i], n, oks[i])
  }

  lemma ChainIsRun(
      states: seq<set<NearEntry>>, offers: seq<u16>, vols: seq<real>, oks: seq<bool>, ticks: seq<u32>, v: Volumes,
      n: nat)
    requires Chain(states, offers, vols, oks, ticks, n)
    requires forall i :: 0 <= i < |offers| ==> vols[i] == v(offers[i])
    ensures Run(states, offers, oks, ticks, v, n)
  {
    hide Admits;
  }

  ghost function Offered(offers: seq<u16>): set<u16> {
    set o | o in offers
  }

  lemma {:induction false} RunKeepsTopN(
      states: seq<set<NearEntry>>, offers: seq<u16>, oks: seq<bool>, ticks: seq<u32>, v: Volumes, n: nat, i: nat)
    requires Run(states, offers, oks, ticks, v, n) && i <= |offers|
    requires forall x :: v(x) < LIMIT
    ensures TopN(states[i], Offered(offers[..i]), v, n)
  {
    hide TopN, Admits;
    if i == 0 {
      NobodyYet(v, n);
      assert Offered(offers[..0]) == {};
    } else {
      RunKeepsTopN(states, offers, oks, ticks, v, n, i - 1);
      AdmitKeepsTopN(states[i - 1], states[i], Offered(offers[..i - 1]), v, offers[i - 1], ticks[i - 1], n, oks[i - 1]);
      assert offers[..i] == offers[..i - 1] + [offers[i - 1]];
      assert Offered(offers[..i]) == Offered(offers[..i - 1]) + {offers[i - 1]};
    }
  }

  /** What each offer finds is still fresh. */
  ghost predicate Lively(states: seq<set<NearEntry>>, ticks: seq<u32>) {
    |states| == |ticks| + 1
    && forall i :: 0 <= i < |ticks| ==> StillFresh(states[i], ticks[i])
  }

  ghost predicate StillFresh(f: set<NearEntry>, now: u32) {
    forall e :: e in f ==> !Stale(e, now)
  }

  lemma NothingDropped(s: seq<NearEntry>, now: u32)
    requires StillFresh(Entries(s), now)
    ensures Fresh(s, now) == Entries(s)
  {
    assert forall e :: e in Entries(s) ==> !Stale(e, now);
  }

  /**
    Offering speakers to one listener, one after the other. The cap and the uniqueness hold whatever
    goes stale; when nothing does, this is a chain in the sense above, and a run if each speaker
    keeps one volume.
   */
  method OfferAll(offers: seq<u16>, vols: seq<real>, ticks: seq<u32>, n: nat)
    returns (s: seq<NearEntry>, oks: seq<bool>, ghost states: seq<set<NearEntry>>)
    requires |ticks| == |vols| == |offers|
    ensures |oks| == |offers| && |states| == |offers| + 1 && states[|offers|] == Entries(s)
    ensures UniqueSpeakers(s) && |s| <= n
    ensures Lively(states, ticks) ==> Chain(states, offers, vols, oks, ticks, n)
    ensures forall v: Volumes ::
              Lively(states, ticks) && (forall i :: 0 <= i < |offers| ==> vols[i] == v(offers[i]))
              ==> Run(states, offers, oks, ticks, v, n)
  {
    hide Admits, UniqueSpeakers, Entries, Fresh, StillFresh;
    EmptySet();
    s, oks, states := [], [], [{}];
    for k := 0 to |offers|
      invariant |oks| == k && |states| == k + 1 && states[0] == {} && states[k] == Entries(s)
      invariant UniqueSpeakers(s) && |s| <= n
      invariant forall i :: 0 <= i < k && StillFresh(states[i], ticks[i]) ==>
                  Admits(states[i], states[i + 1], offers[i], vols[i], ticks[i], n, oks[i])
    {
      ghost var was := s;
      var ok;
      s, ok := NearestAdmit(s, offers[k], vols[k], ticks[k], n);
      if StillFresh(Entries(was), ticks[k]) {
        NothingDropped(was, ticks[k]);
      }
      oks, states := oks + [ok], states + [Entries(s)];
    }
    forall v: Volumes | Lively(states, ticks) && forall i :: 0 <= i < |offers| ==> vols[i] == v(offers[i])
      ensures Run(states, offers, oks, ticks, v, n)
    {
      ChainIsRun(states, offers, vols, oks, ticks, v, n);
    }
  }

  lemma EmptySet()
    ensures Entries([]) == {} && UniqueSpeakers([])
  {
  }

  lemma NobodyYet(v: Volumes, n: nat)
    ensures TopN({}, {}, v, n)
  {
  }

  /**
    After one full round, whoever is offered next and in whatever order, exactly the loudest `n`
    are forwarded, and the set does not change any more.
   */
  lemma {:induction false} SettledRun(
      states: seq<set<NearEntry>>, offers: seq<u16>, oks: seq<bool>, ticks: seq<u32>, v: Volumes, n: nat,
      round: nat, i: nat)
    requires Run(states, offers, oks, ticks, v, n) && round <= i <= |offers|
    requires forall x :: v(x) < LIMIT
    requires Offered(offers) == Offered(offers[..round])
    ensures SpeakersOf(states[i]) == SpeakersOf(states[round])
    ensures TopN(states[i], Offered(offers), v, n)
    ensures i < |offers| ==> (oks[i] <==> offers[i] in SpeakersOf(states[round]))
  {
    hide TopN, Admits;
    if i == round {
      RunKeepsTopN(states, offers, oks, ticks, v, n, round);
    } else {
      SettledRun(states, offers, oks, ticks, v, n, round, i - 1);
      SettledAdmission(states[i - 1], states[i], Offered(offers), v, offers[i - 1], ticks[i - 1], n, oks[i - 1]);
    }
    if i < |offers| {
      SettledAdmission(states[i], states[i + 1], Offered(offers), v, offers[i], ticks[i], n, oks[i]);
    }
  }
}
