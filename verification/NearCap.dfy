/** How many speakers the nearest-N cap lets through to one listener: core/src/engine.cpp. */
module NearCap {
  import opened Common
  import opened Ints
  import opened NearSet

  /** The distinct speakers forwarded in a run of offers. */
  ghost function Forwarded(offers: seq<u16>, oks: seq<bool>): set<u16>
    requires |oks| == |offers|
  {
    if offers == [] then {}
    else
      var n := |offers| - 1;
      Forwarded(offers[..n], oks[..n]) + (if oks[n] then {offers[n]} else {})
  }

  /** The set is full of others, one of them weaker than the newcomer; known before the offer. */
  ghost predicate Trades(f: set<NearEntry>, speaker: u16, vol: real, n: nat) {
    !Heard(f, speaker) && |f| >= n && exists w :: Weakest(f, w) && w.volume < vol
  }

  ghost predicate OneEach(f: set<NearEntry>) {
    forall e, e' :: e in f && e' in f && e.speaker == e'.speaker ==> e == e'
  }

  lemma ReplaceSpeaker(f: set<NearEntry>, e: NearEntry, entry: NearEntry)
    requires OneEach(f) && e in f && (e.speaker == entry.speaker || !Heard(f, entry.speaker))
    ensures OneEach(f - {e} + {entry}) && |f - {e} + {entry}| == |f|
    ensures e.speaker == entry.speaker ==> SpeakersOf(f - {e} + {entry}) == SpeakersOf(f)
  {
    var f' := f - {e} + {entry};
    assert entry !in f - {e};
    if e.speaker == entry.speaker {
      forall x ensures x in SpeakersOf(f') <==> x in SpeakersOf(f) {
        if x in SpeakersOf(f) && x != e.speaker {
          var y :| y in f && y.speaker == x;
          assert y in f';
        }
        if x == e.speaker {
          assert entry in f' && e in f;
        }
      }
    }
  }

  lemma AddSpeaker(f: set<NearEntry>, entry: NearEntry)
    requires OneEach(f) && !Heard(f, entry.speaker)
    ensures OneEach(f + {entry}) && |f + {entry}| == |f| + 1
    ensures SpeakersOf(f + {entry}) == SpeakersOf(f) + {entry.speaker}
  {
    assert entry !in f;
    forall x ensures x in SpeakersOf(f + {entry}) <==> x in SpeakersOf(f) + {entry.speaker} {
      if x == entry.speaker {
        assert entry in f + {entry};
      } else if x in SpeakersOf(f) {
        var y :| y in f && y.speaker == x;
        assert y in f + {entry};
      }
    }
  }

  /** One offer: the listener's set keeps one entry a speaker, and without a trade it only grows. */
  lemma OfferEffect(
      f: set<NearEntry>, f': set<NearEntry>, speaker: u16, vol: real, now: u32, n: nat, ok: bool)
    requires Admits(f, f', speaker, vol, now, n, ok) && OneEach(f) && |f| <= n
    ensures OneEach(f') && |f'| <= n
    ensures !Trades(f, speaker, vol, n) ==> SpeakersOf(f') == SpeakersOf(f) + (if ok then {speaker} else {})
    ensures Trades(f, speaker, vol, n) ==> ok && speaker !in SpeakersOf(f) && |f| == n
  {
    var entry := NearEntry(speaker, vol, now);
    AdmittedIff(f, f', speaker, vol, now, n, ok);
    if Heard(f, speaker) {
      var e :| e in f && e.speaker == speaker && f' == f - {e} + {entry};
      ReplaceSpeaker(f, e, entry);
      assert speaker in SpeakersOf(f);
    } else if |f| < n {
      AddSpeaker(f, entry);
    } else if ok {
      var w :| Weakest(f, w) && w.volume < vol && f' == f - {w} + {entry};
      ReplaceSpeaker(f, w, entry);
    }
  }

  lemma {:induction false} ChainSets(
      states: seq<set<NearEntry>>, offers: seq<u16>, vols: seq<real>, oks: seq<bool>, ticks: seq<u32>, n: nat, i: nat)
    requires Chain(states, offers, vols, oks, ticks, n) && i <= |offers|
    ensures OneEach(states[i]) && |states[i]| <= n
  {
    hide Admits, Trades, OneEach;
    if i == 0 {
      NoneYet();
    } else {
      ChainSets(states, offers, vols, oks, ticks, n, i - 1);
      OfferEffect(states[i - 1], states[i], offers[i - 1], vols[i - 1], ticks[i - 1], n, oks[i - 1]);
    }
  }

  lemma NoneYet()
    ensures OneEach({}) && SpeakersOf({}) == {}
  {
  }

  lemma ForwardedStep(offers: seq<u16>, oks: seq<bool>, i: nat)
    requires |oks| == |offers| && i < |offers|
    ensures Forwarded(offers[..i + 1], oks[..i + 1]) ==
            Forwarded(offers[..i], oks[..i]) + (if oks[i] then {offers[i]} else {})
  {
    assert offers[..i + 1][..i] == offers[..i] && oks[..i + 1][..i] == oks[..i];
  }

  /** As long as there is no trade, the set holds exactly those forwarded so far. */
  lemma {:induction false} HoldsForwarded(
      states: seq<set<NearEntry>>, offers: seq<u16>, vols: seq<real>, oks: seq<bool>, ticks: seq<u32>, n: nat, i: nat)
    requires Chain(states, offers, vols, oks, ticks, n) && i <= |offers|
    requires forall k :: 0 <= k < i ==> !Trades(states[k], offers[k], vols[k], n)
    ensures SpeakersOf(states[i]) == Forwarded(offers[..i], oks[..i])
    ensures |Forwarded(offers[..i], oks[..i])| == |states[i]| <= n
  {
    ChainSets(states, offers, vols, oks, ticks, n, i);
    SpeakersCount(states[i]);
    hide Admits, Trades, OneEach, SpeakersOf;
    if i == 0 {
      NoneYet();
    } else {
      HoldsForwarded(states, offers, vols, oks, ticks, n, i - 1);
      ChainSets(states, offers, vols, oks, ticks, n, i - 1);
      OfferEffect(states[i - 1], states[i], offers[i - 1], vols[i - 1], ticks[i - 1], n, oks[i - 1]);
      ForwardedStep(offers, oks, i - 1);
    }
  }

  lemma {:induction false} ForwardedGrows(offers: seq<u16>, oks: seq<bool>, i: nat, j: nat)
    requires |oks| == |offers| && i <= j <= |offers|
    ensures Forwarded(offers[..i], oks[..i]) <= Forwarded(offers[..j], oks[..j])
  {
    if i < j {
      ForwardedGrows(offers, oks, i, j - 1);
      ForwardedStep(offers, oks, j - 1);
    }
  }

  /**
    With nothing going stale, no more than `n` distinct speakers reach the listener in a run of
    offers if and only if no offer trades a weaker entry away.
   */
  lemma WithinCapIff(
      states: seq<set<NearEntry>>, offers: seq<u16>, vols: seq<real>, oks: seq<bool>, ticks: seq<u32>, n: nat)
    requires Chain(states, offers, vols, oks, ticks, n)
    ensures |Forwarded(offers, oks)| <= n <==>
            forall i :: 0 <= i < |offers| ==> !Trades(states[i], offers[i], vols[i], n)
  {
    hide Admits, Trades, OneEach;
    var m := |offers|;
    assert offers[..m] == offers && oks[..m] == oks;
    if forall i :: 0 <= i < m ==> !Trades(states[i], offers[i], vols[i], n) {
      HoldsForwarded(states, offers, vols, oks, ticks, n, m);
    } else {
      var k :| 0 <= k < m && Trades(states[k], offers[k], vols[k], n);
      var i := FirstTrade(states, offers, vols, n, k);
      HoldsForwarded(states, offers, vols, oks, ticks, n, i);
      ChainSets(states, offers, vols, oks, ticks, n, i);
      OfferEffect(states[i], states[i + 1], offers[i], vols[i], ticks[i], n, oks[i]);
      ForwardedStep(offers, oks, i);
      ForwardedGrows(offers, oks, i + 1, m);
      Subset(Forwarded(offers[..i + 1], oks[..i + 1]), Forwarded(offers, oks));
    }
  }

  lemma {:induction false} FirstTrade(
      states: seq<set<NearEntry>>, offers: seq<u16>, vols: seq<real>, n: nat, k: nat) returns (i: nat)
    requires k < |offers| == |vols| && |states| == |offers| + 1 && Trades(states[k], offers[k], vols[k], n)
    ensures i <= k && Trades(states[i], offers[i], vols[i], n)
    ensures forall j :: 0 <= j < i ==> !Trades(states[j], offers[j], vols[j], n)
  {
    hide Trades;
    i := 0;
    while !Trades(states[i], offers[i], vols[i], n)
      invariant i <= k && forall j :: 0 <= j < i ==> !Trades(states[j], offers[j], vols[j], n)
      decreases k - i
    {
      i := i + 1;
    }
  }

  // ---- the worst case ----

  ghost predicate Below(f: set<NearEntry>, vol: real) {
    forall e :: e in f ==> e.volume < vol
  }

  lemma RisingOffer(
      f: set<NearEntry>, f': set<NearEntry>, speaker: u16, vol: real, now: u32, n: nat, ok: bool, next: real)
    requires Admits(f, f', speaker, vol, now, n, ok) && Below(f, vol) && vol < next && vol < LIMIT && n > 0
    ensures ok && Below(f', next)
  {
    AdmittedIff(f, f', speaker, vol, now, n, ok);
    if !Heard(f, speaker) && |f| >= n {
      WeakestExists(f);
    }
  }

  /** Offers of rising volume are all forwarded, however many there are and whatever the cap. */
  lemma {:induction false} RisingAllForwarded(
      states: seq<set<NearEntry>>, offers: seq<u16>, vols: seq<real>, oks: seq<bool>, ticks: seq<u32>, n: nat, i: nat)
    requires Chain(states, offers, vols, oks, ticks, n) && n > 0 && i <= |offers|
    requires forall j, k :: 0 <= j < k < |offers| ==> vols[j] < vols[k]
    requires forall k :: 0 <= k < |offers| ==> vols[k] < LIMIT
    ensures forall k :: 0 <= k < i ==> oks[k]
    ensures Below(states[i], if i < |offers| then vols[i] else LIMIT)
  {
    hide Admits, Below;
    if i == 0 {
      NoneBelow(if |offers| > 0 then vols[0] else LIMIT);
    } else {
      RisingAllForwarded(states, offers, vols, oks, ticks, n, i - 1);
      RisingOffer(states[i - 1], states[i], offers[i - 1], vols[i - 1], ticks[i - 1], n, oks[i - 1],
                  if i < |offers| then vols[i] else LIMIT);
    }
  }

  lemma NoneBelow(vol: real)
    ensures Below({}, vol)
  {
  }

  /** Two speakers, the second louder, in one tick: a cap of one lets both through. */
  lemma TwoThroughOne()
    ensures var one, two := NearEntry(1, 0.25, 7), NearEntry(2, 0.5, 7);
            && Chain([{}, {one}, {two}], [1, 2], [0.25, 0.5], [true, true], [7, 7], 1)
            && |Forwarded([1, 2], [true, true])| == 2
  {
    var one, two := NearEntry(1, 0.25, 7), NearEntry(2, 0.5, 7);
    FirstOfTwo(one);
    SecondOfTwo(one, two);
    BothForwarded();
    hide Admits, Forwarded;
  }

  lemma FirstOfTwo(one: NearEntry)
    requires one == NearEntry(1, 0.25, 7)
    ensures Admits({}, {one}, 1, 0.25, 7, 1, true)
  {
    var none: set<NearEntry> := {};
    assert none + {one} == {one};
  }

  lemma SecondOfTwo(one: NearEntry, two: NearEntry)
    requires one == NearEntry(1, 0.25, 7) && two == NearEntry(2, 0.5, 7)
    ensures Admits({one}, {two}, 2, 0.5, 7, 1, true)
  {
    assert Weakest({one}, one) && {one} - {one} + {two} == {two};
    assert !Heard({one}, 2);
  }

  lemma BothForwarded()
    ensures |Forwarded([1, 2], [true, true])| == 2
  {
    assert [1, 2][..1] == [1] && [true, true][..1] == [true];
    assert Forwarded([1], [true]) == {1};
  }
}
