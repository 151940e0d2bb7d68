/** How the bus packets of each listener and channel are numbered, over whole runs of the engine. */
module BusNumbers {
  import opened Ints
  import opened Registry
  import opened BusRouter
  import opened Engine

  /** The numbers of the packets among these that go to the listener on the channel. */
  function NosOf(ps: seq<BusDown>, l: u16, cid: u16): seq<u16> {
    if ps == [] then []
    else (if ps[0].to == l && ps[0].channel == cid then [ps[0].seqNo] else []) + NosOf(ps[1..], l, cid)
  }

  /** Does the input make the relay forget the pair: the listener leaves, or the channel is destroyed? */
  predicate Forgets(i: Input, l: u16, cid: u16) {
    i.Control? && i.c.Chan? && ((i.c.op.Gone? && i.c.op.pid == l) || (i.c.op.Destroy? && i.c.op.id == cid))
  }

  /** The numbers sent to the pair since it was last forgotten. */
  function NosSince(inputs: seq<Input>, news: seq<seq<Burst>>, l: u16, cid: u16): seq<u16>
    requires |news| == |inputs|
  {
    if inputs == [] then []
    else
      var n := |inputs| - 1;
      (if Forgets(inputs[n], l, cid) then [] else NosSince(inputs[..n], news[..n], l, cid))
      + NosOf(PacketsOf(news[n]), l, cid)
  }

  /** The numbers count up from one, and the table holds how far they got. */
  ghost predicate Counts(nos: seq<u16>, seqs: map<u32, u16>, k: u32) {
    && (forall j :: 0 <= j < |nos| ==> nos[j] == (j + 1) % 0x1_0000)
    && LastNo(seqs, k) == |nos| % 0x1_0000
  }

  lemma CountsMore(nos: seq<u16>, seqs: map<u32, u16>, p: BusDown, l: u16, cid: u16)
    requires Counts(nos, seqs, Key2(l, cid)) && p.seqNo == Inc16(LastNo(seqs, PairOf(p)))
    ensures Counts(nos + (if p.to == l && p.channel == cid then [p.seqNo] else []), seqs[PairOf(p) := p.seqNo],
                   Key2(l, cid))
  {
    Key2Halves(l, cid);
    Key2Halves(p.to, p.channel);
    assert PairOf(p) == Key2(l, cid) <==> p.to == l && p.channel == cid;
    hide Key2, High, Low;
    assert nos + [] == nos;
  }

  lemma {:induction false} PacketsCount(
      nos: seq<u16>, seqs: map<u32, u16>, seqs': map<u32, u16>, ps: seq<BusDown>, l: u16, cid: u16)
    requires Counts(nos, seqs, Key2(l, cid)) && Numbers(seqs, seqs', ps)
    ensures Counts(nos + NosOf(ps, l, cid), seqs', Key2(l, cid))
    decreases |ps|
  {
    if ps == [] {
      assert nos + [] == nos;
    } else {
      hide Counts, Key2, PairOf, LastNo;
      var first := if ps[0].to == l && ps[0].channel == cid then [ps[0].seqNo] else [];
      CountsMore(nos, seqs, ps[0], l, cid);
      PacketsCount(nos + first, seqs[PairOf(ps[0]) := ps[0].seqNo], seqs', ps[1..], l, cid);
      assert nos + NosOf(ps, l, cid) == nos + first + NosOf(ps[1..], l, cid);
    }
  }

  /** Forgetting starts the pair's count again and leaves the other pairs alone. */
  lemma PruneCounts(nos: seq<u16>, seqs: map<u32, u16>, i: Input, l: u16, cid: u16)
    requires Counts(nos, seqs, Key2(l, cid))
    ensures Counts(if Forgets(i, l, cid) then [] else nos, PrunedBy(seqs, i), Key2(l, cid))
  {
    Key2Halves(l, cid);
    hide Key2, High, Low;
  }

  /** The tables between the inputs hold the counts. */
  lemma {:induction false} TablesCount(
      inputs: seq<Input>, news: seq<seq<Burst>>, tables: seq<map<u32, u16>>, l: u16, cid: u16)
    requires Chained(inputs, news, tables)
    ensures Counts(NosSince(inputs, news, l, cid), tables[|inputs|], Key2(l, cid))
  {
    hide Counts, Numbers, PrunedBy, Forgets, NosOf;
    if inputs == [] {
      NothingSent(Key2(l, cid));
    } else {
      var n := |inputs| - 1;
      assert Chained(inputs[..n], news[..n], tables[..n + 1]);
      TablesCount(inputs[..n], news[..n], tables[..n + 1], l, cid);
      var before := NosSince(inputs[..n], news[..n], l, cid);
      PruneCounts(before, tables[n], inputs[n], l, cid);
      assert StepNumbers(tables[n], inputs[n], tables[n + 1], news[n]);
      PacketsCount(if Forgets(inputs[n], l, cid) then [] else before, PrunedBy(tables[n], inputs[n]), tables[n + 1],
                   PacketsOf(news[n]), l, cid);
    }
  }

  lemma NothingSent(k: u32)
    ensures Counts([], map[], k)
  {
  }

  /**
    In every run the packets of each listener on each channel, beeps included, are numbered
    1, 2, 3 and so on modulo 2^16, from when the listener last left or the channel was last
    destroyed: none is skipped and none given twice before the wrap.
   */
  lemma NumberedInTurn(
      inputs: seq<Input>, news: seq<seq<Burst>>, tables: seq<map<u32, u16>>, l: u16, cid: u16, j: nat)
    requires Chained(inputs, news, tables) && j < |NosSince(inputs, news, l, cid)|
    ensures NosSince(inputs, news, l, cid)[j] == (j + 1) % 0x1_0000
  {
    hide Chained, NosSince;
    TablesCount(inputs, news, tables, l, cid);
  }
}
