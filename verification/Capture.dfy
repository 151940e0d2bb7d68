/** Microphone capture: the decimator and the re-blocking loops of client/src/audio_capture.cpp. */
module Capture {
  import opened Ints

  const NTAPS := 33
  const RN_FRAME := 480
  const CAP_FRAME := 480

  /** One packet from the sound card. */
  datatype Packet = Packet(samples: seq<real>, silent: bool, micVolume: real)

  /** The samples of a packet as they enter the pipeline. */
  function Scaled(p: Packet): (r: seq<real>)
    ensures |r| == |p.samples|
  {
    seq(|p.samples|, i requires 0 <= i < |p.samples| => Level(p, i))
  }

  function Level(p: Packet, i: nat): real
    requires i < |p.samples|
  {
    if p.silent then 0.0 else p.samples[i] * p.micVolume
  }

  /** The whole microphone stream carried by a list of packets. */
  function Heard(packets: seq<Packet>): seq<real> {
    if packets == [] then []
    else Heard(packets[..|packets| - 1]) + Scaled(packets[|packets| - 1])
  }

  // ---- cutting a stream into frames ----

  function Concat(fs: seq<seq<real>>): seq<real> {
    if fs == [] then [] else Concat(fs[..|fs| - 1]) + fs[|fs| - 1]
  }

  /** `fs` are the consecutive `n`-sample frames of `s`, and less than one frame is pending. */
  ghost predicate Framed(s: seq<real>, n: nat, fs: seq<seq<real>>, pending: seq<real>) {
    && s == Concat(fs) + pending
    && (forall k :: 0 <= k < |fs| ==> |fs[k]| == n)
    && |pending| < n
  }

  lemma FramedPush(s: seq<real>, n: nat, fs: seq<seq<real>>, pending: seq<real>, x: real)
    requires Framed(s, n, fs, pending)
    ensures |pending| + 1 < n ==> Framed(s + [x], n, fs, pending + [x])
    ensures |pending| + 1 == n ==> Framed(s + [x], n, fs + [pending + [x]], [])
  {
    assert s + [x] == Concat(fs) + (pending + [x]);
    var g := fs + [pending + [x]];
    assert g[..|g| - 1] == fs;
    assert Concat(g) == Concat(fs) + (pending + [x]);
    assert Concat(g) + [] == Concat(g);
  }

  lemma {:induction false} ConcatLength(fs: seq<seq<real>>, n: nat)
    requires forall k :: 0 <= k < |fs| ==> |fs[k]| == n
    ensures |Concat(fs)| == |fs| * n
  {
    if fs != [] {
      ConcatLength(fs[..|fs| - 1], n);
      assert (|fs| - 1) * n + n == |fs| * n;
    }
  }

  /** There is only one way to cut a stream into frames. */
  lemma {:induction false} FramedUnique(
      s: seq<real>, n: nat, fs: seq<seq<real>>, p: seq<real>, gs: seq<seq<real>>, q: seq<real>)
    requires Framed(s, n, fs, p) && Framed(s, n, gs, q)
    ensures fs == gs && p == q
  {
    ConcatLength(fs, n);
    ConcatLength(gs, n);
    SameQuotient(n, |fs|, |p|, |gs|, |q|);
    assert Concat(fs) == s[..|Concat(fs)|] == Concat(gs);
    assert p == s[|Concat(fs)|..] == q;
    ConcatInjective(fs, gs, n);
  }

  lemma {:induction false} ConcatInjective(fs: seq<seq<real>>, gs: seq<seq<real>>, n: nat)
    requires |fs| == |gs| && Concat(fs) == Concat(gs)
    requires forall k :: 0 <= k < |fs| ==> |fs[k]| == n && |gs[k]| == n
    ensures fs == gs
  {
    if fs != [] {
      var m := |fs| - 1;
      ConcatLength(fs[..m], n);
      ConcatLength(gs[..m], n);
      var cut := |Concat(fs[..m])|;
      assert Concat(fs)[..cut] == Concat(fs[..m]) && Concat(gs)[..cut] == Concat(gs[..m]);
      assert Concat(fs)[cut..] == fs[m] && Concat(gs)[cut..] == gs[m];
      ConcatInjective(fs[..m], gs[..m], n);
      assert fs == fs[..m] + [fs[m]] && gs == gs[..m] + [gs[m]];
    }
  }

  // ---- the filter ----

  /** A signal is silent before it starts. */
  function Tap(s: seq<real>, i: int): real {
    if 0 <= i < |s| then s[i] else 0.0
  }

  /** The first `k` products of the filter sum at position `i`. */
  function Acc(h: seq<real>, s: seq<real>, i: int, k: nat): real
    requires k <= |h|
  {
    if k == 0 then 0.0 else Acc(h, s, i, k - 1) + h[k - 1] * Tap(s, i - (k - 1))
  }

  /** Filtering the whole signal at once and keeping every other sample. */
  function Decimated(h: seq<real>, s: seq<real>): (r: seq<real>)
    ensures |r| == |s| / 2
  {
    seq(|s| / 2, j => Acc(h, s, 2 * j, |h|))
  }

  /** The filter looks backwards only. */
  lemma {:induction false} AccCausal(h: seq<real>, a: seq<real>, b: seq<real>, i: int, k: nat)
    requires k <= |h| && i < |a|
    ensures Acc(h, a + b, i, k) == Acc(h, a, i, k)
  {
    if k > 0 {
      AccCausal(h, a, b, i, k - 1);
    }
  }

  lemma DecimatedExtends(h: seq<real>, a: seq<real>, b: seq<real>)
    requires |a| % 2 == 0
    ensures |Decimated(h, a + b)| == |a| / 2 + |b| / 2
    ensures forall j :: 0 <= j < |a| / 2 ==> Decimated(h, a + b)[j] == Decimated(h, a)[j]
    ensures forall j :: 0 <= j < |b| / 2 ==>
              Decimated(h, a + b)[|a| / 2 + j] == Acc(h, a + b, |a| + 2 * j, |h|)
  {
    forall j | 0 <= j < |a| / 2 ensures Decimated(h, a + b)[j] == Decimated(h, a)[j] {
      AccCausal(h, a, b, 2 * j, |h|);
    }
  }

  /** A single click comes out as the filter's coefficients, every other one of them. */
  lemma {:induction false} AccImpulse(h: seq<real>, s: seq<real>, p: nat, i: int, k: nat)
    requires k <= |h| && p < |s| && forall x :: 0 <= x < |s| ==> s[x] == if x == p then 1.0 else 0.0
    ensures Acc(h, s, i, k) == if 0 <= i - p < k then h[i - p] else 0.0
  {
    if k > 0 {
      AccImpulse(h, s, p, i, k - 1);
    }
  }

  lemma ClickResponse(h: seq<real>, s: seq<real>, p: nat, j: nat)
    requires j < |s| / 2 && p < |s| && forall x :: 0 <= x < |s| ==> s[x] == if x == p then 1.0 else 0.0
    ensures Decimated(h, s)[j] == if 0 <= 2 * j - p < |h| then h[2 * j - p] else 0.0
  {
    AccImpulse(h, s, p, 2 * j, |h|);
  }

  lemma Spread(h: real, a: real, b: real, c: real)
    ensures h * (c * a + b) == c * (h * a) + h * b
  {
  }

  /** And the filter is linear, so the coefficients say all. */
  lemma {:induction false} AccLinear(h: seq<real>, a: seq<real>, b: seq<real>, s: seq<real>, c: real, i: int, k: nat)
    requires k <= |h| && |a| == |b| == |s| && forall x :: 0 <= x < |s| ==> s[x] == c * a[x] + b[x]
    ensures Acc(h, s, i, k) == c * Acc(h, a, i, k) + Acc(h, b, i, k)
  {
    if k > 0 {
      AccLinear(h, a, b, s, c, i, k - 1);
      Spread(h[k - 1], Tap(a, i - (k - 1)), Tap(b, i - (k - 1)), c);
      Distribute(c, Acc(h, a, i, k - 1), h[k - 1] * Tap(a, i - (k - 1)));
    }
  }

  lemma Distribute(c: real, x: real, y: real)
    ensures c * (x + y) == c * x + c * y
  {
  }

  class Decimator2 {
    const h: seq<real>
    const hist: array<real>
    ghost var past: seq<real>   // everything filtered so far

    ghost predicate Valid()
      reads this, hist
    {
      && |h| == NTAPS && hist.Length == NTAPS - 1 && |past| % 2 == 0
      && forall k :: 0 <= k < NTAPS - 1 ==> hist[k] == Tap(past, |past| - 1 - k)
    }

    constructor (h: seq<real>)
      requires |h| == NTAPS
      ensures Valid() && fresh(hist) && this.h == h && past == []
    {
      this.h, past := h, [];
      hist := new real[NTAPS - 1](_ => 0.0);
    }

    /** A sample of the current block, or of the history when the index is negative. */
    function At(input: array<real>, i: int): real
      requires hist.Length == NTAPS - 1 && -(NTAPS - 1) <= i < input.Length
      reads this, hist, input
    {
      if i >= 0 then input[i] else hist[-i - 1]
    }

    /** One output sample: the history stands in for what precedes the block. */
    method FilterAt(input: array<real>, n0: nat) returns (acc: real)
      requires Valid() && n0 < input.Length
      ensures acc == Acc(h, past + input[..], |past| + n0, NTAPS)
    {
      ghost var whole := past + input[..];
      acc := 0.0;
      var k := 0;
      while k < NTAPS
        invariant 0 <= k <= NTAPS
        invariant acc == Acc(h, whole, |past| + n0, k)
      {
        assert At(input, n0 - k) == Tap(whole, |past| + n0 - k);
        acc := acc + h[k] * At(input, n0 - k);
        k := k + 1;
      }
    }

    /** Keeps the last samples of the block, most recent first. */
    method Refill(input: array<real>)
      requires Valid() && input != hist && input.Length % 2 == 0 && input.Length >= NTAPS - 1
      modifies hist, this`past
      ensures Valid() && past == old(past) + input[..]
    {
      var n := input.Length;
      var k := 0;
      while k < NTAPS - 1
        invariant 0 <= k <= NTAPS - 1
        invariant forall m :: 0 <= m < k ==> hist[m] == input[n - 1 - m]
        invariant past == old(past)
      {
        hist[k] := input[n - 1 - k];
        k := k + 1;
      }
      past := past + input[..];
    }

    /**
      Filtering block by block continues the filtering of the whole signal. Blocks are even, and
      long enough to refill the history.
     */
    method Process(input: array<real>, output: array<real>)
      requires Valid() && input != hist && output != hist && input != output
      requires input.Length % 2 == 0 && input.Length >= NTAPS - 1
      requires output.Length == input.Length / 2
      modifies hist, output, this`past
      ensures Valid() && past == old(past) + input[..]
      ensures Decimated(h, past) == Decimated(h, old(past)) + output[..]
    {
      hide Acc, Tap;
      ghost var whole := past + input[..];
      var j := 0;
      while j < input.Length / 2
        invariant 0 <= j <= input.Length / 2
        invariant Valid() && past == old(past)
        invariant forall m :: 0 <= m < j ==> output[m] == Acc(h, whole, |past| + 2 * m, NTAPS)
      {
        output[j] := FilterAt(input, 2 * j);
        j := j + 1;
      }
      DecimatedExtends(h, past, input[..]);
      Refill(input);
      assert Decimated(h, past) == Decimated(h, old(past)) + output[..];
    }
  }

  // ---- the 24 kHz build ----

  /** The build without noise suppression: packets are cut straight into frames. */
  class DirectCapture {
    const pcm: array<real>
    var have: nat
    var frames: seq<seq<real>>   // the finished frames, in order
    ghost var heard: seq<real>

    ghost predicate Valid()
      reads this, pcm
    {
      pcm.Length == CAP_FRAME && have < CAP_FRAME && Framed(heard, CAP_FRAME, frames, pcm[..have])
    }

    constructor ()
      ensures Valid() && fresh(pcm) && heard == []
    {
      pcm := new real[CAP_FRAME];
      have, frames, heard := 0, [], [];
    }

    method Feed(p: Packet)
      requires Valid()
      modifies this, pcm
      ensures Valid() && heard == old(heard) + Scaled(p)
    {
      hide Framed, Scaled;
      var idx, nin := 0, |p.samples|;
      ghost var all := Scaled(p);
      while nin > 0
        invariant 0 <= nin && idx + nin == |p.samples|
        invariant Valid() && heard == old(heard) + all[..idx]
        decreases nin
      {
        var take := if nin < CAP_FRAME - have then nin else CAP_FRAME - have;
        TakePart(p, idx, take);
        assert all[..idx + take] == all[..idx] + all[idx..idx + take];
        idx, nin := idx + take, nin - take;
      }
      assert all[..idx] == all;
    }

    /** Part of a packet, no more than the pending frame has room for. */
    method TakePart(p: Packet, idx: nat, take: nat)
      requires Valid() && 0 < take <= CAP_FRAME - have && idx + take <= |p.samples|
      modifies this, pcm
      ensures Valid() && heard == old(heard) + Scaled(p)[idx..idx + take]
    {
      hide Framed, Concat, Scaled;
      ghost var part := Scaled(p)[idx..idx + take];
      FramedExtend(heard, CAP_FRAME, frames, pcm[..have], part);
      Copy(p, idx, take);
      assert pcm[..have + take] == old(pcm[..have]) + part;
      heard := heard + part;
      have := have + take;
      if have >= CAP_FRAME {
        assert pcm[..have] == pcm[..];
        frames := frames + [pcm[..]];
        have := 0;
        assert pcm[..have] == [];
      }
    }

    /** Copies the next samples behind those already pending. */
    method Copy(p: Packet, idx: nat, take: nat)
      requires pcm.Length == CAP_FRAME && have + take <= CAP_FRAME && idx + take <= |p.samples|
      modifies pcm
      ensures pcm[..have] == old(pcm[..have])
      ensures pcm[have..have + take] == Scaled(p)[idx..idx + take]
    {
      hide Scaled;
      ghost var part := Scaled(p)[idx..idx + take];
      var i := 0;
      while i < take
        invariant 0 <= i <= take
        invariant pcm[..have] == old(pcm[..have]) && pcm[have..have + i] == part[..i]
      {
        var x := if p.silent then 0.0 else p.samples[idx + i] * p.micVolume;
        ScaledAt(p, idx + i);
        pcm[have + i] := x;
        assert part[i] == Scaled(p)[idx + i];
        assert part[i] == x;
        assert part[..i + 1] == part[..i] + [part[i]];
        assert pcm[have..have + (i + 1)] == pcm[have..have + i] + [x];
        i := i + 1;
      }
      assert part[..take] == part;
    }
  }

  lemma ScaledAt(p: Packet, i: nat)
    requires i < |p.samples|
    ensures Scaled(p)[i] == if p.silent then 0.0 else p.samples[i] * p.micVolume
  {
  }

  lemma FramedExtend(s: seq<real>, n: nat, fs: seq<seq<real>>, pending: seq<real>, more: seq<real>)
    requires Framed(s, n, fs, pending)
    ensures |pending| + |more| < n ==> Framed(s + more, n, fs, pending + more)
    ensures |pending| + |more| == n ==> Framed(s + more, n, fs + [pending + more], [])
  {
    assert s + more == Concat(fs) + (pending + more);
    var g := fs + [pending + more];
    assert g[..|g| - 1] == fs;
    assert Concat(g) + [] == Concat(fs) + (pending + more);
  }

  /** Captures every packet in turn. */
  method CaptureDirect(packets: seq<Packet>) returns (frames: seq<seq<real>>, pending: seq<real>)
    ensures Framed(Heard(packets), 480, frames, pending)
  {
    var c := new DirectCapture();
    for n := 0 to |packets|
      invariant fresh(c) && fresh(c.pcm) && c.Valid() && c.heard == Heard(packets[..n])
    {
      c.Feed(packets[n]);
      assert packets[..n + 1][..n] == packets[..n];
    }
    assert packets[..|packets|] == packets;
    frames, pending := c.frames, c.pcm[..c.have];
  }

  /** The frames do not depend on how the sound card cut the stream into packets. */
  lemma PacketisationIrrelevant(
      a: seq<Packet>, b: seq<Packet>, n: nat,
      fs: seq<seq<real>>, p: seq<real>, gs: seq<seq<real>>, q: seq<real>)
    requires Heard(a) == Heard(b)
    requires Framed(Heard(a), n, fs, p) && Framed(Heard(b), n, gs, q)
    ensures fs == gs && p == q
  {
    FramedUnique(Heard(a), n, fs, p, gs, q);
  }

  // ---- the 48 kHz build with noise suppression ----

  /** Noise suppression may depend on every raw block up to the one it returns. */
  type Denoiser = seq<seq<real>> -> seq<real>

  ghost predicate KeepsLength(d: Denoiser) {
    forall raw :: |d(raw)| == RN_FRAME
  }

  /** The cleaned 48 kHz signal. */
  function Clean(d: Denoiser, raw: seq<seq<real>>): seq<real> {
    if raw == [] then [] else Clean(d, raw[..|raw| - 1]) + d(raw)
  }

  class DenoisedCapture {
    const h: seq<real>
    const d: Denoiser
    const rn48: array<real>
    const dec24: array<real>
    const pcm: array<real>
    const decim: Decimator2
    var rnHave: nat
    var have: nat
    var frames: seq<seq<real>>
    var raw: seq<seq<real>>   // the whole 10 ms blocks heard so far: the suppressor's memory
    ghost var heard: seq<real>

    ghost predicate Shaped()
      reads this, decim
    {
      && KeepsLength(d) && decim.h == h
      && rn48.Length == RN_FRAME && dec24.Length == RN_FRAME / 2 && pcm.Length == CAP_FRAME
      && rn48 != dec24 && rn48 != pcm && dec24 != pcm
      && decim.hist != rn48 && decim.hist != dec24 && decim.hist != pcm
    }

    /** The finished frames cut the decimated clean signal. */
    ghost predicate Output()
      reads this, decim, decim.hist, pcm
    {
      && decim.Valid() && have < CAP_FRAME <= pcm.Length
      && Framed(Decimated(h, decim.past), CAP_FRAME, frames, pcm[..have])
    }

    ghost predicate Valid()
      reads this, decim, decim.hist, rn48, pcm
    {
      && Shaped() && Output()
      && rnHave < RN_FRAME && Framed(heard, RN_FRAME, raw, rn48[..rnHave])
      && decim.past == Clean(d, raw)
    }

    constructor (h: seq<real>, d: Denoiser)
      requires |h| == NTAPS && KeepsLength(d)
      ensures Valid() && fresh(decim) && fresh(decim.hist) && fresh({rn48, dec24, pcm})
      ensures heard == [] && this.h == h && this.d == d
    {
      this.h, this.d := h, d;
      rn48 := new real[RN_FRAME];
      dec24 := new real[RN_FRAME / 2];
      pcm := new real[CAP_FRAME];
      decim := new Decimator2(h);
      rnHave, have, frames, heard, raw := 0, 0, [], [], [];
    }

    method Feed(p: Packet)
      requires Valid()
      modifies this, decim, decim.hist, rn48, dec24, pcm
      ensures Valid() && heard == old(heard) + Scaled(p)
    {
      hide Concat, Clean, Decimated;
      ghost var all := Scaled(p);
      for s := 0 to |p.samples|
        invariant Valid() && heard == old(heard) + all[..s]
      {
        var x := if p.silent then 0.0 else p.samples[s] * p.micVolume;
        assert x == all[s] && all[..s + 1] == all[..s] + [x];
        TakeSample(x);
        assert old(heard) + all[..s] + [x] == old(heard) + (all[..s] + [x]);
      }
      assert all[..|p.samples|] == all;
    }

    method TakeSample(x: real)
      requires Valid()
      modifies this, decim, decim.hist, rn48, dec24, pcm
      ensures Valid() && heard == old(heard) + [x]
    {
      hide Concat, Clean, Decimated;
      FramedPush(heard, RN_FRAME, raw, rn48[..rnHave], x);
      ghost var pending := rn48[..rnHave] + [x];
      rn48[rnHave] := x;
      assert rn48[..rnHave + 1] == pending;
      rnHave := rnHave + 1;
      heard := heard + [x];
      if rnHave >= RN_FRAME {
        rnHave := 0;
        assert rn48[..] == pending && rn48[..rnHave] == [];
        raw := raw + [rn48[..]];
        FinishBlock();
      }
    }

    /** Suppresses noise in the full block, decimates it, and re-blocks the result. */
    method FinishBlock()
      requires Shaped() && Output() && rnHave == 0 && Framed(heard, RN_FRAME, raw, [])
      requires raw != [] && decim.past == Clean(d, raw[..|raw| - 1])
      modifies this`have, this`frames, decim, decim.hist, rn48, dec24, pcm
      ensures Valid()
    {
      hide Concat, Decimated;
      ghost var was := decim.past;
      for k := 0 to RN_FRAME
        invariant forall m :: 0 <= m < k ==> rn48[m] == d(raw)[m]
        invariant Shaped() && Output() && decim.past == was
      {
        rn48[k] := Denoised(k);
      }
      assert rn48[..] == d(raw);
      decim.Process(rn48, dec24);
      assert decim.past == Clean(d, raw);
      Reblock(Decimated(h, was));
      assert rn48[..0] == [];
    }

    /** Sample `k` of the suppressed block, as the library writes it back. */
    function Denoised(k: nat): real
      requires k < RN_FRAME && KeepsLength(d)
      reads this
    {
      d(raw)[k]
    }

    method Reblock(ghost sig: seq<real>)
      requires Shaped() && have < CAP_FRAME && Framed(sig, CAP_FRAME, frames, pcm[..have])
      modifies this`have, this`frames, pcm
      ensures have < CAP_FRAME
      ensures Framed(sig + dec24[..], CAP_FRAME, frames, pcm[..have])
    {
      hide Concat;
      for k := 0 to RN_FRAME / 2
        invariant have < CAP_FRAME && Framed(sig + dec24[..k], CAP_FRAME, frames, pcm[..have])
      {
        FramedPush(sig + dec24[..k], CAP_FRAME, frames, pcm[..have], dec24[k]);
        assert sig + dec24[..k] + [dec24[k]] == sig + dec24[..k + 1];
        ghost var pending := pcm[..have] + [dec24[k]];
        pcm[have] := dec24[k];
        assert pcm[..have + 1] == pending;
        have := have + 1;
        if have >= CAP_FRAME {
          assert pcm[..] == pending;
          frames := frames + [pcm[..]];
          have := 0;
          assert pcm[..have] == [];
        }
      }
      assert dec24[..RN_FRAME / 2] == dec24[..];
    }
  }

  /** The cut of the raw stream and of the decimated clean signal that a run leaves behind. */
  ghost predicate Denoises(
      h: seq<real>, d: Denoiser, heard: seq<real>,
      raw: seq<seq<real>>, rest: seq<real>, frames: seq<seq<real>>, pending: seq<real>)
  {
    && Framed(heard, RN_FRAME, raw, rest)
    && Framed(Decimated(h, Clean(d, raw)), CAP_FRAME, frames, pending)
  }

  /** Captures every packet in turn, with noise suppression. */
  method CaptureDenoised(h: seq<real>, d: Denoiser, packets: seq<Packet>)
    returns (raw: seq<seq<real>>, rest: seq<real>, frames: seq<seq<real>>, pending: seq<real>)
    requires |h| == NTAPS && KeepsLength(d)
    ensures Denoises(h, d, Heard(packets), raw, rest, frames, pending)
  {
    hide Framed, Clean, Decimated;
    var c := new DenoisedCapture(h, d);
    for n := 0 to |packets|
      invariant fresh(c) && fresh({c.decim, c.decim.hist, c.rn48, c.dec24, c.pcm})
      invariant c.h == h && c.d == d && c.Valid() && c.heard == Heard(packets[..n])
    {
      c.Feed(packets[n]);
      assert packets[..n + 1][..n] == packets[..n];
    }
    assert packets[..|packets|] == packets;
    raw, rest, frames, pending := c.raw, c.rn48[..c.rnHave], c.frames, c.pcm[..c.have];
  }

  /** With noise suppression too, frames depend on the stream alone, not on its packets. */
  lemma DenoisedPacketisationIrrelevant(
      h: seq<real>, d: Denoiser, a: seq<Packet>, b: seq<Packet>,
      raw: seq<seq<real>>, rest: seq<real>, fs: seq<seq<real>>, p: seq<real>,
      raw': seq<seq<real>>, rest': seq<real>, gs: seq<seq<real>>, q: seq<real>)
    requires Heard(a) == Heard(b)
    requires Denoises(h, d, Heard(a), raw, rest, fs, p) && Denoises(h, d, Heard(b), raw', rest', gs, q)
    ensures fs == gs && p == q
  {
    FramedUnique(Heard(a), RN_FRAME, raw, rest, raw', rest');
    FramedUnique(Decimated(h, Clean(d, raw)), CAP_FRAME, fs, p, gs, q);
  }
}
