/** Channel bits of a key mask: `chanBit` of core/include/bus_router.h and its use in core/src/bus_router.cpp. */
module KeyMask {
  import opened Ints
  import opened Registry
  import opened BusRouter

  lemma {:induction false} PowerSplits(a: nat, b: nat)
    ensures Pow2(a + b) == Pow2(a) * Pow2(b)
  {
    if b > 0 {
      PowerSplits(a, b - 1);
      assert Pow2(a) * (2 * Pow2(b - 1)) == 2 * (Pow2(a) * Pow2(b - 1));
    }
  }

  lemma {:induction false} PowerGrows(a: nat, b: nat)
    requires a < b
    ensures Pow2(a) < Pow2(b)
  {
    if a < b - 1 {
      PowerGrows(a, b - 1);
    }
  }

  lemma Quotient(q: nat, d: nat)
    requires d > 0
    ensures q * d / d == q
  {
    var x := q * d;
    SameQuotient(d, q, 0, x / d, x % d);
  }

  lemma NoQuotient(x: nat, d: nat)
    requires x < d
    ensures x / d == 0
  {
    SameQuotient(d, 0, x, x / d, x % d);
  }

  /** A power of two has exactly one bit. */
  lemma OneBit(a: nat, b: nat)
    ensures Pow2(a) / Pow2(b) % 2 == 1 <==> a == b
  {
    var x, d := Pow2(a), Pow2(b);
    var q := if a < b then 0 else Pow2(a - b);
    assert x / d == q by {
      if a < b {
        PowerGrows(a, b);
        NoQuotient(x, d);
      } else {
        PowerSplits(a - b, b);
        Quotient(q, d);
      }
    }
    BitQuotient(a, b, x / d);
  }

  lemma BitQuotient(a: nat, b: nat, q: nat)
    requires q == if a < b then 0 else Pow2(a - b)
    ensures q % 2 == 1 <==> a == b
  {
    if a > b {
      assert Pow2(a - b) == 2 * Pow2(a - b - 1);
    }
  }

  lemma Pow32()
    ensures Pow2(32) == 0x1_0000_0000
  {
    assert Pow2(4) == 16;
    assert Pow2(8) == 256 by { PowerSplits(4, 4); }
    assert Pow2(16) == 0x1_0000 by { PowerSplits(8, 8); }
    PowerSplits(16, 16);
    hide Pow2;
  }

  lemma BitFits(a: nat)
    requires a < 32
    ensures Pow2(a) < 0x1_0000_0000
  {
    hide Pow2;
    PowerGrows(a, 32);
    Pow32();
  }

  /** The mask that names one channel. */
  function BitOf(cid: u16): u32 {
    BitFits(cid % 32);
    Pow2(cid % 32)
  }

  /** One bit keys exactly the channels with the same remainder by 32. */
  lemma BitKeysIff(cid: u16, d: u16)
    ensures Keyed(BitOf(cid), d) <==> d % 32 == cid % 32
  {
    OneBit(cid % 32, d % 32);
  }

  /**
    A player who keys one of their filtered channels by its bit keys that one alone, if and only if
    no other filtered channel of theirs has the same remainder by 32.
   */
  lemma KeysOneIff(sp: Player, cs: Channels, cid: u16)
    requires cid in sp.channels && cid in cs && cs[cid].filter != FILTER_NONE && sp.channelMask == BitOf(cid)
    ensures KeyedChannels(sp, cs) == {cid} <==>
            forall d :: d in sp.channels && d in cs && cs[d].filter != FILTER_NONE && d != cid ==> d % 32 != cid % 32
  {
    hide Keyed;
    assert BitOf(cid) != 0;
    forall d: u16 ensures Keyed(BitOf(cid), d) <==> d % 32 == cid % 32 {
      BitKeysIff(cid, d);
    }
    if KeyedChannels(sp, cs) == {cid} {
      forall d | d in sp.channels && d in cs && cs[d].filter != FILTER_NONE && d != cid ensures d % 32 != cid % 32 {
        assert d !in KeyedChannels(sp, cs);
      }
    }
  }
}
