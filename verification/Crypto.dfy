/** The sealed envelope of shared/crypto.cpp: [16 random | 8-byte counter | ciphertext | tag]. */
module Crypto {
  import opened Common
  import opened Ints

  type Bytes = seq<u8>

  const NONCE_BYTES := 24
  const PREFIX_BYTES := 16
  const COUNTER_BYTES := 8
  const MAC_BYTES := 16
  const OVERHEAD := NONCE_BYTES + MAC_BYTES

  /** The cipher: key, nonce and text in, text and tag out, and back. */
  datatype Aead = Aead(
    encrypt: (Bytes, Bytes, Bytes) -> Bytes,
    decrypt: (Bytes, Bytes, Bytes) -> Option<Bytes>)

  ghost predicate Sound(a: Aead) {
    && (forall k, n, m :: |a.encrypt(k, n, m)| == |m| + MAC_BYTES)
    && (forall k, n, m :: a.decrypt(k, n, a.encrypt(k, n, m)) == Some(m))
    && (forall k, n, c :: a.decrypt(k, n, c).Some? ==> |c| == |a.decrypt(k, n, c).value| + MAC_BYTES)
  }

  /** The build without libsodium: text in clear and a tag of zeros. */
  function PassThrough(): Aead {
    Aead((k, n, m) => m + seq(MAC_BYTES, _ => 0),
         (k, n, c) => if |c| < MAC_BYTES then None else Some(c[..|c| - MAC_BYTES]))
  }

  lemma PassThroughIsSound()
    ensures Sound(PassThrough())
  {
    var zeros: Bytes := seq(MAC_BYTES, _ => 0);
    forall m: Bytes ensures (m + zeros)[..|m|] == m {
    }
  }

  // ---- the counter in the nonce tail ----

  /** `c >> (8 * i)`. */
  function Shr(c: nat, i: nat): nat {
    if i == 0 then c else Shr(c, i - 1) / 256
  }

  /** `c << (8 * i)`. */
  function Shl(c: nat, i: nat): nat {
    if i == 0 then c else 256 * Shl(c, i - 1)
  }

  /** Byte `i` of the counter, least significant first. */
  function CounterByte(c: nat, i: nat): u8 {
    Shr(c, i) % 256
  }

  /** The counter in `n` bytes, most significant first. */
  function CounterBytes(c: nat, n: nat): (r: Bytes)
    ensures |r| == n
  {
    if n == 0 then [] else CounterBytes(c / 256, n - 1) + [c % 256]
  }

  /** The number a string of bytes spells, most significant first. */
  function BigEndian(s: Bytes): nat {
    if s == [] then 0 else 256 * BigEndian(s[..|s| - 1]) + s[|s| - 1]
  }

  lemma {:induction false} ShrInside(c: nat, i: nat)
    ensures Shr(c / 256, i) == Shr(c, i + 1)
  {
    if i > 0 {
      ShrInside(c, i - 1);
    }
  }

  lemma {:induction false} CounterBytesAt(c: nat, n: nat, j: nat)
    requires j < n
    ensures CounterBytes(c, n)[j] == CounterByte(c, n - 1 - j)
  {
    if j < n - 1 {
      CounterBytesAt(c / 256, n - 1, j);
      ShrInside(c, n - 2 - j);
    }
  }

  lemma {:induction false} SpellsItsBytes(c: nat, n: nat)
    requires Shr(c, n) == 0
    ensures BigEndian(CounterBytes(c, n)) == c
  {
    if n > 0 {
      ShrInside(c, n - 1);
      SpellsItsBytes(c / 256, n - 1);
      assert CounterBytes(c, n)[..n - 1] == CounterBytes(c / 256, n - 1);
    }
  }

  /** Reading from the least significant end adds shifted bytes. */
  lemma {:induction false} BigEndianHead(b: u8, tail: Bytes)
    ensures BigEndian([b] + tail) == Shl(b, |tail|) + BigEndian(tail)
  {
    var s := [b] + tail;
    if tail == [] {
      assert s == [b] && s[..0] == [];
    } else {
      var n := |tail| - 1;
      assert s[..|s| - 1] == [b] + tail[..n];
      BigEndianHead(b, tail[..n]);
    }
  }

  lemma {:induction false} BigEndianBound(s: Bytes)
    ensures BigEndian(s) < Shl(1, |s|)
  {
    if s != [] {
      BigEndianBound(s[..|s| - 1]);
    }
  }

  lemma {:induction false} ShrBound(c: nat, i: nat, n: nat)
    requires c < Shl(1, n) && i <= n
    ensures Shr(c, i) < Shl(1, n - i)
  {
    if i > 0 {
      ShrBound(c, i - 1, n);
      assert Shl(1, n - i + 1) == 256 * Shl(1, n - i);
    }
  }

  lemma EightBytes(c: u64)
    ensures Shr(c, 8) == 0 && Shl(1, 8) == 0x1_0000_0000_0000_0000
  {
    ShrBound(c, 8, 8);
    assert Shl(1, 4) == 0x1_0000_0000 && Shl(1, 6) == 0x1_0000_0000_0000;
  }

  // ---- envelopes ----

  /** The datagram that carries `plain` under `counter`. */
  function Wire(a: Aead, key: Bytes, prefix: Bytes, counter: u64, plain: Bytes): Bytes
    requires |prefix| == PREFIX_BYTES
  {
    var nonce := prefix + CounterBytes(counter, COUNTER_BYTES);
    nonce + a.encrypt(key, nonce, plain)
  }

  /** The counter a datagram claims. */
  function Claimed(wire: Bytes): (c: u64)
    requires |wire| >= NONCE_BYTES
  {
    BigEndianBound(wire[PREFIX_BYTES..NONCE_BYTES]);
    EightBytes(0);
    BigEndian(wire[PREFIX_BYTES..NONCE_BYTES])
  }

  /** Does the tag of the datagram check out? */
  function Deciphered(a: Aead, key: Bytes, wire: Bytes): Option<Bytes> {
    if |wire| < OVERHEAD then None
    else a.decrypt(key, wire[..NONCE_BYTES], wire[NONCE_BYTES..])
  }

  predicate Replayed(counter: u64, lastSeen: u64) {
    counter != 0 && counter <= lastSeen
  }

  /** Opening: the plaintext if accepted, and the new high-water mark. */
  function OpenWire(a: Aead, key: Bytes, lastSeen: u64, wire: Bytes, cap: nat): (r: (Option<Bytes>, u64))
    ensures r.0.Some? ==> |wire| >= OVERHEAD && Deciphered(a, key, wire) == r.0
  {
    var m := Deciphered(a, key, wire);
    if m == None || |wire| - NONCE_BYTES > cap + MAC_BYTES || Replayed(Claimed(wire), lastSeen)
    then (None, lastSeen)
    else (m, if Claimed(wire) > lastSeen then Claimed(wire) else lastSeen)
  }

  /** Opening a sealed datagram gives back the plaintext exactly when it fits and is not a replay. */
  lemma OpenUndoesSealIff(
      a: Aead, key: Bytes, prefix: Bytes, counter: u64, plain: Bytes, lastSeen: u64, cap: nat)
    requires Sound(a) && |prefix| == PREFIX_BYTES
    ensures var w := Wire(a, key, prefix, counter, plain);
            && |w| == |plain| + OVERHEAD && Claimed(w) == counter
            && Deciphered(a, key, w) == Some(plain)
            && (OpenWire(a, key, lastSeen, w, cap).0 == Some(plain)
                <==> |plain| <= cap && (counter == 0 || counter > lastSeen))
  {
    var nonce := prefix + CounterBytes(counter, COUNTER_BYTES);
    var w := Wire(a, key, prefix, counter, plain);
    assert w[..NONCE_BYTES] == nonce && w[NONCE_BYTES..] == a.encrypt(key, nonce, plain);
    assert w[PREFIX_BYTES..NONCE_BYTES] == CounterBytes(counter, COUNTER_BYTES);
    EightBytes(counter);
    SpellsItsBytes(counter, COUNTER_BYTES);
  }

  /** The envelope, byte by byte: 16 random, 8 of the counter with the highest first, then text and tag. */
  lemma WireByField(a: Aead, key: Bytes, prefix: Bytes, counter: u64, plain: Bytes)
    requires Sound(a) && |prefix| == 16
    ensures var w := Wire(a, key, prefix, counter, plain);
            && |w| == |plain| + 40 && w[..16] == prefix && w[24..] == a.encrypt(key, w[..24], plain)
            && forall i :: 16 <= i < 24 ==> w[i] == Shr(counter, 23 - i) % 256
  {
    var nonce := prefix + CounterBytes(counter, COUNTER_BYTES);
    var w := Wire(a, key, prefix, counter, plain);
    assert w[..24] == nonce && w[24..] == a.encrypt(key, nonce, plain);
    forall i | 16 <= i < 24 ensures w[i] == Shr(counter, 23 - i) % 256 {
      CounterBytesAt(counter, COUNTER_BYTES, i - 16);
      assert w[i] == nonce[i];
    }
  }

  /** What is accepted, and where the mark goes. */
  lemma OpenByField(a: Aead, key: Bytes, lastSeen: u64, wire: Bytes, cap: nat)
    ensures var (m, seen) := OpenWire(a, key, lastSeen, wire, cap);
            && (m.Some? <==>
                  && |wire| >= 40 && a.decrypt(key, wire[..24], wire[24..]).Some? && |wire| - 24 <= cap + 16
                  && (Claimed(wire) == 0 || Claimed(wire) > lastSeen))
            && (m.Some? ==> m == a.decrypt(key, wire[..24], wire[24..]))
            && seen == if m.Some? && Claimed(wire) > lastSeen then Claimed(wire) else lastSeen
  {
    hide Claimed;
  }

  /** Sealing into a caller's buffer. The prefix is the random half of the nonce. */
  method Seal(a: Aead, key: Bytes, prefix: Bytes, counter: u64, plain: Bytes, out: array<u8>)
    returns (n: nat)
    requires Sound(a) && |prefix| == PREFIX_BYTES
    modifies out
    ensures out.Length < |plain| + OVERHEAD ==> n == 0 && out[..] == old(out[..])
    ensures out.Length >= |plain| + OVERHEAD ==>
              n == |plain| + OVERHEAD && out[..n] == Wire(a, key, prefix, counter, plain)
    ensures out[n..] == old(out[n..])
  {
    if out.Length < |plain| + OVERHEAD {
      return 0;
    }
    for i := 0 to PREFIX_BYTES
      invariant forall k :: 0 <= k < i ==> out[k] == prefix[k]
      invariant forall k :: i <= k < out.Length ==> out[k] == old(out[k])
    {
      out[i] := prefix[i];
    }
    for i := 0 to COUNTER_BYTES
      invariant forall k :: 0 <= k < PREFIX_BYTES ==> out[k] == prefix[k]
      invariant forall k :: NONCE_BYTES - i <= k < NONCE_BYTES ==>
                  out[k] == CounterByte(counter, NONCE_BYTES - 1 - k)
      invariant forall k :: NONCE_BYTES <= k < out.Length ==> out[k] == old(out[k])
    {
      out[NONCE_BYTES - 1 - i] := CounterByte(counter, i);
    }
    ghost var nonce := prefix + CounterBytes(counter, COUNTER_BYTES);
    forall k | PREFIX_BYTES <= k < NONCE_BYTES ensures out[k] == nonce[k] {
      CounterBytesAt(counter, COUNTER_BYTES, k - PREFIX_BYTES);
    }
    assert out[..NONCE_BYTES] == nonce;
    var ct := a.encrypt(key, out[..NONCE_BYTES], plain);
    for i := 0 to |ct|
      invariant forall k :: 0 <= k < NONCE_BYTES ==> out[k] == nonce[k]
      invariant forall k :: NONCE_BYTES <= k < NONCE_BYTES + i ==> out[k] == ct[k - NONCE_BYTES]
      invariant forall k :: NONCE_BYTES + i <= k < out.Length ==> out[k] == old(out[k])
    {
      out[NONCE_BYTES + i] := ct[i];
    }
    n := NONCE_BYTES + |ct|;
  }

  /** Opening into a caller's buffer; zero is returned for every refusal, and for an empty text. */
  method Open(a: Aead, key: Bytes, lastSeen: u64, wire: Bytes, out: array<u8>)
    returns (n: nat, seen: u64)
    requires Sound(a)
    modifies out
    ensures seen == OpenWire(a, key, lastSeen, wire, out.Length).1
    ensures match OpenWire(a, key, lastSeen, wire, out.Length).0
            case None => n == 0
            case Some(m) => n == |m| <= out.Length && out[..n] == m
  {
    n, seen := 0, lastSeen;
    if |wire| < OVERHEAD {
      return;
    }
    var nonce := wire[..NONCE_BYTES];
    var counter := RebuildCounter(nonce);
    assert nonce[PREFIX_BYTES..] == wire[PREFIX_BYTES..NONCE_BYTES];
    assert counter == Claimed(wire);
    if out.Length + MAC_BYTES < |wire| - NONCE_BYTES {
      return;
    }
    var m := a.decrypt(key, nonce, wire[NONCE_BYTES..]);
    if m == None {
      return;
    }
    for i := 0 to |m.value|
      invariant forall k :: 0 <= k < i ==> out[k] == m.value[k]
    {
      out[i] := m.value[i];
    }
    if counter != 0 && counter <= lastSeen {
      return;
    }
    if counter > lastSeen {
      seen := counter;
    }
    n := |m.value|;
  }

  /** Ors together the shifted bytes of the nonce tail; being disjoint, they add up. */
  method RebuildCounter(nonce: Bytes) returns (c: nat)
    requires |nonce| == NONCE_BYTES
    ensures c == BigEndian(nonce[PREFIX_BYTES..])
  {
    c := 0;
    for i := 0 to COUNTER_BYTES
      invariant c == BigEndian(nonce[NONCE_BYTES - i..])
    {
      BigEndianHead(nonce[NONCE_BYTES - 1 - i], nonce[NONCE_BYTES - i..]);
      assert nonce[NONCE_BYTES - 1 - i..] == [nonce[NONCE_BYTES - 1 - i]] + nonce[NONCE_BYTES - i..];
      c := c + Shl(nonce[NONCE_BYTES - 1 - i], i);
    }
  }
}
