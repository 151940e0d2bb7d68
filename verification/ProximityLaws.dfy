/** Laws of hearing in person: core/src/proximity.cpp. */
module ProximityLaws {
  import opened Ints
  import opened Reals
  import opened Registry
  import opened Proximity

  /** A positive override goes before the preset: 0 whispers, 2 shouts, all others are normal. */
  lemma RangeByField(s: Player, t: ProximityTuning)
    ensures s.rangeOverride > 0.0 ==> EffectiveRange(s, t) == s.rangeOverride
    ensures s.rangeOverride <= 0.0 ==>
              && (s.range == 0 ==> EffectiveRange(s, t) == t.whisper)
              && (s.range == 2 ==> EffectiveRange(s, t) == t.shout)
              && (s.range != 0 && s.range != 2 ==> EffectiveRange(s, t) == t.normal)
  {
  }

  /** The square root and powers with exponents that are not negative keep order. */
  ghost predicate Orderly(m: Maths) {
    && (forall x, y :: 0.0 <= x <= y ==> m.sqrt(x) <= m.sqrt(y))
    && (forall x, y, e :: 0.0 <= x <= y && e >= 0.0 ==> m.pow(x, e) <= m.pow(y, e))
  }

  /** A closed vehicle on either side: the kind 2. */
  predicate Closed(sp: Player, li: Player, t: ProximityTuning) {
    t.occlusion && (sp.vehicle == 2 || li.vehicle == 2)
  }

  /** Of two listeners in like surroundings the nearer hears the speaker at least as loud. */
  lemma NearerIsLouder(m: Maths, sp: Player, a: Player, b: Player, t: ProximityTuning)
    requires Orderly(m) && EffectiveRange(sp, t) > 0.0 && t.falloffExp >= 0.0 && t.occludeAtten >= 0.0
    requires Dist2(sp.pos, a.pos) <= Dist2(sp.pos, b.pos) && Closed(sp, a, t) == Closed(sp, b, t)
    ensures Volume(m, sp, a, t) >= Volume(m, sp, b, t)
  {
    hide Dist2, EffectiveRange;
    var x, y := m.sqrt(Dist2(sp.pos, a.pos)), m.sqrt(Dist2(sp.pos, b.pos));
    QuotientKeeps(x, y, EffectiveRange(sp, t));
    var p := m.pow(if Linear(m, sp, a, t) < 0.0 then 0.0 else Linear(m, sp, a, t), t.falloffExp);
    var q := m.pow(if Linear(m, sp, b, t) < 0.0 then 0.0 else Linear(m, sp, b, t), t.falloffExp);
    assert q <= p;
    MulMonotone(q, p, t.occludeAtten);
  }

  lemma QuotientKeeps(x: real, y: real, r: real)
    requires x <= y && r > 0.0
    ensures x / r <= y / r
  {
    if x < y {
      QuotientMonotone(x, y, r);
    }
  }

  /** A closed vehicle attenuates by the configured factor, and nothing else does. */
  lemma ClosedAttenuates(m: Maths, sp: Player, li: Player, t: ProximityTuning)
    requires EffectiveRange(sp, t) != 0.0
    ensures var open := Volume(m, sp, li, t.(occlusion := false));
            Volume(m, sp, li, t) == if Closed(sp, li, t) then open * t.occludeAtten else open
  {
    hide Dist2;
  }

  /** At the source the volume is full, and at the range it is nothing. */
  lemma EndsOfTheFalloff(m: Maths, sp: Player, li: Player, t: ProximityTuning)
    requires EffectiveRange(sp, t) > 0.0 && !Closed(sp, li, t)
    ensures m.sqrt(0.0) == 0.0 && m.pow(1.0, t.falloffExp) == 1.0 && li.pos == sp.pos ==> Volume(m, sp, li, t) == 1.0
    ensures m.sqrt(Dist2(sp.pos, li.pos)) >= EffectiveRange(sp, t) && m.pow(0.0, t.falloffExp) == 0.0 ==>
              Volume(m, sp, li, t) == 0.0
  {
    SquareSign(0.0);
    var d, r := m.sqrt(Dist2(sp.pos, li.pos)), EffectiveRange(sp, t);
    hide EffectiveRange;
    assert 0.0 / r == 0.0;
    if d >= r {
      QuotientKeeps(r, d, r);
      assert r / r == 1.0;
    }
  }

  /** Distance does not depend on who is asked, and moves by each coordinate. */
  lemma DistanceLaws(a: Vec3, b: Vec3)
    ensures Dist2(a, b) == Dist2(b, a)
    ensures Dist2(a, b) == 0.0 <==> a == b
    ensures Dist2(a, b.(y := a.y, z := a.z)) == Square(a.x - b.x)
    ensures Dist2(a, b.(x := a.x, z := a.z)) == Square(a.y - b.y)
    ensures Dist2(a, b.(x := a.x, y := a.y)) == Square(a.z - b.z)
  {
    SquareSign(0.0);
    SquareSign(a.x - b.x); SquareSign(a.y - b.y); SquareSign(a.z - b.z);
    SquareOfNegation(a.x - b.x); SquareOfNegation(a.y - b.y); SquareOfNegation(a.z - b.z);
    assert -(a.x - b.x) == b.x - a.x && -(a.y - b.y) == b.y - a.y && -(a.z - b.z) == b.z - a.z;
  }

  /** A voice comes from the side its speaker is on, all the way at the range, and from the front between. */
  lemma PanSides(sp: Player, li: Player, t: ProximityTuning)
    requires EffectiveRange(sp, t) > 0.0 && t.panStrength >= 0.0
    ensures sp.pos.x == li.pos.x ==> Pan(sp, li, t) == 0.0
    ensures sp.pos.x - li.pos.x >= EffectiveRange(sp, t) ==> Pan(sp, li, t) == t.panStrength
    ensures li.pos.x - sp.pos.x >= EffectiveRange(sp, t) ==> Pan(sp, li, t) == -t.panStrength
    ensures sp.pos.x > li.pos.x ==> Pan(sp, li, t) >= 0.0
    ensures sp.pos.x < li.pos.x ==> Pan(sp, li, t) <= 0.0
  {
    hide EffectiveRange;
    var r, d := EffectiveRange(sp, t), sp.pos.x - li.pos.x;
    LeanSides(d, r);
    var lean := Lean(sp, li, t);
    assert lean == Clamp(d / r, -1.0, 1.0);
    MulSides(lean, t.panStrength);
    hide Mul, Clamp;
  }

  lemma LeanSides(d: real, r: real)
    requires r > 0.0
    ensures d == 0.0 ==> d / r == 0.0
    ensures d > 0.0 ==> d / r > 0.0
    ensures d < 0.0 ==> d / r < 0.0
    ensures d >= r ==> d / r >= 1.0
    ensures -d >= r ==> d / r <= -1.0
  {
    assert 0.0 / r == 0.0 && r / r == 1.0 && (-r) / r == -1.0;
    if d > 0.0 { QuotientMonotone(0.0, d, r); }
    if d < 0.0 { QuotientMonotone(d, 0.0, r); }
    if d >= r { QuotientKeeps(r, d, r); }
    if -d >= r { QuotientKeeps(d, -r, r); }
  }

  lemma MulSides(lean: real, strength: real)
    requires strength >= 0.0
    ensures lean == 0.0 ==> Mul(lean, strength) == 0.0
    ensures lean == 1.0 ==> Mul(lean, strength) == strength
    ensures lean == -1.0 ==> Mul(lean, strength) == -strength
    ensures lean >= 0.0 ==> Mul(lean, strength) >= 0.0
    ensures lean <= 0.0 ==> Mul(lean, strength) <= 0.0
  {
    if lean >= 0.0 {
      MulNotNegative(lean, strength);
    } else {
      MulMonotone(lean, 0.0, strength);
      assert Mul(0.0, strength) == 0.0;
    }
  }
}
