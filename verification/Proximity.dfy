/** Who hears whom in person: core/src/proximity.cpp. */
module Proximity {
  import opened Ints
  import opened Reals
  import opened Registry

  const CLOSED_VEHICLE: u8 := 2

  /** Square root and power, left to the platform. */
  datatype Maths = Maths(sqrt: real -> real, pow: (real, real) -> real)

  datatype ProximityTuning = ProximityTuning(
    whisper: real, normal: real, shout: real, falloffExp: real,
    occlusion: bool, occludeAtten: real, panStrength: real)

  datatype ProximityResult = ProximityResult(audible: bool, volume: real, pan: real, occluded: bool)

  const SILENT := ProximityResult(false, 0.0, 0.0, false)

  function EffectiveRange(s: Player, t: ProximityTuning): real {
    if s.rangeOverride > 0.0 then s.rangeOverride
    else if s.range == RANGE_WHISPER then t.whisper
    else if s.range == RANGE_SHOUT then t.shout
    else t.normal
  }

  function Dist2(a: Vec3, b: Vec3): (r: real)
    ensures r >= 0.0
  {
    SquareSign(a.x - b.x); SquareSign(a.y - b.y); SquareSign(a.z - b.z);
    Square(a.x - b.x) + Square(a.y - b.y) + Square(a.z - b.z)
  }

  function Clamp(x: real, lo: real, hi: real): real {
    if x < lo then lo else if x > hi then hi else x
  }

  predicate SameDimension(a: Player, b: Player) {
    a.interior == b.interior && a.vworld == b.vworld
  }

  predicate Occluded(sp: Player, li: Player, t: ProximityTuning) {
    t.occlusion && (sp.vehicle == CLOSED_VEHICLE || li.vehicle == CLOSED_VEHICLE)
  }

  /** One at the source, falling to zero at the range. */
  function Linear(m: Maths, sp: Player, li: Player, t: ProximityTuning): real
    requires EffectiveRange(sp, t) != 0.0
  {
    1.0 - m.sqrt(Dist2(sp.pos, li.pos)) / EffectiveRange(sp, t)
  }

  /** Falloff with distance, and attenuation when one of them sits in a closed vehicle. */
  function Volume(m: Maths, sp: Player, li: Player, t: ProximityTuning): real
    requires EffectiveRange(sp, t) != 0.0
  {
    var lin := Linear(m, sp, li, t);
    var open := m.pow(if lin < 0.0 then 0.0 else lin, t.falloffExp);
    if Occluded(sp, li, t) then Mul(open, t.occludeAtten) else open
  }

  /** How far to one side the listener is, from -1 to 1. */
  function Lean(sp: Player, li: Player, t: ProximityTuning): (r: real)
    ensures -1.0 <= r <= 1.0
  {
    var range := EffectiveRange(sp, t);
    if range > 0.0 then Clamp((sp.pos.x - li.pos.x) / range, -1.0, 1.0) else 0.0
  }

  function Pan(sp: Player, li: Player, t: ProximityTuning): (r: real)
    ensures t.panStrength >= 0.0 ==> -t.panStrength <= r <= t.panStrength
  {
    PanBound(Lean(sp, li, t), t.panStrength);
    Mul(Lean(sp, li, t), t.panStrength)
  }

  function Evaluate(m: Maths, sp: Player, li: Player, t: ProximityTuning): ProximityResult {
    if !SameDimension(sp, li) || Dist2(sp.pos, li.pos) >= Square(EffectiveRange(sp, t)) then SILENT
    else
      SquareSign(EffectiveRange(sp, t));
      var volume := Volume(m, sp, li, t);
      ProximityResult(volume > 0.001, volume, Pan(sp, li, t), Occluded(sp, li, t))
  }

  /** Only players of the same dimension inside the range are heard. */
  lemma AudibleIsNear(m: Maths, sp: Player, li: Player, t: ProximityTuning)
    requires Evaluate(m, sp, li, t).audible
    ensures SameDimension(sp, li)
    ensures Dist2(sp.pos, li.pos) < Square(EffectiveRange(sp, t))
  {
  }

  /** The square root is not negative, and powers with exponents that are not keep fractions fractions. */
  ghost predicate Tame(m: Maths) {
    && (forall x :: x >= 0.0 ==> m.sqrt(x) >= 0.0)
    && (forall x, e :: 0.0 <= x <= 1.0 && e >= 0.0 ==> 0.0 <= m.pow(x, e) <= 1.0)
  }

  /** Opposite exponents give reciprocal powers, and only the exponent zero keeps a proper fraction at one. */
  ghost predicate Reciprocal(m: Maths) {
    && (forall x, e :: 0.0 < x <= 1.0 ==> Mul(m.pow(x, e), m.pow(x, -e)) == 1.0)
    && (forall x, e :: 0.0 < x < 1.0 && e > 0.0 ==> m.pow(x, e) != 1.0)
  }

  lemma ScaledFraction(x: real, a: real)
    requires 0.0 <= x <= 1.0 && 0.0 <= a <= 1.0
    ensures 0.0 <= Mul(x, a) <= 1.0
  {
    MulNotNegative(x, a);
    MulMonotone(x, 1.0, a);
  }

  lemma PanBound(norm: real, strength: real)
    requires -1.0 <= norm <= 1.0
    ensures strength >= 0.0 ==> -strength <= Mul(norm, strength) <= strength
  {
    if strength >= 0.0 {
      MulMonotone(norm, 1.0, strength);
      MulMonotone(-1.0, norm, strength);
    }
  }

  lemma VolumeInBounds(m: Maths, sp: Player, li: Player, t: ProximityTuning)
    requires Tame(m) && EffectiveRange(sp, t) > 0.0 && t.falloffExp >= 0.0 && 0.0 <= t.occludeAtten <= 1.0
    ensures 0.0 <= Volume(m, sp, li, t) <= 1.0
  {
    hide Dist2;
    var range := EffectiveRange(sp, t);
    QuotientNotNegative(m.sqrt(Dist2(sp.pos, li.pos)), range);
    var lin := Linear(m, sp, li, t);
    ScaledFraction(m.pow(if lin < 0.0 then 0.0 else lin, t.falloffExp), t.occludeAtten);
  }

  /**
    The configuration does not reject a negative exponent. Then the falloff amplifies: away from the
    source, and short of the edge, an open volume is a fraction exactly when the exponent is not
    negative.
   */
  lemma FractionIff(m: Maths, sp: Player, li: Player, t: ProximityTuning)
    requires Tame(m) && Reciprocal(m) && EffectiveRange(sp, t) > 0.0
    requires !Occluded(sp, li, t) && 0.0 < Linear(m, sp, li, t) < 1.0
    ensures 0.0 <= Volume(m, sp, li, t) <= 1.0 <==> t.falloffExp >= 0.0
  {
    hide Dist2, EffectiveRange;
    var x, e := Linear(m, sp, li, t), t.falloffExp;
    assert Volume(m, sp, li, t) == m.pow(x, e);
    if e < 0.0 {
      assert m.pow(x, -e) < 1.0 && Mul(m.pow(x, e), m.pow(x, -e)) == 1.0;
      assert Mul(1.0, m.pow(x, -e)) == m.pow(x, -e);
      if m.pow(x, e) <= 1.0 {
        MulMonotone(m.pow(x, e), 1.0, m.pow(x, -e));
      }
    }
  }

  /** Volumes are fractions and pans stay within the configured strength. */
  lemma ResultInBounds(m: Maths, sp: Player, li: Player, t: ProximityTuning)
    requires Tame(m) && EffectiveRange(sp, t) > 0.0 && t.falloffExp >= 0.0
    requires 0.0 <= t.occludeAtten <= 1.0 && t.panStrength >= 0.0
    ensures 0.0 <= Evaluate(m, sp, li, t).volume <= 1.0
    ensures -t.panStrength <= Evaluate(m, sp, li, t).pan <= t.panStrength
  {
    hide Dist2, Square, Volume, Pan;
    VolumeInBounds(m, sp, li, t);
  }
}
