/** The pure arithmetic of the tree-measurement page (src/app/tree/page.tsx):
    the pinhole conversion from an on-screen trunk width to centimetres, the
    species coefficients, the CO2/O2 estimate from the trunk diameter (DBH),
    the one-decimal rounding of the stored result, and the input clamps and
    field-of-view guess. */
module TreeEstimator {
  import opened Basics

  datatype Species = Generic | Broadleaf | Conifer | Fast

  /** `{ kMin, kMax }`: kilograms of CO2 per year per square centimetre of DBH. */
  datatype Coefficients = Coefficients(kMin: real, kMax: real)

  /** `kRangeBySpecies`; "generic" falls to the default arm, which repeats
      the broadleaf pair. */
  function KRange(sp: Species): (k: Coefficients)
    ensures 0.0 < k.kMin <= k.kMax
    ensures sp == Generic || sp == Broadleaf ==> k == Coefficients(0.02, 0.04)
    ensures sp == Conifer ==> k == Coefficients(0.018, 0.035)
    ensures sp == Fast ==> k == Coefficients(0.03, 0.06)
  {
    match sp
    case Broadleaf => Coefficients(0.02, 0.04)
    case Conifer => Coefficients(0.018, 0.035)
    case Fast => Coefficients(0.03, 0.06)
    case Generic => Coefficients(0.02, 0.04)
  }

  /** The eight figures `estimateFromDBH` returns. */
  datatype Figures = Figures(
    co2GDayMin: real, co2GDayMax: real,
    o2GDayMin: real, o2GDayMax: real,
    co2KgYearMin: real, co2KgYearMax: real,
    o2KgYearMin: real, o2KgYearMax: real)

  /** Grams of O2 released per gram of CO2 taken up. */
  const O2PerCo2: real := 0.727

  /** Every O2 figure is the fixed ratio times its CO2 counterpart. */
  predicate O2FollowsCo2(f: Figures) {
    && f.o2GDayMin == f.co2GDayMin * O2PerCo2
    && f.o2GDayMax == f.co2GDayMax * O2PerCo2
    && f.o2KgYearMin == f.co2KgYearMin * O2PerCo2
    && f.o2KgYearMax == f.co2KgYearMax * O2PerCo2
  }

  /** Each minimum is at most its maximum, for all four pairs. */
  predicate Ordered(f: Figures) {
    && f.co2GDayMin <= f.co2GDayMax && f.o2GDayMin <= f.o2GDayMax
    && f.co2KgYearMin <= f.co2KgYearMax && f.o2KgYearMin <= f.o2KgYearMax
  }

  /** The figures for a yearly CO2 range in kilograms: daily grams are
      yearly kilograms times 1000 / 365, and O2 is 0.727 of CO2. */
  function FromAnnual(co2KgYearMin: real, co2KgYearMax: real): (f: Figures)
    ensures f.co2KgYearMin == co2KgYearMin && f.co2KgYearMax == co2KgYearMax
    ensures f.co2GDayMin * 365.0 == co2KgYearMin * 1000.0
    ensures f.co2GDayMax * 365.0 == co2KgYearMax * 1000.0
    ensures O2FollowsCo2(f)
    ensures co2KgYearMin <= co2KgYearMax ==> Ordered(f)
    ensures co2KgYearMin >= 0.0 ==> f.co2GDayMin >= 0.0 && f.o2GDayMin >= 0.0 && f.o2KgYearMin >= 0.0
  {
    var co2GDayMin := (co2KgYearMin * 1000.0) / 365.0;
    var co2GDayMax := (co2KgYearMax * 1000.0) / 365.0;
    Figures(co2GDayMin, co2GDayMax,
            co2GDayMin * 0.727, co2GDayMax * 0.727,
            co2KgYearMin, co2KgYearMax,
            co2KgYearMin * 0.727, co2KgYearMax * 0.727)
  }

  /** Yearly kilograms of CO2 for coefficient `k`: `k * dbh * dbh * light`. */
  function AnnualKg(k: real, dbh: real, lightFactor: real): real {
    k * dbh * dbh * lightFactor
  }

  lemma AnnualOrdered(kMin: real, kMax: real, dbh: real, lightFactor: real)
    requires 0.0 < kMin <= kMax && lightFactor >= 0.0
    ensures 0.0 <= AnnualKg(kMin, dbh, lightFactor) <= AnnualKg(kMax, dbh, lightFactor)
  {
    var sq := dbh * dbh;
    assert kMin * dbh * dbh == kMin * sq;
    assert kMax * dbh * dbh == kMax * sq;
    assert sq >= 0.0;
    assert 0.0 <= kMin * sq <= kMax * sq;
    assert kMin * sq * lightFactor <= kMax * sq * lightFactor;
  }

  /** `estimateFromDBH`: yearly CO2 is the species coefficient times DBH
      squared times the light factor, the rest follows from it as in
      `FromAnnual`; with a non-negative light factor the range is ordered and
      non-negative. */
  function EstimateFromDbh(dbh: real, sp: Species, lightFactor: real): (f: Figures)
    ensures f == FromAnnual(AnnualKg(KRange(sp).kMin, dbh, lightFactor), AnnualKg(KRange(sp).kMax, dbh, lightFactor))
    ensures lightFactor >= 0.0 ==> Ordered(f) && f.co2KgYearMin >= 0.0 && f.co2GDayMin >= 0.0
  {
    var k := KRange(sp);
    var annualMin := AnnualKg(k.kMin, dbh, lightFactor);
    var annualMax := AnnualKg(k.kMax, dbh, lightFactor);
    if lightFactor >= 0.0 then
      AnnualOrdered(k.kMin, k.kMax, dbh, lightFactor);
      FromAnnual(annualMin, annualMax)
    else FromAnnual(annualMin, annualMax)
  }

  /** All eight figures multiplied by `c`. */
  function Scale(f: Figures, c: real): Figures {
    Figures(f.co2GDayMin * c, f.co2GDayMax * c, f.o2GDayMin * c, f.o2GDayMax * c,
            f.co2KgYearMin * c, f.co2KgYearMax * c, f.o2KgYearMin * c, f.o2KgYearMax * c)
  }

  lemma ScaledFigure(x: real, c: real)
    ensures (x * c) * 1000.0 / 365.0 == (x * 1000.0 / 365.0) * c
    ensures (x * c) * 1000.0 / 365.0 * 0.727 == (x * 1000.0 / 365.0 * 0.727) * c
    ensures (x * c) * 0.727 == (x * 0.727) * c
  {
  }

  lemma AnnualQuadratic(k: real, dbh: real, c: real, lightFactor: real)
    ensures AnnualKg(k, c * dbh, lightFactor) == AnnualKg(k, dbh, lightFactor) * (c * c)
  {
    assert k * (c * dbh) * (c * dbh) == (k * dbh * dbh) * (c * c);
  }

  lemma AnnualLinear(k: real, dbh: real, lightFactor: real, c: real)
    ensures AnnualKg(k, dbh, c * lightFactor) == AnnualKg(k, dbh, lightFactor) * c
  {
  }

  /** Every figure is proportional to the yearly range. */
  lemma FromAnnualScales(a: real, b: real, c: real)
    ensures FromAnnual(a * c, b * c) == Scale(FromAnnual(a, b), c)
  {
    ScaledFigure(a, c);
    ScaledFigure(b, c);
  }

  /** The estimate grows with the square of the diameter: a trunk `c` times as
      wide takes up `c * c` times as much. */
  lemma EstimateQuadraticInDbh(dbh: real, c: real, sp: Species, lightFactor: real)
    ensures EstimateFromDbh(c * dbh, sp, lightFactor) == Scale(EstimateFromDbh(dbh, sp, lightFactor), c * c)
  {
    var k := KRange(sp);
    AnnualQuadratic(k.kMin, dbh, c, lightFactor);
    AnnualQuadratic(k.kMax, dbh, c, lightFactor);
    EstimateScales(EstimateFromDbh(c * dbh, sp, lightFactor), EstimateFromDbh(dbh, sp, lightFactor),
                   AnnualKg(k.kMin, c * dbh, lightFactor), AnnualKg(k.kMax, c * dbh, lightFactor),
                   AnnualKg(k.kMin, dbh, lightFactor), AnnualKg(k.kMax, dbh, lightFactor), c * c);
  }

  /** ... and linearly with the light factor. */
  lemma EstimateLinearInLight(dbh: real, sp: Species, lightFactor: real, c: real)
    ensures EstimateFromDbh(dbh, sp, c * lightFactor) == Scale(EstimateFromDbh(dbh, sp, lightFactor), c)
  {
    var k := KRange(sp);
    AnnualLinear(k.kMin, dbh, lightFactor, c);
    AnnualLinear(k.kMax, dbh, lightFactor, c);
    EstimateScales(EstimateFromDbh(dbh, sp, c * lightFactor), EstimateFromDbh(dbh, sp, lightFactor),
                   AnnualKg(k.kMin, dbh, c * lightFactor), AnnualKg(k.kMax, dbh, c * lightFactor),
                   AnnualKg(k.kMin, dbh, lightFactor), AnnualKg(k.kMax, dbh, lightFactor), c);
  }

  /** Two estimates whose yearly ranges differ by the factor `c` differ by
      `c` in every figure. */
  lemma EstimateScales(scaled: Figures, base: Figures, a1: real, b1: real, a: real, b: real, c: real)
    requires scaled == FromAnnual(a1, b1) && base == FromAnnual(a, b)
    requires a1 == a * c && b1 == b * c
    ensures scaled == Scale(base, c)
  {
    FromAnnualScales(a, b, c);
  }

  /** Half the horizontal field of view, in radians. */
  function HalfFovRadians(fovDeg: real, m: Maths): real {
    ((fovDeg * m.pi) / 180.0) / 2.0
  }

  /** `pixelToCm`: real size = distance × pixel size / focal length in pixels,
      with the focal length `(w / 2) / tan(fov / 2)`. `None` stands for the
      non-finite number the source computes on a zero-width video; a zero
      tangent makes the focal length infinite and the size 0. */
  function PixelToCm(pixelLen: real, distanceCm: real, fovDeg: real, videoW: real, m: Maths): (r: Option<real>)
    ensures r.None? <==> videoW == 0.0
    ensures r.Some? ==> r.value == 2.0 * distanceCm * pixelLen * m.tan(HalfFovRadians(fovDeg, m)) / videoW
    ensures r.Some? && videoW > 0.0 && distanceCm >= 0.0 && pixelLen >= 0.0 && m.tan(HalfFovRadians(fovDeg, m)) >= 0.0 ==>
      r.value >= 0.0
  {
    var tanHalf := m.tan(HalfFovRadians(fovDeg, m));
    if videoW == 0.0 then None
    else if tanHalf == 0.0 then Some(0.0)
    else
      var focalPx := (videoW / 2.0) / tanHalf;
      var size := distanceCm * (pixelLen / focalPx);
      assert size == 2.0 * distanceCm * pixelLen * tanHalf / videoW by {
        assert pixelLen / focalPx == pixelLen * tanHalf * 2.0 / videoW;
      }
      NonNegativeQuotient(2.0 * distanceCm * pixelLen * tanHalf, videoW);
      Some(size)
  }

  lemma NonNegativeQuotient(a: real, b: real)
    requires b != 0.0
    ensures a >= 0.0 && b > 0.0 ==> a / b >= 0.0
  {
  }

  /** The conversion is linear in the on-screen length. */
  lemma PixelToCmLinearInLength(pixelLen: real, c: real, distanceCm: real, fovDeg: real, videoW: real, m: Maths)
    requires videoW != 0.0
    ensures PixelToCm(c * pixelLen, distanceCm, fovDeg, videoW, m).value
         == c * PixelToCm(pixelLen, distanceCm, fovDeg, videoW, m).value
  {
    var t := m.tan(HalfFovRadians(fovDeg, m));
    assert 2.0 * distanceCm * (c * pixelLen) * t == c * (2.0 * distanceCm * pixelLen * t);
  }

  /** ... and in the distance to the trunk. */
  lemma PixelToCmLinearInDistance(pixelLen: real, distanceCm: real, c: real, fovDeg: real, videoW: real, m: Maths)
    requires videoW != 0.0
    ensures PixelToCm(pixelLen, c * distanceCm, fovDeg, videoW, m).value
         == c * PixelToCm(pixelLen, distanceCm, fovDeg, videoW, m).value
  {
    var t := m.tan(HalfFovRadians(fovDeg, m));
    assert 2.0 * (c * distanceCm) * pixelLen * t == c * (2.0 * distanceCm * pixelLen * t);
  }

  /** A field of view with a larger half-angle tangent makes the same pixels
      a larger real size. */
  lemma PixelToCmGrowsWithFov(pixelLen: real, distanceCm: real, fov1: real, fov2: real, videoW: real, m: Maths)
    requires videoW > 0.0 && distanceCm >= 0.0 && pixelLen >= 0.0
    requires m.tan(HalfFovRadians(fov1, m)) <= m.tan(HalfFovRadians(fov2, m))
    ensures PixelToCm(pixelLen, distanceCm, fov1, videoW, m).value
         <= PixelToCm(pixelLen, distanceCm, fov2, videoW, m).value
  {
    NonNegativeProduct(2.0 * distanceCm, pixelLen);
    QuotientMonotone(2.0 * distanceCm * pixelLen, m.tan(HalfFovRadians(fov1, m)), m.tan(HalfFovRadians(fov2, m)), videoW);
  }

  lemma NonNegativeProduct(a: real, b: real)
    requires a >= 0.0 && b >= 0.0
    ensures a * b >= 0.0
  {
  }

  lemma QuotientMonotone(a: real, t1: real, t2: real, w: real)
    requires a >= 0.0 && t1 <= t2 && w > 0.0
    ensures a * t1 / w <= a * t2 / w
  {
    assert a * t1 <= a * t2;
  }

  /** `+x.toFixed(1)` applied to every figure, as `calculate` stores them. */
  function RoundFigures(f: Figures): (g: Figures)
    ensures -0.05 <= g.co2GDayMin - f.co2GDayMin <= 0.05 && -0.05 <= g.co2GDayMax - f.co2GDayMax <= 0.05
    ensures -0.05 <= g.o2GDayMin - f.o2GDayMin <= 0.05 && -0.05 <= g.o2GDayMax - f.o2GDayMax <= 0.05
    ensures -0.05 <= g.co2KgYearMin - f.co2KgYearMin <= 0.05 && -0.05 <= g.co2KgYearMax - f.co2KgYearMax <= 0.05
    ensures -0.05 <= g.o2KgYearMin - f.o2KgYearMin <= 0.05 && -0.05 <= g.o2KgYearMax - f.o2KgYearMax <= 0.05
    ensures g.co2GDayMin == Round1(f.co2GDayMin) && g.co2GDayMax == Round1(f.co2GDayMax)
    ensures g.o2GDayMin == Round1(f.o2GDayMin) && g.o2GDayMax == Round1(f.o2GDayMax)
    ensures g.co2KgYearMin == Round1(f.co2KgYearMin) && g.co2KgYearMax == Round1(f.co2KgYearMax)
    ensures g.o2KgYearMin == Round1(f.o2KgYearMin) && g.o2KgYearMax == Round1(f.o2KgYearMax)
  {
    Figures(Round1(f.co2GDayMin), Round1(f.co2GDayMax), Round1(f.o2GDayMin), Round1(f.o2GDayMax),
            Round1(f.co2KgYearMin), Round1(f.co2KgYearMax), Round1(f.o2KgYearMin), Round1(f.o2KgYearMax))
  }

  /** Rounding keeps every minimum at or below its maximum. */
  lemma RoundFiguresOrdered(f: Figures)
    requires Ordered(f)
    ensures Ordered(RoundFigures(f))
  {
    Round1Monotone(f.co2GDayMin, f.co2GDayMax);
    Round1Monotone(f.o2GDayMin, f.o2GDayMax);
    Round1Monotone(f.co2KgYearMin, f.co2KgYearMax);
    Round1Monotone(f.o2KgYearMin, f.o2KgYearMax);
  }

  /** `inputs`: the settings an estimate was computed with. */
  datatype Inputs = Inputs(distanceCm: real, hFovDeg: real, species: Species, lightFactor: real)

  /** `EstimateResult`; `NonFiniteEstimate` is the record full of `NaN` and
      `Infinity` the source stores when the video has zero width. */
  datatype EstimateResult =
    | Estimate(dbhCm: real, figures: Figures, inputs: Inputs)
    | NonFiniteEstimate(inputs: Inputs)

  /** The result `calculate` builds from an on-screen length: DBH unrounded,
      the figures rounded to one decimal, and the inputs used. */
  function MakeEstimate(pixelLen: real, videoW: real, inputs: Inputs, m: Maths): (e: EstimateResult)
    ensures e.inputs == inputs
    ensures e.NonFiniteEstimate? <==> videoW == 0.0
    ensures e.Estimate? ==> e.dbhCm == PixelToCm(pixelLen, inputs.distanceCm, inputs.hFovDeg, videoW, m).value
    ensures e.Estimate? ==> e.figures == RoundFigures(EstimateFromDbh(e.dbhCm, inputs.species, inputs.lightFactor))
    ensures e.Estimate? && inputs.lightFactor >= 0.0 ==> Ordered(e.figures)
  {
    match PixelToCm(pixelLen, inputs.distanceCm, inputs.hFovDeg, videoW, m)
    case None => NonFiniteEstimate(inputs)
    case Some(dbh) =>
      var f := EstimateFromDbh(dbh, inputs.species, inputs.lightFactor);
      if inputs.lightFactor >= 0.0 then RoundFiguresOrdered(f); Estimate(dbh, RoundFigures(f), inputs)
      else Estimate(dbh, RoundFigures(EstimateFromDbh(dbh, inputs.species, inputs.lightFactor)), inputs)
  }

  /** The distance field's `Math.max(50, Math.min(500, +value || 0))`;
      `None` is an entry that is not a number. */
  function DistanceFromInput(v: Option<real>): (d: real)
    ensures 50.0 <= d <= 500.0
    ensures v.Some? && 50.0 <= v.value <= 500.0 ==> d == v.value
    ensures v.None? || v.value < 50.0 ==> d == 50.0
    ensures v.Some? && v.value > 500.0 ==> d == 500.0
  {
    Clamp(if v.None? then 0.0 else v.value, 50.0, 500.0)
  }

  /** `applyFovPreset`'s value: the preset clamped to 45..90 degrees. */
  function FovPreset(p: real): (f: real)
    ensures 45.0 <= f <= 90.0
    ensures 45.0 <= p <= 90.0 ==> f == p
    ensures p < 45.0 ==> f == 45.0
    ensures p > 90.0 ==> f == 90.0
  {
    Clamp(p, 45.0, 90.0)
  }

  /** The FOV field's `Math.max(45, Math.min(90, +value || 0))`. */
  function FovFromInput(v: Option<real>): (f: real)
    ensures 45.0 <= f <= 90.0
    ensures v.Some? && 45.0 <= v.value <= 90.0 ==> f == v.value
    ensures v.None? || v.value < 45.0 ==> f == 45.0
    ensures v.Some? && v.value > 90.0 ==> f == 90.0
  {
    FovPreset(if v.None? then 0.0 else v.value)
  }

  /** The video element's bounding box. */
  datatype Rect = Rect(width: real, height: real)

  function AspectRatio(r: Rect): real {
    r.width / Max(1.0, r.height)
  }

  /** `suggestFovByAspect`'s guess: 63 without a video, otherwise 65 above
      an aspect of 1.9, 63 above 1.7 and 60 below; the preset clamp leaves
      every guess as it is. */
  function FovGuess(video: Option<Rect>): (g: real)
    ensures video.None? ==> g == 63.0
    ensures video.Some? ==> (g == 65.0 <==> AspectRatio(video.value) > 1.9)
    ensures video.Some? ==> (g == 63.0 <==> 1.7 < AspectRatio(video.value) <= 1.9)
    ensures video.Some? ==> (g == 60.0 <==> AspectRatio(video.value) <= 1.7)
    ensures FovPreset(g) == g
  {
    if video.None? then 63.0
    else
      var aspect := AspectRatio(video.value);
      if aspect > 1.9 then 65.0 else if aspect > 1.7 then 63.0 else 60.0
  }
}
