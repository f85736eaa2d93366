/** The pure rules of the air-quality camera page (src/app/camera/page.tsx):
    banded classification of PM2.5 and CO2 readings, the worst-of-two
    combination, `#RRGGBB` parsing, the wind vector, the particle mode and
    count, the drawing alpha ceilings and the status face. */
module AirQuality {
  import opened Basics
  import Text

  /** The label a band shows; `NoReading` is the placeholder dash. */
  datatype Label = NoReading | Good | Moderate | Sensitive | Unhealthy | VeryUnhealthy

  /** `{ tint, score, label }` as returned by the classifiers. */
  datatype Band = Band(tint: string, score: real, level: Label)

  const NeutralTint: string := "#BFC6CC"

  /** The fixed tint and score of each PM2.5 label. */
  function Pm25Style(l: Label): Band {
    match l
    case NoReading => Band(NeutralTint, 0.0, NoReading)
    case Good => Band("#DDE7F0", 0.12, Good)
    case Moderate => Band("#BBD4E8", 0.35, Moderate)
    case Sensitive => Band("#F4D06F", 0.60, Sensitive)
    case Unhealthy => Band("#E59D5A", 0.78, Unhealthy)
    case VeryUnhealthy => Band("#D16B6B", 0.90, VeryUnhealthy)
  }

  /** The fixed tint and score of each CO2 label (CO2 has no "very unhealthy"). */
  function Co2Style(l: Label): Band
    requires l != VeryUnhealthy
  {
    match l
    case NoReading => Band(NeutralTint, 0.0, NoReading)
    case Good => Band("#DDE7F0", 0.12, Good)
    case Moderate => Band("#BBD4E8", 0.35, Moderate)
    case Sensitive => Band("#F4D06F", 0.60, Sensitive)
    case Unhealthy => Band("#D16B6B", 0.85, Unhealthy)
  }

  /** `mapPM25`: upper-inclusive bands at 12, 35, 55 and 150 µg/m³. */
  function MapPm25(pm: Option<real>): (b: Band)
    ensures b == Pm25Style(b.level)
    ensures pm.None? <==> b.level == NoReading
    ensures pm.Some? ==> (b.level == Good <==> pm.value <= 12.0)
    ensures pm.Some? ==> (b.level == Moderate <==> 12.0 < pm.value <= 35.0)
    ensures pm.Some? ==> (b.level == Sensitive <==> 35.0 < pm.value <= 55.0)
    ensures pm.Some? ==> (b.level == Unhealthy <==> 55.0 < pm.value <= 150.0)
    ensures pm.Some? ==> (b.level == VeryUnhealthy <==> 150.0 < pm.value)
    ensures 0.0 <= b.score <= 0.90
  {
    if pm.None? then Band(NeutralTint, 0.0, NoReading)
    else if pm.value <= 12.0 then Band("#DDE7F0", 0.12, Good)
    else if pm.value <= 35.0 then Band("#BBD4E8", 0.35, Moderate)
    else if pm.value <= 55.0 then Band("#F4D06F", 0.60, Sensitive)
    else if pm.value <= 150.0 then Band("#E59D5A", 0.78, Unhealthy)
    else Band("#D16B6B", 0.90, VeryUnhealthy)
  }

  /** `mapCO2`: upper-inclusive bands at 500, 700 and 1000 ppm. */
  function MapCo2(co2: Option<real>): (b: Band)
    ensures b.level != VeryUnhealthy && b == Co2Style(b.level)
    ensures co2.None? <==> b.level == NoReading
    ensures co2.Some? ==> (b.level == Good <==> co2.value <= 500.0)
    ensures co2.Some? ==> (b.level == Moderate <==> 500.0 < co2.value <= 700.0)
    ensures co2.Some? ==> (b.level == Sensitive <==> 700.0 < co2.value <= 1000.0)
    ensures co2.Some? ==> (b.level == Unhealthy <==> 1000.0 < co2.value)
    ensures 0.0 <= b.score <= 0.85
  {
    if co2.None? then Band(NeutralTint, 0.0, NoReading)
    else if co2.value <= 500.0 then Band("#DDE7F0", 0.12, Good)
    else if co2.value <= 700.0 then Band("#BBD4E8", 0.35, Moderate)
    else if co2.value <= 1000.0 then Band("#F4D06F", 0.60, Sensitive)
    else Band("#D16B6B", 0.85, Unhealthy)
  }

  /** A higher reading never gets a lower score, and no reading scores lower
      than a missing one. */
  lemma ScoresMonotone(a: real, b: real)
    requires a <= b
    ensures MapPm25(None).score <= MapPm25(Some(a)).score <= MapPm25(Some(b)).score
    ensures MapCo2(None).score <= MapCo2(Some(a)).score <= MapCo2(Some(b)).score
  {
  }

  /** `combineAir`'s result: the combined tint and alpha with both bands. */
  datatype Combo = Combo(tint: string, alpha: real, pm: Band, co2: Band)

  /** The page's overall severity, `pm.score >= co2.score ? pm.score : co2.score`. */
  function Severity(c: Combo): real {
    if c.pm.score >= c.co2.score then c.pm.score else c.co2.score
  }

  /** `combineAir`: the worst band (PM2.5 on a tie) gives the tint, and the
      alpha grows linearly with its score. */
  function CombineAir(pm: Option<real>, co2: Option<real>): (c: Combo)
    ensures c.pm == MapPm25(pm) && c.co2 == MapCo2(co2)
    ensures Severity(c) == Max(c.pm.score, c.co2.score)
    ensures c.tint == (if c.pm.score >= c.co2.score then c.pm.tint else c.co2.tint)
    ensures c.alpha == 0.25 + 0.5 * Severity(c)
    ensures 0.25 <= c.alpha <= 0.70
  {
    var a := MapPm25(pm);
    var b := MapCo2(co2);
    var worst := if a.score >= b.score then a else b;
    Combo(worst.tint, 0.25 + worst.score * 0.5, a, b)
  }

  /** The worked example: PM2.5 40 and CO2 600 give severity 0.60 with the
      PM2.5 ("Sensitive") tint. */
  lemma CombineExample()
    ensures var c := CombineAir(Some(40.0), Some(600.0));
      c.pm.level == Sensitive && c.co2.level == Moderate &&
      Severity(c) == 0.60 && c.tint == "#F4D06F" && c.alpha == 0.55
  {
  }

  /** `{ r, g, b }` from `hexToRgb`; `None` is `NaN`. */
  datatype Rgb = Rgb(r: Option<int>, g: Option<int>, b: Option<int>)

  /** `s.replace(c, "")` with a one-character pattern: drops the first `c`. */
  function RemoveFirst(s: string, c: char): (r: string)
    ensures c !in s ==> r == s
    ensures |s| > 0 && s[0] == c ==> r == s[1..]
    ensures c in s ==> |r| == |s| - 1 && multiset(r) + multiset{c} == multiset(s)
  {
    if s == [] then []
    else if s[0] == c then s[1..]
    else
      assert s == [s[0]] + s[1..];
      [s[0]] + RemoveFirst(s[1..], c)
  }

  /** `s.slice(lo, hi)` for `0 <= lo <= hi`: out-of-range ends are cut back to
      the length. */
  function Slice(s: string, lo: nat, hi: nat): (r: string)
    requires lo <= hi
    ensures hi <= |s| ==> r == s[lo..hi]
    ensures |r| <= hi - lo
  {
    var l := if lo <= |s| then lo else |s|;
    var h := if hi <= |s| then hi else |s|;
    s[l..h]
  }

  /** A `#RRGGBB` colour: a hash and six hexadecimal digits. */
  predicate IsHexColour(s: string) {
    |s| == 7 && s[0] == '#' && Text.AllDigits(s[1..], 16)
  }

  /** `hexToRgb`: drop the `#`, then `parseInt` each pair of characters in
      base 16. */
  function HexToRgb(hex: string): (c: Rgb)
    ensures IsHexColour(hex) ==> c.r.Some? && 0 <= c.r.value <= 255
    ensures IsHexColour(hex) ==> c.g.Some? && 0 <= c.g.value <= 255
    ensures IsHexColour(hex) ==> c.b.Some? && 0 <= c.b.value <= 255
    ensures IsHexColour(hex) ==>
      && Text.AllDigits(hex[1..3], 16) && Text.AllDigits(hex[3..5], 16) && Text.AllDigits(hex[5..7], 16)
      && c.r == Some(Text.ValueOf(hex[1..3], 16))
      && c.g == Some(Text.ValueOf(hex[3..5], 16))
      && c.b == Some(Text.ValueOf(hex[5..7], 16))
  {
    var h := RemoveFirst(hex, '#');
    assert IsHexColour(hex) ==>
      (h == hex[1..] && h[0..2] == hex[1..3] && h[2..4] == hex[3..5] && h[4..6] == hex[5..7] &&
       Text.AllDigits(h[0..2], 16) && Text.AllDigits(h[2..4], 16) && Text.AllDigits(h[4..6], 16));
    Rgb(Text.ParseInt(Slice(h, 0, 2), 16),
        Text.ParseInt(Slice(h, 2, 4), 16),
        Text.ParseInt(Slice(h, 4, 6), 16))
  }

  /** Two upper-case hexadecimal digits for a channel value. */
  function HexPair(n: nat): (s: string)
    requires n < 256
    ensures |s| == 2 && Text.AllDigits(s, 16) && Text.ValueOf(s, 16) == n
  {
    var hi, lo := Text.DigitChar(n / 16), Text.DigitChar(n % 16);
    Text.ValueOfSnoc([], hi, 16);
    assert [] + [hi] == [hi];
    Text.ValueOfSnoc([hi], lo, 16);
    [hi, lo]
  }

  /** The `#RRGGBB` spelling of a colour, the inverse of `HexToRgb`. */
  function RgbToHex(r: nat, g: nat, b: nat): (s: string)
    requires r < 256 && g < 256 && b < 256
    ensures IsHexColour(s)
  {
    var s := "#" + HexPair(r) + HexPair(g) + HexPair(b);
    assert s[1..] == HexPair(r) + HexPair(g) + HexPair(b);
    s
  }

  lemma {:induction false} HexRoundTrip(r: nat, g: nat, b: nat)
    requires r < 256 && g < 256 && b < 256
    ensures HexToRgb(RgbToHex(r, g, b)) == Rgb(Some(r), Some(g), Some(b))
  {
    var s := RgbToHex(r, g, b);
    var h := s[1..];
    assert h == HexPair(r) + HexPair(g) + HexPair(b);
    assert h[0..2] == HexPair(r);
    assert h[2..4] == HexPair(g);
    assert h[4..6] == HexPair(b);
  }

  /** The "Good" tint `#DDE7F0` is (221, 231, 240). */
  lemma GoodTintRgb()
    ensures HexToRgb("#DDE7F0") == Rgb(Some(221), Some(231), Some(240))
  {
    assert HexPair(0xDD) == "DD";
    assert HexPair(0xE7) == "E7";
    assert HexPair(0xF0) == "F0";
    assert RgbToHex(221, 231, 240) == "#DDE7F0";
    HexRoundTrip(221, 231, 240);
  }

  /** Every tint a PM2.5 or CO2 band carries is a well-formed colour. */
  lemma StyleTintsAreColours(l: Label)
    ensures IsHexColour(Pm25Style(l).tint)
    ensures l != VeryUnhealthy ==> IsHexColour(Co2Style(l).tint)
  {
    match l
    case NoReading => HexColourByDigits(NeutralTint);
    case Good => HexColourByDigits("#DDE7F0");
    case Moderate => HexColourByDigits("#BBD4E8");
    case Sensitive => HexColourByDigits("#F4D06F");
    case Unhealthy =>
      HexColourByDigits("#E59D5A");
      HexColourByDigits("#D16B6B");
    case VeryUnhealthy => HexColourByDigits("#D16B6B");
  }

  lemma HexColourByDigits(s: string)
    requires |s| == 7 && s[0] == '#'
    requires Text.IsDigitIn(s[1], 16) && Text.IsDigitIn(s[2], 16) && Text.IsDigitIn(s[3], 16)
    requires Text.IsDigitIn(s[4], 16) && Text.IsDigitIn(s[5], 16) && Text.IsDigitIn(s[6], 16)
    ensures IsHexColour(s)
  {
    assert forall i :: 0 <= i < 6 ==> s[1..][i] == s[i + 1];
  }

  /** So the combined tint always parses to three channels in 0..255. */
  lemma CombinedTintIsColour(pm: Option<real>, co2: Option<real>)
    ensures IsHexColour(CombineAir(pm, co2).tint)
  {
    var c := CombineAir(pm, co2);
    StyleTintsAreColours(c.pm.level);
    StyleTintsAreColours(c.co2.level);
  }

  /** `toWindVector`'s `{ dir: { x, y }, speedPxPerSec }`. */
  datatype Wind = Wind(dirX: real, dirY: real, speedPxPerSec: real)

  /** The compass direction turned by 180 degrees, in radians. */
  function TowardRadians(deg: real, m: Maths): real {
    ((deg + 180.0) * m.pi) / 180.0
  }

  /** `toWindVector`: without a direction or a speed, a fixed gentle drift;
      otherwise the wind's "toward" direction and 15 px/s plus 15 px/s per
      m/s of speed, the speed clamped to 0..8 m/s. */
  function ToWindVector(deg: Option<real>, speed: Option<real>, m: Maths): (w: Wind)
    ensures deg.None? || speed.None? ==> w == Wind(0.3, 0.1, 15.0)
    ensures deg.Some? && speed.Some? ==>
      w.dirX == m.sin(TowardRadians(deg.value, m)) && w.dirY == m.cos(TowardRadians(deg.value, m))
    ensures speed.Some? && deg.Some? && 0.0 <= speed.value <= 8.0 ==> w.speedPxPerSec == 15.0 + 15.0 * speed.value
    ensures speed.Some? && deg.Some? && speed.value > 8.0 ==> w.speedPxPerSec == 135.0
    ensures speed.Some? && speed.value < 0.0 ==> w.speedPxPerSec == 15.0
    ensures 15.0 <= w.speedPxPerSec <= 135.0
  {
    if deg.None? || speed.None? then Wind(0.3, 0.1, 15.0)
    else
      var rad := TowardRadians(deg.value, m);
      Wind(m.sin(rad), m.cos(rad), 15.0 + Min(8.0, Max(0.0, speed.value)) * 15.0)
  }

  /** Where `sin` and `cos` change sign over half a turn, the drift points
      opposite to the compass bearing the wind comes from. */
  lemma WindBlowsAway(deg: real, speed: real, m: Maths)
    requires m.sin(deg * m.pi / 180.0 + m.pi) == -m.sin(deg * m.pi / 180.0)
    requires m.cos(deg * m.pi / 180.0 + m.pi) == -m.cos(deg * m.pi / 180.0)
    ensures ToWindVector(Some(deg), Some(speed), m).dirX == -m.sin(deg * m.pi / 180.0)
    ensures ToWindVector(Some(deg), Some(speed), m).dirY == -m.cos(deg * m.pi / 180.0)
  {
    assert TowardRadians(deg, m) == deg * m.pi / 180.0 + m.pi;
  }

  /** The two particle renderings. */
  datatype Mode = Mist | Leaf

  /** Leaves from "Moderate" upward, mist below. */
  function ModeOf(c: Combo): (mode: Mode)
    ensures mode == Leaf <==> Max(c.pm.score, c.co2.score) >= 0.35
  {
    if Severity(c) >= 0.35 then Leaf else Mist
  }

  /** `NUM`: 160 mist particles or 120 leaves. */
  function ParticleCount(mode: Mode): (n: nat)
    ensures n == 120 || n == 160
    ensures n == 120 <==> mode == Leaf
  {
    match mode
    case Mist => 160
    case Leaf => 120
  }

  /** The field is mist exactly when both readings are missing or within the
      "Good" band. */
  lemma MistIffBothGood(pm: Option<real>, co2: Option<real>)
    ensures ModeOf(CombineAir(pm, co2)) == Mist <==>
      (pm.None? || pm.value <= 12.0) && (co2.None? || co2.value <= 500.0)
  {
  }

  /** The alpha a particle is drawn with: the particle's own alpha times the
      combined alpha, scaled by 0.8 (leaves) or 0.7 (mist) and capped at 0.65
      or 0.55. */
  function DrawAlpha(mode: Mode, particleAlpha: real, comboAlpha: real): (a: real)
    ensures mode == Leaf ==> a <= 0.65
    ensures mode == Mist ==> a <= 0.55
    ensures mode == Leaf && particleAlpha * comboAlpha * 0.8 <= 0.65 ==> a == particleAlpha * comboAlpha * 0.8
    ensures mode == Mist && particleAlpha * comboAlpha * 0.7 <= 0.55 ==> a == particleAlpha * comboAlpha * 0.7
    ensures particleAlpha >= 0.0 && comboAlpha >= 0.0 ==> a >= 0.0
  {
    if mode == Leaf then Min(0.65, particleAlpha * comboAlpha * 0.8)
    else Min(0.55, particleAlpha * comboAlpha * 0.7)
  }

  /** The status bar's face, from cheerful to skull. */
  datatype Face = Smiling | SlightSmile | Neutral | Masked | Skull

  function FaceRank(f: Face): nat {
    match f
    case Smiling => 0
    case SlightSmile => 1
    case Neutral => 2
    case Masked => 3
    case Skull => 4
  }

  /** `getQualityEmoji`: lower-inclusive steps of 0.2. */
  function QualityFace(score: real): (f: Face)
    ensures f == Smiling <==> score < 0.2
    ensures f == SlightSmile <==> 0.2 <= score < 0.4
    ensures f == Neutral <==> 0.4 <= score < 0.6
    ensures f == Masked <==> 0.6 <= score < 0.8
    ensures f == Skull <==> 0.8 <= score
  {
    if score < 0.2 then Smiling
    else if score < 0.4 then SlightSmile
    else if score < 0.6 then Neutral
    else if score < 0.8 then Masked
    else Skull
  }

  lemma QualityFaceMonotone(s: real, t: real)
    requires s <= t
    ensures FaceRank(QualityFace(s)) <= FaceRank(QualityFace(t))
  {
  }
}
