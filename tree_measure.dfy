/** The measuring session of the tree page (src/app/tree/page.tsx): measure
    mode, the two taps on the trunk edges, the settings fields, and
    `calculate`, which stores an estimate and leaves measure mode. The
    transitions are functions on a `Session` value with the invariant they
    keep; `MeasurePage` holds the same state in fields that its handlers
    update. */
module TreeMeasure {
  import opened Basics
  import opened TreeEstimator

  /** A tap position relative to the canvas. */
  datatype Point = Point(x: real, y: real)

  datatype Session = Session(
    active: bool,
    points: seq<Point>,
    estimate: Option<EstimateResult>,
    settings: Inputs)

  /** The state on first render: not measuring, no taps, no estimate,
      200 cm, 63 degrees, generic species, light factor 1. */
  function Initial(): (s: Session)
    ensures Valid(s) && !s.active && s.points == [] && s.estimate.None?
  {
    Session(false, [], None, Inputs(200.0, 63.0, Generic, 1.0))
  }

  /** Settings within the ranges the fields enforce. */
  predicate SettingsInRange(i: Inputs) {
    && 50.0 <= i.distanceCm <= 500.0
    && 45.0 <= i.hFovDeg <= 90.0
    && 0.8 <= i.lightFactor <= 1.2
  }

  /** What every reachable session satisfies: at most two taps, settings in
      range, and a stored estimate computed from in-range settings whose
      every minimum is at most its maximum. */
  predicate Valid(s: Session) {
    && |s.points| <= 2
    && SettingsInRange(s.settings)
    && (s.estimate.Some? ==> SettingsInRange(s.estimate.value.inputs))
    && (s.estimate.Some? && s.estimate.value.Estimate? ==> Ordered(s.estimate.value.figures))
  }

  /** `onCanvasClick`: ignored outside measure mode; a third tap starts a
      new pair, otherwise the tap is appended. */
  function Tap(s: Session, p: Point): (t: Session)
    ensures !s.active ==> t == s
    ensures s.active && |s.points| >= 2 ==> t.points == [p]
    ensures s.active && |s.points| < 2 ==> t.points == s.points + [p]
    ensures t.active == s.active && t.estimate == s.estimate && t.settings == s.settings
    ensures Valid(s) ==> Valid(t)
  {
    if !s.active then s
    else if |s.points| >= 2 then s.(points := [p])
    else s.(points := s.points + [p])
  }

  /** The Measure/Cancel button: flips measure mode and clears the taps and
      the estimate. */
  function Toggle(s: Session): (t: Session)
    ensures t.active == !s.active && t.points == [] && t.estimate.None?
    ensures t.settings == s.settings
    ensures Valid(s) ==> Valid(t)
  {
    s.(active := !s.active, points := [], estimate := None)
  }

  /** The Reset button's handler: forgets the taps. */
  function ClearPoints(s: Session): (t: Session)
    ensures t.points == [] && t.active == s.active && t.estimate == s.estimate && t.settings == s.settings
    ensures Valid(s) ==> Valid(t)
  {
    s.(points := [])
  }

  /** The on-screen length between two taps. */
  function PixelLength(a: Point, b: Point, m: Maths): real {
    var dx := b.x - a.x;
    var dy := b.y - a.y;
    m.sqrt(dx * dx + dy * dy)
  }

  /** `calculate`: with measure mode on, exactly two taps and both the canvas
      and the video mounted (`mounted`), converts the tap distance with the
      video's width, stores the estimate for the current settings and leaves
      measure mode; otherwise nothing changes. */
  function CalculateStep(s: Session, mounted: bool, videoW: real, m: Maths): (t: Session)
    ensures !s.active || |s.points| != 2 || !mounted ==> t == s
    ensures s.active && |s.points| == 2 && mounted ==>
      && !t.active && t.points == s.points && t.settings == s.settings
      && t.estimate == Some(MakeEstimate(PixelLength(s.points[0], s.points[1], m), videoW, s.settings, m))
    ensures Valid(s) ==> Valid(t)
  {
    if !s.active || |s.points| != 2 || !mounted then s
    else
      var e := MakeEstimate(PixelLength(s.points[0], s.points[1], m), videoW, s.settings, m);
      s.(estimate := Some(e), active := false)
  }

  /** The range input's value: a browser keeps a range control's value
      between its `min` and `max` (0.8 and 1.2). */
  function SliderValue(v: real): (r: real)
    ensures 0.8 <= r <= 1.2
    ensures 0.8 <= v <= 1.2 ==> r == v
  {
    Clamp(v, 0.8, 1.2)
  }

  /** A change to one of the settings fields. */
  datatype Setting =
    | DistanceEntered(v: Option<real>)
    | FovEntered(v: Option<real>)
    | FovPresetChosen(preset: real)
    | FovSuggested(video: Option<Rect>)
    | SpeciesChosen(sp: Species)
    | LightMoved(level: real)

  /** The settings fields' handlers; each keeps its field in range. */
  function ApplySetting(i: Inputs, c: Setting): (j: Inputs)
    ensures SettingsInRange(i) ==> SettingsInRange(j)
    ensures c.DistanceEntered? ==> j == i.(distanceCm := DistanceFromInput(c.v))
    ensures c.FovEntered? ==> j == i.(hFovDeg := FovFromInput(c.v))
    ensures c.FovPresetChosen? ==> j == i.(hFovDeg := FovPreset(c.preset))
    ensures c.FovSuggested? ==> j == i.(hFovDeg := FovGuess(c.video))
    ensures c.SpeciesChosen? ==> j == i.(species := c.sp)
    ensures c.LightMoved? ==> j == i.(lightFactor := SliderValue(c.level))
  {
    match c
    case DistanceEntered(v) => i.(distanceCm := DistanceFromInput(v))
    case FovEntered(v) => i.(hFovDeg := FovFromInput(v))
    case FovPresetChosen(p) => i.(hFovDeg := FovPreset(p))
    case FovSuggested(video) => i.(hFovDeg := FovPreset(FovGuess(video)))
    case SpeciesChosen(sp) => i.(species := sp)
    case LightMoved(v) => i.(lightFactor := SliderValue(v))
  }

  /** What the user can do on the page. `Reset` and `Calculate` are buttons
      rendered only in measure mode. */
  datatype Event =
    | TapAt(p: Point)
    | ToggleEvent
    | ResetEvent
    | CalculateEvent(mounted: bool, videoW: real)
    | Change(c: Setting)

  function Step(s: Session, e: Event, m: Maths): (t: Session)
    ensures Valid(s) ==> Valid(t)
    ensures e.ResetEvent? && !s.active ==> t == s
    ensures e.Change? ==> t == s.(settings := ApplySetting(s.settings, e.c))
  {
    match e
    case TapAt(p) => Tap(s, p)
    case ToggleEvent => Toggle(s)
    case ResetEvent => if s.active then ClearPoints(s) else s
    case CalculateEvent(mounted, w) => CalculateStep(s, mounted, w, m)
    case Change(c) => s.(settings := ApplySetting(s.settings, c))
  }

  function Run(s: Session, events: seq<Event>, m: Maths): Session
    decreases |events|
  {
    if events == [] then s else Run(Step(s, events[0], m), events[1..], m)
  }

  /** No sequence of user actions breaks the invariant: there are never more
      than two taps, and every estimate shown has ordered ranges. */
  lemma {:induction false} RunKeepsValid(s: Session, events: seq<Event>, m: Maths)
    requires Valid(s)
    ensures Valid(Run(s, events, m))
    decreases |events|
  {
    if events != [] {
      RunKeepsValid(Step(s, events[0], m), events[1..], m);
    }
  }

  lemma ReachableIsValid(events: seq<Event>, m: Maths)
    ensures |Run(Initial(), events, m).points| <= 2
  {
    RunKeepsValid(Initial(), events, m);
  }

  /** Measure then Cancel leaves measure mode as it was, with no taps and no
      estimate. */
  lemma ToggleTwice(s: Session)
    ensures Toggle(Toggle(s)) == s.(points := [], estimate := None)
  {
  }

  /** The whole measurement from a fresh page: Measure, tap both edges,
      Calculate. */
  lemma MeasureFromStart(a: Point, b: Point, videoW: real, m: Maths)
    ensures Run(Initial(), [ToggleEvent, TapAt(a), TapAt(b), CalculateEvent(true, videoW)], m)
         == Session(false, [a, b],
                    Some(MakeEstimate(PixelLength(a, b, m), videoW, Inputs(200.0, 63.0, Generic, 1.0), m)),
                    Inputs(200.0, 63.0, Generic, 1.0))
  {
    var es := [ToggleEvent, TapAt(a), TapAt(b), CalculateEvent(true, videoW)];
    var s1 := Step(Initial(), ToggleEvent, m);
    var s2 := Step(s1, TapAt(a), m);
    var s3 := Step(s2, TapAt(b), m);
    var s4 := Step(s3, CalculateEvent(true, videoW), m);
    assert s3.points == [a, b];
    assert Run(Initial(), es, m) == Run(s1, es[1..], m);
    assert es[1..][1..] == [TapAt(b), CalculateEvent(true, videoW)];
    assert Run(s1, es[1..], m) == Run(s2, es[1..][1..], m);
    assert Run(s2, es[1..][1..], m) == Run(s3, [CalculateEvent(true, videoW)], m);
    assert Run(s3, [CalculateEvent(true, videoW)], m) == Run(s4, [], m);
  }

  /** A third tap after a complete pair starts a new pair. */
  lemma ThirdTapRestarts(s: Session, a: Point, b: Point, c: Point)
    requires s.active && s.points == []
    ensures Tap(Tap(Tap(s, a), b), c).points == [c]
    ensures Tap(Tap(s, a), b).points == [a, b]
  {
  }

  /** The page's state in the fields its handlers update. */
  class MeasurePage {
    var active: bool
    var points: seq<Point>
    var estimate: Option<EstimateResult>
    var distanceCm: real
    var hFovDeg: real
    var species: Species
    var lightFactor: real

    function Snapshot(): Session
      reads this
    {
      Session(active, points, estimate, Inputs(distanceCm, hFovDeg, species, lightFactor))
    }

    constructor()
      ensures Snapshot() == Initial()
    {
      active := false;
      points := [];
      estimate := None;
      distanceCm := 200.0;
      hFovDeg := 63.0;
      species := Generic;
      lightFactor := 1.0;
    }

    method OnCanvasClick(p: Point)
      modifies this
      ensures Snapshot() == Tap(old(Snapshot()), p)
    {
      if !active {
        return;
      }
      if |points| >= 2 {
        points := [p];
      } else {
        points := points + [p];
      }
    }

    method ToggleMeasure()
      modifies this
      ensures Snapshot() == Toggle(old(Snapshot()))
    {
      active := !active;
      points := [];
      estimate := None;
    }

    method Reset()
      modifies this
      ensures Snapshot() == ClearPoints(old(Snapshot()))
    {
      points := [];
    }

    method Calculate(mounted: bool, videoW: real, m: Maths)
      modifies this
      ensures Snapshot() == CalculateStep(old(Snapshot()), mounted, videoW, m)
    {
      if !active || |points| != 2 {
        return;
      }
      if !mounted {
        return;
      }
      var pxLen := PixelLength(points[0], points[1], m);
      var inputs := Inputs(distanceCm, hFovDeg, species, lightFactor);
      var result := MakeEstimate(pxLen, videoW, inputs, m);
      estimate := Some(result);
      active := false;
    }

    method SetDistance(v: Option<real>)
      modifies this
      ensures Snapshot() == old(Snapshot()).(settings := ApplySetting(old(Snapshot()).settings, DistanceEntered(v)))
    {
      distanceCm := DistanceFromInput(v);
    }

    method SetFov(v: Option<real>)
      modifies this
      ensures Snapshot() == old(Snapshot()).(settings := ApplySetting(old(Snapshot()).settings, FovEntered(v)))
    {
      hFovDeg := FovFromInput(v);
    }

    method ApplyFovPreset(p: real)
      modifies this
      ensures Snapshot() == old(Snapshot()).(settings := ApplySetting(old(Snapshot()).settings, FovPresetChosen(p)))
    {
      hFovDeg := FovPreset(p);
    }

    method SuggestFovByAspect(video: Option<Rect>)
      modifies this
      ensures Snapshot() == old(Snapshot()).(settings := ApplySetting(old(Snapshot()).settings, FovSuggested(video)))
    {
      var guess := FovGuess(video);
      ApplyFovPreset(guess);
    }

    method SetSpecies(sp: Species)
      modifies this
      ensures Snapshot() == old(Snapshot()).(settings := ApplySetting(old(Snapshot()).settings, SpeciesChosen(sp)))
    {
      species := sp;
    }

    method SetLightFactor(v: real)
      modifies this
      ensures Snapshot() == old(Snapshot()).(settings := ApplySetting(old(Snapshot()).settings, LightMoved(v)))
    {
      lightFactor := SliderValue(v);
    }
  }
}
