/** The route list (src/app/built-in-routes/page.tsx): the built-in routes
    in order of walking time, the walking time as text, the air-quality dot
    colour, and the busy-guarded Start button. */
module Routes {
  import opened Basics
  import opened Text
  import opened Sequences

  datatype Route = Route(id: string, name: string, durationMinutes: int, distanceKm: real, aqiTag: string)

  /** `ROUTES`. */
  function Catalogue(): seq<Route> {
    [ Route("river-greenway", "River Greenway", 25, 2.4, "Good"),
      Route("old-town-park-loop", "Old Town Park Loop", 40, 3.8, "Great"),
      Route("museum-to-garden", "Museum → Botanical Garden", 55, 4.6, "Good"),
      Route("hilltop-canopy-walk", "Hilltop Canopy Walk", 80, 6.2, "Excellent") ]
  }

  function Duration(r: Route): int { r.durationMinutes }

  /** `sorted`: the routes by ascending walking time. */
  function SortedRoutes(): (rs: seq<Route>)
    ensures SortedBy(rs, Duration) && multiset(rs) == multiset(Catalogue())
  {
    SortBy(Catalogue(), Duration)
  }

  /** The routes are listed shortest first already. */
  lemma SortedRoutesIsCatalogue()
    ensures SortedRoutes() == Catalogue()
  {
    var c := Catalogue();
    assert SortedBy(c, Duration) by {
      forall i, j | 0 <= i < j < |c| ensures Duration(c[i]) <= Duration(c[j]) {
      }
    }
    SortBySorted(c, Duration);
  }

  /** `formatMinutes` for a whole number of minutes: under an hour
      "`n` min"; otherwise the hours, then the remaining minutes when there
      are any. */
  function FormatMinutes(mins: int): (s: string)
    ensures mins < 60 ==> s == DecimalString(mins) + " min"
    ensures mins >= 60 && mins % 60 == 0 ==> s == DecimalString(mins / 60) + " hr"
    ensures mins >= 60 && mins % 60 != 0 ==>
      s == DecimalString(mins / 60) + " hr " + DecimalString(mins % 60) + " min"
  {
    if mins < 60 then DecimalString(mins) + " min"
    else
      var h := mins / 60;
      var m := mins % 60;
      if m != 0 then DecimalString(h) + " hr " + DecimalString(m) + " min"
      else DecimalString(h) + " hr"
  }

  /** The hour/minute split `formatMinutes` uses. */
  lemma HoursAndMinutes(mins: int)
    requires mins >= 60
    ensures 60 * (mins / 60) + mins % 60 == mins && 0 <= mins % 60 < 60 && mins / 60 >= 1
  {
  }

  /** A leading run of decimal digits followed by `tail`, read back as a
      number: `None` if there is no digit, else the value and what follows. */
  function ReadNumber(s: string): (r: Option<(nat, string)>)
    ensures r.Some? ==> |r.value.1| < |s|
  {
    var k := DigitRun(s, 10);
    if k == 0 then None
    else Some((ValueOf(s[..k], 10), s[k..]))
  }

  /** Reads back a walking time as `FormatMinutes` writes it. */
  function ParseMinutes(s: string): (r: Option<int>)
  {
    match ReadNumber(s)
    case None => None
    case Some((first, rest)) =>
      if rest == " min" then Some(first)
      else if rest == " hr" then Some(60 * first)
      else AfterHours(first, rest)
  }

  /** The " hr `m` min" ending. */
  function AfterHours(hours: nat, rest: string): Option<int> {
    if |rest| >= 4 && rest[..4] == " hr " then
      match ReadNumber(rest[4..])
      case None => None
      case Some((minutes, tail)) => if tail == " min" then Some(60 * hours + minutes) else None
    else None
  }

  lemma {:induction false} DigitRunOfPrefix(digits: string, tail: string)
    requires AllDigits(digits, 10)
    requires tail == [] || !IsDigitIn(tail[0], 10)
    ensures DigitRun(digits + tail, 10) == |digits|
  {
    if digits != [] {
      assert (digits + tail)[1..] == digits[1..] + tail;
      DigitRunOfPrefix(digits[1..], tail);
    }
  }

  /** A decimal numeral followed by a text starting with a space is read
      back as the number and the text. */
  lemma ReadNumeral(n: nat, tail: string)
    requires |tail| > 0 && tail[0] == ' '
    ensures ReadNumber(FormatNat(n, 10) + tail) == Some((n, tail))
  {
    var d := FormatNat(n, 10);
    DigitRunOfPrefix(d, tail);
    assert (d + tail)[..|d|] == d;
    assert (d + tail)[|d|..] == tail;
  }

  lemma ParseUnderAnHour(mins: nat)
    requires mins < 60
    ensures ParseMinutes(FormatMinutes(mins)) == Some(mins)
  {
    ReadNumeral(mins, " min");
  }

  lemma ParseWholeHours(mins: nat)
    requires mins >= 60 && mins % 60 == 0
    ensures ParseMinutes(FormatMinutes(mins)) == Some(mins)
  {
    ReadNumeral(mins / 60, " hr");
  }

  lemma AfterHoursReads(hours: nat, minutes: nat, digits: string)
    requires ReadNumber(digits + " min") == Some((minutes, " min"))
    ensures AfterHours(hours, " hr " + digits + " min") == Some(60 * hours + minutes)
  {
    var rest := " hr " + digits + " min";
    assert rest[..4] == " hr ";
    assert rest[4..] == digits + " min";
  }

  lemma ParseHoursThenMinutes(h: nat, m: nat)
    ensures ParseMinutes(FormatNat(h, 10) + (" hr " + FormatNat(m, 10) + " min")) == Some(60 * h + m)
  {
    var d := FormatNat(m, 10);
    var tail := " hr " + d + " min";
    ReadNumeral(h, tail);
    assert |tail| > 4 && tail != " min" && tail != " hr";
    ReadNumeral(m, " min");
    AfterHoursReads(h, m, d);
  }

  /** The text of a time with hours and minutes, grouped for parsing. */
  lemma HoursAndMinutesText(mins: nat, h: nat, m: nat)
    requires mins >= 60 && mins % 60 != 0 && h == mins / 60 && m == mins % 60
    ensures FormatMinutes(mins) == FormatNat(h, 10) + (" hr " + FormatNat(m, 10) + " min")
  {
    assert DecimalString(h) == FormatNat(h, 10) && DecimalString(m) == FormatNat(m, 10);
  }

  lemma ParseHoursAndMinutes(mins: nat)
    requires mins >= 60 && mins % 60 != 0
    ensures ParseMinutes(FormatMinutes(mins)) == Some(mins)
  {
    var h: nat, m: nat := mins / 60, mins % 60;
    HoursAndMinutes(mins);
    HoursAndMinutesText(mins, h, m);
    ParseHoursThenMinutes(h, m);
  }

  /** `ParseMinutes` undoes `FormatMinutes`, so every walking time has its
      own text. */
  lemma ParseFormatMinutes(mins: nat)
    ensures ParseMinutes(FormatMinutes(mins)) == Some(mins)
  {
    if mins < 60 {
      ParseUnderAnHour(mins);
    } else if mins % 60 == 0 {
      ParseWholeHours(mins);
    } else {
      ParseHoursAndMinutes(mins);
    }
  }

  lemma FormatMinutesInjective(a: nat, b: nat)
    requires FormatMinutes(a) == FormatMinutes(b)
    ensures a == b
  {
    ParseFormatMinutes(a);
    ParseFormatMinutes(b);
  }

  /** `AqiDot`'s colour class. */
  datatype DotColour = BrandGreen | Emerald | Grey

  function AqiDotColour(aqi: string): (c: DotColour)
    ensures c == BrandGreen <==> aqi == "Excellent" || aqi == "Great"
    ensures c == Emerald <==> aqi == "Good"
    ensures c == Grey <==> aqi != "Excellent" && aqi != "Great" && aqi != "Good"
  {
    if aqi == "Excellent" then BrandGreen
    else if aqi == "Great" then BrandGreen
    else if aqi == "Good" then Emerald
    else Grey
  }

  /** `if (busyId)`. */
  predicate Busy(busyId: Option<string>) {
    busyId.Some? && busyId.value != ""
  }

  /** The Start button is disabled for the route being started. */
  predicate StartDisabled(busyId: Option<string>, r: Route) {
    busyId == Some(r.id)
  }

  /** The page's start state: the busy route and, while the preparation
      waits, the route it will open. */
  datatype Starter = Starter(busyId: Option<string>, pending: Option<string>)

  /** `handleStart` up to the simulated preparation: ignored while busy,
      otherwise the route becomes busy. */
  function BeginStart(s: Starter, routeId: string): (t: Starter)
    ensures Busy(s.busyId) ==> t == s
    ensures !Busy(s.busyId) ==> t == Starter(Some(routeId), Some(routeId))
  {
    if Busy(s.busyId) then s else Starter(Some(routeId), Some(routeId))
  }

  /** ... and after it: the busy flag is cleared and the pending route is
      opened (the navigation target is the route id). */
  function FinishStart(s: Starter): (r: (Starter, Option<string>))
    ensures r.0.busyId.None? && r.0.pending.None?
    ensures r.1 == s.pending
  {
    (Starter(None, None), s.pending)
  }

  /** A whole start from a page that is not preparing another route. */
  function Start(s: Starter, routeId: string): (r: (Starter, Option<string>))
    requires s.pending.None?
    ensures Busy(s.busyId) ==> r == (s, None)
    ensures !Busy(s.busyId) ==> r == (Starter(None, None), Some(routeId))
  {
    var b := BeginStart(s, routeId);
    if b.pending.Some? then FinishStart(b) else (b, None)
  }

  /** While one route is being prepared, a second Start opens nothing and
      the first route is still the one that opens. */
  lemma SecondStartIgnored(id1: string, id2: string)
    requires id1 != ""
    ensures FinishStart(BeginStart(BeginStart(Starter(None, None), id1), id2)).1 == Some(id1)
  {
  }

  class RoutesPage {
    var busyId: Option<string>

    constructor()
      ensures busyId.None?
    {
      busyId := None;
    }

    /** The handler's steps in order, the simulated preparation resolving at
        once; `nav` is the route to open. */
    method HandleStart(routeId: string) returns (nav: Option<string>)
      modifies this
      ensures (Starter(busyId, None), nav) == Start(Starter(old(busyId), None), routeId)
    {
      if Busy(busyId) {
        return None;
      }
      busyId := Some(routeId);
      busyId := None;
      nav := Some(routeId);
    }
  }
}
