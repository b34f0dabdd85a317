/**
 * The forecast payload (the OpenWeatherMap One Call 3.0 response as far as
 * this system reads it), signal extraction from one hourly point, and the
 * selection of the hourly points that fall on the current local day.
 */
module Forecast {
  import opened Wrappers
  import opened Text
  import opened LocalTime

  /** One entry of a point's `weather` list. */
  datatype Condition = Condition(description: string)

  /** The `rain` object of a point; `1h` is the volume of the last hour in mm. */
  datatype Precipitation = Precipitation(oneHour: Option<real>)

  /** One element of `hourly`. Optional keys are `Option`s. */
  datatype Point = Point(
    dt: int,
    weather: seq<Condition>,
    pop: Option<real>,
    rain: Option<Precipitation>)

  /** The payload: `timezone_offset` and an optional `hourly` list. */
  datatype WeatherData = WeatherData(timezoneOffset: int, hourly: Option<seq<Point>>)

  /** The point has no `weather[0]` to read a description from. */
  datatype PayloadError = MissingDescription

  /** The three signals the classifier looks at. */
  datatype Keywords = Keywords(description: string, pop: real, rain: real)

  /** extract_keywords: `weather[0].description`, `pop` or 0.0, `rain.1h` or 0.0. */
  function ExtractKeywords(p: Point): (r: Result<Keywords, PayloadError>)
    ensures r.Failure? <==> p.weather == []
    ensures r.Success? ==> r.value.description == p.weather[0].description
    ensures r.Success? && p.pop.None? ==> r.value.pop == 0.0
    ensures r.Success? && p.pop.Some? ==> r.value.pop == p.pop.value
    ensures r.Success? && (p.rain.None? || p.rain.value.oneHour.None?) ==> r.value.rain == 0.0
    ensures r.Success? && p.rain.Some? && p.rain.value.oneHour.Some? ==>
              r.value.rain == p.rain.value.oneHour.value
  {
    if p.weather == [] then Failure(MissingDescription)
    else
      var rain := match p.rain
        case None => 0.0
        case Some(block) => block.oneHour.GetOr(0.0);
      Success(Keywords(p.weather[0].description, p.pop.GetOr(0.0), rain))
  }

  /** Only the first weather entry is ever read. */
  lemma OnlyFirstConditionMatters(p: Point, extra: seq<Condition>)
    requires p.weather != []
    ensures ExtractKeywords(p.(weather := p.weather[..1] + extra)) == ExtractKeywords(p)
  {
  }

  /** An absent `pop`, `rain` or `rain.1h` reads exactly as an explicit 0.0. */
  lemma AbsentSignalsReadAsZero(p: Point)
    ensures ExtractKeywords(p.(pop := None)) == ExtractKeywords(p.(pop := Some(0.0)))
    ensures ExtractKeywords(p.(rain := None)) == ExtractKeywords(p.(rain := Some(Precipitation(Some(0.0)))))
    ensures ExtractKeywords(p.(rain := Some(Precipitation(None)))) == ExtractKeywords(p.(rain := None))
  {
  }

  /** The point's local time lies on the local day of `now`. */
  predicate IsToday(p: Point, offset: int, now: int) {
    InDayOf(ToLocal(p.dt, offset), ToLocal(now, offset))
  }

  /** The list comprehension of extract_today_data over `hourly`. */
  function SelectToday(hourly: seq<Point>, offset: int, now: int): (r: seq<Point>)
    ensures IsSubsequence(r, hourly)
    ensures forall i :: 0 <= i < |r| ==> IsToday(r[i], offset, now)
    decreases |hourly|
  {
    if hourly == [] then []
    else
      var init, last := hourly[..|hourly| - 1], hourly[|hourly| - 1];
      var keep := IsToday(last, offset, now);
      var r := SelectToday(init, offset, now);
      SubsequenceSnoc(r, init, last, keep);
      assert hourly == init + [last];
      if keep then r + [last] else r
  }

  /**
   * extract_today_data: the hourly points on the local day of `now`, in their
   * original order; a payload without `hourly` selects nothing.
   */
  function ExtractTodayData(data: WeatherData, now: int): (r: seq<Point>)
    ensures data.hourly.None? ==> r == []
    ensures data.hourly.Some? ==> IsSubsequence(r, data.hourly.value)
    ensures forall i :: 0 <= i < |r| ==>
              DayIndex(ToLocal(r[i].dt, data.timezoneOffset)) == DayIndex(ToLocal(now, data.timezoneOffset))
    ensures data.hourly.Some? ==> forall p :: p in data.hourly.value ==>
              (DayIndex(ToLocal(p.dt, data.timezoneOffset)) == DayIndex(ToLocal(now, data.timezoneOffset)) ==> p in r)
  {
    var r := SelectToday(data.hourly.GetOr([]), data.timezoneOffset, now);
    forall i | 0 <= i < |r|
      ensures DayIndex(ToLocal(r[i].dt, data.timezoneOffset)) == DayIndex(ToLocal(now, data.timezoneOffset))
    {
      InDayOfIffSameDay(ToLocal(r[i].dt, data.timezoneOffset), ToLocal(now, data.timezoneOffset));
    }
    forall p | p in data.hourly.GetOr([])
      ensures p in r <==> DayIndex(ToLocal(p.dt, data.timezoneOffset)) == DayIndex(ToLocal(now, data.timezoneOffset))
    {
      SelectedIffToday(data.hourly.GetOr([]), data.timezoneOffset, now, p);
    }
    r
  }

  /** Selecting from one more point appends it when it lies on today's local day. */
  lemma SelectTodayStep(hourly: seq<Point>, k: nat, offset: int, now: int)
    requires k < |hourly|
    ensures SelectToday(hourly[..k + 1], offset, now) ==
              SelectToday(hourly[..k], offset, now) + (if IsToday(hourly[k], offset, now) then [hourly[k]] else [])
  {
    assert hourly[..k + 1][..k] == hourly[..k];
  }

  /**
   * Nothing of today is dropped: each point of today occurs as often in
   * the selection as in `hourly`, and no other point occurs in it.
   */
  lemma {:induction false} SelectTodayCounts(hourly: seq<Point>, offset: int, now: int, p: Point)
    ensures multiset(SelectToday(hourly, offset, now))[p] ==
              if IsToday(p, offset, now) then multiset(hourly)[p] else 0
    decreases |hourly|
  {
    if hourly != [] {
      var init, last := hourly[..|hourly| - 1], hourly[|hourly| - 1];
      SelectTodayCounts(init, offset, now, p);
      assert hourly == init + [last];
    }
  }

  /** A point is selected exactly when it lies on today's local day. */
  lemma SelectedIffToday(hourly: seq<Point>, offset: int, now: int, p: Point)
    requires p in hourly
    ensures p in SelectToday(hourly, offset, now) <==>
              DayIndex(ToLocal(p.dt, offset)) == DayIndex(ToLocal(now, offset))
  {
    InDayOfIffSameDay(ToLocal(p.dt, offset), ToLocal(now, offset));
    SelectTodayCounts(hourly, offset, now, p);
    var r := SelectToday(hourly, offset, now);
    assert multiset(hourly)[p] > 0;
    assert p in r <==> multiset(r)[p] > 0;
  }
}
