/**
 * Worked days: a UTC+8 day with a light, a heavy and a cloudy hour plus
 * points on the neighbouring days, and a payload without hourly data.
 */
module Scenarios {
  import opened Wrappers
  import opened Text
  import opened LocalTime
  import opened Forecast
  import opened Classifier
  import opened Aggregator

  const Offset: int := 28800            // UTC+8
  const Midnight: int := 1748707200     // local 00:00 of the day, as a UTC timestamp
  const Now: int := Midnight + 8 * 3600 // local 08:00

  function RainPoint(dt: int, description: string, pop: real, rain: real): Point {
    Point(dt, [Condition(description)], Some(pop), Some(Precipitation(Some(rain))))
  }

  const LateYesterday: Point := RainPoint(Midnight - 3600, "heavy rain", 0.9, 9.0)
  const Morning: Point := RainPoint(Midnight + 9 * 3600, "light rain", 0.3, 0.5)
  const Afternoon: Point := RainPoint(Midnight + 14 * 3600, "heavy rain", 0.5, 5.0)
  const Evening: Point := RainPoint(Midnight + 18 * 3600, "cloudy", 0.9, 0.0)
  const LastSecond: Point := RainPoint(Midnight + 86399, "cloudy", 0.0, 0.0)
  const NextMidnight: Point := RainPoint(Midnight + 86400, "heavy rain", 0.9, 9.0)

  const Day: WeatherData :=
    WeatherData(Offset, Some([LateYesterday, Morning, Afternoon, Evening, LastSecond, NextMidnight]))

  lemma WhichPointsAreToday()
    ensures !IsToday(LateYesterday, Offset, Now) && !IsToday(NextMidnight, Offset, Now)
    ensures IsToday(Morning, Offset, Now) && IsToday(Afternoon, Offset, Now)
    ensures IsToday(Evening, Offset, Now) && IsToday(LastSecond, Offset, Now)
  {
    assert DayStart(Now + Offset) == Midnight + Offset;
  }

  /** Six points of which only the middle four lie on today's local day. */
  lemma WindowOfMiddleFour(hourly: seq<Point>, offset: int, now: int)
    requires |hourly| == 6
    requires !IsToday(hourly[0], offset, now) && !IsToday(hourly[5], offset, now)
    requires forall i :: 1 <= i < 5 ==> IsToday(hourly[i], offset, now)
    ensures SelectToday(hourly, offset, now) == hourly[1..5]
  {
    assert hourly[..0] == [];
    SelectTodayStep(hourly, 0, offset, now);
    SelectTodayStep(hourly, 1, offset, now);
    assert SelectToday(hourly[..2], offset, now) == hourly[1..2];
    SelectTodayStep(hourly, 2, offset, now);
    assert SelectToday(hourly[..3], offset, now) == hourly[1..3];
    SelectTodayStep(hourly, 3, offset, now);
    assert SelectToday(hourly[..4], offset, now) == hourly[1..4];
    SelectTodayStep(hourly, 4, offset, now);
    assert SelectToday(hourly[..5], offset, now) == hourly[1..5];
    SelectTodayStep(hourly, 5, offset, now);
    assert hourly[..6] == hourly;
  }

  /** The window keeps the four points of the local day, including 23:59:59. */
  lemma DayWindow()
    ensures ExtractTodayData(Day, Now) == [Morning, Afternoon, Evening, LastSecond]
  {
    WhichPointsAreToday();
    var hourly := Day.hourly.value;
    WindowOfMiddleFour(hourly, Offset, Now);
    assert hourly[1..5] == [Morning, Afternoon, Evening, LastSecond];
  }

  lemma RainDescriptionsPassGate()
    ensures MentionsRain("light rain") && MentionsRain("heavy rain")
  {
    LowerOfLowerIsIdentity("rain");
    assert "light rain"[6..10] == "rain";
    RainWordPassesGate("light rain", 6);
    assert "heavy rain"[6..10] == "rain";
    RainWordPassesGate("heavy rain", 6);
  }

  lemma CloudyFailsGate()
    ensures !MentionsRain("cloudy")
  {
    var d := "cloudy";
    forall i | 0 <= i < |d|
      ensures LowerChar(d[i]) !in {'r', '雨', '雷'}
    {
      assert i == 0 || i == 1 || i == 2 || i == 3 || i == 4 || i == 5;
    }
    NoKeywordCharactersFailGate(d);
  }

  /** Four points that all classify give four classified hours. */
  lemma ClassifyFour(ps: seq<Point>, offset: int, hs: seq<Hour>)
    requires |ps| == 4 && |hs| == 4
    requires forall i :: 0 <= i < 4 ==> Classify(ps[i], offset) == Success(hs[i])
    ensures ClassifyAll(ps, offset) == Some(hs)
  {
    assert ps[..0] == [];
    ClassifyPrefixStep(ps, 0, offset, []);
    assert [] + [hs[0]] == hs[..1];
    ClassifyPrefixStep(ps, 1, offset, hs[..1]);
    assert hs[..1] + [hs[1]] == hs[..2];
    ClassifyPrefixStep(ps, 2, offset, hs[..2]);
    assert hs[..2] + [hs[2]] == hs[..3];
    ClassifyPrefixStep(ps, 3, offset, hs[..3]);
    assert hs[..3] + [hs[3]] == hs;
    assert ps[..4] == ps;
  }

  // The local instants of the four points of the day, as literals.
  lemma Labels()
    ensures Label(1748768400) == "09:00" && Label(1748786400) == "14:00"
    ensures Label(1748800800) == "18:00" && Label(1748822399) == "23:59"
  {
  }

  lemma MorningIsLight()
    ensures Classify(Morning, Offset) == Success(Hour("09:00", Light, 0.5))
  {
    RainDescriptionsPassGate();
    assert ExtractKeywords(Morning) == Success(Keywords("light rain", 0.3, 0.5));
    assert ToLocal(Morning.dt, Offset) == 1748768400;
    Labels();
  }

  lemma AfternoonIsHeavy()
    ensures Classify(Afternoon, Offset) == Success(Hour("14:00", Heavy, 5.0))
  {
    RainDescriptionsPassGate();
    assert ExtractKeywords(Afternoon) == Success(Keywords("heavy rain", 0.5, 5.0));
    assert ToLocal(Afternoon.dt, Offset) == 1748786400;
    Labels();
  }

  lemma EveningIsDry()
    ensures Classify(Evening, Offset) == Success(Hour("18:00", No, 0.0))
  {
    CloudyFailsGate();
    assert ExtractKeywords(Evening) == Success(Keywords("cloudy", 0.9, 0.0));
    assert ToLocal(Evening.dt, Offset) == 1748800800;
    Labels();
  }

  lemma LastSecondIsDry()
    ensures Classify(LastSecond, Offset) == Success(Hour("23:59", No, 0.0))
  {
    CloudyFailsGate();
    assert ExtractKeywords(LastSecond) == Success(Keywords("cloudy", 0.0, 0.0));
    assert ToLocal(LastSecond.dt, Offset) == 1748822399;
    Labels();
  }

  const ExpectedHours: seq<Hour> := [
    Hour("09:00", Light, 0.5), Hour("14:00", Heavy, 5.0), Hour("18:00", No, 0.0), Hour("23:59", No, 0.0)]

  lemma DayClassification()
    ensures ClassifyAll(ExtractTodayData(Day, Now), Offset) == Some(ExpectedHours)
  {
    DayWindow();
    MorningIsLight();
    AfternoonIsHeavy();
    EveningIsDry();
    LastSecondIsDry();
    var ps := [Morning, Afternoon, Evening, LastSecond];
    var hs := ExpectedHours;
    forall i | 0 <= i < 4
      ensures Classify(ps[i], Offset) == Success(hs[i])
    {
      assert i == 0 || i == 1 || i == 2 || i == 3;
    }
    ClassifyFour(ps, Offset, hs);
  }

  /**
   * A light hour, then a heavier rain hour with more rain, then two dry
   * hours: both rain hours are listed, the second is the peak and the worst.
   */
  lemma LightThenHeavySummary(hs: seq<Hour>)
    requires |hs| == 4
    requires hs[0].level == Light && hs[1].level == Heavy && hs[2].level == No && hs[3].level == No
    requires 0.0 < hs[0].amount < hs[1].amount
    ensures Summarizes(
      RainInfo(true, [hs[0].time, hs[1].time], Levels([hs[0].time], [], [hs[1].time]), PeakOf(hs[1]), Summary(2, Heavy)),
      hs)
  {
    var t0, t1 := hs[0].time, hs[1].time;
    var h1 := [hs[0]];
    var h2 := h1 + [hs[1]];
    var h3 := h2 + [hs[2]];
    assert h3 + [hs[3]] == hs;
    var empty := Levels([], [], []);
    assert Accumulated([], false, [], empty, 0, NoPeak, 0.0, -1);
    AccumulateRainHour([], hs[0], false, [], empty, 0, NoPeak, 0.0, -1);
    var l1 := empty.Append(Light, t0);
    AccumulateRainHour(h1, hs[1], true, [t0], l1, 1, PeakOf(hs[0]), hs[0].amount, 0);
    var l2 := l1.Append(Heavy, t1);
    AccumulateDryHour(h2, hs[2], true, [t0, t1], l2, 2, PeakOf(hs[1]), hs[1].amount, 1);
    AccumulateDryHour(h3, hs[3], true, [t0, t1], l2, 2, PeakOf(hs[1]), hs[1].amount, 1);
    WorstByPrecedenceIsWorst(hs);
    PeakTrackedIsPeak(hs, PeakOf(hs[1]), hs[1].amount, 1);
  }

  const ExpectedInfo: RainInfo := RainInfo(
    true,
    ["09:00", "14:00"],
    Levels(["09:00"], [], ["14:00"]),
    Peak(Some("14:00"), Heavy, 5.0),
    Summary(2, Heavy))

  /**
   * The light morning and heavy afternoon are the rain hours, the afternoon
   * is the peak and the worst level; the cloudy hours are dry.
   */
  lemma DaySummary(info: RainInfo)
    requires ClassifyAll(ExtractTodayData(Day, Now), Offset).Some?
    requires Summarizes(info, ClassifyAll(ExtractTodayData(Day, Now), Offset).value)
    ensures info == ExpectedInfo
  {
    DayClassification();
    LightThenHeavySummary(ExpectedHours);
    SummaryIsUnique(info, ExpectedInfo, ExpectedHours);
  }

  /** A payload without hourly data summarises to "no rain". */
  lemma EmptyForecast(data: WeatherData, now: int, info: RainInfo)
    requires data.hourly.None?
    requires ClassifyAll(ExtractTodayData(data, now), data.timezoneOffset).Some?
    requires Summarizes(info, ClassifyAll(ExtractTodayData(data, now), data.timezoneOffset).value)
    ensures info == RainInfo(false, [], Levels([], [], []), NoPeak, Summary(0, No))
  {
    assert ExtractTodayData(data, now) == [];
    var empty := RainInfo(false, [], Levels([], [], []), NoPeak, Summary(0, No));
    assert Summarizes(empty, []);
    SummaryIsUnique(info, empty, []);
  }
}
