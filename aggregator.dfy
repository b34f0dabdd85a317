/**
 * The rain aggregator (rain_process): classifies today's hourly points and
 * folds them into a rain summary: the rain hours, the hours per level, the
 * peak hour, the number of rain hours and the worst level.
 */
module Aggregator {
  import opened Wrappers
  import opened Text
  import opened LocalTime
  import opened Forecast
  import opened Classifier

  /** A classified hour: its local "HH:MM" label, its level and its rain volume. */
  datatype Hour = Hour(time: string, level: Level, amount: real)

  predicate IsRainy(h: Hour) {
    h.level != No
  }

  /** Classifies one hourly point; fails where extract_keywords raises. */
  function Classify(p: Point, offset: int): (r: Result<Hour, PayloadError>)
    ensures r.Failure? <==> p.weather == []
    ensures r.Success? ==> r.value.time == Label(ToLocal(p.dt, offset))
  {
    match ExtractKeywords(p)
    case Failure(e) => Failure(e)
    case Success(k) => Success(Hour(Label(ToLocal(p.dt, offset)), WillRain(k.description, k.pop, k.rain), k.rain))
  }

  /** Classifies every point, or fails if any point has no weather entry. */
  function ClassifyAll(ps: seq<Point>, offset: int): (r: Option<seq<Hour>>)
    ensures r.None? <==> exists i :: 0 <= i < |ps| && ps[i].weather == []
    ensures r.Some? ==> |r.value| == |ps|
    ensures r.Some? ==> forall i :: 0 <= i < |ps| ==> Classify(ps[i], offset) == Success(r.value[i])
    decreases |ps|
  {
    if ps == [] then Some([])
    else
      var init, last := ps[..|ps| - 1], ps[|ps| - 1];
      assert forall i :: 0 <= i < |init| ==> init[i] == ps[i];
      match ClassifyAll(init, offset)
      case None => None
      case Some(hs) =>
        match Classify(last, offset)
        case Failure(_) => None
        case Success(h) => Some(hs + [h])
  }

  /** The labels of the rain hours, in order. */
  function RainHours(hs: seq<Hour>): seq<string>
    decreases |hs|
  {
    if hs == [] then []
    else
      var last := hs[|hs| - 1];
      RainHours(hs[..|hs| - 1]) + (if IsRainy(last) then [last.time] else [])
  }

  /** The labels of the hours of level `l`, in order. */
  function Bucket(hs: seq<Hour>, l: Level): seq<string>
    decreases |hs|
  {
    if hs == [] then []
    else
      var last := hs[|hs| - 1];
      Bucket(hs[..|hs| - 1], l) + (if last.level == l then [last.time] else [])
  }

  /** The most severe level among the hours, No when there are none. */
  function Worst(hs: seq<Hour>): (w: Level)
    ensures forall i :: 0 <= i < |hs| ==> Rank(hs[i].level) <= Rank(w)
    ensures w == No || exists i :: 0 <= i < |hs| && hs[i].level == w
    decreases |hs|
  {
    if hs == [] then No
    else
      var init := hs[..|hs| - 1];
      assert forall i :: 0 <= i < |init| ==> init[i] == hs[i];
      MaxLevel2(Worst(init), hs[|hs| - 1].level)
  }

  /** The `rain_levels` dictionary: one bucket of labels per level above No. */
  datatype Levels = Levels(light: seq<string>, moderate: seq<string>, heavy: seq<string>) {
    function At(l: Level): seq<string>
      requires l != No
    {
      match l
      case Light => light
      case Moderate => moderate
      case Heavy => heavy
    }

    function Append(l: Level, time: string): (r: Levels)
      requires l != No
      ensures r.At(l) == At(l) + [time]
      ensures forall m :: m != No && m != l ==> r.At(m) == At(m)
    {
      match l
      case Light => this.(light := light + [time])
      case Moderate => this.(moderate := moderate + [time])
      case Heavy => this.(heavy := heavy + [time])
    }
  }

  /** `peak_rain`: the time (None before any peak), level and amount. */
  datatype Peak = Peak(time: Option<string>, level: Level, amount: real)

  const NoPeak: Peak := Peak(None, No, 0.0)

  datatype Summary = Summary(totalHours: nat, worstLevel: Level)

  /** The dictionary rain_process returns. */
  datatype RainInfo = RainInfo(
    hasRain: bool,
    rainHours: seq<string>,
    rainLevels: Levels,
    peakRain: Peak,
    summary: Summary)

  function PeakOf(h: Hour): Peak {
    Peak(Some(h.time), h.level, h.amount)
  }

  /**
   * Hour `i` is the peak: a rain hour with a positive volume that no rain
   * hour exceeds and that every earlier rain hour falls short of.
   */
  ghost predicate PeakAt(hs: seq<Hour>, i: int) {
    && 0 <= i < |hs|
    && IsRainy(hs[i])
    && hs[i].amount > 0.0
    && (forall j :: 0 <= j < |hs| && IsRainy(hs[j]) ==> hs[j].amount <= hs[i].amount)
    && (forall j :: 0 <= j < i && IsRainy(hs[j]) ==> hs[j].amount < hs[i].amount)
  }

  /** `pk` is the peak of `hs`, or NoPeak when no rain hour has a positive volume. */
  ghost predicate IsPeak(hs: seq<Hour>, pk: Peak) {
    if forall j :: 0 <= j < |hs| && IsRainy(hs[j]) ==> hs[j].amount <= 0.0 then pk == NoPeak
    else exists i :: PeakAt(hs, i) && pk == PeakOf(hs[i])
  }

  /** What rain_process promises about its result for the classified hours `hs`. */
  ghost predicate Summarizes(info: RainInfo, hs: seq<Hour>) {
    && info.rainHours == RainHours(hs)
    && info.rainLevels == Levels(Bucket(hs, Light), Bucket(hs, Moderate), Bucket(hs, Heavy))
    && info.summary.totalHours == |info.rainHours|
    && info.hasRain == (info.rainHours != [])
    && IsPeak(hs, info.peakRain)
    && info.summary.worstLevel == Worst(hs)
  }

  /** The worst level by bucket precedence Heavy, Moderate, Light, else No. */
  function WorstByPrecedence(levels: Levels): Level {
    if levels.heavy != [] then Heavy
    else if levels.moderate != [] then Moderate
    else if levels.light != [] then Light
    else No
  }

  /**
   * The peak bookkeeping of the loop after the hours `hs`: the running
   * maximum is the peak's amount, bounds every rain hour's volume, and the
   * peak is the hour at `index` (or NoPeak while `index` is -1).
   */
  ghost predicate PeakTracked(hs: seq<Hour>, peak: Peak, maxAmount: real, index: int) {
    && maxAmount == peak.amount
    && maxAmount >= 0.0
    && (forall j :: 0 <= j < |hs| && IsRainy(hs[j]) ==> hs[j].amount <= maxAmount)
    && (index == -1 ==> peak == NoPeak)
    && (index != -1 ==> PeakAt(hs, index) && peak == PeakOf(hs[index]))
  }

  /** A rain hour whose volume beats the running maximum becomes the peak. */
  lemma PeakTrackedNewPeak(hs: seq<Hour>, h: Hour, peak: Peak, maxAmount: real, index: int)
    requires PeakTracked(hs, peak, maxAmount, index)
    requires IsRainy(h) && h.amount > maxAmount
    ensures PeakTracked(hs + [h], PeakOf(h), h.amount, |hs|)
  {
    var hs' := hs + [h];
    assert forall j :: 0 <= j < |hs| ==> hs'[j] == hs[j];
  }

  /** Any other hour leaves the peak where it was. */
  lemma PeakTrackedKeep(hs: seq<Hour>, h: Hour, peak: Peak, maxAmount: real, index: int)
    requires PeakTracked(hs, peak, maxAmount, index)
    requires !(IsRainy(h) && h.amount > maxAmount)
    ensures PeakTracked(hs + [h], peak, maxAmount, index)
  {
    var hs' := hs + [h];
    assert forall j :: 0 <= j < |hs| ==> hs'[j] == hs[j];
  }

  lemma PeakTrackedIsPeak(hs: seq<Hour>, peak: Peak, maxAmount: real, index: int)
    requires PeakTracked(hs, peak, maxAmount, index)
    ensures IsPeak(hs, peak)
  {
    if index != -1 {
      assert IsRainy(hs[index]) && hs[index].amount > 0.0;
    }
  }

  /** Extending the points by one extends the classified hours by one. */
  lemma ClassifyPrefixStep(ps: seq<Point>, k: nat, offset: int, hs: seq<Hour>)
    requires k < |ps| && ClassifyAll(ps[..k], offset) == Some(hs)
    ensures ps[k].weather == [] ==> ClassifyAll(ps, offset).None?
    ensures ps[k].weather != [] ==> ClassifyAll(ps[..k + 1], offset) == Some(hs + [Classify(ps[k], offset).value])
  {
    assert ps[..k + 1][..k] == ps[..k];
  }

  /**
   * The state of rain_process's loop after the hours `hs`: every variable
   * it updates agrees with the summary of `hs`.
   */
  ghost predicate Accumulated(
    hs: seq<Hour>, hasRain: bool, rainHours: seq<string>, rainLevels: Levels, totalHours: nat,
    peakRain: Peak, maxRainAmount: real, peakIndex: int)
  {
    && rainHours == RainHours(hs)
    && rainLevels == Levels(Bucket(hs, Light), Bucket(hs, Moderate), Bucket(hs, Heavy))
    && totalHours == |rainHours|
    && hasRain == (rainHours != [])
    && PeakTracked(hs, peakRain, maxRainAmount, peakIndex)
  }

  /** An hour classified No changes nothing. */
  lemma AccumulateDryHour(
    hs: seq<Hour>, h: Hour, hasRain: bool, rainHours: seq<string>, rainLevels: Levels, totalHours: nat,
    peakRain: Peak, maxRainAmount: real, peakIndex: int)
    requires Accumulated(hs, hasRain, rainHours, rainLevels, totalHours, peakRain, maxRainAmount, peakIndex)
    requires !IsRainy(h)
    ensures Accumulated(hs + [h], hasRain, rainHours, rainLevels, totalHours, peakRain, maxRainAmount, peakIndex)
  {
    assert (hs + [h])[..|hs|] == hs;
    PeakTrackedKeep(hs, h, peakRain, maxRainAmount, peakIndex);
  }

  /** A rain hour's label joins its own level's bucket and no other. */
  lemma BucketsStep(hs: seq<Hour>, h: Hour, levels: Levels)
    requires levels == Levels(Bucket(hs, Light), Bucket(hs, Moderate), Bucket(hs, Heavy))
    requires IsRainy(h)
    ensures levels.Append(h.level, h.time) ==
      Levels(Bucket(hs + [h], Light), Bucket(hs + [h], Moderate), Bucket(hs + [h], Heavy))
  {
    assert (hs + [h])[..|hs|] == hs;
  }

  /** A rain hour is appended to the rain hours and its level's bucket, and may become the peak. */
  lemma AccumulateRainHour(
    hs: seq<Hour>, h: Hour, hasRain: bool, rainHours: seq<string>, rainLevels: Levels, totalHours: nat,
    peakRain: Peak, maxRainAmount: real, peakIndex: int)
    requires Accumulated(hs, hasRain, rainHours, rainLevels, totalHours, peakRain, maxRainAmount, peakIndex)
    requires IsRainy(h)
    ensures var newPeak := h.amount > maxRainAmount;
      Accumulated(hs + [h], true, rainHours + [h.time], rainLevels.Append(h.level, h.time), totalHours + 1,
        if newPeak then PeakOf(h) else peakRain,
        if newPeak then h.amount else maxRainAmount,
        if newPeak then |hs| else peakIndex)
  {
    assert (hs + [h])[..|hs|] == hs;
    BucketsStep(hs, h, rainLevels);
    if h.amount > maxRainAmount {
      PeakTrackedNewPeak(hs, h, peakRain, maxRainAmount, peakIndex);
    } else {
      PeakTrackedKeep(hs, h, peakRain, maxRainAmount, peakIndex);
    }
  }

  /** Once every hour is accumulated, the loop's variables and the worst level form the summary. */
  lemma AccumulatedSummarizes(
    hs: seq<Hour>, hasRain: bool, rainHours: seq<string>, rainLevels: Levels, totalHours: nat,
    peakRain: Peak, maxRainAmount: real, peakIndex: int)
    requires Accumulated(hs, hasRain, rainHours, rainLevels, totalHours, peakRain, maxRainAmount, peakIndex)
    ensures Summarizes(
      RainInfo(hasRain, rainHours, rainLevels, peakRain, Summary(totalHours, WorstByPrecedence(rainLevels))), hs)
  {
    WorstByPrecedenceIsWorst(hs);
    PeakTrackedIsPeak(hs, peakRain, maxRainAmount, peakIndex);
  }

  /**
   * rain_process. Fails when one of today's points has no weather entry;
   * otherwise returns the summary of today's classified hours.
   */
  method RainProcess(data: WeatherData, now: int) returns (r: Result<RainInfo, PayloadError>)
    ensures var hours := ClassifyAll(ExtractTodayData(data, now), data.timezoneOffset);
            (r.Failure? <==> hours.None?) && (r.Success? ==> Summarizes(r.value, hours.value))
  {
    var offset := data.timezoneOffset;
    var today := ExtractTodayData(data, now);
    var maxRainAmount := 0.0;
    var hasRain := false;
    var rainHours: seq<string> := [];
    var rainLevels := Levels([], [], []);
    var peakRain := NoPeak;
    var totalHours: nat := 0;
    ghost var hs: seq<Hour> := [];
    ghost var peakIndex := -1;
    for k := 0 to |today|
      invariant ClassifyAll(today[..k], offset) == Some(hs) && |hs| == k
      invariant Accumulated(hs, hasRain, rainHours, rainLevels, totalHours, peakRain, maxRainAmount, peakIndex)
    {
      var hour := today[k];
      ClassifyPrefixStep(today, k, offset, hs);
      var extracted := ExtractKeywords(hour);
      if extracted.Failure? {
        return Failure(extracted.error);
      }
      var keywords := extracted.value;
      var level := WillRain(keywords.description, keywords.pop, keywords.rain);
      ghost var h := Classify(hour, offset).value;
      assert h == Hour(Label(ToLocal(hour.dt, offset)), level, keywords.rain);
      if level != No {
        AccumulateRainHour(hs, h, hasRain, rainHours, rainLevels, totalHours, peakRain, maxRainAmount, peakIndex);
        var timeStr := Label(ToLocal(hour.dt, offset));
        hasRain := true;
        rainHours := rainHours + [timeStr];
        rainLevels := rainLevels.Append(level, timeStr);
        totalHours := totalHours + 1;
        if keywords.rain > maxRainAmount {
          maxRainAmount := keywords.rain;
          peakRain := Peak(Some(timeStr), level, keywords.rain);
          peakIndex := k;
        }
      } else {
        AccumulateDryHour(hs, h, hasRain, rainHours, rainLevels, totalHours, peakRain, maxRainAmount, peakIndex);
      }
      hs := hs + [h];
    }
    assert today[..|today|] == today;

    var worstLevel := No;
    if rainLevels.heavy != [] {
      worstLevel := Heavy;
    } else if rainLevels.moderate != [] {
      worstLevel := Moderate;
    } else if rainLevels.light != [] {
      worstLevel := Light;
    }
    AccumulatedSummarizes(hs, hasRain, rainHours, rainLevels, totalHours, peakRain, maxRainAmount, peakIndex);
    r := Success(RainInfo(hasRain, rainHours, rainLevels, peakRain, Summary(totalHours, worstLevel)));
  }

  /** A bucket is non-empty exactly when some hour has its level. */
  lemma {:induction false} BucketNonEmptyIff(hs: seq<Hour>, l: Level)
    ensures Bucket(hs, l) != [] <==> exists i :: 0 <= i < |hs| && hs[i].level == l
    decreases |hs|
  {
    if hs != [] {
      var init := hs[..|hs| - 1];
      BucketNonEmptyIff(init, l);
      assert forall i :: 0 <= i < |init| ==> init[i] == hs[i];
    }
  }

  /** The precedence chain over the buckets computes the most severe level. */
  lemma WorstByPrecedenceIsWorst(hs: seq<Hour>)
    ensures WorstByPrecedence(Levels(Bucket(hs, Light), Bucket(hs, Moderate), Bucket(hs, Heavy))) == Worst(hs)
  {
    BucketNonEmptyIff(hs, Light);
    BucketNonEmptyIff(hs, Moderate);
    BucketNonEmptyIff(hs, Heavy);
  }

  /** The rain hours are non-empty exactly when some hour is rainy. */
  lemma {:induction false} RainHoursNonEmptyIff(hs: seq<Hour>)
    ensures RainHours(hs) != [] <==> exists i :: 0 <= i < |hs| && IsRainy(hs[i])
    decreases |hs|
  {
    if hs != [] {
      var init := hs[..|hs| - 1];
      RainHoursNonEmptyIff(init);
      assert forall i :: 0 <= i < |init| ==> init[i] == hs[i];
    }
  }

  /** Every rain hour lands in exactly one of the three buckets. */
  lemma {:induction false} BucketsPartitionRainHours(hs: seq<Hour>)
    ensures |RainHours(hs)| == |Bucket(hs, Light)| + |Bucket(hs, Moderate)| + |Bucket(hs, Heavy)|
    decreases |hs|
  {
    if hs != [] {
      BucketsPartitionRainHours(hs[..|hs| - 1]);
    }
  }

  /** Each bucket lists a selection of the rain hours, in the same order. */
  lemma {:induction false} BucketIsSubsequenceOfRainHours(hs: seq<Hour>, l: Level)
    requires l != No
    ensures IsSubsequence(Bucket(hs, l), RainHours(hs))
    decreases |hs|
  {
    if hs != [] {
      var init, last := hs[..|hs| - 1], hs[|hs| - 1];
      BucketIsSubsequenceOfRainHours(init, l);
      if IsRainy(last) {
        SubsequenceSnoc(Bucket(init, l), RainHours(init), last.time, last.level == l);
        assert RainHours(hs) == RainHours(init) + [last.time];
        if last.level == l {
          assert Bucket(hs, l) == Bucket(init, l) + [last.time];
        } else {
          assert Bucket(hs, l) == Bucket(init, l) + [];
          assert Bucket(hs, l) == Bucket(init, l);
        }
      } else {
        assert RainHours(hs) == RainHours(init) + [];
        assert RainHours(hs) == RainHours(init);
        assert Bucket(hs, l) == Bucket(init, l) + [];
        assert Bucket(hs, l) == Bucket(init, l);
      }
    }
  }

  /** There is rain exactly when the worst level is above No. */
  lemma RainIffWorstAboveNo(hs: seq<Hour>)
    ensures RainHours(hs) != [] <==> Worst(hs) != No
  {
    RainHoursNonEmptyIff(hs);
  }

  /** A sequence of hours has at most one peak. */
  lemma PeakIsUnique(hs: seq<Hour>, a: Peak, b: Peak)
    requires IsPeak(hs, a) && IsPeak(hs, b)
    ensures a == b
  {
    if !(forall j :: 0 <= j < |hs| && IsRainy(hs[j]) ==> hs[j].amount <= 0.0) {
      var i :| PeakAt(hs, i) && a == PeakOf(hs[i]);
      var i' :| PeakAt(hs, i') && b == PeakOf(hs[i']);
      assert i == i';
    }
  }

  /**
   * The summary is determined by the classified hours: two runs over the
   * same hours agree field for field.
   */
  lemma SummaryIsUnique(a: RainInfo, b: RainInfo, hs: seq<Hour>)
    requires Summarizes(a, hs) && Summarizes(b, hs)
    ensures a == b
  {
    PeakIsUnique(hs, a.peakRain, b.peakRain);
  }

  /** The consistency promises a summary keeps among its own fields. */
  lemma SummaryIsConsistent(info: RainInfo, hs: seq<Hour>)
    requires Summarizes(info, hs)
    ensures info.summary.totalHours == |info.rainLevels.light| + |info.rainLevels.moderate| + |info.rainLevels.heavy|
    ensures IsSubsequence(info.rainLevels.light, info.rainHours)
    ensures IsSubsequence(info.rainLevels.moderate, info.rainHours)
    ensures IsSubsequence(info.rainLevels.heavy, info.rainHours)
    ensures info.summary.worstLevel == WorstByPrecedence(info.rainLevels)
    ensures info.hasRain <==> info.summary.worstLevel != No
    ensures info.peakRain.time.Some? ==> info.hasRain && info.peakRain.level != No && info.peakRain.amount > 0.0
    ensures info.peakRain.time.None? ==> info.peakRain == NoPeak
  {
    BucketsPartitionRainHours(hs);
    BucketIsSubsequenceOfRainHours(hs, Light);
    BucketIsSubsequenceOfRainHours(hs, Moderate);
    BucketIsSubsequenceOfRainHours(hs, Heavy);
    WorstByPrecedenceIsWorst(hs);
    RainIffWorstAboveNo(hs);
    if info.peakRain.time.Some? {
      var i :| PeakAt(hs, i) && info.peakRain == PeakOf(hs[i]);
      RainHoursNonEmptyIff(hs);
    }
  }

  /**
   * The peak keeps its initial value (no time, "no", 0.0) exactly when no
   * rain hour has a positive volume; dry hours never count, whatever their volume.
   */
  lemma NoPositiveVolumeNoPeak(info: RainInfo, hs: seq<Hour>)
    requires Summarizes(info, hs)
    ensures info.peakRain == NoPeak <==> forall j :: 0 <= j < |hs| && IsRainy(hs[j]) ==> hs[j].amount <= 0.0
  {
    if !(forall j :: 0 <= j < |hs| && IsRainy(hs[j]) ==> hs[j].amount <= 0.0) {
      var i :| PeakAt(hs, i) && info.peakRain == PeakOf(hs[i]);
      assert info.peakRain.time.Some?;
    }
  }

  /** Of two rain hours with the same positive volume, the later is never the peak. */
  lemma TieNeverPicksLater(hs: seq<Hour>, i: int, j: int)
    requires 0 <= i < j < |hs| && IsRainy(hs[i]) && IsRainy(hs[j])
    requires hs[i].amount == hs[j].amount
    ensures !PeakAt(hs, j)
  {
  }

  /** Two rain hours with the same positive volume: the first one is the peak. */
  lemma TieKeepsEarliest(first: Hour, second: Hour, pk: Peak)
    requires IsRainy(first) && IsRainy(second)
    requires first.amount == second.amount > 0.0
    requires IsPeak([first, second], pk)
    ensures pk == PeakOf(first)
  {
    var hs := [first, second];
    assert IsRainy(hs[0]) && hs[0].amount > 0.0;
    var p :| PeakAt(hs, p) && pk == PeakOf(hs[p]);
    TieNeverPicksLater(hs, 0, 1);
    assert p == 0;
  }

  /** The times of the rain hours are labels of the hours. */
  lemma {:induction false} RainHoursAreHourTimes(hs: seq<Hour>, k: int)
    requires 0 <= k < |RainHours(hs)|
    ensures exists i :: 0 <= i < |hs| && RainHours(hs)[k] == hs[i].time
    decreases |hs|
  {
    var init, last := hs[..|hs| - 1], hs[|hs| - 1];
    if k < |RainHours(init)| {
      RainHoursAreHourTimes(init, k);
      var i :| 0 <= i < |init| && RainHours(init)[k] == init[i].time;
      assert hs[i] == init[i];
    } else {
      assert RainHours(hs)[k] == hs[|hs| - 1].time;
    }
  }

  /** Every classified hour's time is an "HH:MM" label, which has no comma in it. */
  lemma ClassifiedTimeHasNoComma(ps: seq<Point>, offset: int, i: int)
    requires ClassifyAll(ps, offset).Some? && 0 <= i < |ps|
    ensures ',' !in ClassifyAll(ps, offset).value[i].time
  {
    assert Classify(ps[i], offset) == Success(ClassifyAll(ps, offset).value[i]);
    LabelHasNoComma(ToLocal(ps[i].dt, offset));
  }
}
