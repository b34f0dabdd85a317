/**
 * The hour classifier: a keyword gate on the lower-cased description, then
 * thresholds on the last-hour rain volume (mm) and the probability of
 * precipitation, giving one of four ordered severity levels.
 */
module Classifier {
  import opened Wrappers
  import opened Text

  /** The severity levels, ordered No < Light < Moderate < Heavy. */
  datatype Level = No | Light | Moderate | Heavy

  function Rank(l: Level): nat {
    match l
    case No => 0
    case Light => 1
    case Moderate => 2
    case Heavy => 3
  }

  /** The more severe of two levels. */
  function MaxLevel2(a: Level, b: Level): (m: Level)
    ensures Rank(m) >= Rank(a) && Rank(m) >= Rank(b)
    ensures m == a || m == b
  {
    if Rank(a) >= Rank(b) then a else b
  }

  /** The level names used as keys throughout ("no", "light", ...). */
  function Name(l: Level): string {
    match l
    case No => "no"
    case Light => "light"
    case Moderate => "moderate"
    case Heavy => "heavy"
  }

  /** Every level name is a non-empty word of lower-case ASCII letters. */
  lemma NameIsLowerCase(l: Level)
    ensures Name(l) != [] && forall i :: 0 <= i < |Name(l)| ==> 'a' <= Name(l)[i] <= 'z'
  {
  }

  function ParseLevel(s: string): Option<Level> {
    if s == "no" then Some(No)
    else if s == "light" then Some(Light)
    else if s == "moderate" then Some(Moderate)
    else if s == "heavy" then Some(Heavy)
    else None
  }

  lemma NameRoundTrip(l: Level)
    ensures ParseLevel(Name(l)) == Some(l)
  {
  }

  const RainKeywords: seq<string> := ["rain", "雨", "雷"]

  /** The keyword gate: some keyword occurs in the lower-cased description. */
  predicate MentionsRain(description: string) {
    exists i :: 0 <= i < |RainKeywords| && Contains(Lower(description), RainKeywords[i])
  }

  /** What the rain volume alone says. */
  function VolumeLevel(rain: real): Level {
    if rain >= 4.0 then Heavy else if rain >= 1.5 then Moderate else Light
  }

  /** What the probability alone says: it can only lift Light to Moderate. */
  function ProbabilityLevel(pop: real): Level {
    if pop > 0.6 then Moderate else Light
  }

  /**
   * will_rain. Past the keyword gate the level is the more severe of what
   * the volume and the probability say.
   */
  function WillRain(description: string, pop: real, rain: real): (r: Level)
    ensures !MentionsRain(description) ==> r == No
    ensures MentionsRain(description) ==> r == MaxLevel2(VolumeLevel(rain), ProbabilityLevel(pop))
  {
    if MentionsRain(description) then
      if rain >= 4.0 then Heavy
      else if rain >= 1.5 || pop > 0.6 then Moderate
      else Light
    else No
  }

  /** Past the gate each level has an exact characterisation. */
  lemma LevelsPastTheGate(description: string, pop: real, rain: real)
    requires MentionsRain(description)
    ensures WillRain(description, pop, rain) == Heavy <==> rain >= 4.0
    ensures WillRain(description, pop, rain) == Moderate <==> rain < 4.0 && (rain >= 1.5 || pop > 0.6)
    ensures WillRain(description, pop, rain) == Light <==> rain < 1.5 && pop <= 0.6
    ensures WillRain(description, pop, rain) != No
  {
  }

  /** The probability never decides whether an hour is Heavy. */
  lemma ProbabilityNeverMakesHeavy(description: string, pop: real, pop': real, rain: real)
    ensures WillRain(description, pop, rain) == Heavy <==> WillRain(description, pop', rain) == Heavy
  {
  }

  /** More rain or a higher probability never lowers the level. */
  lemma Monotone(description: string, pop: real, pop': real, rain: real, rain': real)
    requires pop <= pop' && rain <= rain'
    ensures Rank(WillRain(description, pop, rain)) <= Rank(WillRain(description, pop', rain'))
  {
  }

  /** The boundaries: 1.5 mm is Moderate, a probability of exactly 0.6 is not. */
  lemma Boundaries(description: string)
    requires MentionsRain(description)
    ensures WillRain(description, 0.0, 1.5) == Moderate
    ensures WillRain(description, 0.6, 1.49999) == Light
    ensures WillRain(description, 0.6, 0.0) == Light
    ensures WillRain(description, 0.60001, 0.0) == Moderate
    ensures WillRain(description, 1.0, 3.99999) == Moderate
    ensures WillRain(description, 0.0, 4.0) == Heavy
  {
  }

  /** ASCII capitals in the description do not defeat the gate. */
  lemma {:induction false} GateIgnoresCase(description: string)
    ensures MentionsRain(Lower(description)) <==> MentionsRain(description)
  {
    LowerIsIdempotent(description);
  }

  /** The gate passes for any description containing "rain" in any ASCII case. */
  lemma {:induction false} RainWordPassesGate(description: string, i: int)
    requires 0 <= i <= |description| - 4 && Lower(description[i..i + 4]) == "rain"
    ensures MentionsRain(description)
  {
    var low := Lower(description);
    assert low[i..i + 4] == Lower(description[i..i + 4]);
    assert OccursAt(low, "rain", i);
    ContainsIffOccurs(low, "rain");
    assert Contains(low, RainKeywords[0]);
  }

  /** A description whose lower-cased form has no 'r', '雨' or '雷' is never rain. */
  lemma {:induction false} NoKeywordCharactersFailGate(description: string)
    requires forall i :: 0 <= i < |description| ==> LowerChar(description[i]) !in {'r', '雨', '雷'}
    ensures !MentionsRain(description)
  {
    var low := Lower(description);
    assert 'r' !in low && '雨' !in low && '雷' !in low;
    ContainsNeedsFirstChar(low, RainKeywords[0]);
    ContainsNeedsFirstChar(low, RainKeywords[1]);
    ContainsNeedsFirstChar(low, RainKeywords[2]);
  }
}
