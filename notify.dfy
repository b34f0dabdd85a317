/**
 * The notification decisions of send_email.py: how the rain hours are
 * printed, which template a level selects, the subject line, the fields
 * substituted into the template, and whether a message is sent at all.
 * Reading template and configuration files and talking SMTP are parameters.
 */
module Notify {
  import opened Wrappers
  import opened Text
  import opened LocalTime
  import opened Classifier
  import opened Aggregator

  const NoRainText: string := "No rain expected today."
  const Separator: string := ", "

  /** `sep.join(parts)`. */
  function Join(parts: seq<string>, sep: string): string
    decreases |parts|
  {
    if parts == [] then ""
    else if |parts| == 1 then parts[0]
    else parts[0] + sep + Join(parts[1..], sep)
  }

  /** The index of the first ", " in `s`, if any. */
  function FirstSeparator(s: string): (r: Option<nat>)
    ensures r.None? <==> !Contains(s, Separator)
    ensures r.Some? ==> r.value + 2 <= |s| && s[r.value..r.value + 2] == Separator
    ensures r.Some? ==> forall j :: 0 <= j < r.value ==> !OccursAt(s, Separator, j)
    decreases |s|
  {
    if IsPrefix(Separator, s) then Some(0)
    else if s == [] then None
    else
      match FirstSeparator(s[1..])
      case None => None
      case Some(i) =>
        assert s[i + 1..i + 3] == s[1..][i..i + 2];
        forall j | 1 <= j < i + 1 && OccursAt(s, Separator, j)
          ensures OccursAt(s[1..], Separator, j - 1)
        {
          assert s[1..][j - 1..j + 1] == s[j..j + 2];
        }
        Some(i + 1)
  }

  /** Splits `s` at every ", " (the inverse of joining with ", "). */
  function Split(s: string): seq<string>
    decreases |s|
  {
    match FirstSeparator(s)
    case None => [s]
    case Some(i) => [s[..i]] + Split(s[i + 2..])
  }

  /** In `part + ", " + rest`, the first separator is the one after `part`. */
  lemma {:induction false} FirstSeparatorAfterPart(part: string, rest: string)
    requires !Contains(part, Separator)
    ensures FirstSeparator(part + Separator + rest) == Some(|part|)
    decreases |part|
  {
    var s := part + Separator + rest;
    if part == [] {
      assert s[..2] == Separator;
    } else {
      assert !IsPrefix(Separator, s) by {
        if |part| == 1 {
          assert s[1] == ',';
        } else {
          assert s[..2] == part[..2];
        }
      }
      assert s[1..] == part[1..] + Separator + rest;
      FirstSeparatorAfterPart(part[1..], rest);
    }
  }

  /** Joining with ", " and splitting again gives back the parts. */
  lemma {:induction false} SplitJoin(parts: seq<string>)
    ensures parts != [] && (forall i :: 0 <= i < |parts| ==> !Contains(parts[i], Separator)) ==>
              Split(Join(parts, Separator)) == parts
    decreases |parts|
  {
    if |parts| > 1 && forall i :: 0 <= i < |parts| ==> !Contains(parts[i], Separator) {
      var rest := Join(parts[1..], Separator);
      FirstSeparatorAfterPart(parts[0], rest);
      var s := parts[0] + Separator + rest;
      assert s[..|parts[0]|] == parts[0];
      assert s[|parts[0]| + 2..] == rest;
      SplitJoin(parts[1..]);
    }
  }

  /**
   * format_rain_hours: the placeholder for no hours, else the hours joined
   * by ", ", from which hours without ", " in them can be read back.
   */
  function FormatRainHours(hours: seq<string>): (text: string)
    ensures hours == [] ==> text == NoRainText
    ensures hours != [] && (forall i :: 0 <= i < |hours| ==> !Contains(hours[i], Separator)) ==>
              Split(text) == hours
  {
    if hours == [] then NoRainText
    else
      SplitJoin(hours);
      Join(hours, Separator)
  }

  /** The template file for a level; no template for No. */
  function TemplateFor(level: Level): (name: Option<string>)
    ensures name.None? <==> level == No
  {
    match level
    case No => None
    case Light => Some("light_rain_template.html")
    case Moderate => Some("moderate_rain_template.html")
    case Heavy => Some("heavy_rain_template.html")
  }

  /** Different levels select different template files. */
  lemma TemplatesAreDistinct(a: Level, b: Level)
    requires a != b && a != No && b != No
    ensures TemplateFor(a) != TemplateFor(b)
  {
    var na, nb := TemplateFor(a).value, TemplateFor(b).value;
    assert na[0] != nb[0];
  }

  /** str.capitalize on ASCII: first character upper case, the rest lower case. */
  function Capitalize(s: string): (r: string)
    ensures |r| == |s|
    ensures s != [] ==> r[0] == UpperChar(s[0]) && r[1..] == Lower(s[1..])
  {
    if s == [] then [] else [UpperChar(s[0])] + Lower(s[1..])
  }

  /** Capitalising changes the case of letters only, and capitalising twice changes nothing more. */
  lemma CapitalizeChangesOnlyCase(s: string)
    ensures Lower(Capitalize(s)) == Lower(s)
    ensures Capitalize(Capitalize(s)) == Capitalize(s)
  {
    if s != [] {
      var c := Capitalize(s);
      assert LowerChar(c[0]) == LowerChar(s[0]);
      assert Lower(c)[0] == Lower(s)[0];
      assert Lower(c[1..]) == Lower(Lower(s[1..]));
      LowerIsIdempotent(s[1..]);
      assert UpperChar(c[0]) == c[0];
    }
  }

  const SubjectPrefix: string := "降雨提醒 - "
  const SubjectSuffix: string := " Rain"

  /** The subject line for the worst level. */
  function Subject(level: Level): string {
    SubjectPrefix + Capitalize(Name(level)) + SubjectSuffix
  }

  /** A word whose tail has no ASCII capitals is capitalised by upper-casing its head. */
  lemma CapitalizeLowerWord(s: string)
    requires s != [] && forall i :: 1 <= i < |s| ==> !IsUpper(s[i])
    ensures Capitalize(s) == [UpperChar(s[0])] + s[1..]
  {
    LowerOfLowerIsIdentity(s[1..]);
  }

  /** The subject names the level in capitalised form. */
  lemma SubjectNamesLevel(level: Level)
    ensures Subject(level) == SubjectPrefix + [UpperChar(Name(level)[0])] + Name(level)[1..] + SubjectSuffix
    ensures 'a' <= Name(level)[0] <= 'z'
  {
    NameIsLowerCase(level);
    CapitalizeLowerWord(Name(level));
  }

  /** Different levels get different subject lines. */
  lemma SubjectsAreDistinct(a: Level, b: Level)
    requires a != b
    ensures Subject(a) != Subject(b)
  {
    SubjectNamesLevel(a);
    SubjectNamesLevel(b);
    var pa, pb := Subject(a), Subject(b);
    var na, nb := Name(a), Name(b);
    var k := |SubjectPrefix|;
    if |pa| == |pb| {
      assert pa[k] == UpperChar(na[0]) && pb[k] == UpperChar(nb[0]);
      assert na[0] != nb[0];
      assert LowerChar(pa[k]) == na[0] && LowerChar(pb[k]) == nb[0];
    }
  }

  /** The values substituted into the template. */
  datatype TemplateData = TemplateData(
    rainHours: string,
    totalHours: int,
    peakTime: Option<string>,
    peakAmount: real)

  /** The field mapping of render_template. */
  function TemplateFields(info: RainInfo): (d: TemplateData)
    ensures d.totalHours == info.summary.totalHours
    ensures d.peakTime == info.peakRain.time && d.peakAmount == info.peakRain.amount
    ensures d.rainHours == FormatRainHours(info.rainHours)
  {
    TemplateData(FormatRainHours(info.rainHours), info.summary.totalHours, info.peakRain.time, info.peakRain.amount)
  }

  /**
   * The email lists as many hours as it reports in `total_hours`: for a
   * rainy summary the listed hours split back into its rain hours, and a
   * dry one shows the placeholder with a total of 0.
   */
  lemma ListedHoursMatchTotal(info: RainInfo, ps: seq<Forecast.Point>, offset: int)
    requires ClassifyAll(ps, offset).Some?
    requires Summarizes(info, ClassifyAll(ps, offset).value)
    ensures info.hasRain ==> |Split(TemplateFields(info).rainHours)| == TemplateFields(info).totalHours
    ensures !info.hasRain ==> TemplateFields(info).rainHours == NoRainText && TemplateFields(info).totalHours == 0
  {
    if info.hasRain {
      RainHoursListRoundTrip(info, ps, offset);
    }
  }

  /**
   * render_template. `load` reads a template file (None: the file is
   * missing) and `fill` substitutes the fields (None: the substitution
   * raised); every failure renders as "".
   */
  function RenderTemplate(
    name: Option<string>, info: RainInfo,
    load: string -> Option<string>, fill: (string, TemplateData) -> Option<string>): (html: string)
    ensures name.None? ==> html == ""
    ensures name.Some? && load(name.value).None? ==> html == ""
    ensures name.Some? && load(name.value).Some? ==>
              html == fill(load(name.value).value, TemplateFields(info)).GetOr("")
  {
    match name
    case None => ""
    case Some(n) =>
      match load(n)
      case None => ""
      case Some(template) => fill(template, TemplateFields(info)).GetOr("")
  }

  /** What smtp_send does when called: deliver, fail to connect (returns False), or raise. */
  datatype SmtpOutcome = Delivered | ConnectFailed | Raised

  datatype Email = Email(subject: string, html: string)

  /**
   * The observable effect of send_rain_email: the email handed to
   * smtp_send, if any, and the value returned (None: an exception
   * escapes to the caller).
   */
  datatype SendOutcome = SendOutcome(attempted: Option<Email>, returned: Option<bool>)

  /** The email send_rain_email builds for a level above No. */
  function RainEmail(info: RainInfo, load: string -> Option<string>, fill: (string, TemplateData) -> Option<string>): Email {
    var level := info.summary.worstLevel;
    Email(Subject(level), RenderTemplate(TemplateFor(level), info, load, fill))
  }

  /** send_rain_email, as written: True whenever smtp_send returns. */
  function SendRainEmail(
    info: RainInfo, load: string -> Option<string>, fill: (string, TemplateData) -> Option<string>,
    smtp: SmtpOutcome): (r: SendOutcome)
    ensures info.summary.worstLevel == No ==> r == SendOutcome(None, Some(false))
    ensures info.summary.worstLevel != No ==> r.attempted == Some(RainEmail(info, load, fill))
    ensures info.summary.worstLevel != No ==> (r.returned == Some(true) <==> smtp != Raised)
    ensures r.returned != Some(false) || r.attempted.None?
  {
    if info.summary.worstLevel == No then SendOutcome(None, Some(false))
    else
      var email := RainEmail(info, load, fill);
      SendOutcome(Some(email), if smtp == Raised then None else Some(true))
  }

  /** send_rain_email returning what smtp_send reports, as its documentation promises. */
  function SendRainEmailReportingDelivery(
    info: RainInfo, load: string -> Option<string>, fill: (string, TemplateData) -> Option<string>,
    smtp: SmtpOutcome): (r: SendOutcome)
    ensures info.summary.worstLevel == No ==> r == SendOutcome(None, Some(false))
    ensures info.summary.worstLevel != No ==> r.attempted == Some(RainEmail(info, load, fill))
    ensures r.returned == Some(true) <==> r.attempted.Some? && smtp == Delivered
    ensures r.returned.None? <==> r.attempted.Some? && smtp == Raised
  {
    if info.summary.worstLevel == No then SendOutcome(None, Some(false))
    else
      var email := RainEmail(info, load, fill);
      SendOutcome(Some(email), if smtp == Raised then None else Some(smtp == Delivered))
  }

  /** As written, a failed SMTP connection is reported as a successful send. */
  lemma ConnectFailureReportedAsSent(
    info: RainInfo, load: string -> Option<string>, fill: (string, TemplateData) -> Option<string>)
    requires info.summary.worstLevel == Light
    ensures SendRainEmail(info, load, fill, ConnectFailed).returned == Some(true)
    ensures SendRainEmailReportingDelivery(info, load, fill, ConnectFailed).returned == Some(false)
  {
  }

  /** A summary without rain sends nothing; a summary with rain sends one email. */
  lemma EmailExactlyWhenRain(
    info: RainInfo, hs: seq<Hour>,
    load: string -> Option<string>, fill: (string, TemplateData) -> Option<string>, smtp: SmtpOutcome)
    requires Summarizes(info, hs)
    ensures SendRainEmail(info, load, fill, smtp).attempted.Some? <==> info.hasRain
    ensures info.hasRain ==> TemplateFor(info.summary.worstLevel).Some?
  {
    SummaryIsConsistent(info, hs);
  }

  /**
   * The email for a rain_process summary lists exactly its rain hours:
   * splitting the rendered list at ", " gives the labels back.
   */
  lemma RainHoursListRoundTrip(info: RainInfo, ps: seq<Forecast.Point>, offset: int)
    requires ClassifyAll(ps, offset).Some?
    requires Summarizes(info, ClassifyAll(ps, offset).value)
    requires info.hasRain
    ensures Split(TemplateFields(info).rainHours) == info.rainHours
  {
    var hs := ClassifyAll(ps, offset).value;
    forall k | 0 <= k < |info.rainHours|
      ensures !Contains(info.rainHours[k], Separator)
    {
      RainHoursAreHourTimes(hs, k);
      var i :| 0 <= i < |hs| && info.rainHours[k] == hs[i].time;
      ClassifiedTimeHasNoComma(ps, offset, i);
      ContainsNeedsFirstChar(hs[i].time, Separator);
    }
  }
}
