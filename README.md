# Umbrella reminder: rain summary and notification decisions

This project models the core of a daily "take an umbrella" reminder. The
reminder reads an hourly weather forecast payload. It keeps the points that
fall on today's local calendar day and classifies each one as no, light,
moderate or heavy rain. The classification uses the point's weather
description, its probability of precipitation (`pop`) and its rain volume
over one hour. The reminder then summarises the day:

- the `HH:MM` labels of the rain hours;
- one bucket of labels per level;
- the peak hour, which is the first rain hour with the largest positive volume (a dry hour never becomes the peak, whatever its volume);
- the number of rain hours and the worst level.

From the worst level it chooses an email template and a subject line. It
sends nothing when the worst level is "no".

Modules:

- `Wrappers`: the `Option` and `Result` types.
- `Text`: ASCII lower-casing, substring search and ordered subsequences.
- `LocalTime`: the shift of a Unix timestamp into local time, the local calendar day, and the `HH:MM` label with its parser.
- `Forecast`: the payload, `extract_keywords` and `extract_today_data`.
- `Classifier`: the four levels and `will_rain`.
- `Aggregator`: `rain_process`, written as a method with a loop. It is proved against the declarative predicate `Summarizes`, which says what the returned dictionary holds for the classified hours.
- `Notify`: `format_rain_hours`, the template map, the subject, the field mapping of `render_template`, and the decisions of `send_rain_email`.
- `Scenarios`: one concrete day worked through end to end.

Behaviour of the code worth knowing:

- A point whose `weather` list is empty makes `extract_keywords` raise `IndexError`, and the exception leaves `rain_process`. The model returns `Failure(MissingDescription)` for the whole run.
- `hourly` missing from the payload reads as an empty list.
- Only the first weather entry's description is looked at.
- The keyword test is a plain substring test on the lower-cased description, so "rain" also matches inside "train" or "drain".

## Model

| member | source | states |
|---|---|---|
| LocalTime.ShiftByOneDay | src/rain_process.py:4-14 | Shifting a timestamp by one day moves its local time to the next local day and keeps its `HH:MM` label, for every offset. |
| LocalTime.InDayOfIffSameDay | src/rain_process.py:22-30 | A local time lies between today's 00:00:00 and 23:59:59 exactly when it has the same calendar day as the local "now". |
| LocalTime.DayBoundaries | src/rain_process.py:24-25 | Today's 00:00:00 and 23:59:59 are inside the window; the second before and the next midnight are outside. |
| LocalTime.LabelRoundTrip | src/rain_process.py:94-96 | Parsing the `%H:%M` label gives back the hour and minute of the local time. |
| LocalTime.LabelsEqualIff | src/rain_process.py:94-96 | Two labels are equal exactly when the hours and the minutes agree. |
| LocalTime.LabelHasNoComma | src/rain_process.py:96 | An `HH:MM` label never contains a comma. |
| Forecast.ExtractKeywords | src/rain_process.py:33-39 | Fails exactly when `weather` is empty. Otherwise the description is the first entry's; `pop` and the one-hour rain default to 0.0 when absent. |
| Forecast.OnlyFirstConditionMatters | src/rain_process.py:35 | Weather entries after the first do not change the extracted keywords. |
| Forecast.AbsentSignalsReadAsZero | src/rain_process.py:37-38 | A missing `pop`, a missing `rain` object and a missing `1h` field read the same as an explicit 0.0. |
| Forecast.SelectToday | src/rain_process.py:28-31 | The kept points are an ordered subsequence of the hourly points, and every kept point is today. |
| Forecast.ExtractTodayData | src/rain_process.py:16-31 | No `hourly` gives no points. Otherwise the result is an ordered subsequence of `hourly`; every kept point is on today's local day, and every hourly point on today's local day is kept. |
| Forecast.SelectTodayCounts | src/rain_process.py:28-31 | Each point occurs in the result as often as in the input if it is today, and not at all otherwise. |
| Forecast.SelectedIffToday | src/rain_process.py:28-31 | An hourly point is kept exactly when its local time is today. |
| Classifier.MaxLevel2 | src/rain_process.py:55-59 | The more severe of two levels is one of them and ranks at least as high as both. |
| Classifier.NameRoundTrip | src/rain_process.py:47-51 | Each level's string name parses back to the level. |
| Classifier.WillRain | src/rain_process.py:41-60 | No keyword gives "no". Otherwise the level is the more severe of the volume level (>= 4 heavy, >= 1.5 moderate) and the probability level (> 0.6 moderate), and at least light. |
| Classifier.LevelsPastTheGate | src/rain_process.py:54-59 | Once a keyword matches: heavy iff rain >= 4; moderate iff rain < 4 and (rain >= 1.5 or pop > 0.6); light iff rain < 1.5 and pop <= 0.6; never "no". |
| Classifier.ProbabilityNeverMakesHeavy | src/rain_process.py:55-57 | The probability never decides whether an hour is heavy. |
| Classifier.Monotone | src/rain_process.py:54-59 | More rain and a higher probability never lower the level. |
| Classifier.Boundaries | src/rain_process.py:55-59 | The thresholds at 1.5 and 4.0 are inclusive and the one at 0.6 is strict. |
| Classifier.GateIgnoresCase | src/rain_process.py:53-54 | The keyword test gives the same answer for a description and its lower-cased form. |
| Classifier.RainWordPassesGate | src/rain_process.py:53-54 | A description containing "rain" in any ASCII case passes the keyword test. |
| Classifier.NoKeywordCharactersFailGate | src/rain_process.py:53-54 | A description with no character that lower-cases to 'r', '雨' or '雷' fails the keyword test. |
| Aggregator.Classify | src/rain_process.py:91-96 | Fails exactly when the point has no weather entry; the hour's time is the label of the point's local time. |
| Aggregator.ClassifyAll | src/rain_process.py:90-92 | Fails exactly when some point has no weather entry. Otherwise there is one classified hour per point, position by position. |
| Aggregator.Worst | src/rain_process.py:111-116 | The worst level ranks at least as high as every hour's level, and it is "no" or the level of some hour. |
| Aggregator.RainProcess | src/rain_process.py:62-118 | Fails exactly when classifying today's points fails. Otherwise the returned summary satisfies `Summarizes`: rain hours, buckets, count, `has_rain`, peak and worst level. |
| Aggregator.AccumulateRainHour | src/rain_process.py:93-109 | Handling a rain hour appends its label to the rain hours and to its own bucket, adds one to the count, and moves the peak only on a strictly larger volume. |
| Aggregator.AccumulateDryHour | src/rain_process.py:93 | An hour classified "no" changes nothing in the summary. |
| Aggregator.WorstByPrecedenceIsWorst | src/rain_process.py:111-116 | The heavy/moderate/light precedence over the buckets computes the most severe level among the hours. |
| Aggregator.BucketNonEmptyIff | src/rain_process.py:100 | A level's bucket is non-empty exactly when some hour has that level. |
| Aggregator.RainHoursNonEmptyIff | src/rain_process.py:98-99 | The rain hours are non-empty exactly when some hour is rainy. |
| Aggregator.BucketsPartitionRainHours | src/rain_process.py:99-101 | The number of rain hours is the sum of the three bucket sizes. |
| Aggregator.BucketIsSubsequenceOfRainHours | src/rain_process.py:99-100 | Each bucket is an ordered selection of the rain hours. |
| Aggregator.RainIffWorstAboveNo | src/rain_process.py:111-116 | There are rain hours exactly when the worst level is not "no". |
| Aggregator.PeakIsUnique | src/rain_process.py:103-109 | At most one peak fits the hours. |
| Aggregator.SummaryIsUnique | src/rain_process.py:62-118 | Two summaries of the same hours are equal field for field. |
| Aggregator.SummaryIsConsistent | src/rain_process.py:71-116 | In a summary, `total_hours` is the sum of the bucket sizes, and each bucket is a subsequence of `rain_hours`. The worst level follows bucket precedence, and `has_rain` holds iff it is not "no". A set peak time means a rain hour with a positive amount. |
| Aggregator.NoPositiveVolumeNoPeak | src/rain_process.py:79-109 | In a summary, the peak keeps its initial value (time None, level "no", amount 0.0) exactly when no rain hour has a positive volume; dry hours do not count. |
| Aggregator.TieNeverPicksLater | src/rain_process.py:103 | Of two rain hours with equal volume, the later one is never the peak. |
| Aggregator.TieKeepsEarliest | src/rain_process.py:103-109 | When two rain hours have the same positive volume, the first is the peak. |
| Notify.FormatRainHours | src/send_email.py:21-29 | No hours gives "No rain expected today."; a non-empty list of hours without ", " in them is written so that splitting at ", " gives the hours back. |
| Notify.FirstSeparator | src/send_email.py:29 | Finds the first ", " in a string, and finds nothing exactly when the string has none. |
| Notify.SplitJoin | src/send_email.py:29 | Splitting a non-empty ", "-joined list of parts without ", " gives the parts back. |
| Notify.TemplateFor | src/send_email.py:99-106 | "no" has no template; each other level has one. |
| Notify.TemplatesAreDistinct | src/send_email.py:99-103 | The three levels map to three different template files. |
| Notify.CapitalizeChangesOnlyCase | src/send_email.py:109 | `str.capitalize` changes only the case of letters (lower-casing the result gives the lower-cased input), and capitalising again changes nothing. |
| Notify.SubjectNamesLevel | src/send_email.py:109 | The subject is "降雨提醒 - ", the level name with its first letter upper-cased, then " Rain". |
| Notify.SubjectsAreDistinct | src/send_email.py:109 | Different levels get different subject lines. |
| Notify.ListedHoursMatchTotal | src/send_email.py:40-45 | For a rainy summary, the hours listed in the email's `rain_hours` field are as many as its `total_hours`; a dry one shows the placeholder and a total of 0. |
| Notify.RenderTemplate | src/send_email.py:31-56 | No template name or a missing file renders "". Otherwise the result is the filled template, or "" when filling fails. |
| Notify.SendRainEmail | src/send_email.py:87-115 | Worst level "no": nothing is sent and False is returned. Otherwise the email with the level's subject and rendered template is handed to SMTP, and True is returned whenever SMTP returns, even after a failed connection. |
| Notify.ConnectFailureReportedAsSent | src/send_email.py:110-112 | A failed SMTP connection on a light-rain day returns True as written; the corrected version returns False. |
| Notify.SendRainEmailReportingDelivery | src/send_email.py:87-115 | Corrected `send_rain_email`: returns True exactly when an email was handed over and delivered, and False when the level is "no" or the connection failed. |
| Notify.EmailExactlyWhenRain | src/send_email.py:93-97 | For a summary of the hours, an email is attempted exactly when the day has rain, and then the worst level has a template. |
| Aggregator.RainHoursAreHourTimes | src/rain_process.py:99 | Every rain-hour entry is the time of one of the classified hours. |
| Aggregator.ClassifiedTimeHasNoComma | src/rain_process.py:96 | No classified hour's time contains a comma. |
| Notify.RainHoursListRoundTrip | src/send_email.py:41 | The `rain_hours` field of a rainy summary's email splits back into exactly its rain hours. |
| Scenarios.DayWindow | src/rain_process.py:16-31 | In a UTC+8 day, the points at 09:00, 14:00, 18:00 and 23:59:59 are kept. The hour before midnight and the next midnight are dropped. |
| Scenarios.DayClassification | src/rain_process.py:41-60 | "light rain" with 0.5 mm is light, "heavy rain" with 5 mm is heavy, and "cloudy" with pop 0.9 is "no". |
| Scenarios.DaySummary | src/rain_process.py:62-118 | The day's summary: rain at 09:00 (light) and 14:00 (heavy), peak 14:00 with 5 mm, two hours, worst heavy. |
| Scenarios.EmptyForecast | src/rain_process.py:71-88 | A payload without hourly data gives the initial "no rain" dictionary. |

## Left out

- I/O is not modelled. That covers reading the template file (`load_template`), reading the configuration (`load_config`), talking SMTP (`smtp_send`), fetching the forecast, and every `print`. `RenderTemplate` and `SendRainEmail` take them as parameters: `load`, `fill`, and an SMTP outcome of delivered, connect-failed or raised.
- `load_config` returns None for a missing file instead of raising, so the `except FileNotFoundError` in `send_rain_email` never fires. `smtp_send(None, …)` then raises, which the SMTP outcome "raised" covers.
- `str.format` is not modelled. `fill` stands for it, and a `None` from `fill` stands for every exception `render_template` catches.
- The current time is an integer parameter `now` (seconds since the epoch) instead of `datetime.now`. Microseconds are dropped, which does not change the local calendar day.
- `datetime.fromtimestamp` raises outside its year range. The model works on unbounded integers and has no such range.
- Error paths that the payload datatypes make impossible are not modelled: the `KeyError` for a missing `dt` or `timezone_offset`, the `KeyError` for a missing `weather` or `description` key (src/rain_process.py:35), the `AttributeError` for `"rain": null` (src/rain_process.py:38) and the `TypeError` for `"pop": null` when it is compared (src/rain_process.py:57).
- An `hourly` key present with the value null is not modelled; only an absent key is.
- Python floats are modelled as exact reals, with no rounding and no NaN.
- Case mapping covers ASCII only. That applies to `Text.Lower` for `str.lower` and to `Notify.Capitalize` for `str.capitalize`. The keywords "雨" and "雷" and the level names are unaffected.
- `Notify.SendRainEmail`: the SMTP outcome "raised" stands for any exception other than `SMTPConnectError`. Which exception it is, and the message text, are not modelled.
- `Forecast.SelectToday`: the multiset form of "keeps exactly today's points" is stated separately, in `Forecast.SelectTodayCounts`.
- The `__main__` blocks of both files are not modelled. `main.py`, `remind_umbrella.py` and `src/fetch_weather.py` are not part of this model.

## Findings

| source | as written | input that shows it | evidently intended | confidence | as-written member | corrected member |
|---|---|---|---|---|---|---|
| src/send_email.py:110-112 | The result of `smtp_send` is discarded and True is returned. | Worst level "light", with `smtp_send` catching `SMTPConnectError` and returning False. | Return `smtp_send`'s result, as the docstring's "False otherwise" says. | medium, not executed | Notify.ConnectFailureReportedAsSent | Notify.SendRainEmailReportingDelivery |
