# Class-schedule text parser — a Dafny model

This project models the part of the schedule-to-calendar web application
that turns the OCR text of a class-schedule screenshot into calendar events
(`parse_schedule`, `parse_line` and `normalize_time_format` in `index.py`).
It also models the two pieces of later code that read those events again:
the weekly recurrence rule built for the calendar API, and the day text
redisplayed on the confirmation page.

The pipeline, module by module:

- **Text**: the Python string operations the parser relies on. These are
  `str.strip`, `str.split`, `' '.join`, `str.upper`/`str.lower`, substring
  search and `str.splitlines`. Characters are ASCII, and `'\n'` is the only
  line break.
- **Schedule** (segmenter): the raw lines are stripped. A line that begins
  with five digits starts a new logical line. Any other line is appended to
  the current one after a single space.
- **Tokenizer**: `parse_line`. The tokens of a logical line are read as:
  - a class number;
  - a course code of one or two tokens;
  - a title;
  - a units token;
  - instructors;
  - day abbreviations;
  - the time text;
  - the date text;
  - a location.

  Each run is a `while` loop that stops at the first token of the next
  field. A missing class number, course code or units token drops the line.
- **Days**: the day normalizer. `days_str` is upper-cased, its commas are
  removed and it is split. The tokens, concatenated, are looked up in the
  13-entry day table as one compound key. When that fails, the tokens are
  looked up one by one.
- **Ranges**: the two `re.search` calls (a time range and a date range, each
  of two groups joined by an optional-whitespace dash), and
  `normalize_time_format`.
- **Calendar**: `strptime('%m/%d/%y')` and `strptime('%I:%M %p')`, written as
  integer predicates on the matched digit groups. Also:
  - the fixed UTC−7 offset of America/Phoenix;
  - the `UNTIL` stamp, the last instant of the end date converted to UTC;
  - the `RRULE` string.
- **Schedule** (assembly): each logical line is checked in turn. A line is
  dropped when it is:
  - blank;
  - a watermark line (it contains `icourse`, in any case);
  - a line the tokenizer rejects;
  - a line whose time range or date range is missing;
  - a line on which a `strptime` call raises;
  - a line with no days.

  The remaining lines become events. Ids come from a counter, in order of
  acceptance. The confirmation page then rewrites `days_str` as
  abbreviations joined by `", "`.

The loops of the source are methods proved against specification functions:
- `Segment`;
- `ParseLine` and its parts `TakeCourseCode`, `TakeRun`, `TakeFields` and `TakeRest`;
- `MapDays` and `MapEachToken`;
- `ParseSchedule` and its parts `ReadLines`, `AddLine`, `ProcessLine` and `Resolve`;
- `Redisplay`, which rewrites an array of events in place.

The properties of those functions are proved as lemmas.

## Model

| member | source | states |
|---|---|---|
| Text.Upper | index.py:105 | upper-casing keeps the length and maps every character by the ASCII case map |
| Text.UpperUpper | index.py:105-114 | upper-casing is idempotent, so the fallback's second `upper()` changes nothing |
| Text.Lower | index.py:83 | lower-casing keeps the length and maps every character by the ASCII case map |
| Text.Contains | index.py:83 | `t in s` holds exactly when `t` occurs at some index of `s` |
| Text.ContainsWithin | index.py:83 | a substring found in a fragment is still found after text is added on either side |
| Text.Split | index.py:105 | `split()` yields only non-empty tokens without whitespace |
| Text.SplitWord | index.py:188 | a word followed by whitespace or nothing is the first token of the split |
| Text.SplitJoin | index.py:218-253 | splitting the single-space join of tokens gives the tokens back |
| Text.Strip | index.py:71 | `strip()` leaves no whitespace at either end |
| Text.StripToken | index.py:114 | stripping a token leaves it unchanged |
| Text.StripJoin | index.py:188 | a single-space join of tokens is already stripped |
| Text.SplitLinesJoin | index.py:67 | joining the lines of `splitlines()` with line breaks, plus a dropped final break, gives the text back |
| Calendar.DaysInMonth | index.py:151 | a month has 28 to 31 days, and 29 exactly for February of a leap year |
| Calendar.PivotYear | index.py:165 | `%y` maps two digits to a year in 1969–2068 with those last two digits |
| Calendar.ParseDate | index.py:165 | the date parses exactly when month, day and pivoted year name an existing date, and then the result is valid |
| Calendar.ParseClock | index.py:151 | the time parses exactly when the hour is 1–12, the minutes 0–59 and whitespace precedes the meridiem; then the hour matches modulo 12 and is after noon exactly for PM |
| Calendar.ShortDateRoundTrip | index.py:165 | printing any valid date of 1969–2068 as `%m/%d/%y` and parsing it gives the date back |
| Calendar.TwelveHourRoundTrip | index.py:151 | printing any time of day as `%I:%M %p` and parsing it gives the time back |
| Calendar.NextPrevInverse | index.py:273-274 | the day after and the day before are inverse to each other on valid dates |
| Calendar.PhoenixToUtc | index.py:273-274 | converting a valid local instant to UTC gives a valid instant |
| Calendar.LastInstant | index.py:273 | `datetime.max.time()` on a valid date is a valid instant |
| Calendar.UntilIsNextDayMorning | index.py:271-275 | the `UNTIL` stamp is 06:59:59 UTC on the day after the end date |
| Calendar.UntilMayThird | index.py:271-275 | a term ending 5/03/24 recurs until `20240504T065959Z` |
| Calendar.UntilNewYear | index.py:271-275 | an end date of 31 December rolls the stamp into the next year |
| Calendar.UntilLeapDay | index.py:271-275 | an end date of 28 February 2024 gives a stamp on 29 February |
| Calendar.RecurrenceRule | index.py:271-282 | a rule exists exactly when there are days and an end date, and it is weekly on the days in stored order until the stamp of the next morning |
| Ranges.NumberThen | index.py:126 | `\d{1,2}` followed by a separator ends one or two characters on, at the separator |
| Ranges.SkipSpaces | index.py:126 | `\s*` stops at the first non-whitespace character |
| Ranges.ClockAtSound | index.py:126 | what the time-group matcher reads is a well-shaped time written at that index |
| Ranges.ClockAtComplete | index.py:126 | a well-shaped time written at an index is what the matcher reads there |
| Ranges.DateAtSound | index.py:138 | what the date-group matcher reads is a well-shaped date written at that index |
| Ranges.DateAtComplete | index.py:138 | a well-shaped date written at an index is what the matcher reads there |
| Ranges.DateTokenShape | index.py:241 | a date token has 6 to 8 characters, a leading digit and its first slash second or third |
| Ranges.DateTokenMeaning | index.py:241 | a token is a date token exactly when it is the text of some well-shaped date |
| Ranges.DateTokenAt | index.py:241 | the tokenizer's anchored date test agrees with the date group of the range search read to the token's end |
| Ranges.DashSeam | index.py:126 | `\s*[-–—]\s*` crosses whitespace, one dash and whitespace |
| Ranges.TimeRangeAtMeaning | index.py:125-129 | the time-range matcher succeeds at an index exactly when a time, whitespace, a dash, whitespace and a time are written there |
| Ranges.DateRangeAtMeaning | index.py:137-140 | the date-range matcher succeeds at an index exactly when a date, whitespace, a dash, whitespace and a date are written there |
| Ranges.Search | index.py:125-140 | `re.search` reports the leftmost index where the pattern matches, or that none does |
| Ranges.FindTimeRange | index.py:125-135 | a time range is found exactly when the pattern matches somewhere; it is then the two well-shaped times written, around a dash, at the leftmost index where the pattern matches |
| Ranges.FindDateRange | index.py:137-146 | a date range is found exactly when the pattern matches somewhere; it is then the two well-shaped dates written, around a dash, at the leftmost index where the pattern matches |
| Ranges.LeadingTimeRange | index.py:125-132 | a time range written at the start of the text is the one reported |
| Ranges.LeadingDateRange | index.py:137-143 | a date range written at the start of the text is the one reported |
| Ranges.NoDateRangeInShortText | index.py:137-146 | text shorter than thirteen characters, the empty `date_str` among them, has no date range |
| Ranges.NormalizeTimeGroup | index.py:184-186 | normalizing a time group's text inserts a space before an upper-case meridiem glued to the minutes and changes nothing else |
| Ranges.GluedUpperMeridiem | index.py:184-186 | `10:00AM` becomes `10:00 AM` |
| Ranges.NormalizeNoDigits | index.py:184-186 | text without digits is never changed |
| Ranges.BareDashRange | index.py:125-132 | two times joined by a bare dash resolve to exactly those two groups |
| Ranges.BareDashDates | index.py:137-143 | two dates joined by a bare dash resolve to exactly those two groups |
| Ranges.GluedRangeExample | index.py:125-132 | `10:00AM-10:50AM` resolves to the groups `10:00AM` and `10:50AM` |
| Days.DayMappingMeaning | index.py:90-104 | the lookup returns the list of the entry with the key, and fails exactly when no entry has it |
| Days.DayKeysDistinct | index.py:90-104 | the keys of the day table are distinct, as a dictionary's are |
| Days.DayMappingCanonical | index.py:90-104 | every list in the day table holds weekday codes only |
| Days.DayMappingAt | index.py:90-104 | every entry is found under its own key |
| Days.RemoveCommas | index.py:105 | removing commas leaves no comma and never lengthens the text |
| Days.DayTokens | index.py:105 | the day tokens are whitespace-free and non-empty |
| Days.KeysOfDayTokens | index.py:113-114 | the per-token `strip().upper()` of the fallback leaves every token unchanged |
| Days.NormalizeDaysCanonical | index.py:105-123 | every day the normalizer produces is one of the seven weekday codes |
| Days.MapDays | index.py:105-123 | the loop computes the normalized days, and they are weekday codes |
| Days.MapEachToken | index.py:112-122 | the fallback loop appends each token's list in order |
| Days.PerTokenAppend | index.py:112-122 | the fallback maps the parts of a token list separately, keeping order and duplicates |
| Days.UnknownTokenSkipped | index.py:121-122 | a token the table does not know adds no day |
| Days.FallbackTokens | index.py:107-122 | when the compound key is unknown, the days are the lists of the tokens, concatenated in order |
| Days.MwfAnyCase | index.py:98-109 | `MWF` in any letter case gives Monday, Wednesday and Friday |
| Days.TuesdayThursday | index.py:100-109 | separate `Tu` and `Th` tokens form the compound key `TUTH` |
| Days.ToBeAnnounced | index.py:102-109 | a `TBA` class has no days |
| Days.MondayFridayUnmapped | index.py:90-122 | `MF` passes the tokenizer but gives no days |
| Days.FallbackExample | index.py:110-122 | `Tu Th F` is not a compound, so its tokens are mapped one by one to TU, TH, FR |
| Days.AbbreviationAt | index.py:452-462 | each weekday code is shown as its abbreviation |
| Days.UnknownCodeShownAsIs | index.py:462 | a code the reverse table does not know is shown as it is |
| Days.DecodeShown | index.py:452-462 | the concatenated abbreviations of weekday codes read back as those codes |
| Days.DisplayRoundTrip | index.py:452-462 | normalizing the displayed day text gives the days back |
| Days.RedisplayStable | index.py:452-462 | showing the normalized days and normalizing again changes nothing |
| Tokenizer.SpacedCodePattern | index.py:198-200 | on two tokens, the course-code pattern with optional whitespace means the spaced form |
| Tokenizer.GluedCodePattern | index.py:204-205 | on one token, the pattern with optional whitespace means the glued form |
| Tokenizer.RunEndMeaning | index.py:214-250 | a run's loop takes every token up to where it stops and not the token it stops at |
| Tokenizer.CodeWidth | index.py:198-212 | the course code takes at most two tokens, and only when at least two tokens follow the class number |
| Tokenizer.CutsOf | index.py:191-250 | found cuts are in order within the tokens |
| Tokenizer.CutsMeaning | index.py:191-250 | each cut is where the corresponding loop stops |
| Tokenizer.ParseLine | index.py:187-264 | the method returns the record of the specification, or `None` where `parse_line` gives up |
| Tokenizer.ParseTokens | index.py:189-264 | the index-walking body returns the record of the token list |
| Tokenizer.TakeCourseCode | index.py:198-212 | a course code is found exactly when one exists; it is the one or two tokens after the class number, and the index moves past it |
| Tokenizer.TakeRun | index.py:214-250 | a `while` loop takes exactly the tokens from its start to where the run ends |
| Tokenizer.TakeFields | index.py:214-264 | the loops after the course code build the record of the specification |
| Tokenizer.TakeRest | index.py:227-264 | the loops after the units token build the record of the specification |
| Tokenizer.TitleStopsAtUnits | index.py:214-225 | the title loop stops inside the tokens exactly when a units token follows |
| Tokenizer.MandatoryFields | index.py:191-225 | a record exists exactly when there is a class number, a course code and a later units token |
| Tokenizer.NoUnitsNoRecord | index.py:220-225 | a line without a units token gives no record |
| Tokenizer.CodeForms | index.py:198-209 | a two-token code reads as letters then digits, and a one-token code is glued and not the spaced form |
| Tokenizer.SliceTokens | index.py:214-253 | putting the runs back together at any ordered cuts gives the tokens back |
| Tokenizer.ScanPartition | index.py:188-253 | the fields of a record partition the tokens of the line, in order |
| Tokenizer.ScanRunsTake | index.py:191-250 | every token of a run passes that run's loop test, and the class number, code and units have their shapes |
| Tokenizer.ScanRunsStop | index.py:229-253 | a location begins with `Tempe`; the runs after the days are empty when there are no days; the token after the days is no day; no date run means no location |
| Tokenizer.DateTokenNotLocation | index.py:241-247 | a date token never begins `Tempe` |
| Tokenizer.LineOfTokens | index.py:188 | tokens joined with single spaces tokenize back to themselves |
| Tokenizer.SummaryOfRecord | index.py:256 | the summary is the course code, ` - ` and the title, and starts with the first code token |
| Tokenizer.GluedDatesExample | index.py:214-253 | with a glued date range the time run takes everything after the days, leaving the date and location empty |
| Tokenizer.GluedLineRecord | index.py:240-250 | the line of that record parses to a record whose date text is empty |
| Tokenizer.SpacedDatesExample | index.py:214-253 | with a spaced date range the time, date and location are split as written |
| Schedule.Segment | index.py:67-79 | the segmentation loop computes the logical lines of the specification |
| Schedule.SegmentsShape | index.py:67-79 | every logical line after the first starts with five digits; the first one does too, or begins with the space added in front of continuation text |
| Schedule.SegmentsContents | index.py:70-79 | the logical lines concatenated are the stripped lines, each continuation behind one space |
| Schedule.SegmentsCount | index.py:70-79 | there is one logical line per record line, plus one for leading continuation text |
| Schedule.LeadingContinuation | index.py:70-79 | continuation text before the first record becomes its own logical line behind a space |
| Schedule.MergedContinuation | index.py:70-77 | a wrapped line is merged into the record before it |
| Schedule.ContinuationRejected | index.py:191-196 | a logical line made of continuation text never gives a record |
| Schedule.WatermarkInFragment | index.py:83-84 | a watermark in a wrapped fragment drops the whole merged line |
| Schedule.ParseSchedule | index.py:65-183 | the method returns the events of the specification |
| Schedule.ReadLines | index.py:80-183 | the second loop yields the accepted entries numbered from the first id |
| Schedule.AddLine | index.py:85-174 | one turn appends the line's entry, if any, under the next id |
| Schedule.ProcessLine | index.py:81-174 | one logical line gives the entry of the specification |
| Schedule.Resolve | index.py:105-174 | the resolver returns the entry of the specification |
| Schedule.ReadDate | index.py:427-430 | a stored date string reads as a valid date no earlier than 1969 |
| Schedule.ReadDateString | index.py:427-430 | a stored date string reads back as the date its group stands for |
| Schedule.AcceptedEntry | index.py:80-174 | an accepted line is no noise and tokenizes to the entry's record; its days are the normalized, non-empty, canonical days; its start and end times are the normalized groups of the first time range in `time_str`; its start and end dates are the groups of the first date range in `date_str`, as written; and all four parse |
| Schedule.AcceptMeaning | index.py:125-174 | a record is accepted exactly when both ranges are found, the three `strptime` calls succeed and there are days |
| Schedule.EndBeforeStartAccepted | index.py:149-168 | start and end times are never compared, so a meeting ending before it starts is accepted |
| Schedule.LateTimes | index.py:125-159 | `2:00 PM-1:00 PM` resolves to two times that parse as 14:00 and 13:00 |
| Schedule.AfternoonClock | index.py:131-151 | an afternoon hour written with its space is left alone and reads as that hour past noon |
| Schedule.TermDates | index.py:137-165 | `1/08/24-5/03/24` resolves to two dates that parse as 8 January and 3 May 2024 |
| Schedule.NoUnitsNoEvent | index.py:220-225 | a line without a units token contributes no event |
| Schedule.GluedDatesNoEvent | index.py:137-174 | a record whose date range is written as one token has an empty date text and gives no event |
| Schedule.EntriesAppend | index.py:80-174 | the entries of consecutive stretches of lines follow each other, and a rejected line adds nothing |
| Schedule.EntriesOrigin | index.py:80-174 | every accepted entry comes from one of the logical lines |
| Schedule.NumberedIds | index.py:170 | the ids are the counter's values in order: distinct and increasing |
| Schedule.NextIdFresh | index.py:170 | all ids of a schedule lie between the first id and the next counter value, which is fresh |
| Schedule.AcceptedRecurrence | index.py:271-282 | every accepted event recurs weekly on its days until 06:59:59 UTC after its end date |
| Schedule.Redisplay | index.py:461-462 | every event's `days_str` is replaced by its displayed days and nothing else changes |
| Schedule.RedisplayKeepsDays | index.py:452-462 | the displayed days of an accepted event normalize back to its days |

## Left out

- Flask routes, sessions and templates are left out as web plumbing. So are OAuth credentials, image preprocessing and the OCR call, the Calendar API insert, `isoformat` and logging.
- `package_sizes.py` is not part of this model.
- `uuid.uuid4()` is modelled as a counter (`firstId`, `firstId + 1`, ...), since randomness cannot be modelled. The proved property is distinctness.
- `pytz` America/Phoenix is modelled as the fixed offset UTC−7. That zone has no daylight saving time, but the zone database itself is not modelled.
- `strptime` is modelled on the digit groups the two regular expressions capture, as integer predicates. Other format directives and locale effects are not modelled.
- Schedule.Accept: the localized `start`/`end` datetimes and the `end_date` are checked for success and then dropped, as the source pops them. The model does not keep them.
- The `try`/`except` around each line is modelled only for the failures the model can produce: a `strptime` call that raises drops the line.
- Character classes are ASCII only. Python's Unicode `\d`, `str.isspace`, `upper`/`lower` and `splitlines` accept more characters. The only line break modelled is `'\n'`, and `\r\n` text is not modelled.
- A general regular-expression engine is not modelled: each pattern the parser uses has its own hand-written matcher.

Four behaviours of the code that a reader may not expect; the model keeps them as written:

- Continuation text before the first record line is not dropped. It becomes a logical line of its own behind a space, which the tokenizer then rejects (`Schedule.LeadingContinuation`, `Schedule.ContinuationRejected`).
- Blank and watermark lines are filtered after merging, not before. A watermark inside a wrapped fragment therefore drops the whole record (`Schedule.WatermarkInFragment`).
- A glued date range such as `1/08/24-5/03/24` is not a date token. The time run takes it together with the location, so `date_str` is empty and no event is produced (`Tokenizer.GluedDatesExample`, `Schedule.GluedDatesNoEvent`).
- `MF` is a day abbreviation for the tokenizer but is not in the day table, so such a class has no days and is dropped (`Days.MondayFridayUnmapped`).
