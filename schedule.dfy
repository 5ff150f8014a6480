/** `parse_schedule` (index.py:67-175): the OCR text is cut into logical lines,
    noise is filtered out, each remaining line goes through `parse_line`, the
    day normalizer and the range resolver, and the lines that resolve to a
    complete, parseable meeting become events with fresh ids. Also the
    recurrence directive built for each event (index.py:271-282, with the end
    date re-read as in index.py:427-430) and the redisplay of the days
    (index.py:452-462). */
module Schedule {
  import opened Wrappers
  import opened Text
  import opened Calendar
  import Ranges
  import Days
  import Tokenizer

  // ---------------------------------------------------------------------------
  // Segmentation (index.py:70-79)

  /** `re.match(r'^\d{5,6}', stripped_line)`: without an end anchor, five
      leading digits are enough. */
  predicate StartsRecord(s: string) { 5 <= |s| && AllDigits(s[..5]) }

  /** The loop state: the logical lines so far and the one being built. */
  datatype Segmenter = Segmenter(combined: seq<string>, buffer: string)

  /** The logical lines, with a non-empty buffer flushed after them. */
  function Flush(st: Segmenter): seq<string> {
    if st.buffer != [] then st.combined + [st.buffer] else st.combined
  }

  /** One stripped line: a line that starts a record flushes the buffer and
      starts a new one; any other line is appended after a single space. */
  function Feed(st: Segmenter, stripped: string): Segmenter {
    if StartsRecord(stripped) then Segmenter(Flush(st), stripped)
    else Segmenter(st.combined, st.buffer + " " + stripped)
  }

  /** The state after the stripped lines, fed in order. */
  function FeedAll(stripped: seq<string>): Segmenter
    decreases |stripped|
  {
    if stripped == [] then Segmenter([], "") else Feed(FeedAll(stripped[..|stripped| - 1]), stripped[|stripped| - 1])
  }

  /** `line.strip()` for every raw line. */
  function StripAll(lines: seq<string>): (r: seq<string>)
    ensures |r| == |lines| && forall k :: 0 <= k < |lines| ==> r[k] == Strip(lines[k])
  {
    seq(|lines|, k requires 0 <= k < |lines| => Strip(lines[k]))
  }

  /** The logical lines of raw lines. */
  function Segments(lines: seq<string>): seq<string> {
    Flush(FeedAll(StripAll(lines)))
  }

  /** The logical lines of the text (`text.splitlines()`, then the loop). */
  function LogicalLines(text: string): seq<string> {
    Segments(SplitLines(text))
  }

  /** The segmentation loop of `parse_schedule`. */
  method Segment(lines: seq<string>) returns (combinedLines: seq<string>)
    ensures combinedLines == Segments(lines)
  {
    ghost var stripped := StripAll(lines);
    combinedLines := [];
    var buffer := "";
    for i := 0 to |lines|
      invariant Segmenter(combinedLines, buffer) == FeedAll(stripped[..i])
    {
      var strippedLine := Strip(lines[i]);
      if StartsRecord(strippedLine) {
        if buffer != "" {
          combinedLines := combinedLines + [buffer];
        }
        buffer := strippedLine;
      } else {
        buffer := buffer + " " + strippedLine;
      }
      assert stripped[..i + 1][..i] == stripped[..i];
    }
    if buffer != "" {
      combinedLines := combinedLines + [buffer];
    }
    assert stripped[..|lines|] == stripped;
  }

  /** A logical line opens with a record line, or with the space put in front
      of leading continuation text. */
  predicate Opens(s: string) { StartsRecord(s) || (s != [] && s[0] == ' ') }

  /** The shape of a list of logical lines: the first one opens, and every
      later one starts a record. */
  predicate WellSegmented(segs: seq<string>) {
    (segs != [] ==> Opens(segs[0])) && forall k :: 0 < k < |segs| ==> StartsRecord(segs[k])
  }

  /** What the segmentation loop keeps: the buffer is empty only before the
      first line; once a logical line has been flushed the buffer starts a
      record; and the flushed lines are well segmented. */
  predicate Invariant(st: Segmenter, fed: nat) {
    (st.buffer == [] <==> fed == 0)
    && (st.combined != [] ==> StartsRecord(st.buffer))
    && WellSegmented(Flush(st))
  }

  lemma StartsRecordAppend(s: string, t: string)
    requires StartsRecord(s)
    ensures StartsRecord(s + t)
  {
    assert (s + t)[..5] == s[..5];
  }

  lemma FeedInvariant(st: Segmenter, fed: nat, stripped: string)
    requires Invariant(st, fed)
    ensures Invariant(Feed(st, stripped), fed + 1)
  {
    if !StartsRecord(stripped) {
      var b := st.buffer + " " + stripped;
      if st.buffer != [] && StartsRecord(st.buffer) {
        StartsRecordAppend(st.buffer, " " + stripped);
        assert b == st.buffer + (" " + stripped);
      }
      if st.buffer != [] && !StartsRecord(st.buffer) {
        assert b[0] == st.buffer[0];
      }
      var segs := Flush(Feed(st, stripped));
      assert segs == st.combined + [b];
      forall k | 0 < k < |segs| ensures StartsRecord(segs[k]) {
        if k < |st.combined| {
          assert segs[k] == Flush(st)[k];
        }
      }
    } else {
      var segs := Flush(Feed(st, stripped));
      assert segs == Flush(st) + [stripped];
      forall k | 0 < k < |segs| ensures StartsRecord(segs[k]) {
        if k < |Flush(st)| {
          assert segs[k] == Flush(st)[k];
        }
      }
    }
  }

  lemma {:induction false} FeedAllInvariant(stripped: seq<string>)
    ensures Invariant(FeedAll(stripped), |stripped|)
    decreases |stripped|
  {
    if stripped != [] {
      FeedAllInvariant(stripped[..|stripped| - 1]);
      FeedInvariant(FeedAll(stripped[..|stripped| - 1]), |stripped| - 1, stripped[|stripped| - 1]);
    }
  }

  /** Every logical line after the first starts with a record line; the first
      one does too, or it is leading continuation text behind a space. */
  lemma SegmentsShape(lines: seq<string>)
    ensures WellSegmented(Segments(lines))
  {
    FeedAllInvariant(StripAll(lines));
  }

  /** The text a stripped line contributes to the logical lines. */
  function Piece(stripped: string): string {
    if StartsRecord(stripped) then stripped else " " + stripped
  }

  function Pieces(stripped: seq<string>): (r: seq<string>)
    ensures |r| == |stripped| && forall k :: 0 <= k < |stripped| ==> r[k] == Piece(stripped[k])
  {
    seq(|stripped|, k requires 0 <= k < |stripped| => Piece(stripped[k]))
  }

  lemma FeedContents(st: Segmenter, stripped: string)
    ensures Concat(Flush(Feed(st, stripped))) == Concat(Flush(st)) + Piece(stripped)
  {
    if StartsRecord(stripped) {
      ConcatSnoc(Flush(st), stripped);
    } else {
      var b := st.buffer + " " + stripped;
      assert Flush(Feed(st, stripped)) == st.combined + [b];
      ConcatSnoc(st.combined, b);
      if st.buffer != [] {
        ConcatSnoc(st.combined, st.buffer);
        assert Concat(st.combined) + b == (Concat(st.combined) + st.buffer) + (" " + stripped);
      } else {
        assert b == " " + stripped;
      }
    }
  }

  lemma ConcatSnoc(segs: seq<string>, s: string)
    ensures Concat(segs + [s]) == Concat(segs) + s
  {
    ConcatAppend(segs, [s]);
    assert Concat([s]) == s + Concat([]);
  }

  lemma {:induction false} FeedAllContents(stripped: seq<string>)
    ensures Concat(Flush(FeedAll(stripped))) == Concat(Pieces(stripped))
    decreases |stripped|
  {
    if stripped != [] {
      var init := stripped[..|stripped| - 1];
      var last := stripped[|stripped| - 1];
      FeedAllContents(init);
      FeedContents(FeedAll(init), last);
      assert Pieces(stripped) == Pieces(init) + [Piece(last)];
      ConcatSnoc(Pieces(init), Piece(last));
    }
  }

  /** Nothing is lost, added or reordered: the logical lines, put back
      together, are the stripped raw lines in order, each continuation line
      behind a single space. */
  lemma SegmentsContents(lines: seq<string>)
    ensures Concat(Segments(lines)) == Concat(Pieces(StripAll(lines)))
  {
    FeedAllContents(StripAll(lines));
  }

  /** How many stripped lines start a record. */
  function RecordLines(stripped: seq<string>): (n: nat)
    ensures n <= |stripped|
    decreases |stripped|
  {
    if stripped == [] then 0
    else RecordLines(stripped[..|stripped| - 1]) + (if StartsRecord(stripped[|stripped| - 1]) then 1 else 0)
  }

  lemma {:induction false} FeedAllCount(stripped: seq<string>)
    ensures |Flush(FeedAll(stripped))|
      == RecordLines(stripped) + (if stripped != [] && !StartsRecord(stripped[0]) then 1 else 0)
    decreases |stripped|
  {
    if stripped != [] {
      var init := stripped[..|stripped| - 1];
      FeedAllCount(init);
      FeedAllInvariant(init);
      if init != [] {
        assert init[0] == stripped[0];
      }
    }
  }

  /** One logical line per record line, plus one for leading continuation
      text. */
  lemma SegmentsCount(lines: seq<string>)
    ensures |Segments(lines)|
      == RecordLines(StripAll(lines)) + (if lines != [] && !StartsRecord(Strip(lines[0])) then 1 else 0)
  {
    FeedAllCount(StripAll(lines));
  }

  /** A leading continuation line does not vanish: it becomes a logical line
      of its own, behind a space, and a record line after it starts the next. */
  lemma LeadingContinuation(first: string, record: string)
    requires !StartsRecord(Strip(first)) && StartsRecord(Strip(record))
    ensures Segments([first, record]) == [" " + Strip(first), Strip(record)]
  {
    var stripped := StripAll([first, record]);
    assert stripped[..1] == [Strip(first)];
    assert stripped[..1][..0] == [];
    assert FeedAll(stripped[..1]) == Segmenter([], " " + Strip(first));
  }

  /** A wrapped line is merged into the record it continues. */
  lemma MergedContinuation(record: string, wrapped: string)
    requires StartsRecord(Strip(record)) && !StartsRecord(Strip(wrapped))
    ensures Segments([record, wrapped]) == [Strip(record) + " " + Strip(wrapped)]
  {
    var stripped := StripAll([record, wrapped]);
    assert stripped[..1] == [Strip(record)];
    assert stripped[..1][..0] == [];
    assert FeedAll(stripped[..1]) == Segmenter([], Strip(record));
  }

  /** Text behind a space never reads as a record: its first token is a prefix
      of text that does not start with five digits. */
  lemma ContinuationRejected(t: string, rest: string)
    requires t != [] && !IsSpace(t[0]) && !IsSpace(t[|t| - 1]) && !StartsRecord(t)
    requires rest == [] || IsSpace(rest[0])
    ensures Tokenizer.LineRecord(" " + t + rest) == None
  {
    var u := Strip(" " + t + rest);
    ContinuationStrip(t, rest);
    FirstWordWithin(u, t);
    assert Tokenizer.CutsOf(Split(u)) == None;
  }

  /** The stripped continuation line begins with all of `t`, followed by
      whitespace or nothing. */
  lemma ContinuationStrip(t: string, rest: string)
    requires t != [] && !IsSpace(t[0]) && !IsSpace(t[|t| - 1])
    requires rest == [] || IsSpace(rest[0])
    ensures var u := Strip(" " + t + rest);
      |t| <= |u| && u[..|t|] == t && (|t| < |u| ==> IsSpace(u[|t|]))
  {
    var line := " " + t + rest;
    assert StripLeft(line) == StripLeft(line[1..]);
    assert line[1..] == t + rest;
    assert StripLeft(t + rest) == t + rest;
    var u := Strip(line);
    assert u == StripRight(t + rest);
    StripRightKeeps(t, rest);
    if |u| > |t| {
      assert u[|t|] == (t + rest)[|t|] == rest[0];
    }
  }

  /** The first token of a line that begins with `t` and then whitespace or
      nothing is a prefix of `t`, so it is no class number when `t` does not
      start with five digits. */
  lemma FirstWordWithin(u: string, t: string)
    requires t != [] && !IsSpace(t[0]) && !StartsRecord(t)
    requires |t| <= |u| && u[..|t|] == t && (|t| < |u| ==> IsSpace(u[|t|]))
    ensures Split(u) != [] && !Tokenizer.IsClassNumber(Split(u)[0])
  {
    assert u[0] == t[0];
    var j := WordEnd(u, 0);
    assert Split(u)[0] == u[..j];
    assert j <= |t|;
    if 5 <= j {
      assert forall i :: 0 <= i < 5 ==> u[..j][i] == t[..5][i];
    }
  }

  /** Stripping the right end of `t + rest` keeps all of `t`, whose last
      character is not whitespace. */
  lemma {:induction false} StripRightKeeps(t: string, rest: string)
    requires t != [] && !IsSpace(t[|t| - 1])
    ensures |t| <= |StripRight(t + rest)|
    decreases |rest|
  {
    if rest != [] {
      var s := t + rest;
      if IsSpace(s[|s| - 1]) {
        assert s[..|s| - 1] == t + rest[..|rest| - 1];
        StripRightKeeps(t, rest[..|rest| - 1]);
      }
    } else {
      assert t + rest == t;
    }
  }

  // ---------------------------------------------------------------------------
  // The noise filter (index.py:80-84)

  /** `not line.strip()` or `'icourse' in line.lower()`. */
  predicate IsNoise(line: string) {
    Strip(line) == [] || Contains(Lower(line), "icourse")
  }

  /** A watermark in a wrapped fragment marks the whole merged line as noise. */
  lemma WatermarkInFragment(head: string, fragment: string, tail: string)
    requires Contains(Lower(fragment), "icourse")
    ensures IsNoise(head + " " + fragment + tail)
  {
    LowerAppend(head + " " + fragment, tail);
    LowerAppend(head + " ", fragment);
    ContainsWithin(Lower(head + " "), Lower(fragment), Lower(tail), "icourse");
  }

  // ---------------------------------------------------------------------------
  // Acceptance (index.py:86-174)

  /** The fields a line adds to its record before it is accepted. */
  datatype Entry = Entry(
    record: Tokenizer.Record,
    daysOfWeek: seq<string>,
    startTime: string,
    endTime: string,
    startDate: string,
    endDate: string)

  /** An accepted event: an entry and its id. */
  datatype Event = Event(id: nat, entry: Entry)

  /** The three `strptime` calls succeed: the start date with the start time,
      the start date with the end time (both after `normalize_time_format`),
      and the end date. */
  predicate Parses(times: Ranges.TimeRange, dates: Ranges.DateRange)
    requires WellShapedTime(times.start) && WellShapedTime(times.end)
    requires WellShapedDate(dates.start) && WellShapedDate(dates.end)
  {
    DateTimeParses(dates.start, Ranges.Normalized(times.start))
    && DateTimeParses(dates.start, Ranges.Normalized(times.end))
    && ParseDate(dates.end).Some?
  }

  /** The resolved record, or `None` when a range is missing, a `strptime`
      call raises (the line is dropped), or there are no days. */
  function Accept(rec: Tokenizer.Record): Option<Entry> {
    var days := Days.NormalizeDays(rec.daysStr);
    match (Ranges.FindTimeRange(rec.timeStr), Ranges.FindDateRange(rec.dateStr))
    case (Some(times), Some(dates)) =>
      if Parses(times, dates) && days != [] then
        Some(Entry(rec, days, Ranges.NormalizeTime(TimeString(times.start)), Ranges.NormalizeTime(TimeString(times.end)),
                   DateString(dates.start), DateString(dates.end)))
      else None
    case _ => None
  }

  /** What becomes of one logical line. */
  function LineEntry(line: string): Option<Entry> {
    if IsNoise(line) then None
    else
      match Tokenizer.LineRecord(line)
      case None => None
      case Some(rec) => Accept(rec)
  }

  /** The accepted entries of the logical lines, in order. */
  function Entries(lines: seq<string>): (r: seq<Entry>)
    ensures |r| <= |lines|
  {
    Collect(LineEntry, lines)
  }

  /** The values a partial map gives on a list, in order, skipping where it
      gives none. */
  function Collect(f: string -> Option<Entry>, lines: seq<string>): (r: seq<Entry>)
    ensures |r| <= |lines|
    decreases |lines|
  {
    if lines == [] then []
    else Collect(f, lines[..|lines| - 1]) + (match f(lines[|lines| - 1]) case Some(e) => [e] case None => [])
  }

  lemma CollectSnoc(f: string -> Option<Entry>, lines: seq<string>, i: nat)
    requires i < |lines|
    ensures f(lines[i]).Some? ==> Collect(f, lines[..i + 1]) == Collect(f, lines[..i]) + [f(lines[i]).value]
    ensures f(lines[i]).None? ==> Collect(f, lines[..i + 1]) == Collect(f, lines[..i])
  {
    assert lines[..i + 1][..i] == lines[..i];
  }

  /** One turn of the numbering loop, for any way of reading a line. */
  lemma NumberedStep(f: string -> Option<Entry>, lines: seq<string>, i: nat, firstId: nat,
                     events: seq<Event>, nextId: nat, e: Option<Entry>)
    requires i < |lines| && e == f(lines[i])
    requires events == Numbered(Collect(f, lines[..i]), firstId) && nextId == firstId + |events|
    ensures e.Some? ==> events + [Event(nextId, e.value)] == Numbered(Collect(f, lines[..i + 1]), firstId)
    ensures e.None? ==> events == Numbered(Collect(f, lines[..i + 1]), firstId)
  {
    CollectSnoc(f, lines, i);
    if e.Some? {
      NumberedSnoc(Collect(f, lines[..i]), e.value, firstId);
    }
  }

  lemma NumberedSnoc(entries: seq<Entry>, e: Entry, firstId: nat)
    ensures Numbered(entries + [e], firstId) == Numbered(entries, firstId) + [Event(firstId + |entries|, e)]
  {
  }

  /** Ids from the counter, in order of acceptance. */
  function Numbered(entries: seq<Entry>, firstId: nat): (r: seq<Event>)
    ensures |r| == |entries|
  {
    seq(|entries|, k requires 0 <= k < |entries| => Event(firstId + k, entries[k]))
  }

  /** The events of a schedule text, the ids counted from `firstId`. */
  function ParseScheduleSpec(text: string, firstId: nat): seq<Event> {
    Numbered(Entries(LogicalLines(text)), firstId)
  }

  /** `parse_schedule`: segment the text, then read every logical line. */
  method ParseSchedule(text: string, firstId: nat) returns (events: seq<Event>)
    ensures events == ParseScheduleSpec(text, firstId)
  {
    var lines := SplitLines(text);
    var combinedLines := Segment(lines);
    events := ReadLines(combinedLines, firstId);
  }

  /** The second loop of `parse_schedule`: one event per accepted line, ids counted up. */
  method ReadLines(combinedLines: seq<string>, firstId: nat) returns (events: seq<Event>)
    ensures events == Numbered(Entries(combinedLines), firstId)
  {
    events := [];
    var nextId := firstId;
    assert combinedLines[..0] == [];
    for i := 0 to |combinedLines|
      invariant events == Numbered(Collect(LineEntry, combinedLines[..i]), firstId)
      invariant nextId == firstId + |events|
    {
      events, nextId := AddLine(combinedLines, i, firstId, events, nextId);
    }
    assert combinedLines[..|combinedLines|] == combinedLines;
  }

  /** One turn of that loop: read line `i` and append its event, if any, under the next id. */
  method AddLine(combinedLines: seq<string>, i: nat, firstId: nat, events: seq<Event>, nextId: nat)
    returns (newEvents: seq<Event>, newNextId: nat)
    requires i < |combinedLines|
    requires events == Numbered(Collect(LineEntry, combinedLines[..i]), firstId)
    requires nextId == firstId + |events|
    ensures newEvents == Numbered(Collect(LineEntry, combinedLines[..i + 1]), firstId)
    ensures newNextId == firstId + |newEvents|
  {
    newEvents, newNextId := events, nextId;
    var entry := ProcessLine(combinedLines[i]);
    NumberedStep(LineEntry, combinedLines, i, firstId, events, nextId, entry);
    if entry.Some? {
      newEvents := events + [Event(nextId, entry.value)];
      newNextId := nextId + 1;
    }
  }

  /** The body of the second loop of `parse_schedule`, for one logical line. */
  method ProcessLine(line: string) returns (entry: Option<Entry>)
    ensures entry == LineEntry(line)
  {
    if Strip(line) == [] || Contains(Lower(line), "icourse") {
      return None;
    }
    var event := Tokenizer.ParseLine(line);
    if event.None? {
      return None;
    }
    entry := Resolve(event.value);
  }

  /** The rest of the loop body: the days, the two ranges, the three
      `strptime` calls and the acceptance test. */
  method Resolve(rec: Tokenizer.Record) returns (entry: Option<Entry>)
    ensures entry == Accept(rec)
  {
    var eventDays := Days.MapDays(rec.daysStr);
    var timeRange := Ranges.FindTimeRange(rec.timeStr);
    var dateRange := Ranges.FindDateRange(rec.dateStr);
    if timeRange.None? || dateRange.None? {
      return None;
    }
    var times, dates := timeRange.value, dateRange.value;
    if !Parses(times, dates) || eventDays == [] {
      return None;
    }
    entry := Some(Entry(rec, eventDays, Ranges.NormalizeTime(TimeString(times.start)),
                        Ranges.NormalizeTime(TimeString(times.end)), DateString(dates.start), DateString(dates.end)));
  }

  // ---------------------------------------------------------------------------
  // What an accepted event holds

  /** `datetime.strptime(s, '%m/%d/%y')` on a stored date string. */
  function ReadDate(s: string): (r: Option<Date>)
    ensures r.Some? ==> ValidDate(r.value) && 1969 <= r.value.year
  {
    match Ranges.DateAt(s, 0)
    case Some((t, n)) => if n == |s| then Ranges.DateAtSound(s, 0); ParseDate(t) else None
    case None => None
  }

  /** A stored date string reads back as the date its group stands for. */
  lemma ReadDateString(t: DateText)
    requires WellShapedDate(t)
    ensures ReadDate(DateString(t)) == ParseDate(t)
  {
    var s := DateString(t);
    assert s[0..|s|] == s;
    Ranges.DateAtComplete(s, 0, t);
  }

  /** `datetime.strptime(s, '%I:%M %p')` on a stored time string: it is the
      text of a well-shaped time whose clock parses. */
  ghost predicate ReadsAsTime(s: string) {
    exists t :: WellShapedTime(t) && s == TimeString(t) && ParseClock(t).Some?
  }

  /** What an accepted line becomes: a normalized, non-empty list of weekday
      codes; the two times of the range found in the record's time text,
      normalized; the two dates of the range found in its date text, as
      written; and all four stored strings parse. */
  lemma AcceptedEntry(line: string)
    requires LineEntry(line).Some?
    ensures var e := LineEntry(line).value;
      !IsNoise(line) && Tokenizer.LineRecord(line) == Some(e.record)
      && e.daysOfWeek != [] && Days.AllWeekdays(e.daysOfWeek) && e.daysOfWeek == Days.NormalizeDays(e.record.daysStr)
      && Ranges.FindTimeRange(e.record.timeStr).Some? && Ranges.FindDateRange(e.record.dateStr).Some?
      && e.startTime == TimeString(Ranges.Normalized(Ranges.FindTimeRange(e.record.timeStr).value.start))
      && e.endTime == TimeString(Ranges.Normalized(Ranges.FindTimeRange(e.record.timeStr).value.end))
      && e.startDate == DateString(Ranges.FindDateRange(e.record.dateStr).value.start)
      && e.endDate == DateString(Ranges.FindDateRange(e.record.dateStr).value.end)
      && ReadsAsTime(e.startTime) && ReadsAsTime(e.endTime)
      && ReadDate(e.startDate).Some? && ReadDate(e.endDate).Some?
  {
    var e := LineEntry(line).value;
    var times := Ranges.FindTimeRange(e.record.timeStr).value;
    var dates := Ranges.FindDateRange(e.record.dateStr).value;
    Days.NormalizeDaysCanonical(e.record.daysStr);
    Ranges.NormalizeTimeGroup(times.start);
    Ranges.NormalizeTimeGroup(times.end);
    ReadDateString(dates.start);
    ReadDateString(dates.end);
    assert WellShapedTime(Ranges.Normalized(times.start));
    assert WellShapedTime(Ranges.Normalized(times.end));
  }

  /** Acceptance, in both directions: a record is accepted exactly when both
      ranges are found, all three `strptime` calls succeed and the days are
      not empty. */
  lemma AcceptMeaning(rec: Tokenizer.Record)
    ensures Accept(rec).Some? <==>
      Ranges.FindTimeRange(rec.timeStr).Some? && Ranges.FindDateRange(rec.dateStr).Some?
      && Parses(Ranges.FindTimeRange(rec.timeStr).value, Ranges.FindDateRange(rec.dateStr).value)
      && Days.NormalizeDays(rec.daysStr) != []
  {
  }

  /** The start and end times are checked one by one and never against each
      other: a meeting that ends before it starts is accepted. */
  lemma EndBeforeStartAccepted(rec: Tokenizer.Record)
    requires rec.timeStr == "2:00 PM-1:00 PM" && rec.dateStr == "1/08/24-5/03/24" && rec.daysStr == "MWF"
    ensures Accept(rec).Some?
    ensures Accept(rec).value.startTime == "2:00 PM" && Accept(rec).value.endTime == "1:00 PM"
  {
    var t1, t2 := TimeText("2", "00", " ", "PM"), TimeText("1", "00", " ", "PM");
    var d1, d2 := DateText("1", "08", "24"), DateText("5", "03", "24");
    LateTimes(rec.timeStr, t1, t2);
    TermDates(rec.dateStr, d1, d2);
    MondayWednesdayFriday(rec.daysStr);
    assert Parses(Ranges.TimeRange(t1, t2), Ranges.DateRange(d1, d2));
  }

  /** The days of the example above. */
  lemma MondayWednesdayFriday(daysStr: string)
    requires daysStr == "MWF"
    ensures Days.NormalizeDays(daysStr) == ["MO", "WE", "FR"]
  {
    assert Upper(daysStr) == "MWF";
    Days.MwfAnyCase(daysStr);
  }

  /** The times of the example above: the end clock comes before the start. */
  lemma LateTimes(s: string, t1: TimeText, t2: TimeText)
    requires s == "2:00 PM-1:00 PM" && t1 == TimeText("2", "00", " ", "PM") && t2 == TimeText("1", "00", " ", "PM")
    ensures Ranges.FindTimeRange(s) == Some(Ranges.TimeRange(t1, t2))
    ensures Ranges.NormalizeTime(TimeString(t1)) == "2:00 PM" && Ranges.NormalizeTime(TimeString(t2)) == "1:00 PM"
    ensures Ranges.Normalized(t1) == t1 && Ranges.Normalized(t2) == t2
    ensures ParseClock(t1) == Some(Clock(14, 0)) && ParseClock(t2) == Some(Clock(13, 0))
  {
    LateRange(s, t1, t2);
    AfternoonClock(t1, 2);
    AfternoonClock(t2, 1);
  }

  lemma LateRange(s: string, t1: TimeText, t2: TimeText)
    requires s == "2:00 PM-1:00 PM" && t1 == TimeText("2", "00", " ", "PM") && t2 == TimeText("1", "00", " ", "PM")
    ensures TimeString(t1) == "2:00 PM" && TimeString(t2) == "1:00 PM"
    ensures Ranges.FindTimeRange(s) == Some(Ranges.TimeRange(t1, t2))
  {
    assert TimeString(t1) == "2:00 PM" && TimeString(t2) == "1:00 PM";
    assert WellShapedTime(t1) && WellShapedTime(t2);
    Ranges.BareDashRange(s, t1, t2);
  }

  /** An afternoon hour on the hour, written with its space: normalizing
      leaves it alone and it reads as that hour past noon. */
  lemma AfternoonClock(t: TimeText, h: nat)
    requires 1 <= h <= 9 && t == TimeText([DigitChar(h)], "00", " ", "PM")
    ensures Ranges.Normalized(t) == t && Ranges.NormalizeTime(TimeString(t)) == TimeString(t)
    ensures ParseClock(t) == Some(Clock(h + 12, 0))
  {
    ValueShort(t.hour);
    ValueShort("00");
    Ranges.NormalizeTimeGroup(t);
  }

  /** The dates of the example above: a spring term of 2024. */
  lemma TermDates(s: string, d1: DateText, d2: DateText)
    requires s == "1/08/24-5/03/24" && d1 == DateText("1", "08", "24") && d2 == DateText("5", "03", "24")
    ensures Ranges.FindDateRange(s) == Some(Ranges.DateRange(d1, d2))
    ensures DateString(d1) == "1/08/24" && DateString(d2) == "5/03/24"
    ensures ParseDate(d1) == Some(Date(2024, 1, 8)) && ParseDate(d2) == Some(Date(2024, 5, 3))
  {
    assert DateString(d1) == "1/08/24" && DateString(d2) == "5/03/24";
    Ranges.BareDashDates(s, d1, d2);
    SpringDate(d1, 1, 8);
    SpringDate(d2, 5, 3);
  }

  /** A day early in one of the first five months of 2024, the day written with two digits. */
  lemma SpringDate(t: DateText, m: nat, d: nat)
    requires 1 <= m <= 5 && 1 <= d <= 9
    requires t == DateText([DigitChar(m)], ['0', DigitChar(d)], "24")
    ensures ParseDate(t) == Some(Date(2024, m, d))
  {
    ValueShort(t.month);
    ValueShort(t.day);
    ValueShort(t.year);
  }

  /** A line without a units token contributes no event. */
  lemma NoUnitsNoEvent(line: string)
    requires forall k :: 0 <= k < |Tokenizer.LineTokens(line)| ==> !Tokenizer.IsUnits(Tokenizer.LineTokens(line)[k])
    ensures LineEntry(line) == None
  {
    Tokenizer.NoUnitsNoRecord(line);
  }

  /** A record whose date range is written without spaces contributes no
      event: the time run takes the dates and the location, the date text is
      empty and no date range is found in it. */
  lemma GluedDatesNoEvent(line: string)
    requires line == Join(Tokenizer.GluedLine, " ")
    ensures Tokenizer.LineRecord(line).Some? && Tokenizer.LineRecord(line).value.dateStr == ""
    ensures LineEntry(line) == None
  {
    Tokenizer.GluedLineRecord(line);
    var rec := Tokenizer.LineRecord(line).value;
    Ranges.NoDateRangeInShortText(rec.dateStr);
    assert Accept(rec) == None;
  }

  // ---------------------------------------------------------------------------
  // Order and ids

  /** Entries of consecutive stretches of lines follow each other. */
  lemma {:induction false} CollectAppend(f: string -> Option<Entry>, a: seq<string>, b: seq<string>)
    ensures Collect(f, a + b) == Collect(f, a) + Collect(f, b)
    decreases |b|
  {
    if b == [] {
      assert a + b == a;
    } else {
      var b0 := b[..|b| - 1];
      CollectAppend(f, a, b0);
      assert (a + b)[..|a + b| - 1] == a + b0;
      assert (a + b)[|a + b| - 1] == b[|b| - 1];
    }
  }

  /** The entries of consecutive stretches of lines follow each other, and a
      single line contributes its entry when it has one and nothing otherwise:
      rejected lines use up no id. */
  lemma EntriesAppend(a: seq<string>, b: seq<string>, line: string)
    ensures Entries(a + b) == Entries(a) + Entries(b)
    ensures Entries([line]) == (match LineEntry(line) case Some(e) => [e] case None => [])
  {
    CollectAppend(LineEntry, a, b);
    assert [line][..0] == [];
  }

  lemma {:induction false} CollectOrigin(f: string -> Option<Entry>, lines: seq<string>)
    ensures forall k :: 0 <= k < |Collect(f, lines)| ==>
      exists i :: 0 <= i < |lines| && f(lines[i]) == Some(Collect(f, lines)[k])
    decreases |lines|
  {
    if lines != [] {
      var init := lines[..|lines| - 1];
      var last := |lines| - 1;
      CollectOrigin(f, init);
      assert Collect(f, lines) == Collect(f, init) + (match f(lines[last]) case Some(e) => [e] case None => []);
      forall k | 0 <= k < |Collect(f, lines)|
        ensures exists i :: 0 <= i < |lines| && f(lines[i]) == Some(Collect(f, lines)[k])
      {
        if k < |Collect(f, init)| {
          var i :| 0 <= i < |init| && f(init[i]) == Some(Collect(f, init)[k]);
          assert lines[i] == init[i];
          assert Collect(f, lines)[k] == Collect(f, init)[k];
        } else {
          assert f(lines[last]) == Some(Collect(f, lines)[k]);
        }
      }
    } else {
      assert Collect(f, lines) == [];
    }
  }

  /** Every accepted entry comes from one of the logical lines. */
  lemma EntriesOrigin(lines: seq<string>)
    ensures forall k :: 0 <= k < |Entries(lines)| ==>
      exists i :: 0 <= i < |lines| && LineEntry(lines[i]) == Some(Entries(lines)[k])
  {
    var f := LineEntry;
    CollectOrigin(f, lines);
    assert Entries(lines) == Collect(f, lines);
    forall k | 0 <= k < |Entries(lines)|
      ensures exists i :: 0 <= i < |lines| && LineEntry(lines[i]) == Some(Entries(lines)[k])
    {
      var i :| 0 <= i < |lines| && f(lines[i]) == Some(Collect(f, lines)[k]);
      assert LineEntry(lines[i]) == f(lines[i]);
      assert 0 <= i < |lines| && LineEntry(lines[i]) == Some(Entries(lines)[k]);
    }
  }

  /** The ids are the counter's values in order: distinct, and increasing
      with the position of the event. */
  lemma NumberedIds(entries: seq<Entry>, firstId: nat)
    ensures forall k :: 0 <= k < |entries| ==> Numbered(entries, firstId)[k].id == firstId + k
    ensures forall j, k :: 0 <= j < k < |entries| ==> Numbered(entries, firstId)[j].id < Numbered(entries, firstId)[k].id
  {
  }

  /** The next counter value is fresh: no event of the schedule has it. */
  lemma NextIdFresh(text: string, firstId: nat)
    ensures var events := ParseScheduleSpec(text, firstId);
      forall k :: 0 <= k < |events| ==> firstId <= events[k].id < firstId + |events|
  {
  }

  // ---------------------------------------------------------------------------
  // The recurrence directive (index.py:271-282)

  /** The recurrence of an event: the end date is read again from the stored
      end date string. */
  function EventRecurrence(e: Entry): Option<string> {
    Recurrence(e.daysOfWeek, ReadDate(e.endDate))
  }

  /** Every accepted event recurs weekly on its days until the morning (UTC)
      after its end date. */
  lemma AcceptedRecurrence(line: string)
    requires LineEntry(line).Some?
    ensures var e := LineEntry(line).value;
      ReadDate(e.endDate).Some? && EventRecurrence(e) ==
        Some("RRULE:FREQ=WEEKLY;BYDAY=" + Join(e.daysOfWeek, ",") + ";UNTIL="
             + CompactDate(NextDay(ReadDate(e.endDate).value)) + "T065959Z")
  {
    var e := LineEntry(line).value;
    AcceptedEntry(line);
    RecurrenceRule(e.daysOfWeek, ReadDate(e.endDate));
  }

  // ---------------------------------------------------------------------------
  // Redisplay (index.py:452-462)

  /** `confirm_events` rewrites each event's days text for display. */
  method Redisplay(events: array<Event>)
    modifies events
    ensures forall k :: 0 <= k < events.Length ==>
      events[k] == old(events[k]).(entry := old(events[k]).entry.(record :=
        old(events[k]).entry.record.(daysStr := Days.DisplayDays(old(events[k]).entry.daysOfWeek))))
  {
    for i := 0 to events.Length
      invariant forall k :: 0 <= k < i ==>
        events[k] == old(events[k]).(entry := old(events[k]).entry.(record :=
          old(events[k]).entry.record.(daysStr := Days.DisplayDays(old(events[k]).entry.daysOfWeek))))
      invariant forall k :: i <= k < events.Length ==> events[k] == old(events[k])
    {
      var e := events[i];
      events[i] := e.(entry := e.entry.(record := e.entry.record.(daysStr := Days.DisplayDays(e.entry.daysOfWeek))));
    }
  }

  /** The displayed days of an accepted event normalize back to its days, so
      parsing the displayed text again would keep them. */
  lemma RedisplayKeepsDays(line: string)
    requires LineEntry(line).Some?
    ensures var e := LineEntry(line).value;
      Days.NormalizeDays(Days.DisplayDays(e.daysOfWeek)) == e.daysOfWeek
  {
    AcceptedEntry(line);
    Days.DisplayRoundTrip(LineEntry(line).value.daysOfWeek);
  }
}
