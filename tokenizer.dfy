/** The positional record tokenizer `parse_line` (index.py:187-264): an index
    walks the whitespace-separated tokens of one logical line through the
    class number, the course code, the title, the units, the instructors,
    the days, the time, the date and the location, in that order. The class
    number, the course code and the units are mandatory; every other run may
    be empty. */
module Tokenizer {
  import opened Wrappers
  import opened Text
  import Ranges

  // ---------------------------------------------------------------------------
  // The token classes

  /** `re.match(r'^\d{5,6}$', tok)`. */
  predicate IsClassNumber(tok: string) { 5 <= |tok| <= 6 && AllDigits(tok) }

  /** `re.match(r'^[A-Z]{2,4}\d{3}$', tok)`: two to four capitals and three digits. */
  predicate IsGluedCode(s: string) {
    5 <= |s| <= 7 && AllUpperLetters(s[..|s| - 3]) && AllDigits(s[|s| - 3..])
  }

  /** `re.match(r'^[A-Z]{2,4}\s?\d{3}$', s)`: two to four capitals, an optional
      whitespace character and three digits. */
  predicate IsCodePattern(s: string) {
    IsGluedCode(s)
    || (6 <= |s| <= 8 && AllUpperLetters(s[..|s| - 4]) && IsSpace(s[|s| - 4]) && AllDigits(s[|s| - 3..]))
  }

  /** A course code written as two tokens, such as `CSE` `110`. */
  predicate IsSpacedCode(a: string, b: string) {
    2 <= |a| <= 4 && AllUpperLetters(a) && |b| == 3 && AllDigits(b)
  }

  /** `re.match(r'^\d+\.\d+$', tok)`: digits, a point, digits. */
  predicate IsUnits(tok: string) {
    exists k | 0 < k < |tok| - 1 :: tok[k] == '.' && AllDigits(tok[..k]) && AllDigits(tok[k + 1..])
  }

  /** `day_abbreviations`; membership is exact and case-sensitive. */
  const DayAbbreviations: seq<string> := ["M", "Tu", "W", "Th", "F", "Sa", "Su", "MW", "MF", "MWF", "TBA", "Arranged"]

  predicate IsDayAbbreviation(tok: string) { tok in DayAbbreviations }

  /** `tok.startswith('Tempe')`: the campus name that opens a location. */
  predicate IsLocationStart(tok: string) { StartsWith(tok, "Tempe") }

  /** `s[..n]` holds letters only and a token has no whitespace, so in
      `a + " " + b` the optional whitespace can only be the space between them. */
  lemma SpacedCodePattern(a: string, b: string)
    requires IsToken(a) && IsToken(b)
    ensures IsCodePattern(a + " " + b) <==> IsSpacedCode(a, b)
  {
    var s := a + " " + b;
    assert s[|a|] == ' ';
    if IsCodePattern(s) || IsSpacedCode(a, b) {
      assert s[..|s| - 4] == a;
      assert s[|s| - 3..] == b;
    }
  }

  /** A token has no whitespace, so for a single token the pattern with the
      optional whitespace is the pattern without it. */
  lemma GluedCodePattern(t: string)
    requires IsToken(t)
    ensures IsCodePattern(t) <==> IsGluedCode(t)
  {
  }

  // ---------------------------------------------------------------------------
  // Token runs

  /** The five loops of `parse_line` that collect a run of tokens. */
  datatype Run = TitleRun | InstructorRun | DayRun | TimeRun | DateRun

  /** Whether a run's loop takes the token, or stops at it. */
  predicate Takes(run: Run, tok: string) {
    match run
    case TitleRun => !IsUnits(tok)
    case InstructorRun => !IsDayAbbreviation(tok)
    case DayRun => IsDayAbbreviation(tok)
    case TimeRun => !Ranges.IsDateToken(tok)
    case DateRun => !IsLocationStart(tok)
  }

  /** Where a run that starts at `i` stops: at the first token it does not
      take, or at the end of the tokens. */
  function RunEnd(run: Run, toks: seq<string>, i: nat): (j: nat)
    requires i <= |toks|
    ensures i <= j <= |toks|
    decreases |toks| - i
  {
    if i < |toks| && Takes(run, toks[i]) then RunEnd(run, toks, i + 1) else i
  }

  /** A run takes every token up to where it ends, and not the one there. */
  lemma {:induction false} RunEndMeaning(run: Run, toks: seq<string>, i: nat)
    requires i <= |toks|
    ensures forall k :: i <= k < RunEnd(run, toks, i) ==> Takes(run, toks[k])
    ensures RunEnd(run, toks, i) < |toks| ==> !Takes(run, toks[RunEnd(run, toks, i)])
    decreases |toks| - i
  {
    if i < |toks| && Takes(run, toks[i]) {
      RunEndMeaning(run, toks, i + 1);
    }
  }

  // ---------------------------------------------------------------------------
  // The scan

  /** The token runs of one record, in the order `parse_line` takes them. */
  datatype Fields = Fields(
    classNum: string,
    code: seq<string>,
    title: seq<string>,
    units: string,
    instructors: seq<string>,
    days: seq<string>,
    time: seq<string>,
    date: seq<string>,
    location: seq<string>)

  /** How many tokens the course code after the class number takes: two for
      `CSE 110`, one for `CSE110`, none when there is no course code. Both forms
      need at least two tokens after the class number. */
  function CodeWidth(toks: seq<string>): (n: nat)
    ensures n <= 2 && (n > 0 ==> 2 < |toks|)
  {
    if 2 < |toks| then
      (if IsCodePattern(toks[1] + " " + toks[2]) then 2 else if IsGluedCode(toks[1]) then 1 else 0)
    else 0
  }

  /** Where the runs of a record begin: the title at `a`, the units token
      at `b`, the instructors at `b + 1`, the days at `c`, the time at `d`,
      the date at `e` and the location at `g`. */
  datatype Cuts = Cuts(a: nat, b: nat, c: nat, d: nat, e: nat, g: nat)

  predicate Ordered(toks: seq<string>, x: Cuts) {
    2 <= x.a <= x.b < x.c <= x.d <= x.e <= x.g <= |toks| && x.c >= x.b + 1
  }

  /** The cuts of a token list, or `None` when the class number, the course
      code or the units are missing. */
  function CutsOf(toks: seq<string>): (r: Option<Cuts>)
    ensures r.Some? ==> Ordered(toks, r.value)
  {
    if toks == [] || !IsClassNumber(toks[0]) || CodeWidth(toks) == 0 then None
    else CutsFrom(toks, 1 + CodeWidth(toks))
  }

  /** The cuts after a course code that ends just before `a`, or `None` when
      the units are missing. */
  function CutsFrom(toks: seq<string>, a: nat): (r: Option<Cuts>)
    requires 2 <= a <= |toks|
    ensures r.Some? ==> Ordered(toks, r.value) && r.value.a == a
  {
    var b := RunEnd(TitleRun, toks, a);
    if b == |toks| then None
    else
      var c := RunEnd(InstructorRun, toks, b + 1);
      var d := RunEnd(DayRun, toks, c);
      var e := RunEnd(TimeRun, toks, d);
      Some(Cuts(a, b, c, d, e, RunEnd(DateRun, toks, e)))
  }

  /** Where each run of a record begins and ends. */
  lemma CutsMeaning(toks: seq<string>)
    requires CutsOf(toks).Some?
    ensures var x := CutsOf(toks).value;
      x.a == 1 + CodeWidth(toks) && x.b == RunEnd(TitleRun, toks, x.a) && x.c == RunEnd(InstructorRun, toks, x.b + 1)
      && x.d == RunEnd(DayRun, toks, x.c) && x.e == RunEnd(TimeRun, toks, x.d) && x.g == RunEnd(DateRun, toks, x.e)
  {
    assert CutsOf(toks) == CutsFrom(toks, 1 + CodeWidth(toks));
  }

  /** The runs between the cuts. */
  function Slice(toks: seq<string>, x: Cuts): Fields
    requires Ordered(toks, x)
  {
    Fields(toks[0], toks[1..x.a], toks[x.a..x.b], toks[x.b], toks[x.b + 1..x.c], toks[x.c..x.d],
           toks[x.d..x.e], toks[x.e..x.g], toks[x.g..])
  }

  /** The runs of a token list, or `None` when a mandatory field is missing. */
  function ScanTokens(toks: seq<string>): Option<Fields> {
    match CutsOf(toks)
    case None => None
    case Some(x) => Some(Slice(toks, x))
  }

  /** The tokens of the runs, put back together. */
  function Tokens(f: Fields): seq<string> {
    [f.classNum] + (f.code + (f.title + ([f.units] + (f.instructors + (f.days + (f.time + (f.date + f.location)))))))
  }

  /** The record `parse_line` builds: the runs joined with single spaces, and
      the summary `"{course_code} - {title}"`. */
  datatype Record = Record(
    summary: string,
    classNum: string,
    units: string,
    instructors: string,
    daysStr: string,
    timeStr: string,
    dateStr: string,
    location: string)

  function RecordOf(f: Fields): Record {
    Record(Join(f.code, " ") + " - " + Join(f.title, " "), f.classNum, f.units, Join(f.instructors, " "),
           Join(f.days, " "), Join(f.time, " "), Join(f.date, " "), Join(f.location, " "))
  }

  /** `line.strip().split()`. */
  function LineTokens(line: string): seq<string> {
    Split(Strip(line))
  }

  /** The record of a logical line, or `None` where `parse_line` gives up. */
  function LineRecord(line: string): Option<Record> {
    TokensRecord(LineTokens(line))
  }

  /** The record of a token list, or `None` where `parse_line` gives up. */
  function TokensRecord(toks: seq<string>): Option<Record> {
    match ScanTokens(toks)
    case None => None
    case Some(f) => Some(RecordOf(f))
  }

  // ---------------------------------------------------------------------------
  // parse_line

  /** `parse_line`: the index walks the tokens loop by loop. */
  method ParseLine(line: string) returns (r: Option<Record>)
    ensures r == LineRecord(line)
  {
    var tokens := LineTokens(line);
    r := ParseTokens(tokens);
  }

  /** The body of `parse_line` after the split. */
  method ParseTokens(tokens: seq<string>) returns (r: Option<Record>)
    ensures r == TokensRecord(tokens)
  {
    var index := 0;
    if !(index < |tokens| && IsClassNumber(tokens[index])) {
      return None;
    }
    var classNum := tokens[index];
    index := index + 1;

    var code;
    code, index := TakeCourseCode(tokens, index);
    if code.None? {
      return None;
    }
    assert CutsOf(tokens) == CutsFrom(tokens, index);
    r := TakeFields(tokens, index, classNum, code.value);
  }

  /** The record a token list gives when its runs begin at `a`, after the
      class number and the course code. */
  function RecordFrom(toks: seq<string>, a: nat): Option<Record>
    requires 2 <= a <= |toks|
  {
    match CutsFrom(toks, a)
    case None => None
    case Some(x) => Some(RecordOf(Slice(toks, x)))
  }

  /** The loops of `parse_line` after the course code: the title, then the
      units, then the runs from the instructors to the location. */
  method TakeFields(tokens: seq<string>, a: nat, classNum: string, courseCode: string) returns (r: Option<Record>)
    requires 2 <= a <= |tokens|
    requires classNum == tokens[0] && courseCode == Join(tokens[1..a], " ")
    ensures r == RecordFrom(tokens, a)
  {
    var index := a;
    var titleTokens;
    titleTokens, index := TakeRun(TitleRun, tokens, index);
    var title := Join(titleTokens, " ");

    if index < |tokens| {
      RunStops(TitleRun, tokens, a);
    }
    if index < |tokens| && IsUnits(tokens[index]) {
      var units := tokens[index];
      var record := TakeRest(tokens, a, index, courseCode + " - " + title, classNum, units);
      r := Some(record);
    } else {
      NoUnitsFrom(tokens, a);
      r := None;
    }
  }

  /** The loops of `parse_line` after the units token at `b`, from the
      instructors to the location, and the record they build. */
  method TakeRest(tokens: seq<string>, a: nat, b: nat, summary: string, classNum: string, units: string)
    returns (record: Record)
    requires 2 <= a <= b < |tokens| && b == RunEnd(TitleRun, tokens, a)
    requires summary == Join(tokens[1..a], " ") + " - " + Join(tokens[a..b], " ")
    requires classNum == tokens[0] && units == tokens[b]
    ensures RecordFrom(tokens, a) == Some(record)
  {
    var index := b + 1;
    var instructorTokens;
    instructorTokens, index := TakeRun(InstructorRun, tokens, index);
    var instructors := Join(instructorTokens, " ");

    var c := index;
    var daysTokens;
    daysTokens, index := TakeRun(DayRun, tokens, index);
    var daysStr := Join(daysTokens, " ");

    var d := index;
    var timeTokens;
    timeTokens, index := TakeRun(TimeRun, tokens, index);
    var timeStr := Join(timeTokens, " ");

    var e := index;
    var dateTokens;
    dateTokens, index := TakeRun(DateRun, tokens, index);
    var dateStr := Join(dateTokens, " ");

    var location := Join(tokens[index..], " ");

    RecordFromAt(tokens, Cuts(a, b, c, d, e, index));
    record := Record(summary, classNum, units, instructors, daysStr, timeStr, dateStr, location);
  }

  /** Without a units token after the title there is no record. */
  lemma NoUnitsFrom(toks: seq<string>, a: nat)
    requires 2 <= a <= |toks| && RunEnd(TitleRun, toks, a) == |toks|
    ensures RecordFrom(toks, a) == None
  {
  }

  /** The record at the cuts where the runs end. */
  lemma RecordFromAt(toks: seq<string>, x: Cuts)
    requires 2 <= x.a <= |toks|
    requires x.b == RunEnd(TitleRun, toks, x.a) < |toks|
    requires x.c == RunEnd(InstructorRun, toks, x.b + 1)
    requires x.d == RunEnd(DayRun, toks, x.c)
    requires x.e == RunEnd(TimeRun, toks, x.d)
    requires x.g == RunEnd(DateRun, toks, x.e)
    ensures Ordered(toks, x)
    ensures RecordFrom(toks, x.a) == Some(RecordOf(Fields(toks[0], toks[1..x.a], toks[x.a..x.b], toks[x.b],
                                                         toks[x.b + 1..x.c], toks[x.c..x.d], toks[x.d..x.e],
                                                         toks[x.e..x.g], toks[x.g..])))
  {
    CutsFromAt(toks, x);
  }

  /** The cuts `parse_line` reaches when every mandatory field is present. */
  lemma CutsAt(toks: seq<string>, x: Cuts)
    requires 0 < |toks| && IsClassNumber(toks[0]) && CodeWidth(toks) > 0 && x.a == 1 + CodeWidth(toks) <= |toks|
    requires x.b == RunEnd(TitleRun, toks, x.a) < |toks|
    requires x.c == RunEnd(InstructorRun, toks, x.b + 1)
    requires x.d == RunEnd(DayRun, toks, x.c)
    requires x.e == RunEnd(TimeRun, toks, x.d)
    requires x.g == RunEnd(DateRun, toks, x.e)
    ensures CutsOf(toks) == Some(x)
  {
    assert CutsOf(toks) == CutsFrom(toks, x.a);
    CutsFromAt(toks, x);
  }

  lemma CutsFromAt(toks: seq<string>, x: Cuts)
    requires 2 <= x.a <= |toks|
    requires x.b == RunEnd(TitleRun, toks, x.a) < |toks|
    requires x.c == RunEnd(InstructorRun, toks, x.b + 1)
    requires x.d == RunEnd(DayRun, toks, x.c)
    requires x.e == RunEnd(TimeRun, toks, x.d)
    requires x.g == RunEnd(DateRun, toks, x.e)
    ensures CutsFrom(toks, x.a) == Some(x)
  {
  }

  /** The course-code step of `parse_line`: two tokens joined by a space when
      they match the pattern with the optional whitespace, otherwise the first
      token alone when it matches the pattern without it. */
  method TakeCourseCode(tokens: seq<string>, index: nat) returns (courseCode: Option<string>, next: nat)
    requires index == 1 <= |tokens|
    ensures courseCode.Some? <==> CodeWidth(tokens) > 0
    ensures courseCode.Some? ==> next == 1 + CodeWidth(tokens) <= |tokens|
    ensures courseCode.Some? ==> courseCode.value == Join(tokens[1..next], " ")
  {
    next := index;
    if index + 1 < |tokens| {
      var code := tokens[index] + " " + tokens[index + 1];
      if IsCodePattern(code) {
        next := index + 2;
        assert tokens[1..next] == [tokens[1]] + [tokens[2]];
        assert tokens[1..next][1..] == [tokens[2]];
        courseCode := Some(code);
      } else {
        code := tokens[index];
        if IsGluedCode(code) {
          next := index + 1;
          assert tokens[1..next] == [tokens[1]];
          courseCode := Some(code);
        } else {
          courseCode := None;
        }
      }
    } else {
      courseCode := None;
    }
  }

  /** One of the `while` loops of `parse_line`: append tokens while the run
      takes them, advancing the index. */
  method TakeRun(run: Run, tokens: seq<string>, start: nat) returns (taken: seq<string>, index: nat)
    requires start <= |tokens|
    ensures index == RunEnd(run, tokens, start)
    ensures taken == tokens[start..index]
  {
    taken, index := [], start;
    while index < |tokens| && Takes(run, tokens[index])
      invariant start <= index <= |tokens|
      invariant taken == tokens[start..index]
      invariant RunEnd(run, tokens, index) == RunEnd(run, tokens, start)
    {
      taken := taken + [tokens[index]];
      index := index + 1;
    }
  }

  // ---------------------------------------------------------------------------
  // What the scan guarantees

  /** Some token at or after `a` is a units token. */
  predicate HasUnitsFrom(toks: seq<string>, a: nat) {
    exists j :: a <= j < |toks| && IsUnits(toks[j])
  }

  /** The title run stops inside the tokens exactly when a units token follows. */
  lemma TitleStopsAtUnits(toks: seq<string>, a: nat)
    requires a <= |toks|
    ensures RunEnd(TitleRun, toks, a) < |toks| <==> HasUnitsFrom(toks, a)
  {
    var b := RunEnd(TitleRun, toks, a);
    RunEndMeaning(TitleRun, toks, a);
    if HasUnitsFrom(toks, a) {
      var j :| a <= j < |toks| && IsUnits(toks[j]);
      assert !Takes(TitleRun, toks[j]);
    }
  }

  /** The mandatory fields: a record is produced exactly when the first token
      is a class number, a course code follows it with at least two tokens
      left, and a units token comes somewhere after the course code. */
  lemma MandatoryFields(toks: seq<string>)
    ensures ScanTokens(toks).Some? <==>
      |toks| > 2 && IsClassNumber(toks[0]) && CodeWidth(toks) > 0 && HasUnitsFrom(toks, 1 + CodeWidth(toks))
  {
    if toks != [] && IsClassNumber(toks[0]) && CodeWidth(toks) > 0 {
      TitleStopsAtUnits(toks, 1 + CodeWidth(toks));
    }
  }

  /** A line without a units token yields no record. */
  lemma NoUnitsNoRecord(line: string)
    requires forall k :: 0 <= k < |LineTokens(line)| ==> !IsUnits(LineTokens(line)[k])
    ensures LineRecord(line) == None
  {
    MandatoryFields(LineTokens(line));
  }

  /** The course code takes one or two tokens; two only when they read as
      letters and digits, and otherwise one that does. */
  lemma CodeForms(toks: seq<string>)
    requires AllTokens(toks) && CodeWidth(toks) > 0
    ensures CodeWidth(toks) == 2 ==> IsSpacedCode(toks[1], toks[2])
    ensures CodeWidth(toks) == 1 ==> IsGluedCode(toks[1]) && !IsSpacedCode(toks[1], toks[2])
  {
    SpacedCodePattern(toks[1], toks[2]);
  }

  /** A run followed by the tokens after it is the tokens from where the run starts. */
  lemma Glue(toks: seq<string>, i: nat, j: nat, run: seq<string>, rest: seq<string>)
    requires i <= j <= |toks| && run == toks[i..j] && rest == toks[j..]
    ensures run + rest == toks[i..]
  {
    assert toks[i..] == toks[i..j] + toks[j..];
  }

  /** Cutting a token list anywhere and putting the runs back gives it back. */
  lemma SliceTokens(toks: seq<string>, x: Cuts)
    requires Ordered(toks, x)
    ensures Tokens(Slice(toks, x)) == toks
  {
    var f := Slice(toks, x);
    Glue(toks, x.e, x.g, f.date, f.location);
    Glue(toks, x.d, x.e, f.time, f.date + f.location);
    Glue(toks, x.c, x.d, f.days, f.time + (f.date + f.location));
    Glue(toks, x.b + 1, x.c, f.instructors, f.days + (f.time + (f.date + f.location)));
    Glue(toks, x.b, x.b + 1, [f.units], f.instructors + (f.days + (f.time + (f.date + f.location))));
    Glue(toks, x.a, x.b, f.title, toks[x.b..]);
    Glue(toks, 1, x.a, f.code, toks[x.a..]);
    Glue(toks, 0, 1, [f.classNum], toks[1..]);
  }

  /** The partition: the runs, with the class number, course code and units
      tokens between them, are the tokens of the line in order. */
  lemma ScanPartition(toks: seq<string>)
    requires ScanTokens(toks).Some?
    ensures Tokens(ScanTokens(toks).value) == toks
  {
    SliceTokens(toks, CutsOf(toks).value);
  }

  /** What a run holds: tokens its loop takes, each at its place in the list. */
  lemma RunTaken(run: Run, toks: seq<string>, i: nat)
    requires i <= |toks|
    ensures var r := toks[i..RunEnd(run, toks, i)];
      forall k :: 0 <= k < |r| ==> Takes(run, r[k])
  {
    RunEndMeaning(run, toks, i);
    var j := RunEnd(run, toks, i);
    forall k | 0 <= k < j - i ensures Takes(run, toks[i..j][k]) {
      assert toks[i..j][k] == toks[i + k];
    }
  }

  /** A run stops at the token right after it. */
  lemma RunStops(run: Run, toks: seq<string>, i: nat)
    requires i <= |toks| && RunEnd(run, toks, i) < |toks|
    ensures !Takes(run, toks[RunEnd(run, toks, i)])
  {
    RunEndMeaning(run, toks, i);
  }

  /** Each run holds only what its loop takes: the title no units token, the
      instructors no day abbreviation, the days only abbreviations, the time no
      date token and the date no token beginning `Tempe`. */
  lemma ScanRunsTake(toks: seq<string>)
    requires ScanTokens(toks).Some?
    ensures var f := ScanTokens(toks).value;
      IsClassNumber(f.classNum) && 1 <= |f.code| <= 2 && IsUnits(f.units)
      && (forall k :: 0 <= k < |f.title| ==> !IsUnits(f.title[k]))
      && (forall k :: 0 <= k < |f.instructors| ==> !IsDayAbbreviation(f.instructors[k]))
      && (forall k :: 0 <= k < |f.days| ==> IsDayAbbreviation(f.days[k]))
      && (forall k :: 0 <= k < |f.time| ==> !Ranges.IsDateToken(f.time[k]))
      && (forall k :: 0 <= k < |f.date| ==> !IsLocationStart(f.date[k]))
  {
    CutsMeaning(toks);
    assert IsClassNumber(toks[0]);
    SliceTakes(toks, CutsOf(toks).value);
  }

  /** `ScanRunsTake` for the cuts where the runs end. */
  lemma SliceTakes(toks: seq<string>, x: Cuts)
    requires Ordered(toks, x) && x.a <= 3
    requires x.b == RunEnd(TitleRun, toks, x.a) && x.c == RunEnd(InstructorRun, toks, x.b + 1)
    requires x.d == RunEnd(DayRun, toks, x.c) && x.e == RunEnd(TimeRun, toks, x.d) && x.g == RunEnd(DateRun, toks, x.e)
    ensures var f := Slice(toks, x);
      1 <= |f.code| <= 2 && IsUnits(f.units)
      && (forall k :: 0 <= k < |f.title| ==> !IsUnits(f.title[k]))
      && (forall k :: 0 <= k < |f.instructors| ==> !IsDayAbbreviation(f.instructors[k]))
      && (forall k :: 0 <= k < |f.days| ==> IsDayAbbreviation(f.days[k]))
      && (forall k :: 0 <= k < |f.time| ==> !Ranges.IsDateToken(f.time[k]))
      && (forall k :: 0 <= k < |f.date| ==> !IsLocationStart(f.date[k]))
  {
    RunTaken(TitleRun, toks, x.a);
    RunStops(TitleRun, toks, x.a);
    RunTaken(InstructorRun, toks, x.b + 1);
    RunTaken(DayRun, toks, x.c);
    RunTaken(TimeRun, toks, x.d);
    RunTaken(DateRun, toks, x.e);
  }

  /** Each run ends where its loop stops: the location is empty or begins
      with a token beginning `Tempe`, the token after the days is not a day
      abbreviation, and a run that reaches the end leaves the later ones empty. */
  lemma ScanRunsStop(toks: seq<string>)
    requires ScanTokens(toks).Some?
    ensures var f := ScanTokens(toks).value;
      (f.location == [] || IsLocationStart(f.location[0]))
      && (f.days == [] ==> f.time == [] && f.date == [] && f.location == [])
      && (f.time + f.date + f.location == [] || !IsDayAbbreviation((f.time + f.date + f.location)[0]))
      && (f.date == [] ==> f.location == [])
  {
    var x := CutsOf(toks).value;
    assert ScanTokens(toks) == Some(Slice(toks, x));
    CutsMeaning(toks);
    SliceStops(toks, x);
  }

  /** `ScanRunsStop` for the cuts where the runs end. */
  lemma SliceStops(toks: seq<string>, x: Cuts)
    requires Ordered(toks, x)
    requires x.c == RunEnd(InstructorRun, toks, x.b + 1) && x.d == RunEnd(DayRun, toks, x.c)
    requires x.e == RunEnd(TimeRun, toks, x.d) && x.g == RunEnd(DateRun, toks, x.e)
    ensures var f := Slice(toks, x);
      (f.location == [] || IsLocationStart(f.location[0]))
      && (f.days == [] ==> f.time == [] && f.date == [] && f.location == [])
      && (f.time + f.date + f.location == [] || !IsDayAbbreviation((f.time + f.date + f.location)[0]))
      && (f.date == [] ==> f.location == [])
  {
    StopsAt(toks, x);
    var f := Slice(toks, x);
    Glue(toks, x.e, x.g, f.date, f.location);
    Glue(toks, x.d, x.e, f.time, f.date + f.location);
    assert f.time + f.date + f.location == toks[x.d..];
  }

  /** The tokens the runs stop at: the location opens with `Tempe`, the days
      take the token the instructors stop at, the time does not begin with a day
      abbreviation and the date takes the date token the time stops at. */
  lemma StopsAt(toks: seq<string>, x: Cuts)
    requires Ordered(toks, x)
    requires x.c == RunEnd(InstructorRun, toks, x.b + 1) && x.d == RunEnd(DayRun, toks, x.c)
    requires x.e == RunEnd(TimeRun, toks, x.d) && x.g == RunEnd(DateRun, toks, x.e)
    ensures x.g < |toks| ==> IsLocationStart(toks[x.g])
    ensures x.c == x.d ==> x.c == |toks|
    ensures x.d < |toks| ==> !IsDayAbbreviation(toks[x.d])
    ensures x.e == x.g ==> x.g == |toks|
  {
    if x.c < |toks| {
      DaysTakeStop(toks, x.b + 1);
    }
    if x.d < |toks| {
      RunStops(DayRun, toks, x.c);
    }
    if x.e < |toks| {
      DateTakesStop(toks, x.d);
    }
    if x.g < |toks| {
      RunStops(DateRun, toks, x.e);
    }
  }

  /** The days run takes the token the instructors stop at. */
  lemma DaysTakeStop(toks: seq<string>, i: nat)
    requires i <= |toks| && RunEnd(InstructorRun, toks, i) < |toks|
    ensures RunEnd(InstructorRun, toks, i) < RunEnd(DayRun, toks, RunEnd(InstructorRun, toks, i))
  {
    var c := RunEnd(InstructorRun, toks, i);
    RunStops(InstructorRun, toks, i);
    assert RunEnd(DayRun, toks, c) == RunEnd(DayRun, toks, c + 1);
  }

  /** The date run takes the token the time stops at. */
  lemma DateTakesStop(toks: seq<string>, i: nat)
    requires i <= |toks| && RunEnd(TimeRun, toks, i) < |toks|
    ensures RunEnd(TimeRun, toks, i) < RunEnd(DateRun, toks, RunEnd(TimeRun, toks, i))
  {
    var e := RunEnd(TimeRun, toks, i);
    RunStops(TimeRun, toks, i);
    DateTokenNotLocation(toks[e]);
    assert RunEnd(DateRun, toks, e) == RunEnd(DateRun, toks, e + 1);
  }

  /** A date token begins with a digit, so it never begins `Tempe`. */
  lemma DateTokenNotLocation(tok: string)
    requires Ranges.IsDateToken(tok)
    ensures !IsLocationStart(tok)
  {
    Ranges.DateTokenShape(tok);
  }

  /** A units token begins with a digit. */
  lemma UnitsStartWithDigit(tok: string)
    requires IsUnits(tok)
    ensures IsDigit(tok[0])
  {
    var k :| 0 < k < |tok| - 1 && tok[k] == '.' && AllDigits(tok[..k]) && AllDigits(tok[k + 1..]);
    assert tok[..k][0] == tok[0];
  }

  /** Tokens joined with single spaces are the tokens of that line again. */
  lemma LineOfTokens(toks: seq<string>)
    requires toks != [] && AllTokens(toks)
    ensures LineTokens(Join(toks, " ")) == toks
  {
    StripJoin(toks);
    SplitJoin(toks);
  }

  /** The record's summary is the course code, a dash and the title. */
  lemma SummaryOfRecord(line: string)
    requires LineRecord(line).Some?
    ensures var f := ScanTokens(LineTokens(line)).value;
      LineRecord(line).value.summary == Join(f.code, " ") + " - " + Join(f.title, " ")
      && StartsWith(LineRecord(line).value.summary, f.code[0])
  {
    var toks := LineTokens(line);
    var f := ScanTokens(toks).value;
    assert LineRecord(line) == Some(RecordOf(f));
    var code := Join(f.code, " ");
    JoinStartsWithHead(f.code, " ");
    StartsWithAppend(code, " - " + Join(f.title, " "), f.code[0]);
  }

  // ---------------------------------------------------------------------------
  // Examples

  /** A location begins with the five letters of `Tempe`. */
  lemma LocationStartShape(tok: string)
    ensures IsLocationStart(tok) ==> 5 <= |tok| && tok[0] == 'T'
  {
    if IsLocationStart(tok) {
      assert tok[0] == tok[..5][0];
    }
  }

  /** The classes of the example tokens up to the time, as the loops test them. */
  lemma HeadClasses()
    ensures IsClassNumber("12345") && IsUnits("3.0")
    ensures !IsUnits("Intro") && !IsUnits("to") && !IsUnits("Programming")
    ensures !IsDayAbbreviation("Smith") && !IsDayAbbreviation("J")
    ensures IsDayAbbreviation("MWF") && !IsDayAbbreviation("10:00AM-10:50AM")
  {
    assert "3.0"[..1] == "3" && "3.0"[2..] == "0";
    NotUnits("Intro");
    NotUnits("to");
    NotUnits("Programming");
  }

  /** A token that begins with a letter is not a units token. */
  lemma NotUnits(tok: string)
    requires tok != [] && !IsDigit(tok[0])
    ensures !IsUnits(tok)
  {
    if IsUnits(tok) {
      UnitsStartWithDigit(tok);
    }
  }

  /** The classes of the example tokens from the time on. */
  lemma TailClasses()
    ensures !Ranges.IsDateToken("10:00AM-10:50AM") && !Ranges.IsDateToken("1/08/24-5/03/24")
    ensures !Ranges.IsDateToken("-") && !Ranges.IsDateToken("Tempe") && !Ranges.IsDateToken("PSA101")
    ensures Ranges.IsDateToken("1/08/24") && IsLocationStart("Tempe")
    ensures !IsLocationStart("1/08/24") && !IsLocationStart("-") && !IsLocationStart("5/03/24")
  {
    NotDateToken("10:00AM-10:50AM");
    NotDateToken("1/08/24-5/03/24");
    NotDateToken("-");
    NotDateToken("Tempe");
    NotDateToken("PSA101");
    var t := Ranges.SplitDate("1/08/24", 1, 2);
    assert t.month == "1" && t.day == "08" && t.year == "24";
    assert "Tempe"[..5] == "Tempe";
    LocationStartShape("1/08/24");
    LocationStartShape("-");
    LocationStartShape("5/03/24");
  }

  /** A token too long, too short or not shaped like a date is no date token. */
  lemma NotDateToken(tok: string)
    requires !(6 <= |tok| <= 8 && IsDigit(tok[0]) && (tok[1] == '/' || tok[2] == '/'))
    ensures !Ranges.IsDateToken(tok)
  {
    if Ranges.IsDateToken(tok) {
      Ranges.DateTokenShape(tok);
    }
  }

  /** The example record with its date range written as one token. */
  const GluedLine: seq<string> := ["12345", "CSE", "110", "Intro", "to", "Programming", "3.0", "Smith", "J", "MWF",
                                   "10:00AM-10:50AM", "1/08/24-5/03/24", "Tempe", "PSA101"]

  /** The example record with its date range written as three tokens. */
  const SpacedLine: seq<string> := ["12345", "CSE", "110", "Intro", "to", "Programming", "3.0", "Smith", "J", "MWF",
                                    "10:00AM-10:50AM", "1/08/24", "-", "5/03/24", "Tempe", "PSA101"]

  /** Both example records share their first eleven tokens, up to the time. */
  lemma ExampleHeadCuts(toks: seq<string>)
    requires 11 < |toks| && toks[0] == "12345" && toks[1] == "CSE" && toks[2] == "110"
    requires toks[3] == "Intro" && toks[4] == "to" && toks[5] == "Programming" && toks[6] == "3.0"
    requires toks[7] == "Smith" && toks[8] == "J" && toks[9] == "MWF" && toks[10] == "10:00AM-10:50AM"
    ensures IsClassNumber(toks[0]) && CodeWidth(toks) == 2
    ensures RunEnd(TitleRun, toks, 3) == 6 && RunEnd(InstructorRun, toks, 7) == 9
    ensures RunEnd(DayRun, toks, 9) == 10
  {
    HeadClasses();
    SpacedCodePattern("CSE", "110");
    assert RunEnd(TitleRun, toks, 6) == 6;
    assert RunEnd(TitleRun, toks, 5) == 6;
    assert RunEnd(TitleRun, toks, 4) == 6;
    assert RunEnd(InstructorRun, toks, 9) == 9;
    assert RunEnd(InstructorRun, toks, 8) == 9;
    assert RunEnd(DayRun, toks, 10) == 10;
  }

  /** In the glued record the time run takes the time and everything after it. */
  lemma GluedTail(toks: seq<string>)
    requires |toks| == 14 && toks[10] == "10:00AM-10:50AM" && toks[11] == "1/08/24-5/03/24"
    requires toks[12] == "Tempe" && toks[13] == "PSA101"
    ensures RunEnd(TimeRun, toks, 10) == 14
  {
    TailClasses();
    assert RunEnd(TimeRun, toks, 12) == 14;
  }

  /** In the spaced record the time run takes one token and the date run three. */
  lemma SpacedTail(toks: seq<string>)
    requires |toks| == 16 && toks[10] == "10:00AM-10:50AM" && toks[11] == "1/08/24"
    requires toks[12] == "-" && toks[13] == "5/03/24" && toks[14] == "Tempe"
    ensures RunEnd(TimeRun, toks, 10) == 11 && RunEnd(DateRun, toks, 11) == 14
  {
    TailClasses();
    assert RunEnd(TimeRun, toks, 11) == 11;
    assert RunEnd(DateRun, toks, 14) == 14;
    assert RunEnd(DateRun, toks, 13) == 14;
  }

  lemma GluedCuts()
    ensures CutsOf(GluedLine) == Some(Cuts(3, 6, 9, 10, 14, 14))
  {
    ExampleHeadCuts(GluedLine);
    GluedTail(GluedLine);
    CutsAt(GluedLine, Cuts(3, 6, 9, 10, 14, 14));
  }

  lemma SpacedCuts()
    ensures CutsOf(SpacedLine) == Some(Cuts(3, 6, 9, 10, 11, 14))
  {
    ExampleHeadCuts(SpacedLine);
    SpacedTail(SpacedLine);
    CutsAt(SpacedLine, Cuts(3, 6, 9, 10, 11, 14));
  }

  /** A record whose date range is written as one token, `1/08/24-5/03/24`: that
      token is not a date token, so the time run takes it and everything after
      it, and the date and the location come out empty. */
  lemma GluedDatesExample()
    ensures ScanTokens(GluedLine) == Some(Fields("12345", ["CSE", "110"], ["Intro", "to", "Programming"], "3.0",
                                                 ["Smith", "J"], ["MWF"],
                                                 ["10:00AM-10:50AM", "1/08/24-5/03/24", "Tempe", "PSA101"], [], []))
  {
    GluedCuts();
    GluedSlice(GluedLine);
  }

  /** The glued record's line gives a record with an empty date text. */
  lemma GluedLineRecord(line: string)
    requires line == Join(GluedLine, " ")
    ensures LineRecord(line).Some? && LineRecord(line).value.dateStr == ""
  {
    GluedLineTokens();
    LineOfTokens(GluedLine);
    GluedDatesExample();
  }

  /** The example tokens hold no whitespace. */
  lemma GluedLineTokens()
    ensures AllTokens(GluedLine)
  {
    forall k | 0 <= k < |GluedLine| ensures IsToken(GluedLine[k]) {
      VisibleToken(GluedLine[k]);
    }
  }

  lemma GluedSlice(toks: seq<string>)
    requires |toks| == 14 && toks[0] == "12345" && toks[1] == "CSE" && toks[2] == "110"
    requires toks[3] == "Intro" && toks[4] == "to" && toks[5] == "Programming" && toks[6] == "3.0"
    requires toks[7] == "Smith" && toks[8] == "J" && toks[9] == "MWF" && toks[10] == "10:00AM-10:50AM"
    requires toks[11] == "1/08/24-5/03/24" && toks[12] == "Tempe" && toks[13] == "PSA101"
    ensures Ordered(toks, Cuts(3, 6, 9, 10, 14, 14))
    ensures Slice(toks, Cuts(3, 6, 9, 10, 14, 14))
      == Fields("12345", ["CSE", "110"], ["Intro", "to", "Programming"], "3.0", ["Smith", "J"], ["MWF"],
                ["10:00AM-10:50AM", "1/08/24-5/03/24", "Tempe", "PSA101"], [], [])
  {
    assert toks[1..3] == [toks[1], toks[2]] && toks[3..6] == [toks[3], toks[4], toks[5]];
    assert toks[7..9] == [toks[7], toks[8]] && toks[9..10] == [toks[9]];
    assert toks[10..14] == [toks[10], toks[11], toks[12], toks[13]];
  }

  /** The same record with the date range written `1/08/24 - 5/03/24`: the date
      run starts at the first date token and stops at `Tempe`, which opens the
      location. */
  lemma SpacedDatesExample()
    ensures ScanTokens(SpacedLine) == Some(Fields("12345", ["CSE", "110"], ["Intro", "to", "Programming"], "3.0",
                                                  ["Smith", "J"], ["MWF"], ["10:00AM-10:50AM"],
                                                  ["1/08/24", "-", "5/03/24"], ["Tempe", "PSA101"]))
  {
    SpacedCuts();
    SpacedSlice(SpacedLine);
  }

  lemma SpacedSlice(toks: seq<string>)
    requires |toks| == 16 && toks[0] == "12345" && toks[1] == "CSE" && toks[2] == "110"
    requires toks[3] == "Intro" && toks[4] == "to" && toks[5] == "Programming" && toks[6] == "3.0"
    requires toks[7] == "Smith" && toks[8] == "J" && toks[9] == "MWF" && toks[10] == "10:00AM-10:50AM"
    requires toks[11] == "1/08/24" && toks[12] == "-" && toks[13] == "5/03/24"
    requires toks[14] == "Tempe" && toks[15] == "PSA101"
    ensures Ordered(toks, Cuts(3, 6, 9, 10, 11, 14))
    ensures Slice(toks, Cuts(3, 6, 9, 10, 11, 14))
      == Fields("12345", ["CSE", "110"], ["Intro", "to", "Programming"], "3.0",
                ["Smith", "J"], ["MWF"], ["10:00AM-10:50AM"], ["1/08/24", "-", "5/03/24"], ["Tempe", "PSA101"])
  {
    assert toks[1..3] == [toks[1], toks[2]] && toks[3..6] == [toks[3], toks[4], toks[5]];
    assert toks[7..9] == [toks[7], toks[8]] && toks[9..10] == [toks[9]] && toks[10..11] == [toks[10]];
    assert toks[11..14] == [toks[11], toks[12], toks[13]] && toks[14..] == [toks[14], toks[15]];
  }

}
