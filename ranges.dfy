/** The time/date range resolver's text handling (index.py:125-146, 184-186):
    the two `re.search` patterns

      time:  (\d{1,2}:\d{2}\s?(AM|PM))\s*[-–—]\s*(\d{1,2}:\d{2}\s?(AM|PM))   (ignoring case)
      date:  (\d{1,2}/\d{1,2}/\d{2})\s*[-–—]\s*(\d{1,2}/\d{1,2}/\d{2})

    as matchers that are tried at each position from the left, each proved
    equal to the pattern's meaning, and `normalize_time_format`, the
    `re.sub(r'(\d)(AM|PM)', r'\1 \2', ...)` that puts a space before an
    upper-case meridiem glued to the minutes. */
module Ranges {
  import opened Wrappers
  import opened Text
  import opened Calendar

  /** Hyphen, en dash or em dash. */
  predicate IsDash(c: char) { c == '-' || c == '\U{2013}' || c == '\U{2014}' }

  predicate AllSpaces(w: string) { forall k :: 0 <= k < |w| ==> IsSpace(w[k]) }

  /** `\d{1,2}` at `i` followed by `sep`: the index of `sep`. A second digit is
      taken when there is one, and then `sep` must follow it. */
  function NumberThen(s: string, i: nat, sep: char): (j: Option<nat>)
    requires i <= |s|
    requires !IsDigit(sep)
    ensures j.Some? ==> i < j.value <= i + 2 && j.value < |s| && s[j.value] == sep
  {
    if i < |s| && IsDigit(s[i]) then
      if i + 1 < |s| && IsDigit(s[i + 1]) then
        (if i + 2 < |s| && s[i + 2] == sep then Some(i + 2) else None)
      else if i + 1 < |s| && s[i + 1] == sep then Some(i + 1)
      else None
    else None
  }

  /** What `NumberThen` reads before the separator is digits. */
  lemma NumberThenDigits(s: string, i: nat, sep: char)
    requires i <= |s| && !IsDigit(sep) && NumberThen(s, i, sep).Some?
    ensures AllDigits(s[i..NumberThen(s, i, sep).value])
  {
  }

  /** Index of the first non-whitespace character at or after `i` (`\s*`). */
  function SkipSpaces(s: string, i: nat): (j: nat)
    requires i <= |s|
    ensures i <= j <= |s|
    ensures j < |s| ==> !IsSpace(s[j])
    decreases |s| - i
  {
    if i < |s| && IsSpace(s[i]) then SkipSpaces(s, i + 1) else i
  }

  /** What `SkipSpaces` skips is whitespace. */
  lemma {:induction false} SkipSpacesSpaces(s: string, i: nat)
    requires i <= |s|
    ensures AllSpaces(s[i..SkipSpaces(s, i)])
    decreases |s| - i
  {
    if i < |s| && IsSpace(s[i]) {
      var j := SkipSpaces(s, i + 1);
      SkipSpacesSpaces(s, i + 1);
      assert s[i..j] == [s[i]] + s[i + 1..j];
    }
  }

  lemma SkipSpacesExact(s: string, i: nat, w: string)
    requires AllSpaces(w) && OccursAt(s, w, i)
    requires i + |w| < |s| && !IsSpace(s[i + |w|])
    ensures SkipSpaces(s, i) == i + |w|
  {
    var j := SkipSpaces(s, i);
    SkipSpacesSpaces(s, i);
    forall k | i <= k < i + |w| ensures IsSpace(s[k]) {
      assert s[k] == s[i..i + |w|][k - i];
    }
    forall k | i <= k < j ensures IsSpace(s[k]) {
      assert s[k] == s[i..j][k - i];
    }
  }

  lemma OccursSplit(s: string, a: string, b: string, i: nat)
    requires OccursAt(s, a + b, i)
    ensures OccursAt(s, a, i) && OccursAt(s, b, i + |a|)
  {
    assert s[i..i + |a|] == (a + b)[..|a|];
    assert s[i + |a|..i + |a| + |b|] == (a + b)[|a|..];
  }

  // ---------------------------------------------------------------------------
  // \d{1,2}:\d{2}\s?(AM|PM)

  /** The time group at `i`, and the index just after it. */
  function ClockAt(s: string, i: nat): Option<(TimeText, nat)>
    requires i <= |s|
  {
    match NumberThen(s, i, ':')
    case None => None
    case Some(c) =>
      if c + 2 < |s| && IsDigit(s[c + 1]) && IsDigit(s[c + 2]) then
        var a := if c + 3 < |s| && IsSpace(s[c + 3]) then c + 4 else c + 3;
        if a + 2 <= |s| && IsMeridiem(s[a..a + 2]) then
          Some((TimeText(s[i..c], s[c + 1..c + 3], s[c + 3..a], s[a..a + 2]), a + 2))
        else None
      else None
  }

  /** What `ClockAt` finds is a time text, and it ends where the text ends. */
  lemma ClockAtSound(s: string, i: nat)
    requires i <= |s| && ClockAt(s, i).Some?
    ensures WellShapedTime(ClockAt(s, i).value.0)
    ensures ClockAt(s, i).value.1 == i + |TimeString(ClockAt(s, i).value.0)|
    ensures OccursAt(s, TimeString(ClockAt(s, i).value.0), i)
  {
    NumberThenDigits(s, i, ':');
    ClockAtText(s, i);
  }

  lemma ClockAtText(s: string, i: nat)
    requires i <= |s| && ClockAt(s, i).Some?
    ensures OccursAt(s, TimeString(ClockAt(s, i).value.0), i)
  {
    var c := NumberThen(s, i, ':').value;
    var t := ClockAt(s, i).value.0;
    assert s[c..c + 1] == ":";
    OccursJoin(s, t.hour, ":", i);
    OccursJoin(s, t.hour + ":", t.minute, i);
    OccursJoin(s, t.hour + ":" + t.minute, t.gap, i);
    OccursJoin(s, t.hour + ":" + t.minute + t.gap, t.meridiem, i);
  }

  /** Two texts found one after the other make up their concatenation. */
  lemma OccursJoin(s: string, a: string, b: string, i: nat)
    requires OccursAt(s, a, i) && OccursAt(s, b, i + |a|)
    ensures OccursAt(s, a + b, i)
  {
    assert s[i..i + |a| + |b|] == s[i..i + |a|] + s[i + |a|..i + |a| + |b|];
  }

  /** A time text at `i` is exactly what `ClockAt` finds there. */
  lemma ClockAtComplete(s: string, i: nat, t: TimeText)
    requires WellShapedTime(t) && OccursAt(s, TimeString(t), i)
    ensures ClockAt(s, i) == Some((t, i + |TimeString(t)|))
  {
    var x2 := t.hour + ":";
    var x3 := x2 + t.minute;
    var x4 := x3 + t.gap;
    OccursSplit(s, x4, t.meridiem, i);
    OccursSplit(s, x3, t.gap, i);
    OccursSplit(s, x2, t.minute, i);
    OccursSplit(s, t.hour, ":", i);
    ClockAtGroups(s, i, t);
  }

  /** `ClockAt` reads the groups of a time text laid out at `i`. */
  lemma ClockAtGroups(s: string, i: nat, t: TimeText)
    requires WellShapedTime(t)
    requires i + |TimeString(t)| <= |s|
    requires s[i..i + |t.hour|] == t.hour && s[i + |t.hour|] == ':'
    requires s[i + |t.hour| + 1..i + |t.hour| + 3] == t.minute
    requires s[i + |t.hour| + 3..i + |t.hour| + 3 + |t.gap|] == t.gap
    requires s[i + |t.hour| + 3 + |t.gap|..i + |t.hour| + 5 + |t.gap|] == t.meridiem
    ensures ClockAt(s, i) == Some((t, i + |TimeString(t)|))
  {
    var n, g := |t.hour|, |t.gap|;
    var c := i + n;
    NumberAt(s, i, ':', t.hour);
    assert IsDigit(s[c + 1]) && IsDigit(s[c + 2]) by {
      assert s[c + 1] == s[c + 1..c + 3][0] && s[c + 2] == s[c + 1..c + 3][1];
    }
    assert IsSpace(s[c + 3]) <==> g == 1 by {
      if g == 1 { assert s[c + 3] == t.gap[0]; } else { assert s[c + 3] == t.meridiem[0]; }
    }
  }

  // ---------------------------------------------------------------------------
  // \d{1,2}/\d{1,2}/\d{2}

  /** The date group at `i`, and the index just after it. */
  function DateAt(s: string, i: nat): Option<(DateText, nat)>
    requires i <= |s|
  {
    match NumberThen(s, i, '/')
    case None => None
    case Some(a) =>
      match NumberThen(s, a + 1, '/')
      case None => None
      case Some(b) =>
        if b + 2 < |s| && IsDigit(s[b + 1]) && IsDigit(s[b + 2]) then
          Some((DateText(s[i..a], s[a + 1..b], s[b + 1..b + 3]), b + 3))
        else None
  }

  /** What `DateAt` finds is a date text, and it ends where the text ends. */
  lemma DateAtSound(s: string, i: nat)
    requires i <= |s| && DateAt(s, i).Some?
    ensures WellShapedDate(DateAt(s, i).value.0)
    ensures DateAt(s, i).value.1 == i + |DateString(DateAt(s, i).value.0)|
    ensures OccursAt(s, DateString(DateAt(s, i).value.0), i)
  {
    var a := NumberThen(s, i, '/').value;
    NumberThenDigits(s, i, '/');
    NumberThenDigits(s, a + 1, '/');
    DateAtText(s, i);
  }

  lemma DateAtText(s: string, i: nat)
    requires i <= |s| && DateAt(s, i).Some?
    ensures OccursAt(s, DateString(DateAt(s, i).value.0), i)
  {
    var a := NumberThen(s, i, '/').value;
    var b := NumberThen(s, a + 1, '/').value;
    var t := DateAt(s, i).value.0;
    assert t == DateText(s[i..a], s[a + 1..b], s[b + 1..b + 3]);
    SlashedText(s, i, a, b);
  }

  /** Three pieces of `s` around two slashes, put together. */
  lemma SlashedText(s: string, i: nat, a: nat, b: nat)
    requires i < a < b && b + 3 <= |s| && s[a] == '/' && s[b] == '/'
    ensures OccursAt(s, s[i..a] + "/" + s[a + 1..b] + "/" + s[b + 1..b + 3], i)
  {
    assert s[a..a + 1] == "/" && s[b..b + 1] == "/";
    OccursJoin(s, s[i..a], "/", i);
    OccursJoin(s, s[i..a] + "/", s[a + 1..b], i);
    OccursJoin(s, s[i..a] + "/" + s[a + 1..b], "/", i);
    OccursJoin(s, s[i..a] + "/" + s[a + 1..b] + "/", s[b + 1..b + 3], i);
  }

  /** A date text at `i` is exactly what `DateAt` finds there. */
  lemma DateAtComplete(s: string, i: nat, t: DateText)
    requires WellShapedDate(t) && OccursAt(s, DateString(t), i)
    ensures DateAt(s, i) == Some((t, i + |DateString(t)|))
  {
    var x2 := t.month + "/";
    var x3 := x2 + t.day;
    var x4 := x3 + "/";
    OccursSplit(s, x4, t.year, i);
    OccursSplit(s, x3, "/", i);
    OccursSplit(s, x2, t.day, i);
    OccursSplit(s, t.month, "/", i);
    DateAtGroups(s, i, t);
  }

  /** `DateAt` reads the groups of a date text laid out at `i`. */
  lemma DateAtGroups(s: string, i: nat, t: DateText)
    requires WellShapedDate(t)
    requires i + |DateString(t)| <= |s|
    requires s[i..i + |t.month|] == t.month && s[i + |t.month|] == '/'
    requires s[i + |t.month| + 1..i + |t.month| + 1 + |t.day|] == t.day && s[i + |t.month| + 1 + |t.day|] == '/'
    requires s[i + |t.month| + 2 + |t.day|..i + |t.month| + 4 + |t.day|] == t.year
    ensures DateAt(s, i) == Some((t, i + |DateString(t)|))
  {
    var a := i + |t.month|;
    var b := a + 1 + |t.day|;
    NumberAt(s, i, '/', t.month);
    NumberAt(s, a + 1, '/', t.day);
    assert IsDigit(s[b + 1]) && IsDigit(s[b + 2]) by {
      assert s[b + 1] == s[b + 1..b + 3][0] && s[b + 2] == s[b + 1..b + 3][1];
    }
  }

  /** One or two digits laid out at `i` and followed by `sep` are what
      `NumberThen` reads there. */
  lemma NumberAt(s: string, i: nat, sep: char, n: string)
    requires !IsDigit(sep) && 1 <= |n| <= 2 && AllDigits(n)
    requires i + |n| < |s| && s[i..i + |n|] == n && s[i + |n|] == sep
    ensures NumberThen(s, i, sep) == Some(i + |n|)
  {
    assert IsDigit(s[i]) by { assert s[i] == n[0]; }
    if |n| == 2 {
      assert IsDigit(s[i + 1]) by { assert s[i + 1] == n[1]; }
    }
  }

  /** The month, day and year groups of a token whose month has `m` digits
      and whose day has `d`. */
  function SplitDate(tok: string, m: nat, d: nat): (t: DateText)
    requires m + d + 4 == |tok|
    ensures |t.month| == m && |t.day| == d && |t.year| == 2
  {
    DateText(tok[..m], tok[m + 1..m + 1 + d], tok[m + 2 + d..])
  }

  /** `re.match(r'^\d{1,2}/\d{1,2}/\d{2}$', token)`: one or two digits, a
      slash, one or two digits, a slash and two digits, and nothing else. */
  predicate IsDateToken(tok: string) {
    exists m: nat, d: nat | 1 <= m <= 2 && 1 <= d <= 2 && m + d + 4 == |tok| ::
      WellShapedDate(SplitDate(tok, m, d)) && tok == DateString(SplitDate(tok, m, d))
  }

  /** A date token is six to eight characters long, begins with a digit and
      has its first slash second or third. */
  lemma DateTokenShape(tok: string)
    requires IsDateToken(tok)
    ensures 6 <= |tok| <= 8 && IsDigit(tok[0]) && (tok[1] == '/' || tok[2] == '/')
  {
    var m: nat, d: nat :| 1 <= m <= 2 && 1 <= d <= 2 && m + d + 4 == |tok|
      && WellShapedDate(SplitDate(tok, m, d)) && tok == DateString(SplitDate(tok, m, d));
    var t := SplitDate(tok, m, d);
    assert tok[0] == t.month[0] && tok[m] == '/';
  }

  /** A token is a date token exactly when it is the text of some date. */
  lemma DateTokenMeaning(tok: string)
    ensures IsDateToken(tok) <==> exists t :: WellShapedDate(t) && tok == DateString(t)
  {
    if exists t :: WellShapedDate(t) && tok == DateString(t) {
      var t :| WellShapedDate(t) && tok == DateString(t);
      var m, d := |t.month|, |t.day|;
      assert SplitDate(tok, m, d) == t;
    }
  }

  /** The scanner's test agrees with the date pattern of the range search: a
      date token is exactly a token that `DateAt` reads to its end. */
  lemma DateTokenAt(tok: string)
    ensures IsDateToken(tok) <==> DateAt(tok, 0).Some? && DateAt(tok, 0).value.1 == |tok|
  {
    DateTokenMeaning(tok);
    if IsDateToken(tok) {
      var t :| WellShapedDate(t) && tok == DateString(t);
      assert OccursAt(tok, DateString(t), 0);
      DateAtComplete(tok, 0, t);
    }
    if DateAt(tok, 0).Some? && DateAt(tok, 0).value.1 == |tok| {
      DateAtSound(tok, 0);
      var t := DateAt(tok, 0).value.0;
      assert tok[0..|tok|] == tok;
      assert WellShapedDate(t) && tok == DateString(t);
    }
  }

  // ---------------------------------------------------------------------------
  // The two range patterns

  datatype TimeRange = TimeRange(start: TimeText, end: TimeText)

  datatype DateRange = DateRange(start: DateText, end: DateText)

  /** `\s*[-–—]\s*` at `e`: the index where the second group starts. */
  function DashSeam(s: string, e: nat): (b: Option<nat>)
    requires e <= |s|
    ensures b.Some? ==> e < b.value <= |s|
  {
    var d := SkipSpaces(s, e);
    if d < |s| && IsDash(s[d]) then Some(SkipSpaces(s, d + 1)) else None
  }

  /** The seam `DashSeam` crosses is whitespace, a dash and whitespace. */
  lemma DashSeamSound(s: string, e: nat)
    requires e <= |s| && DashSeam(s, e).Some?
    ensures var d := SkipSpaces(s, e);
      d < |s| && AllSpaces(s[e..d]) && IsDash(s[d]) && AllSpaces(s[d + 1..DashSeam(s, e).value])
      && s[e..DashSeam(s, e).value] == s[e..d] + [s[d]] + s[d + 1..DashSeam(s, e).value]
  {
    var d := SkipSpaces(s, e);
    var b := SkipSpaces(s, d + 1);
    SkipSpacesSpaces(s, e);
    SkipSpacesSpaces(s, d + 1);
    assert s[e..b] == s[e..d] + s[d..d + 1] + s[d + 1..b];
  }

  /** Whitespace, a dash and whitespace before a non-space is crossed exactly. */
  lemma DashSeamExact(s: string, e: nat, w1: string, dash: char, w2: string)
    requires AllSpaces(w1) && AllSpaces(w2) && IsDash(dash)
    requires OccursAt(s, w1, e) && e + |w1| < |s| && s[e + |w1|] == dash && OccursAt(s, w2, e + |w1| + 1)
    requires e + |w1| + 1 + |w2| < |s| && !IsSpace(s[e + |w1| + 1 + |w2|])
    ensures DashSeam(s, e) == Some(e + |w1| + 1 + |w2|)
  {
    SkipSpacesExact(s, e, w1);
    SkipSpacesExact(s, e + |w1| + 1, w2);
  }

  /** The time-range pattern matched at `i`: two time groups separated by
      optional whitespace, a dash and optional whitespace. */
  function TimeRangeAt(s: string, i: nat): Option<TimeRange>
    requires i <= |s|
  {
    match ClockAt(s, i)
    case None => None
    case Some(first) =>
      match DashSeam(s, first.1)
      case None => None
      case Some(b) =>
        match ClockAt(s, b)
        case None => None
        case Some(second) => Some(TimeRange(first.0, second.0))
  }

  /** The date-range pattern matched at `i`. */
  function DateRangeAt(s: string, i: nat): Option<DateRange>
    requires i <= |s|
  {
    match DateAt(s, i)
    case None => None
    case Some(first) =>
      match DashSeam(s, first.1)
      case None => None
      case Some(b) =>
        match DateAt(s, b)
        case None => None
        case Some(second) => Some(DateRange(first.0, second.0))
  }

  /** What the time-range pattern means: the text at `i` is a time, whitespace,
      a dash, whitespace and a time. */
  predicate TimeRangeText(s: string, i: nat, r: TimeRange, w1: string, dash: char, w2: string) {
    WellShapedTime(r.start) && WellShapedTime(r.end) && AllSpaces(w1) && AllSpaces(w2) && IsDash(dash)
    && OccursAt(s, TimeString(r.start) + w1 + [dash] + w2 + TimeString(r.end), i)
  }

  /** What the date-range pattern means. */
  predicate DateRangeText(s: string, i: nat, r: DateRange, w1: string, dash: char, w2: string) {
    WellShapedDate(r.start) && WellShapedDate(r.end) && AllSpaces(w1) && AllSpaces(w2) && IsDash(dash)
    && OccursAt(s, DateString(r.start) + w1 + [dash] + w2 + DateString(r.end), i)
  }

  /** A text `a + w1 + [dash] + w2 + z` at `i`, cut into its pieces. */
  lemma OccursPieces(s: string, i: nat, a: string, w1: string, dash: char, w2: string, z: string)
    requires OccursAt(s, a + w1 + [dash] + w2 + z, i)
    ensures OccursAt(s, a, i) && OccursAt(s, w1, i + |a|)
    ensures s[i + |a| + |w1|] == dash
    ensures OccursAt(s, w2, i + |a| + |w1| + 1) && OccursAt(s, z, i + |a| + |w1| + 1 + |w2|)
  {
    OccursSplit(s, a + w1 + [dash] + w2, z, i);
    OccursSplit(s, a + w1 + [dash], w2, i);
    OccursSplit(s, a + w1, [dash], i);
    OccursSplit(s, a, w1, i);
  }

  /** Pieces found one after another make up the whole text. */
  lemma RangeText(s: string, i: nat, a: string, e1: nat, w1: string, dash: char, w2: string, b: nat, z: string)
    requires OccursAt(s, a, i) && e1 == i + |a|
    requires e1 < b <= |s| && s[e1..b] == w1 + [dash] + w2
    requires OccursAt(s, z, b)
    ensures OccursAt(s, a + w1 + [dash] + w2 + z, i)
  {
    assert s[i..b + |z|] == s[i..e1] + s[e1..b] + s[b..b + |z|];
  }

  /** `TimeRangeAt` in terms of its three steps: a group at `i`, the seam
      after it, and a group where the seam ends. */
  lemma TimeRangeAtSteps(s: string, i: nat, r: TimeRange, b: nat)
    requires WellShapedTime(r.start) && WellShapedTime(r.end)
    requires OccursAt(s, TimeString(r.start), i) && DashSeam(s, i + |TimeString(r.start)|) == Some(b)
    requires OccursAt(s, TimeString(r.end), b)
    ensures TimeRangeAt(s, i) == Some(r)
  {
    ClockAtComplete(s, i, r.start);
    ClockAtComplete(s, b, r.end);
    var first, second := ClockAt(s, i).value, ClockAt(s, b).value;
    assert first.0 == r.start && first.1 == i + |TimeString(r.start)| && second.0 == r.end;
    assert TimeRangeAt(s, i) == Some(TimeRange(first.0, second.0));
  }

  lemma TimeRangeAtSound(s: string, i: nat)
    requires i <= |s| && TimeRangeAt(s, i).Some?
    ensures exists w1, dash, w2 :: TimeRangeText(s, i, TimeRangeAt(s, i).value, w1, dash, w2)
  {
    var first := ClockAt(s, i).value;
    var b := DashSeam(s, first.1).value;
    var second := ClockAt(s, b).value;
    assert TimeRangeAt(s, i).value == TimeRange(first.0, second.0);
    ClockAtSound(s, i);
    ClockAtSound(s, b);
    TimeRangeFromParts(s, i, TimeRange(first.0, second.0), b);
  }

  /** Two groups with a seam between them are the text the pattern describes. */
  lemma TimeRangeFromParts(s: string, i: nat, r: TimeRange, b: nat)
    requires WellShapedTime(r.start) && WellShapedTime(r.end)
    requires OccursAt(s, TimeString(r.start), i) && DashSeam(s, i + |TimeString(r.start)|) == Some(b)
    requires OccursAt(s, TimeString(r.end), b)
    ensures exists w1, dash, w2 :: TimeRangeText(s, i, r, w1, dash, w2)
  {
    var e1 := i + |TimeString(r.start)|;
    var d := SkipSpaces(s, e1);
    DashSeamSound(s, e1);
    var w1, w2 := s[e1..d], s[d + 1..b];
    RangeText(s, i, TimeString(r.start), e1, w1, s[d], w2, b, TimeString(r.end));
    assert TimeRangeText(s, i, r, w1, s[d], w2);
  }

  /** The first character of a text found at `i` is at `i`. */
  lemma OccursFirst(s: string, w: string, i: nat)
    requires OccursAt(s, w, i) && w != []
    ensures i < |s| && s[i] == w[0]
  {
    assert s[i..i + |w|][0] == s[i];
  }

  lemma TimeStartsWithDigit(t: TimeText)
    requires WellShapedTime(t)
    ensures TimeString(t) != [] && IsDigit(TimeString(t)[0])
  {
    assert TimeString(t)[0] == t.hour[0];
  }

  lemma DateStartsWithDigit(t: DateText)
    requires WellShapedDate(t)
    ensures DateString(t) != [] && IsDigit(DateString(t)[0])
  {
    assert DateString(t)[0] == t.month[0];
  }

  /** Whitespace, a dash and whitespace before a text that begins with a
      digit is crossed exactly. */
  lemma SeamBeforeDigit(s: string, e: nat, w1: string, d: nat, w2: string, z: string)
    requires AllSpaces(w1) && AllSpaces(w2) && OccursAt(s, w1, e) && d == e + |w1|
    requires d < |s| && IsDash(s[d]) && OccursAt(s, w2, d + 1)
    requires z != [] && IsDigit(z[0]) && OccursAt(s, z, d + 1 + |w2|)
    ensures DashSeam(s, e) == Some(d + 1 + |w2|)
  {
    OccursFirst(s, z, d + 1 + |w2|);
    DashSeamExact(s, e, w1, s[d], w2);
  }

  /** The matcher finds a time range laid out piece by piece at `i`. */
  lemma TimeRangeFromPieces(s: string, i: nat, r: TimeRange, w1: string, d: nat, w2: string)
    requires WellShapedTime(r.start) && WellShapedTime(r.end) && AllSpaces(w1) && AllSpaces(w2)
    requires OccursAt(s, TimeString(r.start), i)
    requires OccursAt(s, w1, i + |TimeString(r.start)|) && d == i + |TimeString(r.start)| + |w1|
    requires d < |s| && IsDash(s[d]) && OccursAt(s, w2, d + 1)
    requires OccursAt(s, TimeString(r.end), d + 1 + |w2|)
    ensures TimeRangeAt(s, i) == Some(r)
  {
    var e1 := i + |TimeString(r.start)|;
    var b := d + 1 + |w2|;
    TimeStartsWithDigit(r.end);
    SeamBeforeDigit(s, e1, w1, d, w2, TimeString(r.end));
    TimeRangeAtSteps(s, i, r, b);
  }

  lemma TimeRangeAtComplete(s: string, i: nat, r: TimeRange, w1: string, dash: char, w2: string)
    requires TimeRangeText(s, i, r, w1, dash, w2)
    ensures TimeRangeAt(s, i) == Some(r)
  {
    var a := TimeString(r.start);
    OccursPieces(s, i, a, w1, dash, w2, TimeString(r.end));
    TimeRangeFromPieces(s, i, r, w1, i + |a| + |w1|, w2);
  }

  /** The time-range matcher finds exactly the texts the pattern describes. */
  lemma TimeRangeAtMeaning(s: string, i: nat, r: TimeRange)
    requires i <= |s|
    ensures TimeRangeAt(s, i) == Some(r) <==> exists w1, dash, w2 :: TimeRangeText(s, i, r, w1, dash, w2)
  {
    if TimeRangeAt(s, i) == Some(r) {
      TimeRangeAtSound(s, i);
    }
    if exists w1, dash, w2 :: TimeRangeText(s, i, r, w1, dash, w2) {
      var w1, dash, w2 :| TimeRangeText(s, i, r, w1, dash, w2);
      TimeRangeAtComplete(s, i, r, w1, dash, w2);
    }
  }

  /** `DateRangeAt` in terms of its three steps: a group at `i`, the seam
      after it, and a group where the seam ends. */
  lemma DateRangeAtSteps(s: string, i: nat, r: DateRange, b: nat)
    requires WellShapedDate(r.start) && WellShapedDate(r.end)
    requires OccursAt(s, DateString(r.start), i) && DashSeam(s, i + |DateString(r.start)|) == Some(b)
    requires OccursAt(s, DateString(r.end), b)
    ensures DateRangeAt(s, i) == Some(r)
  {
    DateAtComplete(s, i, r.start);
    DateAtComplete(s, b, r.end);
    var first, second := DateAt(s, i).value, DateAt(s, b).value;
    assert first.0 == r.start && first.1 == i + |DateString(r.start)| && second.0 == r.end;
    assert DateRangeAt(s, i) == Some(DateRange(first.0, second.0));
  }

  lemma DateRangeAtSound(s: string, i: nat)
    requires i <= |s| && DateRangeAt(s, i).Some?
    ensures exists w1, dash, w2 :: DateRangeText(s, i, DateRangeAt(s, i).value, w1, dash, w2)
  {
    var first := DateAt(s, i).value;
    var b := DashSeam(s, first.1).value;
    var second := DateAt(s, b).value;
    assert DateRangeAt(s, i).value == DateRange(first.0, second.0);
    DateAtSound(s, i);
    DateAtSound(s, b);
    DateRangeFromParts(s, i, DateRange(first.0, second.0), b);
  }

  /** Two groups with a seam between them are the text the pattern describes. */
  lemma DateRangeFromParts(s: string, i: nat, r: DateRange, b: nat)
    requires WellShapedDate(r.start) && WellShapedDate(r.end)
    requires OccursAt(s, DateString(r.start), i) && DashSeam(s, i + |DateString(r.start)|) == Some(b)
    requires OccursAt(s, DateString(r.end), b)
    ensures exists w1, dash, w2 :: DateRangeText(s, i, r, w1, dash, w2)
  {
    var e1 := i + |DateString(r.start)|;
    var d := SkipSpaces(s, e1);
    DashSeamSound(s, e1);
    var w1, w2 := s[e1..d], s[d + 1..b];
    RangeText(s, i, DateString(r.start), e1, w1, s[d], w2, b, DateString(r.end));
    assert DateRangeText(s, i, r, w1, s[d], w2);
  }

  /** The matcher finds a date range laid out piece by piece at `i`. */
  lemma DateRangeFromPieces(s: string, i: nat, r: DateRange, w1: string, d: nat, w2: string)
    requires WellShapedDate(r.start) && WellShapedDate(r.end) && AllSpaces(w1) && AllSpaces(w2)
    requires OccursAt(s, DateString(r.start), i)
    requires OccursAt(s, w1, i + |DateString(r.start)|) && d == i + |DateString(r.start)| + |w1|
    requires d < |s| && IsDash(s[d]) && OccursAt(s, w2, d + 1)
    requires OccursAt(s, DateString(r.end), d + 1 + |w2|)
    ensures DateRangeAt(s, i) == Some(r)
  {
    var e1 := i + |DateString(r.start)|;
    var b := d + 1 + |w2|;
    DateStartsWithDigit(r.end);
    SeamBeforeDigit(s, e1, w1, d, w2, DateString(r.end));
    DateRangeAtSteps(s, i, r, b);
  }

  lemma DateRangeAtComplete(s: string, i: nat, r: DateRange, w1: string, dash: char, w2: string)
    requires DateRangeText(s, i, r, w1, dash, w2)
    ensures DateRangeAt(s, i) == Some(r)
  {
    var a := DateString(r.start);
    OccursPieces(s, i, a, w1, dash, w2, DateString(r.end));
    DateRangeFromPieces(s, i, r, w1, i + |a| + |w1|, w2);
  }

  /** The date-range matcher finds exactly the texts the pattern describes. */
  lemma DateRangeAtMeaning(s: string, i: nat, r: DateRange)
    requires i <= |s|
    ensures DateRangeAt(s, i) == Some(r) <==> exists w1, dash, w2 :: DateRangeText(s, i, r, w1, dash, w2)
  {
    if DateRangeAt(s, i) == Some(r) {
      DateRangeAtSound(s, i);
    }
    if exists w1, dash, w2 :: DateRangeText(s, i, r, w1, dash, w2) {
      var w1, dash, w2 :| DateRangeText(s, i, r, w1, dash, w2);
      DateRangeAtComplete(s, i, r, w1, dash, w2);
    }
  }

  /** A date range takes at least `D/D/DD-D/D/DD`, thirteen characters. */
  lemma DateRangeAtLength(s: string, i: nat)
    requires i <= |s|
    ensures DateRangeAt(s, i).Some? ==> i + 13 <= |s|
  {
    if DateRangeAt(s, i).Some? {
      DateAtSound(s, i);
      DateAtSound(s, DashSeam(s, DateAt(s, i).value.1).value);
    }
  }

  datatype Pattern = TimePattern | DatePattern

  predicate MatchesAt(p: Pattern, s: string, i: nat)
    requires i <= |s|
  {
    match p
    case TimePattern => TimeRangeAt(s, i).Some?
    case DatePattern => DateRangeAt(s, i).Some?
  }

  /** `re.search`: the leftmost position at or after `i` where the pattern matches. */
  function Search(p: Pattern, s: string, i: nat): (r: Option<nat>)
    requires i <= |s|
    ensures r.Some? ==> i <= r.value <= |s| && MatchesAt(p, s, r.value)
    ensures r.Some? ==> forall q :: i <= q < r.value ==> !MatchesAt(p, s, q)
    ensures r.None? ==> forall q :: i <= q <= |s| ==> !MatchesAt(p, s, q)
    decreases |s| - i
  {
    if MatchesAt(p, s, i) then Some(i)
    else if i == |s| then None
    else Search(p, s, i + 1)
  }

  /** `re.search(time pattern, time_str, re.IGNORECASE)`, groups 1 and 3: the
      two times written at the leftmost index where the pattern matches. */
  function FindTimeRange(s: string): (r: Option<TimeRange>)
    ensures r.Some? ==> WellShapedTime(r.value.start) && WellShapedTime(r.value.end)
    ensures r.Some? <==> exists i :: 0 <= i <= |s| && MatchesAt(TimePattern, s, i)
    ensures r.Some? ==>
      Search(TimePattern, s, 0).Some?
      && (forall q :: 0 <= q < Search(TimePattern, s, 0).value ==> !MatchesAt(TimePattern, s, q))
      && exists w1, dash, w2 :: TimeRangeText(s, Search(TimePattern, s, 0).value, r.value, w1, dash, w2)
  {
    match Search(TimePattern, s, 0)
    case None => None
    case Some(i) => TimeRangeAtSound(s, i); TimeRangeAt(s, i)
  }

  /** `re.search(date pattern, date_str)`, groups 1 and 2: the two dates
      written at the leftmost index where the pattern matches. */
  function FindDateRange(s: string): (r: Option<DateRange>)
    ensures r.Some? ==> WellShapedDate(r.value.start) && WellShapedDate(r.value.end)
    ensures r.Some? <==> exists i :: 0 <= i <= |s| && MatchesAt(DatePattern, s, i)
    ensures r.Some? ==>
      Search(DatePattern, s, 0).Some?
      && (forall q :: 0 <= q < Search(DatePattern, s, 0).value ==> !MatchesAt(DatePattern, s, q))
      && exists w1, dash, w2 :: DateRangeText(s, Search(DatePattern, s, 0).value, r.value, w1, dash, w2)
  {
    match Search(DatePattern, s, 0)
    case None => None
    case Some(i) => DateRangeAtSound(s, i); DateRangeAt(s, i)
  }

  /** `re.search` reports the first match: a match found at the start of the
      text is the one reported. */
  lemma LeadingTimeRange(s: string, r: TimeRange, w1: string, dash: char, w2: string)
    requires TimeRangeText(s, 0, r, w1, dash, w2)
    ensures FindTimeRange(s) == Some(r)
  {
    TimeRangeAtMeaning(s, 0, r);
  }

  lemma LeadingDateRange(s: string, r: DateRange, w1: string, dash: char, w2: string)
    requires DateRangeText(s, 0, r, w1, dash, w2)
    ensures FindDateRange(s) == Some(r)
  {
    DateRangeAtMeaning(s, 0, r);
  }

  /** The date-range pattern needs at least `D/D/DD-D/D/DD`, so a shorter
      date text (an empty one in particular) has no range. */
  lemma NoDateRangeInShortText(s: string)
    requires |s| < 13
    ensures FindDateRange(s) == None
  {
    forall q | 0 <= q <= |s| ensures !MatchesAt(DatePattern, s, q) {
      DateRangeAtLength(s, q);
    }
  }

  // ---------------------------------------------------------------------------
  // normalize_time_format

  /** `(\d)(AM|PM)` matches at `k`: a digit glued to an upper-case meridiem. */
  predicate GluedAt(s: string, k: nat) {
    k + 3 <= |s| && IsDigit(s[k]) && (s[k + 1..k + 3] == "AM" || s[k + 1..k + 3] == "PM")
  }

  /** `re.sub(r'(\d)(AM|PM)', r'\1 \2', s)`: scanning from the left, each digit
      glued to `AM` or `PM` gets a space after it. */
  function NormalizeTime(s: string): string
    decreases |s|
  {
    if GluedAt(s, 0) then [s[0], ' '] + s[1..3] + NormalizeTime(s[3..])
    else if s == [] then []
    else [s[0]] + NormalizeTime(s[1..])
  }

  /** Whether the pattern starts at `k + 1` does not depend on the first character. */
  lemma GluedShift(s: string, k: nat)
    requires s != []
    ensures GluedAt(s[1..], k) == GluedAt(s, k + 1)
  {
    if k + 4 <= |s| {
      assert s[1..][k + 1..k + 3] == s[k + 2..k + 4];
    }
  }

  lemma GluedNext(s: string, k: nat)
    requires GluedAt(s, k)
    ensures s[k + 1] == 'A' || s[k + 1] == 'P'
  {
    assert s[k + 1] == s[k + 1..k + 3][0];
  }

  /** Where no glued meridiem starts, the first character is copied. */
  lemma NormalizeCopies(s: string)
    requires s != [] && !GluedAt(s, 0)
    ensures NormalizeTime(s) == [s[0]] + NormalizeTime(s[1..])
  {
  }

  /** Text in which no glued meridiem starts passes through unchanged. */
  lemma {:induction false} NormalizePrefix(x: string, y: string)
    requires forall k :: 0 <= k < |x| ==> !GluedAt(x + y, k)
    ensures NormalizeTime(x + y) == x + NormalizeTime(y)
    decreases |x|
  {
    if x != [] {
      var s := x + y;
      var x' := x[1..];
      assert s[1..] == x' + y;
      forall k | 0 <= k < |x'| ensures !GluedAt(x' + y, k) {
        GluedShift(s, k);
      }
      NormalizePrefix(x', y);
      NormalizeCopies(s);
      assert s[0] == x[0];
      calc {
        NormalizeTime(s);
        [x[0]] + NormalizeTime(x' + y);
        [x[0]] + (x' + NormalizeTime(y));
        { assert x == [x[0]] + x'; }
        x + NormalizeTime(y);
      }
    } else {
      assert x + y == y;
    }
  }

  /** Text without digits is never changed. */
  lemma {:induction false} NormalizeNoDigits(y: string)
    requires forall k :: 0 <= k < |y| ==> !IsDigit(y[k])
    ensures NormalizeTime(y) == y
    decreases |y|
  {
    if y != [] {
      NormalizeCopies(y);
      NormalizeNoDigits(y[1..]);
      assert y == [y[0]] + y[1..];
    }
  }

  /** The time group after normalization: a space is put before the meridiem
      exactly when none was there and the meridiem is upper-case. */
  function Normalized(t: TimeText): (r: TimeText)
    requires WellShapedTime(t)
    ensures WellShapedTime(r)
  {
    if t.gap == [] && (t.meridiem == "AM" || t.meridiem == "PM") then t.(gap := " ") else t
  }

  /** Up to the last minute digit, a time group holds no glued meridiem. */
  lemma NoGluedBeforeLastDigit(t: TimeText, x: string, y: string)
    requires WellShapedTime(t)
    requires x == t.hour + ":" + t.minute[..1] && y == t.minute[1..] + t.gap + t.meridiem
    ensures forall k :: 0 <= k < |x| ==> !GluedAt(x + y, k)
  {
    var s := x + y;
    var n := |t.hour|;
    assert forall j :: 0 <= j < n ==> s[j] == t.hour[j];
    assert s[n] == ':' && s[n + 1] == t.minute[0] && s[n + 2] == t.minute[1];
    forall k | 0 <= k < |x| ensures !GluedAt(s, k) {
      if GluedAt(s, k) {
        GluedNext(s, k);
      }
    }
  }

  /** What `normalize_time_format` does after the last minute digit. */
  lemma NormalizeTail(t: TimeText)
    requires WellShapedTime(t)
    ensures NormalizeTime(t.minute[1..] + t.gap + t.meridiem) == t.minute[1..] + Normalized(t).gap + t.meridiem
  {
    var m := t.meridiem;
    var y := t.minute[1..] + t.gap + m;
    assert t.minute[1..] == [t.minute[1]];
    if t.gap == [] && (m == "AM" || m == "PM") {
      assert y[1..3] == m;
      assert GluedAt(y, 0);
      assert y[3..] == [];
      assert [y[0], ' '] + y[1..3] == t.minute[1..] + " " + m;
    } else {
      var z := t.gap + m;
      assert y == [t.minute[1]] + z;
      if t.gap == [] {
        assert y[1..3] == m;
      } else {
        assert y[1] == t.gap[0];
      }
      assert !GluedAt(y, 0);
      assert y[1..] == z;
      forall k | 0 <= k < |z| ensures !IsDigit(z[k]) {
        if k < |t.gap| { assert z[k] == t.gap[k]; } else { assert z[k] == m[k - |t.gap|]; }
      }
      NormalizeNoDigits(z);
    }
  }

  /** `normalize_time_format` applied to a time group's text gives the text of
      the normalized group. */
  lemma NormalizeTimeGroup(t: TimeText)
    requires WellShapedTime(t)
    ensures NormalizeTime(TimeString(t)) == TimeString(Normalized(t))
  {
    var x := t.hour + ":" + t.minute[..1];
    var y := t.minute[1..] + t.gap + t.meridiem;
    CutAtLastDigit(t, t.gap);
    CutAtLastDigit(t, Normalized(t).gap);
    NoGluedBeforeLastDigit(t, x, y);
    NormalizePrefix(x, y);
    NormalizeTail(t);
  }

  /** A time text cut after the first minute digit, for any gap. */
  lemma CutAtLastDigit(t: TimeText, gap: string)
    requires |t.minute| == 2
    ensures TimeString(t.(gap := gap)) == (t.hour + ":" + t.minute[..1]) + (t.minute[1..] + gap + t.meridiem)
  {
    assert t.minute == t.minute[..1] + t.minute[1..];
  }

  /** A time range written out with the given groups and a bare dash is
      resolved to those groups. */
  lemma BareDashRange(s: string, t1: TimeText, t2: TimeText)
    requires WellShapedTime(t1) && WellShapedTime(t2)
    requires s == TimeString(t1) + "-" + TimeString(t2)
    ensures FindTimeRange(s) == Some(TimeRange(t1, t2))
  {
    assert s == TimeString(t1) + "" + ['-'] + "" + TimeString(t2);
    assert s[0..|s|] == s;
    LeadingTimeRange(s, TimeRange(t1, t2), "", '-', "");
  }

  /** A date range written out with the given groups and a bare dash is
      resolved to those groups. */
  lemma BareDashDates(s: string, d1: DateText, d2: DateText)
    requires WellShapedDate(d1) && WellShapedDate(d2)
    requires s == DateString(d1) + "-" + DateString(d2)
    ensures FindDateRange(s) == Some(DateRange(d1, d2))
  {
    assert s == DateString(d1) + "" + ['-'] + "" + DateString(d2);
    assert s[0..|s|] == s;
    LeadingDateRange(s, DateRange(d1, d2), "", '-', "");
  }

  /** `10:00AM-10:50AM` resolves to the groups `10:00AM` and `10:50AM`. */
  lemma GluedRangeExample()
    ensures FindTimeRange("10:00AM-10:50AM") == Some(TimeRange(TimeText("10", "00", "", "AM"), TimeText("10", "50", "", "AM")))
  {
    BareDashRange("10:00AM-10:50AM", TimeText("10", "00", "", "AM"), TimeText("10", "50", "", "AM"));
  }

  /** An upper-case meridiem glued to the minutes gets one space before it
      (so `10:00AM` becomes `10:00 AM`). */
  lemma GluedUpperMeridiem(t: TimeText)
    requires WellShapedTime(t) && t.gap == [] && (t.meridiem == "AM" || t.meridiem == "PM")
    ensures NormalizeTime(TimeString(t)) == t.hour + ":" + t.minute + " " + t.meridiem
  {
    NormalizeTimeGroup(t);
  }
}
