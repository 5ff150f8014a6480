/** The day normalizer of `parse_schedule` (index.py:90-123) and the reverse
    mapping `confirm_events` uses to show the days again (index.py:452-462).

    A day code is kept as a string, as in the source, so that the reverse
    mapping's `.get(d, d)` fallback stays expressible. */
module Days {
  import opened Wrappers
  import opened Text

  /** The weekday codes the normalizer can produce (the BYDAY values of
      section 3.3.10 of RFC 5545). */
  predicate IsWeekday(d: string) {
    d == "MO" || d == "TU" || d == "WE" || d == "TH" || d == "FR" || d == "SA" || d == "SU"
  }

  predicate AllWeekdays(days: seq<string>) { forall k :: 0 <= k < |days| ==> IsWeekday(days[k]) }

  /** The number of entries of `day_mapping`. */
  const DayEntries: nat := 13

  /** Entry `i` of `day_mapping`, in the order written. The source stores
      single days as bare strings and wraps them in a list when it uses them;
      here every entry is already a list. */
  function DayEntry(i: nat): (string, seq<string>)
    requires i < DayEntries
  {
    if i == 0 then ("M", ["MO"])
    else if i == 1 then ("TU", ["TU"])
    else if i == 2 then ("W", ["WE"])
    else if i == 3 then ("TH", ["TH"])
    else if i == 4 then ("F", ["FR"])
    else if i == 5 then ("SA", ["SA"])
    else if i == 6 then ("SU", ["SU"])
    else if i == 7 then ("MW", ["MO", "WE"])
    else if i == 8 then ("MWF", ["MO", "WE", "FR"])
    else if i == 9 then ("TUTH", ["TU", "TH"])
    else if i == 10 then ("MTWTHF", ["MO", "TU", "WE", "TH", "FR"])
    else if i == 11 then ("TBA", [])
    else ("ARRANGED", [])
  }

  /** The list of the first entry at or after `i` whose key is `key`. */
  function FindDays(key: string, i: nat): Option<seq<string>>
    requires i <= DayEntries
    decreases DayEntries - i
  {
    if i == DayEntries then None
    else if DayEntry(i).0 == key then Some(DayEntry(i).1)
    else FindDays(key, i + 1)
  }

  /** `day_mapping.get(key)`. */
  function DayMapping(key: string): Option<seq<string>> {
    FindDays(key, 0)
  }

  lemma {:induction false} FindDaysMeaning(key: string, i: nat)
    requires i <= DayEntries
    ensures FindDays(key, i).Some? ==> exists j :: i <= j < DayEntries && DayEntry(j) == (key, FindDays(key, i).value)
    ensures FindDays(key, i).None? ==> forall j :: i <= j < DayEntries ==> DayEntry(j).0 != key
    decreases DayEntries - i
  {
    if i < DayEntries && DayEntry(i).0 != key {
      FindDaysMeaning(key, i + 1);
    }
  }

  /** The lookup finds the entry with the key, or reports that there is none. */
  lemma DayMappingMeaning(key: string)
    ensures DayMapping(key).Some? ==> exists j :: 0 <= j < DayEntries && DayEntry(j) == (key, DayMapping(key).value)
    ensures DayMapping(key).None? <==> forall j :: 0 <= j < DayEntries ==> DayEntry(j).0 != key
  {
    FindDaysMeaning(key, 0);
  }

  /** The keys are distinct, as a dictionary's are, so the first entry with
      a key is the one entry with it. */
  lemma DayKeysDistinct()
    ensures forall i, j :: 0 <= i < j < DayEntries ==> DayEntry(i).0 != DayEntry(j).0
  {
  }

  /** Every list in the table holds weekday codes only. */
  lemma DayEntriesCanonical()
    ensures forall i :: 0 <= i < DayEntries ==> AllWeekdays(DayEntry(i).1)
  {
  }

  lemma DayMappingCanonical(key: string)
    requires DayMapping(key).Some?
    ensures AllWeekdays(DayMapping(key).value)
  {
    DayEntriesCanonical();
    DayMappingMeaning(key);
  }

  /** Every entry is found under its own key. */
  lemma DayMappingAt(i: nat)
    requires i < DayEntries
    ensures DayMapping(DayEntry(i).0) == Some(DayEntry(i).1)
  {
    var key := DayEntry(i).0;
    DayMappingMeaning(key);
    DayKeysDistinct();
    if DayMapping(key).Some? {
      var j :| 0 <= j < DayEntries && DayEntry(j) == (key, DayMapping(key).value);
      assert j == i;
    }
  }

  /** `s.replace(',', '')`. */
  function RemoveCommas(s: string): (r: string)
    ensures |r| <= |s|
    ensures forall k :: 0 <= k < |r| ==> r[k] != ','
  {
    if s == [] then [] else (if s[0] == ',' then [] else [s[0]]) + RemoveCommas(s[1..])
  }

  /** Text without commas is left as it is. */
  lemma {:induction false} RemoveCommasNone(s: string)
    requires forall k :: 0 <= k < |s| ==> s[k] != ','
    ensures RemoveCommas(s) == s
  {
    if s != [] {
      RemoveCommasNone(s[1..]);
      assert s == [s[0]] + s[1..];
    }
  }

  lemma {:induction false} RemoveCommasUpperCased(s: string)
    requires IsUpperCased(s)
    ensures IsUpperCased(RemoveCommas(s))
  {
    if s != [] {
      RemoveCommasUpperCased(s[1..]);
      var head := if s[0] == ',' then "" else [s[0]];
      assert RemoveCommas(s) == head + RemoveCommas(s[1..]);
    }
  }

  lemma {:induction false} RemoveCommasAppend(a: string, b: string)
    ensures RemoveCommas(a + b) == RemoveCommas(a) + RemoveCommas(b)
  {
    if a != [] {
      var head := if a[0] == ',' then "" else [a[0]];
      assert (a + b)[0] == a[0];
      assert (a + b)[1..] == a[1..] + b;
      RemoveCommasAppend(a[1..], b);
      calc {
        RemoveCommas(a + b);
        head + RemoveCommas(a[1..] + b);
        head + (RemoveCommas(a[1..]) + RemoveCommas(b));
        (head + RemoveCommas(a[1..])) + RemoveCommas(b);
      }
    } else {
      assert a + b == b;
    }
  }

  /** `event['days_str'].upper().replace(',', '').split()`. */
  function DayTokens(daysStr: string): (r: seq<string>)
    ensures AllTokens(r)
  {
    Split(RemoveCommas(Upper(daysStr)))
  }

  /** `day.strip().upper()`: the key the fallback looks a token up under. */
  function DayKey(day: string): string { Upper(Strip(day)) }

  /** The keys of a token list, in order. */
  function Keys(toks: seq<string>): (r: seq<string>)
    ensures |r| == |toks|
  {
    if toks == [] then [] else [DayKey(toks[0])] + Keys(toks[1..])
  }

  /** `day_mapping.get(key)` in the fallback loop: a key the table does not
      know adds nothing, and neither does one whose list is empty. */
  function KeyDays(key: string): seq<string> {
    match DayMapping(key)
    case Some(days) => days
    case None => []
  }

  /** The fallback loop over keys, for any lookup: the lists of the keys,
      concatenated in encounter order. */
  function Gather(lookup: string -> seq<string>, keys: seq<string>): seq<string> {
    if keys == [] then [] else lookup(keys[0]) + Gather(lookup, keys[1..])
  }

  /** The fallback loop over the tokens themselves. */
  function PerToken(toks: seq<string>): seq<string> {
    Gather(KeyDays, Keys(toks))
  }

  lemma KeyDaysCanonical(key: string)
    ensures AllWeekdays(KeyDays(key))
  {
    if DayMapping(key).Some? {
      DayMappingCanonical(key);
    }
  }

  /** The fallback only produces weekday codes. */
  lemma {:induction false} GatherCanonical(keys: seq<string>)
    ensures AllWeekdays(Gather(KeyDays, keys))
  {
    if keys != [] {
      GatherCanonical(keys[1..]);
      KeyDaysCanonical(keys[0]);
    }
  }

  /** Tokens that are their own keys are their own key list. */
  lemma {:induction false} KeysFixed(toks: seq<string>)
    requires forall k :: 0 <= k < |toks| ==> DayKey(toks[k]) == toks[k]
    ensures Keys(toks) == toks
  {
    if toks != [] {
      KeysFixed(toks[1..]);
      assert toks == [toks[0]] + toks[1..];
    }
  }

  /** The per-token `strip().upper()` of the fallback changes nothing: the
      tokens were upper-cased and split on whitespace already. */
  lemma KeysOfDayTokens(daysStr: string)
    ensures Keys(DayTokens(daysStr)) == DayTokens(daysStr)
  {
    var toks := DayTokens(daysStr);
    UpperIsUpperCased(daysStr);
    RemoveCommasUpperCased(Upper(daysStr));
    SplitUpperCased(RemoveCommas(Upper(daysStr)));
    forall k | 0 <= k < |toks| ensures DayKey(toks[k]) == toks[k] {
      StripToken(toks[k]);
      UpperCasedFixed(toks[k]);
    }
    KeysFixed(toks);
  }

  /** The days of a `days_str`: the concatenated key looked up as a compound
      first, token by token otherwise. */
  function NormalizeDays(daysStr: string): seq<string> {
    var toks := DayTokens(daysStr);
    match DayMapping(Concat(toks))
    case Some(days) => days
    case None => PerToken(toks)
  }

  /** Every day the normalizer produces is one of the seven weekday codes. */
  lemma NormalizeDaysCanonical(daysStr: string)
    ensures AllWeekdays(NormalizeDays(daysStr))
  {
    var toks := DayTokens(daysStr);
    if DayMapping(Concat(toks)).Some? {
      DayMappingCanonical(Concat(toks));
    } else {
      GatherCanonical(Keys(toks));
    }
  }

  /** The loop of `parse_schedule` that builds `event_days`. */
  method MapDays(daysStr: string) returns (eventDays: seq<string>)
    ensures eventDays == NormalizeDays(daysStr)
    ensures AllWeekdays(eventDays)
  {
    var daysList := DayTokens(daysStr);
    var daysCombined := Concat(daysList);
    var mappedDays := DayMapping(daysCombined);
    if mappedDays.Some? {
      eventDays := mappedDays.value;
    } else {
      eventDays := MapEachToken(daysList);
    }
    NormalizeDaysCanonical(daysStr);
  }

  /** The fallback loop: each token's key looked up on its own, the lists
      appended in order. */
  method MapEachToken(daysList: seq<string>) returns (eventDays: seq<string>)
    ensures eventDays == PerToken(daysList)
  {
    eventDays := [];
    var i := 0;
    while i < |daysList|
      invariant 0 <= i <= |daysList|
      invariant eventDays == PerToken(daysList[..i])
    {
      var day := Upper(Strip(daysList[i]));
      var mappedDay := DayMapping(day);
      if mappedDay.Some? && mappedDay.value != [] {
        eventDays := eventDays + mappedDay.value;
      }
      PerTokenStep(daysList, i);
      i := i + 1;
    }
    assert daysList[..i] == daysList;
  }

  /** The fallback over one more token of the list. */
  lemma PerTokenStep(toks: seq<string>, i: nat)
    requires i < |toks|
    ensures PerToken(toks[..i + 1]) == PerToken(toks[..i]) + KeyDays(DayKey(toks[i]))
  {
    assert toks[..i + 1] == toks[..i] + [toks[i]];
    PerTokenSnoc(toks[..i], toks[i]);
  }

  /** One more token adds the list of its key at the end. */
  lemma PerTokenSnoc(toks: seq<string>, day: string)
    ensures PerToken(toks + [day]) == PerToken(toks) + KeyDays(DayKey(day))
  {
    KeysSnoc(toks, day);
    GatherSnoc(KeyDays, Keys(toks), DayKey(day));
  }

  /** The keys of a token list are the keys of its parts. */
  lemma {:induction false} KeysAppend(a: seq<string>, b: seq<string>)
    ensures Keys(a + b) == Keys(a) + Keys(b)
  {
    if a == [] {
      assert a + b == b;
    } else {
      assert (a + b)[1..] == a[1..] + b;
      KeysAppend(a[1..], b);
    }
  }

  /** The lists of the keys are gathered part by part. */
  lemma {:induction false} GatherAppend(lookup: string -> seq<string>, a: seq<string>, b: seq<string>)
    ensures Gather(lookup, a + b) == Gather(lookup, a) + Gather(lookup, b)
  {
    if a == [] {
      assert a + b == b;
    } else {
      assert (a + b)[1..] == a[1..] + b;
      GatherAppend(lookup, a[1..], b);
    }
  }

  /** One more token adds its key at the end. */
  lemma KeysSnoc(toks: seq<string>, day: string)
    ensures Keys(toks + [day]) == Keys(toks) + [DayKey(day)]
  {
    KeysAppend(toks, [day]);
    assert Keys([day]) == [DayKey(day)] + Keys([]);
  }

  /** One more key adds its list at the end. */
  lemma GatherSnoc(lookup: string -> seq<string>, keys: seq<string>, key: string)
    ensures Gather(lookup, keys + [key]) == Gather(lookup, keys) + lookup(key)
  {
    GatherAppend(lookup, keys, [key]);
    assert Gather(lookup, [key]) == lookup(key) + Gather(lookup, []);
  }

  /** The fallback keeps encounter order and duplicates: it maps the parts
      of a token list separately. */
  lemma PerTokenAppend(a: seq<string>, b: seq<string>)
    ensures PerToken(a + b) == PerToken(a) + PerToken(b)
  {
    KeysAppend(a, b);
    GatherAppend(KeyDays, Keys(a), Keys(b));
  }

  /** A token whose key the table does not know is skipped. */
  lemma UnknownTokenSkipped(toks: seq<string>, day: string)
    requires DayMapping(DayKey(day)).None?
    ensures PerToken(toks + [day]) == PerToken(toks)
  {
    KeysSnoc(toks, day);
    GatherSnoc(KeyDays, Keys(toks), DayKey(day));
  }

  // ---------------------------------------------------------------------------
  // Examples from the normalizer's table

  /** A single word of text splits into itself. */
  lemma SplitSingle(w: string)
    requires IsToken(w)
    ensures Split(w) == [w]
  {
    SplitWord(w, "");
    assert w + "" == w;
  }

  /** Text whose upper-cased form is the given comma-free tokens joined by
      single spaces yields those tokens. */
  lemma SpacedTokens(daysStr: string, toks: seq<string>)
    requires AllTokens(toks)
    requires Upper(daysStr) == Join(toks, " ")
    requires forall k :: 0 <= k < |Upper(daysStr)| ==> Upper(daysStr)[k] != ','
    ensures DayTokens(daysStr) == toks
  {
    RemoveCommasNone(Upper(daysStr));
    SplitJoin(toks);
  }

  /** `MWF` in any letter case gives Monday, Wednesday, Friday. */
  lemma MwfAnyCase(daysStr: string)
    requires Upper(daysStr) == "MWF"
    ensures NormalizeDays(daysStr) == ["MO", "WE", "FR"]
  {
    SpacedTokens(daysStr, ["MWF"]);
    assert Concat(["MWF"]) == "MWF";
    DayMappingAt(8);
  }

  /** Separate `Tu` and `Th` tokens form the compound key `TUTH`. */
  lemma TuesdayThursday(daysStr: string)
    requires Upper(daysStr) == "TU TH"
    ensures NormalizeDays(daysStr) == ["TU", "TH"]
  {
    TuesdayThursdayTokens(daysStr);
    assert Concat(["TU", "TH"]) == "TUTH";
    DayMappingAt(9);
  }

  lemma TuesdayThursdayTokens(daysStr: string)
    requires Upper(daysStr) == "TU TH"
    ensures DayTokens(daysStr) == ["TU", "TH"]
  {
    SpacedTokens(daysStr, ["TU", "TH"]);
  }

  /** `TBA` classes have no days. */
  lemma ToBeAnnounced(daysStr: string)
    requires Upper(daysStr) == "TBA"
    ensures NormalizeDays(daysStr) == []
  {
    SpacedTokens(daysStr, ["TBA"]);
    assert Concat(["TBA"]) == "TBA";
    DayMappingAt(11);
  }

  /** A key no entry has is not in the table. */
  lemma Unmapped(key: string)
    requires forall j :: 0 <= j < DayEntries ==> DayEntry(j).0 != key
    ensures DayMapping(key) == None && KeyDays(key) == []
  {
    DayMappingMeaning(key);
  }

  /** `MF` is a day abbreviation for the tokenizer, but neither the compound
      table nor the single-day lookup knows it: such a class has no days. */
  lemma MondayFridayUnmapped(daysStr: string)
    requires Upper(daysStr) == "MF"
    ensures NormalizeDays(daysStr) == []
  {
    SpacedTokens(daysStr, ["MF"]);
    assert Concat(["MF"]) == "MF";
    Unmapped("MF");
    KeysOfDayTokens(daysStr);
    assert Gather(KeyDays, ["MF"]) == KeyDays("MF") + Gather(KeyDays, []);
  }

  /** When the compound lookup fails, the days are the lists of the tokens
      themselves, in order. */
  lemma FallbackTokens(daysStr: string)
    requires DayMapping(Concat(DayTokens(daysStr))).None?
    ensures NormalizeDays(daysStr) == Gather(KeyDays, DayTokens(daysStr))
  {
    KeysOfDayTokens(daysStr);
  }

  /** A key the table does not know falls back to the tokens one by one:
      `Tu Th F` is not a compound, so its tokens are mapped separately. */
  lemma FallbackExample(daysStr: string)
    requires Upper(daysStr) == "TU TH F"
    ensures NormalizeDays(daysStr) == ["TU", "TH", "FR"]
  {
    var toks := ["TU", "TH", "F"];
    SpacedTokens(daysStr, toks);
    assert Concat(toks) == "TUTHF";
    Unmapped("TUTHF");
    FallbackTokens(daysStr);
    GatherTuThF();
  }

  lemma GatherTuThF()
    ensures Gather(KeyDays, ["TU", "TH", "F"]) == ["TU", "TH", "FR"]
  {
    DayMappingAt(1);
    DayMappingAt(3);
    DayMappingAt(4);
    assert ["TU", "TH", "F"] == ["TU"] + (["TH"] + ["F"]);
    GatherAppend(KeyDays, ["TU"], ["TH"] + ["F"]);
    GatherAppend(KeyDays, ["TH"], ["F"]);
    assert Gather(KeyDays, ["F"]) == ["FR"] + [];
    assert Gather(KeyDays, ["TH"]) == ["TH"] + [];
    assert Gather(KeyDays, ["TU"]) == ["TU"] + [];
  }

  // ---------------------------------------------------------------------------
  // The reverse mapping (index.py:452-462)

  /** The number of entries of `reverse_day_mapping`. */
  const ReverseEntries: nat := 7

  /** Entry `i` of `reverse_day_mapping`, in the order written. */
  function ReverseEntry(i: nat): (string, string)
    requires i < ReverseEntries
  {
    if i == 0 then ("MO", "M")
    else if i == 1 then ("TU", "Tu")
    else if i == 2 then ("WE", "W")
    else if i == 3 then ("TH", "Th")
    else if i == 4 then ("FR", "F")
    else if i == 5 then ("SA", "Sa")
    else ("SU", "Su")
  }

  /** The abbreviation of the first entry at or after `i` whose code is `d`. */
  function FindAbbreviation(d: string, i: nat): Option<string>
    requires i <= ReverseEntries
    decreases ReverseEntries - i
  {
    if i == ReverseEntries then None
    else if ReverseEntry(i).0 == d then Some(ReverseEntry(i).1)
    else FindAbbreviation(d, i + 1)
  }

  /** `reverse_day_mapping.get(d, d)`. */
  function Abbreviation(d: string): string {
    match FindAbbreviation(d, 0)
    case Some(a) => a
    case None => d
  }

  lemma {:induction false} FindAbbreviationMeaning(d: string, i: nat)
    requires i <= ReverseEntries
    ensures FindAbbreviation(d, i).Some? ==> exists j :: i <= j < ReverseEntries && ReverseEntry(j) == (d, FindAbbreviation(d, i).value)
    ensures FindAbbreviation(d, i).None? ==> forall j :: i <= j < ReverseEntries ==> ReverseEntry(j).0 != d
    decreases ReverseEntries - i
  {
    if i < ReverseEntries && ReverseEntry(i).0 != d {
      FindAbbreviationMeaning(d, i + 1);
    }
  }

  /** The codes of the reverse table are distinct. */
  lemma ReverseKeysDistinct()
    ensures forall i, j :: 0 <= i < j < ReverseEntries ==> ReverseEntry(i).0 != ReverseEntry(j).0
  {
  }

  /** Every weekday is shown as its entry's abbreviation. */
  lemma AbbreviationAt(i: nat)
    requires i < ReverseEntries
    ensures Abbreviation(ReverseEntry(i).0) == ReverseEntry(i).1
  {
    var d := ReverseEntry(i).0;
    FindAbbreviationMeaning(d, 0);
    ReverseKeysDistinct();
    if FindAbbreviation(d, 0).Some? {
      var j :| 0 <= j < ReverseEntries && ReverseEntry(j) == (d, FindAbbreviation(d, 0).value);
      assert j == i;
    }
  }

  function Abbreviations(days: seq<string>): (r: seq<string>)
    ensures |r| == |days|
  {
    if days == [] then [] else [Abbreviation(days[0])] + Abbreviations(days[1..])
  }

  /** The `days_str` shown for a list of days: the abbreviations joined by `", "`. */
  function DisplayDays(days: seq<string>): string {
    Join(Abbreviations(days), ", ")
  }

  /** A code that is not a weekday is shown as it is. */
  lemma UnknownCodeShownAsIs(d: string)
    requires !IsWeekday(d)
    ensures Abbreviation(d) == d
  {
    assert forall j :: 0 <= j < ReverseEntries ==> ReverseEntry(j).0 != d;
    FindAbbreviationMeaning(d, 0);
  }

  /** Greedy reading of a concatenation of upper-cased abbreviations back
      into weekday codes; `None` when the text is not such a concatenation. */
  function Decode(s: string): (r: Option<seq<string>>)
    ensures r.Some? ==> AllWeekdays(r.value)
    decreases |s|
  {
    if s == [] then Some([])
    else if s[0] == 'M' then Prepend("MO", Decode(s[1..]))
    else if s[0] == 'W' then Prepend("WE", Decode(s[1..]))
    else if s[0] == 'F' then Prepend("FR", Decode(s[1..]))
    else if |s| < 2 then None
    else if s[0] == 'T' && s[1] == 'U' then Prepend("TU", Decode(s[2..]))
    else if s[0] == 'T' && s[1] == 'H' then Prepend("TH", Decode(s[2..]))
    else if s[0] == 'S' && s[1] == 'A' then Prepend("SA", Decode(s[2..]))
    else if s[0] == 'S' && s[1] == 'U' then Prepend("SU", Decode(s[2..]))
    else None
  }

  /** One more code in front of a decoded list. */
  function Prepend(code: string, r: Option<seq<string>>): (p: Option<seq<string>>)
    requires IsWeekday(code) && (r.Some? ==> AllWeekdays(r.value))
    ensures p.Some? ==> AllWeekdays(p.value)
  {
    match r
    case None => None
    case Some(rest) => Some([code] + rest)
  }

  /** What the normalizer sees of one abbreviation. */
  function Shown(d: string): string { Upper(Abbreviation(d)) }

  function ShownAll(days: seq<string>): (r: seq<string>)
    ensures |r| == |days|
  {
    if days == [] then [] else [Shown(days[0])] + ShownAll(days[1..])
  }

  /** The upper-cased abbreviation of each weekday. */
  function ShownText(d: string): string {
    if d == "MO" then "M" else if d == "TU" then "TU" else if d == "WE" then "W"
    else if d == "TH" then "TH" else if d == "FR" then "F" else if d == "SA" then "SA" else "SU"
  }

  /** What the normalizer needs of a weekday's shown abbreviation: it is
      `ShownText`, a comma-free token that is its own key, and the lookup
      maps that key back to the weekday. */
  predicate ShownWell(d: string) {
    var w := Shown(d);
    w == ShownText(d) && IsToken(w) && RemoveCommas(w) == w && DayKey(w) == w && KeyDays(w) == [d]
  }

  /** The first seven entries of the day table are the single days, in the
      order of the reverse table and under the upper-cased abbreviations. */
  lemma ShownEntry(i: nat, w: string)
    requires i < ReverseEntries
    requires w == Upper(ReverseEntry(i).1) && w == ShownText(ReverseEntry(i).0)
    requires IsToken(w) && (forall k :: 0 <= k < |w| ==> w[k] != ',')
    requires DayEntry(i) == (w, [ReverseEntry(i).0])
    ensures ShownWell(ReverseEntry(i).0)
  {
    AbbreviationAt(i);
    DayMappingAt(i);
    RemoveCommasNone(w);
    StripToken(w);
    UpperUpper(ReverseEntry(i).1);
  }

  /** The entries of the two tables agree on the seven weekdays. */
  lemma EntriesAgree(i: nat)
    requires i < ReverseEntries
    ensures var w := Upper(ReverseEntry(i).1);
      w == ShownText(ReverseEntry(i).0) && DayEntry(i) == (w, [ReverseEntry(i).0])
  {
  }

  /** The upper-cased abbreviations are comma-free tokens. */
  lemma ShownTextToken(d: string)
    requires IsWeekday(d)
    ensures var w := ShownText(d); IsToken(w) && (forall k :: 0 <= k < |w| ==> w[k] != ',')
  {
  }

  /** The entry of a weekday in the reverse table. */
  lemma WeekdayIndex(d: string) returns (i: nat)
    requires IsWeekday(d)
    ensures i < ReverseEntries && ReverseEntry(i).0 == d
  {
    i := if d == "MO" then 0 else if d == "TU" then 1 else if d == "WE" then 2
      else if d == "TH" then 3 else if d == "FR" then 4 else if d == "SA" then 5 else 6;
  }

  lemma ShownDay(d: string)
    requires IsWeekday(d)
    ensures ShownWell(d)
  {
    var i := WeekdayIndex(d);
    EntriesAgree(i);
    ShownTextToken(d);
    ShownEntry(i, Upper(ReverseEntry(i).1));
  }

  /** `Decode` reads a weekday's shown abbreviation back, whatever follows it. */
  lemma DecodeStep(d: string, rest: string)
    requires IsWeekday(d)
    ensures Decode(Shown(d) + rest) == Prepend(d, Decode(rest))
  {
    ShownIsText(d);
    DecodeText(d, rest);
  }

  lemma ShownToken(d: string)
    requires IsWeekday(d)
    ensures IsToken(Shown(d))
  {
    ShownDay(d);
  }

  lemma ShownIsText(d: string)
    requires IsWeekday(d)
    ensures Shown(d) == ShownText(d)
  {
    ShownDay(d);
  }

  lemma DecodeText(d: string, rest: string)
    requires IsWeekday(d)
    ensures Decode(ShownText(d) + rest) == Prepend(d, Decode(rest))
  {
    var w := ShownText(d);
    var s := w + rest;
    assert s[|w|..] == rest;
    assert s[0] == w[0];
    if |w| == 2 {
      assert s[1] == w[1];
    }
  }

  /** The concatenated abbreviations decode back to the days. */
  lemma {:induction false} DecodeShown(days: seq<string>)
    requires AllWeekdays(days)
    ensures Decode(Concat(ShownAll(days))) == Some(days)
  {
    if days != [] {
      var tail := days[1..];
      assert AllWeekdays(tail) by {
        forall k | 0 <= k < |tail| ensures IsWeekday(tail[k]) { assert tail[k] == days[k + 1]; }
      }
      DecodeShown(tail);
      assert ShownAll(days)[1..] == ShownAll(tail);
      DecodeStep(days[0], Concat(ShownAll(tail)));
      assert days == [days[0]] + tail;
    }
  }

  /** Every key of the table either is not a concatenation of
      abbreviations or names exactly the days it decodes to. */
  lemma DecodeTable()
    ensures forall i :: 0 <= i < DayEntries ==>
      Decode(DayEntry(i).0) == None || Decode(DayEntry(i).0) == Some(DayEntry(i).1)
  {
    forall i | 0 <= i < DayEntries
      ensures Decode(DayEntry(i).0) == None || Decode(DayEntry(i).0) == Some(DayEntry(i).1)
    {
      DecodeEntry(i);
    }
  }

  lemma DecodeEntry(i: nat)
    requires i < DayEntries
    ensures Decode(DayEntry(i).0) == None || Decode(DayEntry(i).0) == Some(DayEntry(i).1)
  {
    var (key, days) := DayEntry(i);
    if i < 7 {
      assert key[|key|..] == "" && days + [] == days;
    } else if i == 7 {
      assert "MW"[1..] == "W" && "W"[1..] == "";
      assert ["WE"] + [] == ["WE"];
      assert Decode("W") == Some(["WE"]);
      assert ["MO"] + ["WE"] == ["MO", "WE"];
    } else if i == 8 {
      assert "MWF"[1..] == "WF" && "WF"[1..] == "F" && "F"[1..] == "";
      assert ["FR"] + [] == ["FR"] && ["WE"] + ["FR"] == ["WE", "FR"];
      assert ["MO"] + ["WE", "FR"] == ["MO", "WE", "FR"];
      assert Decode("F") == Some(["FR"]);
      assert Decode("WF") == Some(["WE", "FR"]);
    } else if i == 9 {
      assert "TUTH"[2..] == "TH" && "TH"[2..] == "";
      assert ["TH"] + [] == ["TH"] && ["TU"] + ["TH"] == ["TU", "TH"];
      assert Decode("TH") == Some(["TH"]);
    }
  }

  lemma DecodeKey(key: string)
    requires DayMapping(key).Some?
    ensures Decode(key) == None || Decode(key) == DayMapping(key)
  {
    DecodeTable();
    DayMappingMeaning(key);
  }

  /** Upper-casing, dropping commas and splitting the displayed text gives
      the upper-cased abbreviations. */
  lemma {:induction false} DisplayTokens(days: seq<string>)
    requires AllWeekdays(days)
    ensures RemoveCommas(Upper(DisplayDays(days))) == Join(ShownAll(days), " ")
  {
    if |days| == 1 {
      ShownDay(days[0]);
    } else if |days| > 1 {
      var tail := days[1..];
      assert AllWeekdays(tail) by {
        forall k | 0 <= k < |tail| ensures IsWeekday(tail[k]) { assert tail[k] == days[k + 1]; }
      }
      DisplayTokens(tail);
      assert Abbreviations(days)[1..] == Abbreviations(tail);
      assert ShownAll(days)[1..] == ShownAll(tail);
      var a := Abbreviation(days[0]);
      assert DisplayDays(days) == a + ", " + DisplayDays(tail);
      UpperAppend(a + ", ", DisplayDays(tail));
      UpperAppend(a, ", ");
      assert Upper(", ") == ", ";
      RemoveCommasAppend(Upper(a) + ", ", Upper(DisplayDays(tail)));
      RemoveCommasAppend(Upper(a), ", ");
      assert RemoveCommas(", ") == " ";
      ShownDay(days[0]);
    }
  }

  /** The shown abbreviations are tokens. */
  lemma {:induction false} ShownTokens(days: seq<string>)
    requires AllWeekdays(days)
    ensures AllTokens(ShownAll(days))
  {
    if days != [] {
      var tail := days[1..];
      assert AllWeekdays(tail) by {
        forall k | 0 <= k < |tail| ensures IsWeekday(tail[k]) { assert tail[k] == days[k + 1]; }
      }
      ShownTokens(tail);
      ShownToken(days[0]);
      var shown := ShownAll(days);
      assert shown == [Shown(days[0])] + ShownAll(tail);
      forall k | 0 <= k < |shown| ensures IsToken(shown[k]) {
        if k > 0 {
          assert shown[k] == ShownAll(tail)[k - 1];
        }
      }
    }
  }

  /** The shown abbreviations are their own keys. */
  lemma {:induction false} KeysShown(days: seq<string>)
    requires AllWeekdays(days)
    ensures Keys(ShownAll(days)) == ShownAll(days)
  {
    if days != [] {
      var tail := days[1..];
      assert AllWeekdays(tail) by {
        forall k | 0 <= k < |tail| ensures IsWeekday(tail[k]) { assert tail[k] == days[k + 1]; }
      }
      KeysShown(tail);
      ShownDay(days[0]);
      var shown := ShownAll(days);
      assert shown == [Shown(days[0])] + ShownAll(tail);
      assert shown[1..] == ShownAll(tail);
    }
  }

  /** The key-by-key lookup reads each abbreviation back. */
  lemma {:induction false} GatherShown(days: seq<string>)
    requires AllWeekdays(days)
    ensures Gather(KeyDays, ShownAll(days)) == days
  {
    if days != [] {
      var tail := days[1..];
      assert AllWeekdays(tail) by {
        forall k | 0 <= k < |tail| ensures IsWeekday(tail[k]) { assert tail[k] == days[k + 1]; }
      }
      GatherShown(tail);
      ShownDay(days[0]);
      var shown := ShownAll(days);
      assert shown == [Shown(days[0])] + ShownAll(tail);
      assert shown[1..] == ShownAll(tail);
      assert days == [days[0]] + tail;
    }
  }

  /** The display round trip: normalizing the displayed days gives the days
      back, for every list of weekday codes (the only lists the normalizer
      produces). */
  lemma DisplayRoundTrip(days: seq<string>)
    requires AllWeekdays(days)
    ensures NormalizeDays(DisplayDays(days)) == days
  {
    var shown := ShownAll(days);
    DisplayTokens(days);
    ShownTokens(days);
    SplitJoin(shown);
    assert DayTokens(DisplayDays(days)) == shown;
    var key := Concat(shown);
    DecodeShown(days);
    if DayMapping(key).Some? {
      DecodeKey(key);
    } else {
      KeysShown(days);
      GatherShown(days);
    }
  }

  /** Showing the normalized days and normalizing again changes nothing. */
  lemma RedisplayStable(daysStr: string)
    ensures NormalizeDays(DisplayDays(NormalizeDays(daysStr))) == NormalizeDays(daysStr)
  {
    NormalizeDaysCanonical(daysStr);
    DisplayRoundTrip(NormalizeDays(daysStr));
  }
}
