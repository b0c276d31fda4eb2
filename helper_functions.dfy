/**
 * utility/helperFunctions.ts: the word-initials helper, the reading of the
 * stored en-US expiration string back into Date constructor arguments and
 * an epoch instant, and the arithmetic that computes a new expiration.
 */
module HelperFunctions {
  import opened Wrappers
  import opened SecureStore

  // ---------------------------------------------------------------------
  // getFirstLettersOfWords
  // ---------------------------------------------------------------------

  /** `s.split(" ")`: the segments between single spaces, empty ones included. */
  function Split(s: string): (words: seq<string>)
    ensures |words| >= 1
    ensures forall w :: w in words ==> ' ' !in w
  {
    if s == [] then [""]
    else if s[0] == ' ' then [""] + Split(s[1..])
    else
      var rest := Split(s[1..]);
      [[s[0]] + rest[0]] + rest[1..]
  }

  /** `words.map(w => w.length > 0 ? w[0] : "").join("")`. */
  function FirstLetters(words: seq<string>): string
  {
    if words == [] then []
    else (if |words[0]| > 0 then [words[0][0]] else []) + FirstLetters(words[1..])
  }

  /**
   * Reference definition, independent of splitting: scanning left to right,
   * keep each non-space character that starts the string or follows a space
   * (`atStart` says whether the previous character was a space or absent).
   */
  function WordStarts(s: string, atStart: bool): (r: string)
    ensures |r| <= |s|
    ensures forall c :: c in r ==> c in s && c != ' '
  {
    if s == [] then []
    else if s[0] == ' ' then WordStarts(s[1..], true)
    else (if atStart then [s[0]] else []) + WordStarts(s[1..], false)
  }

  /** The split-and-join computation equals the scan; the tail of the split is the scan started mid-word. */
  lemma {:induction false} FirstLettersAreWordStarts(s: string)
    ensures FirstLetters(Split(s)) == WordStarts(s, true)
    ensures FirstLetters(Split(s)[1..]) == WordStarts(s, false)
  {
    if s == [] {
    } else if s[0] == ' ' {
      FirstLettersAreWordStarts(s[1..]);
      assert Split(s)[1..] == Split(s[1..]);
    } else {
      FirstLettersAreWordStarts(s[1..]);
      var rest := Split(s[1..]);
      assert Split(s) == [[s[0]] + rest[0]] + rest[1..];
      assert Split(s)[1..] == rest[1..];
    }
  }

  /**
   * getFirstLettersOfWords: one character per non-empty space-separated
   * segment, in order, never longer than the input and never a space.
   */
  function GetFirstLettersOfWords(inputString: string): (r: string)
    ensures r == WordStarts(inputString, true)
    ensures |r| <= |inputString|
    ensures forall c :: c in r ==> c in inputString && c != ' '
  {
    FirstLettersAreWordStarts(inputString);
    FirstLetters(Split(inputString))
  }

  /** A leading space only adds an empty segment, which contributes nothing. */
  lemma LeadingSpaceContributesNothing(s: string)
    ensures GetFirstLettersOfWords(" " + s) == GetFirstLettersOfWords(s)
  {
    assert (" " + s)[1..] == s;
  }

  /** Two spaces in a row contribute no more than one. */
  lemma {:induction false} DoubleSpaceContributesNothing(a: string, b: string)
    ensures GetFirstLettersOfWords(a + "  " + b) == GetFirstLettersOfWords(a + " " + b)
  {
    DoubleSpaceScan(a, b, true);
  }

  lemma {:induction false} DoubleSpaceScan(a: string, b: string, atStart: bool)
    ensures WordStarts(a + "  " + b, atStart) == WordStarts(a + " " + b, atStart)
  {
    if a == [] {
      assert (a + "  " + b)[1..] == " " + b;
      assert (a + " " + b)[1..] == b;
      assert (" " + b)[1..] == b;
    } else {
      assert (a + "  " + b)[1..] == a[1..] + "  " + b;
      assert (a + " " + b)[1..] == a[1..] + " " + b;
      DoubleSpaceScan(a[1..], b, true);
      DoubleSpaceScan(a[1..], b, false);
    }
  }

  // ---------------------------------------------------------------------
  // Decimal digits: what `\d+` matches and what parseInt(_, 10) reads
  // ---------------------------------------------------------------------

  predicate IsDigit(c: char)
  {
    '0' <= c <= '9'
  }

  predicate AllDigits(s: string)
  {
    forall i :: 0 <= i < |s| ==> IsDigit(s[i])
  }

  /** Length of the longest run of digits at the front of `s` (greedy `\d+`). */
  function DigitPrefix(s: string): (n: nat)
    ensures n <= |s|
    ensures AllDigits(s[..n])
    ensures n < |s| ==> !IsDigit(s[n])
  {
    if s == [] || !IsDigit(s[0]) then 0
    else
      var n := 1 + DigitPrefix(s[1..]);
      assert s[..n] == [s[0]] + s[1..][..n - 1];
      n
  }

  /** The value of one decimal digit character. */
  function DigitOf(c: char): (d: nat)
    ensures d < 10
  {
    if IsDigit(c) then c as int - '0' as int else 0
  }

  /** `parseInt(s, 10)` of a string of decimal digits. */
  function DigitValue(s: string): nat
  {
    if s == [] then 0
    else DigitValue(s[..|s| - 1]) * 10 + DigitOf(s[|s| - 1])
  }

  function Digit(d: nat): (c: char)
    requires d < 10
    ensures IsDigit(c) && DigitOf(c) == d
  {
    ('0' as int + d) as char
  }

  /** Decimal rendering without leading zeros (how en-US writes a number). */
  function DigitsOf(n: nat): (s: string)
    ensures |s| >= 1 && AllDigits(s)
    ensures DigitValue(s) == n
  {
    if n < 10 then [Digit(n)]
    else
      var s := DigitsOf(n / 10) + [Digit(n % 10)];
      assert s[..|s| - 1] == DigitsOf(n / 10);
      s
  }

  /** Two-digit rendering, zero-padded (en-US minutes and seconds). */
  function Pad2(n: nat): (s: string)
    requires n < 100
    ensures |s| == 2 && AllDigits(s)
    ensures DigitValue(s) == n
  {
    var s := [Digit(n / 10), Digit(n % 10)];
    assert s[..1] == [Digit(n / 10)];
    assert [Digit(n / 10)][..0] == [];
    assert DigitValue([Digit(n / 10)]) == n / 10;
    s
  }

  /** A run of digits followed by a non-digit is read up to that non-digit and no further. */
  lemma {:induction false} DigitPrefixOfConcat(d: string, r: string)
    requires AllDigits(d)
    requires r == [] || !IsDigit(r[0])
    ensures DigitPrefix(d + r) == |d|
  {
    if d != [] {
      assert (d + r)[1..] == d[1..] + r;
      DigitPrefixOfConcat(d[1..], r);
    }
  }

  /** `\d+` followed by the fixed character `sep`: the run and what follows the separator. */
  function ReadField(s: string, sep: char): Option<(string, string)>
  {
    var n := DigitPrefix(s);
    if n == 0 || n == |s| || s[n] != sep then None else Some((s[..n], s[n + 1..]))
  }

  /** A trailing `\d+`: the maximal run (possibly empty) and what follows it. */
  function ReadRun(s: string): (string, string)
  {
    var n := DigitPrefix(s);
    (s[..n], s[n..])
  }

  /** A non-empty digit run followed by the separator is read as that run. */
  lemma ReadFieldOf(d: string, sep: char, rest: string)
    requires AllDigits(d) && |d| > 0 && !IsDigit(sep)
    ensures ReadField(d + ([sep] + rest), sep) == Some((d, rest))
  {
    var s := d + ([sep] + rest);
    DigitPrefixOfConcat(d, [sep] + rest);
    assert s[..|d|] == d && s[|d|] == sep && s[|d| + 1..] == rest;
  }

  /** A digit run followed by a non-digit (or nothing) is read as that run. */
  lemma ReadRunOf(d: string, r: string)
    requires AllDigits(d)
    requires r == [] || !IsDigit(r[0])
    ensures ReadRun(d + r) == (d, r)
  {
    DigitPrefixOfConcat(d, r);
    assert (d + r)[..|d|] == d && (d + r)[|d|..] == r;
  }

  // ---------------------------------------------------------------------
  // The regular expression /(\d+)\/(\d+)\/(\d+)(?:, (\d+):(\d+):(\d+))?(?: (AM|PM))?/
  //
  // Every `\d+` is greedy and followed either by a fixed non-digit or by an
  // optional group that begins with a non-digit, and nothing after the last
  // group is required; so the first match the backtracking search finds takes
  // the maximal digit run everywhere and each optional group whenever it
  // matches. The functions below compute that match directly.
  // ---------------------------------------------------------------------

  datatype Period = AM | PM

  datatype TimeGroups = TimeGroups(hours: string, minutes: string, seconds: string)

  /** Capture groups 1 to 7 of a successful match (absent groups are None). */
  datatype Groups = Groups(
    month: string, day: string, year: string,
    time: Option<TimeGroups>, period: Option<Period>)

  /** The optional `(?: (AM|PM))?` at the front of `r`. */
  function MatchPeriod(r: string): Option<Period>
  {
    if |r| >= 3 && r[..3] == " AM" then Some(AM)
    else if |r| >= 3 && r[..3] == " PM" then Some(PM)
    else None
  }

  /** The optional `(?:, (\d+):(\d+):(\d+))?` at the front of `r`, with what follows it. */
  function MatchTime(r: string): (Option<TimeGroups>, string)
  {
    if |r| < 2 || r[..2] != ", " then (None, r)
    else match ReadField(r[2..], ':')
      case None => (None, r)
      case Some((h, b)) =>
        match ReadField(b, ':')
        case None => (None, r)
        case Some((m, c)) =>
          var (sec, rest) := ReadRun(c);
          if sec == [] then (None, r) else (Some(TimeGroups(h, m, sec)), rest)
  }

  /** The regular expression matched at the very front of `s`. */
  function MatchAt(s: string): Option<Groups>
  {
    match ReadField(s, '/')
    case None => None
    case Some((month, s2)) =>
      match ReadField(s2, '/')
      case None => None
      case Some((day, s3)) =>
        var (year, tail) := ReadRun(s3);
        if year == [] then None
        else
          var (time, rest) := MatchTime(tail);
          Some(Groups(month, day, year, time, MatchPeriod(rest)))
  }

  /** `s.match(re)` for the unanchored expression: the leftmost position that matches. */
  function FindMatch(s: string): Option<Groups>
    decreases |s|
  {
    var g := MatchAt(s);
    if g.Some? || s == [] then g else FindMatch(s[1..])
  }

  /** The arguments handed to `new Date(year, month - 1, day, hours, minutes, seconds)`. */
  datatype DateArgs = DateArgs(year: int, monthIndex: int, day: int, hours: int, minutes: int, seconds: int)

  /** `parseInt(group, 10) || 0`: an absent group reads as 0. */
  function GroupValue(g: Option<string>): nat
  {
    if g.Some? then DigitValue(g.value) else 0
  }

  /** The 12-hour conversion: PM adds 12 unless the hour is 12; AM is never adjusted. */
  function ConvertHours(hours: nat, period: Option<Period>): (h: nat)
    ensures period == Some(PM) && hours != 12 ==> h == hours + 12
    ensures period != Some(PM) || hours == 12 ==> h == hours
  {
    if period == Some(PM) && hours != 12 then hours + 12 else hours
  }

  /**
   * The parse performed by calculateExpirationTimeInMilliSeconds, up to the
   * Date constructor. None is the case where the expression does not match,
   * `parts` is null and reading `parts[1]` throws.
   */
  function ParseExpirationDate(expirationDate: string): (r: Option<DateArgs>)
    ensures r.Some? <==> FindMatch(expirationDate).Some?
  {
    match FindMatch(expirationDate)
    case None => None
    case Some(g) => Some(ArgsOfGroups(g))
  }

  /** The numbers read from the captured groups, hours already on the 24-hour clock. */
  function ArgsOfGroups(g: Groups): DateArgs
  {
    var t := g.time;
    var hours := GroupValue(if t.Some? then Some(t.value.hours) else None);
    var minutes := GroupValue(if t.Some? then Some(t.value.minutes) else None);
    var seconds := GroupValue(if t.Some? then Some(t.value.seconds) else None);
    DateArgs(DigitValue(g.year), DigitValue(g.month) - 1, DigitValue(g.day),
             ConvertHours(hours, g.period), minutes, seconds)
  }

  /** The text "M/D/Y" followed by `tail`, built from its digit runs. */
  function DateText(mos: string, ds: string, ys: string, tail: string): string
  {
    mos + ("/" + (ds + ("/" + (ys + tail))))
  }

  /** When the optional time group is absent, nothing of the text is consumed. */
  lemma MatchTimeAbsent(r: string)
    requires MatchTime(r).0.None?
    ensures MatchTime(r).1 == r
  {
  }

  /** A match at the front of the text is the leftmost one, and its groups are what is parsed. */
  lemma ParseOfFrontMatch(s: string, g: Groups)
    requires MatchAt(s) == Some(g)
    ensures ParseExpirationDate(s) == Some(ArgsOfGroups(g))
  {
    assert FindMatch(s) == Some(g);
  }

  /** Groups without a time: hours, minutes and seconds read as 0, then " PM" moves the hour to 12. */
  lemma ArgsWithoutTime(g: Groups)
    requires g.time.None?
    ensures ArgsOfGroups(g)
         == DateArgs(DigitValue(g.year), DigitValue(g.month) - 1, DigitValue(g.day),
                     if g.period == Some(PM) then 12 else 0, 0, 0)
  {
  }

  /** A front match without a time group is parsed as its date at 0:00:00, or 12:00:00 after " PM". */
  lemma ParseWithoutTime(s: string, g: Groups)
    requires MatchAt(s) == Some(g) && g.time.None?
    ensures ParseExpirationDate(s)
         == Some(DateArgs(DigitValue(g.year), DigitValue(g.month) - 1, DigitValue(g.day),
                          if g.period == Some(PM) then 12 else 0, 0, 0))
  {
    ParseOfFrontMatch(s, g);
    ArgsWithoutTime(g);
  }

  /** A date text whose tail holds no time group is matched at its front with no time. */
  lemma MatchAtDateOnly(mos: string, ds: string, ys: string, tail: string)
    requires AllDigits(mos) && AllDigits(ds) && AllDigits(ys)
    requires |mos| > 0 && |ds| > 0 && |ys| > 0
    requires tail == [] || !IsDigit(tail[0])
    requires MatchTime(tail).0.None?
    ensures MatchAt(DateText(mos, ds, ys, tail)) == Some(Groups(mos, ds, ys, None, MatchPeriod(tail)))
  {
    MatchTimeAbsent(tail);
    MatchAtOf(mos, ds, ys, tail);
  }

  /**
   * A date with no time-of-day group: month, day and year come from the
   * three leading runs, the month index is month - 1, and the absent time
   * reads as 0:00:00, except that a bare " PM" still moves the hour to 12.
   */
  lemma {:induction false} DateOnlyParse(mos: string, ds: string, ys: string, tail: string)
    requires AllDigits(mos) && AllDigits(ds) && AllDigits(ys)
    requires |mos| > 0 && |ds| > 0 && |ys| > 0
    requires tail == [] || !IsDigit(tail[0])
    requires MatchTime(tail).0.None?
    ensures ParseExpirationDate(DateText(mos, ds, ys, tail))
         == Some(DateArgs(DigitValue(ys), DigitValue(mos) - 1, DigitValue(ds),
                          if MatchPeriod(tail) == Some(PM) then 12 else 0, 0, 0))
  {
    var g := Groups(mos, ds, ys, None, MatchPeriod(tail));
    assert MatchAt(DateText(mos, ds, ys, tail)) == Some(g) by {
      MatchAtDateOnly(mos, ds, ys, tail);
    }
    ParseWithoutTime(DateText(mos, ds, ys, tail), g);
  }

  /** The digit runs of the examples below. */
  lemma ExampleRuns()
    ensures AllDigits("3") && AllDigits("4") && AllDigits("2025")
    ensures DigitValue("3") == 3 && DigitValue("4") == 4 && DigitValue("2025") == 2025
  {
    assert "3"[..0] == "" && "4"[..0] == "";
    assert "2025"[..3] == "202";
    assert "202"[..2] == "20";
    assert "20"[..1] == "2";
    assert "2"[..0] == "";
  }

  /** The texts of the examples below, as built from their runs. */
  lemma ExampleText()
    ensures DateText("3", "4", "2025", "") == "3/4/2025"
    ensures DateText("3", "4", "2025", " PM") == "3/4/2025 PM"
    ensures MatchTime(" PM").0.None? && MatchPeriod(" PM") == Some(PM)
  {
    assert " PM"[..2][0] == ' ';
    assert " PM"[..3] == " PM";
  }

  /** "3/4/2025" is 4 March 2025 at midnight. */
  lemma DateOnlyExample()
    ensures ParseExpirationDate("3/4/2025") == Some(DateArgs(2025, 2, 4, 0, 0, 0))
  {
    ExampleRuns();
    ExampleText();
    DateOnlyParse("3", "4", "2025", "");
  }

  /** "3/4/2025 PM" is the same day at noon: the bare period still adds twelve hours to the absent hour. */
  lemma BarePeriodExample()
    ensures ParseExpirationDate("3/4/2025 PM") == Some(DateArgs(2025, 2, 4, 12, 0, 0))
  {
    ExampleRuns();
    ExampleText();
    DateOnlyParse("3", "4", "2025", " PM");
  }

  // ---------------------------------------------------------------------
  // The Date constructor in local time (ECMAScript MakeDay / MakeTime /
  // MakeDate, then UTC(t)), for a device whose getTimezoneOffset() is the
  // fixed `tzOffsetMinutes` (UTC minus local time, in minutes).
  // ---------------------------------------------------------------------

  const MsPerSecond: int := 1000
  const MsPerMinute: int := 60000
  const MsPerHour: int := 3600000
  const MsPerDay: int := 86400000

  /** Two-digit years passed to the Date constructor are taken as 19xx. */
  function MakeFullYear(y: int): int
  {
    if 0 <= y <= 99 then 1900 + y else y
  }

  /** Days from 1970-01-01 to the proleptic Gregorian date y-m-d (1 <= m <= 12). */
  function DaysFromCivil(y: int, m: int, d: int): int
    requires 1 <= m <= 12
  {
    var y' := if m <= 2 then y - 1 else y;
    var era := y' / 400;
    var yoe := y' - era * 400;
    var doy := (153 * (if m > 2 then m - 3 else m + 9) + 2) / 5 + d - 1;
    var doe := yoe * 365 + yoe / 4 - yoe / 100 + doy;
    era * 146097 + doe - 719468
  }

  /** MakeDay: a month index outside 0..11 carries into the year; a day past the month's end runs on. */
  function MakeDay(year: int, monthIndex: int, date: int): int
  {
    var ym := year + monthIndex / 12;
    var mn := monthIndex % 12;
    DaysFromCivil(ym, mn + 1, 1) + date - 1
  }

  function MakeTime(hours: int, minutes: int, seconds: int): int
  {
    hours * MsPerHour + minutes * MsPerMinute + seconds * MsPerSecond
  }

  /** `new Date(year, monthIndex, day, hours, minutes, seconds).getTime()`. */
  function LocalMillis(a: DateArgs, tzOffsetMinutes: int): int
  {
    MakeDay(MakeFullYear(a.year), a.monthIndex, a.day) * MsPerDay
      + MakeTime(a.hours, a.minutes, a.seconds)
      + tzOffsetMinutes * MsPerMinute
  }

  /** The calendar is anchored where ECMAScript anchors it: 1 January 1970, 00:00 UTC, is instant 0. */
  lemma EpochOrigin()
    ensures LocalMillis(DateArgs(1970, 0, 1, 0, 0, 0), 0) == 0
    ensures LocalMillis(DateArgs(1970, 0, 2, 0, 0, 0), 0) == MsPerDay
  {
    assert DaysFromCivil(1970, 1, 1) == 0;
  }

  /** Moving `k` hours later on the same date moves the instant by `k` hours. */
  lemma LocalMillisHourShift(a: DateArgs, tzOffsetMinutes: int, k: int)
    ensures LocalMillis(a.(hours := a.hours + k), tzOffsetMinutes)
         == LocalMillis(a, tzOffsetMinutes) + k * MsPerHour
  {
  }

  /** The instant calculateExpirationTimeInMilliSeconds returns, or None where it throws. */
  function ExpirationMillis(expirationDate: string, tzOffsetMinutes: int): Option<int>
  {
    var parsed := ParseExpirationDate(expirationDate);
    if parsed.Some? then Some(LocalMillis(parsed.value, tzOffsetMinutes)) else None
  }

  /** The instant of a string that parses is the Date of its parsed arguments. */
  lemma ExpirationMillisOfParse(expirationDate: string, a: DateArgs, tzOffsetMinutes: int)
    requires ParseExpirationDate(expirationDate) == Some(a)
    ensures ExpirationMillis(expirationDate, tzOffsetMinutes) == Some(LocalMillis(a, tzOffsetMinutes))
  {
  }

  /**
   * calculateExpirationTimeInMilliSeconds, step by step: the groups, the
   * parsed numbers, the in-place 12-hour adjustment of `hours`, the Date.
   */
  method CalculateExpirationTimeInMilliSeconds(expirationDate: string, tzOffsetMinutes: int)
    returns (millis: Option<int>)
    ensures millis == ExpirationMillis(expirationDate, tzOffsetMinutes)
  {
    var parts := FindMatch(expirationDate);
    if parts.None? {
      // `parts![1]` on null: the call throws.
      return None;
    }
    var g := parts.value;
    var month: int := DigitValue(g.month);
    var day: int := DigitValue(g.day);
    var year: int := DigitValue(g.year);
    // `parseInt(parts[i], 10) || 0`: an absent time group reads as 0.
    var hours: nat := GroupValue(if g.time.Some? then Some(g.time.value.hours) else None);
    var minutes: nat := GroupValue(if g.time.Some? then Some(g.time.value.minutes) else None);
    var seconds: nat := GroupValue(if g.time.Some? then Some(g.time.value.seconds) else None);
    if g.period == Some(PM) && hours != 12 {
      hours := hours + 12;
    }
    var args := DateArgs(year, month - 1, day, hours, minutes, seconds);
    assert args == ArgsOfGroups(g);
    ExpirationMillisOfParse(expirationDate, args, tzOffsetMinutes);
    millis := Some(LocalMillis(args, tzOffsetMinutes));
  }

  /** What getExpirationDateTime yields for a store, as a function of the store. */
  function StoredExpirationMillis(store: Store, tzOffsetMinutes: int): Option<int>
  {
    var e := GetItem(store, ExpirationDateKey);
    if !Truthy(e) then Some(0) else ExpirationMillis(e.value, tzOffsetMinutes)
  }

  /**
   * getExpirationDateTime: 0 when no (or an empty) expirationDate is stored,
   * otherwise the parsed instant; None where the parse throws.
   */
  method GetExpirationDateTime(store: Store, tzOffsetMinutes: int) returns (r: Option<int>)
    ensures !Truthy(GetItem(store, ExpirationDateKey)) ==> r == Some(0)
    ensures Truthy(GetItem(store, ExpirationDateKey)) ==>
              r == ExpirationMillis(store[ExpirationDateKey], tzOffsetMinutes)
    ensures r == StoredExpirationMillis(store, tzOffsetMinutes)
  {
    var expirationDate := GetItem(store, ExpirationDateKey);
    if !Truthy(expirationDate) {
      return Some(0);
    }
    r := CalculateExpirationTimeInMilliSeconds(expirationDate.value, tzOffsetMinutes);
  }

  // ---------------------------------------------------------------------
  // The en-US rendering that convertUTCTime asks toLocaleString for,
  // "M/D/YYYY, h:mm:ss AM", and what the parser makes of it.
  // ---------------------------------------------------------------------

  /** A wall-clock date and time in the device's zone; month is 1..12. */
  datatype LocalDateTime = LocalDateTime(year: nat, month: nat, day: nat, hour: nat, minute: nat, second: nat)

  predicate ValidClock(t: LocalDateTime)
  {
    t.hour < 24 && t.minute < 60 && t.second < 60
  }

  /** The 12-hour clock face: 0 and 12 show as 12. */
  function Hour12(hour: nat): (h: nat)
    ensures 1 <= h <= 12
  {
    if hour % 12 == 0 then 12 else hour % 12
  }

  /** The suffix the twelve-hour clock writes after the seconds. */
  function PeriodText(period: Period): string
  {
    if period == AM then " AM" else " PM"
  }

  /** The en-US layout "M/D/YYYY, h:mm:ss AM" filled with the given digit runs. */
  function Layout(mos: string, ds: string, ys: string, hs: string, ms: string, ss: string, period: Period): string
  {
    mos + ("/" + (ds + ("/" + (ys + (", " + (hs + (":" + (ms + (":" + (ss + PeriodText(period)))))))))))
  }

  function RenderEnUS(t: LocalDateTime): string
    requires ValidClock(t)
  {
    Layout(DigitsOf(t.month), DigitsOf(t.day), DigitsOf(t.year),
           DigitsOf(Hour12(t.hour)), Pad2(t.minute), Pad2(t.second), if t.hour < 12 then AM else PM)
  }

  /** A time-of-day tail ", h:m:s" followed by a non-digit is read into its three groups. */
  lemma MatchTimeOf(hs: string, ms: string, ss: string, p: string)
    requires AllDigits(hs) && AllDigits(ms) && AllDigits(ss)
    requires |hs| > 0 && |ms| > 0 && |ss| > 0
    requires p == [] || !IsDigit(p[0])
    ensures MatchTime(", " + (hs + (":" + (ms + (":" + (ss + p)))))) == (Some(TimeGroups(hs, ms, ss)), p)
  {
    var c := ss + p;
    var b := ms + (":" + c);
    var a := hs + (":" + b);
    var r := ", " + a;
    assert r[..2] == ", " && r[2..] == a;
    ReadFieldOf(hs, ':', b);
    ReadFieldOf(ms, ':', c);
    ReadRunOf(ss, p);
  }

  /** Three slash-separated digit runs followed by a non-digit are read as month, day and year. */
  lemma MatchAtOf(mos: string, ds: string, ys: string, tail: string)
    requires AllDigits(mos) && AllDigits(ds) && AllDigits(ys)
    requires |mos| > 0 && |ds| > 0 && |ys| > 0
    requires tail == [] || !IsDigit(tail[0])
    ensures MatchAt(mos + ("/" + (ds + ("/" + (ys + tail)))))
         == Some(Groups(mos, ds, ys, MatchTime(tail).0, MatchPeriod(MatchTime(tail).1)))
  {
    ReadFieldOf(mos, '/', ds + ("/" + (ys + tail)));
    ReadFieldOf(ds, '/', ys + tail);
    ReadRunOf(ys, tail);
  }

  /** The two period suffixes read as themselves. */
  lemma PeriodRead(period: Period)
    ensures MatchPeriod(PeriodText(period)) == Some(period)
  {
    assert " AM"[..3] == " AM";
    assert " PM"[..3] == " PM";
    assert " PM"[1] != " AM"[1];
  }

  /** Writing an hour on the 12-hour face and converting it back loses only midnight. */
  lemma TwelveHourRoundTrip(hour: nat)
    requires hour < 24
    ensures ConvertHours(Hour12(hour), Some(if hour < 12 then AM else PM)) == if hour == 0 then 12 else hour
  {
    if hour < 12 {
      assert Hour12(hour) == if hour == 0 then 12 else hour;
    } else {
      assert Hour12(hour) == if hour == 12 then 12 else hour - 12;
    }
  }

  /** Any text of the rendered layout, built from digit runs, is matched at its front into those runs. */
  lemma FindMatchOfLayout(mos: string, ds: string, ys: string, hs: string, ms: string, ss: string, period: Period)
    requires AllDigits(mos) && AllDigits(ds) && AllDigits(ys) && AllDigits(hs) && AllDigits(ms) && AllDigits(ss)
    requires |mos| > 0 && |ds| > 0 && |ys| > 0 && |hs| > 0 && |ms| > 0 && |ss| > 0
    ensures FindMatch(Layout(mos, ds, ys, hs, ms, ss, period))
         == Some(Groups(mos, ds, ys, Some(TimeGroups(hs, ms, ss)), Some(period)))
  {
    var p := PeriodText(period);
    var tail := ", " + (hs + (":" + (ms + (":" + (ss + p)))));
    var s := mos + ("/" + (ds + ("/" + (ys + tail))));
    var g := Groups(mos, ds, ys, Some(TimeGroups(hs, ms, ss)), Some(period));
    assert Layout(mos, ds, ys, hs, ms, ss, period) == s;
    assert MatchTime(tail) == (Some(TimeGroups(hs, ms, ss)), p) by {
      MatchTimeOf(hs, ms, ss, p);
    }
    assert MatchPeriod(p) == Some(period) by {
      PeriodRead(period);
    }
    assert MatchAt(s) == Some(g) by {
      MatchAtOf(mos, ds, ys, tail);
    }
  }

  /**
   * Round trip: parsing a rendering gives back the year, the month index
   * (month - 1), the day, the minutes and the seconds, and the hour for
   * hours 1 to 23; midnight comes back as 12 because "12 ... AM" is never
   * adjusted.
   */
  lemma RenderParseRoundTrip(t: LocalDateTime)
    requires ValidClock(t)
    ensures ParseExpirationDate(RenderEnUS(t))
         == Some(DateArgs(t.year, t.month - 1, t.day, if t.hour == 0 then 12 else t.hour, t.minute, t.second))
  {
    var hs, ms, ss := DigitsOf(Hour12(t.hour)), Pad2(t.minute), Pad2(t.second);
    var period := if t.hour < 12 then AM else PM;
    var g := Groups(DigitsOf(t.month), DigitsOf(t.day), DigitsOf(t.year), Some(TimeGroups(hs, ms, ss)), Some(period));
    FindMatchOfLayout(DigitsOf(t.month), DigitsOf(t.day), DigitsOf(t.year), hs, ms, ss, period);
    assert FindMatch(RenderEnUS(t)) == Some(g);
    TwelveHourRoundTrip(t.hour);
  }

  /** For every hour but midnight the rendered hour is recovered exactly. */
  lemma RoundTripAwayFromMidnight(t: LocalDateTime)
    requires ValidClock(t) && 1 <= t.hour
    ensures ParseExpirationDate(RenderEnUS(t))
         == Some(DateArgs(t.year, t.month - 1, t.day, t.hour, t.minute, t.second))
  {
    RenderParseRoundTrip(t);
  }

  /** Text parsed with hour 12 in place of hour 0 yields an instant 12 hours after the true one. */
  lemma ReadAtNoon(text: string, midnight: DateArgs, tzOffsetMinutes: int)
    requires midnight.hours == 0 && ParseExpirationDate(text) == Some(midnight.(hours := 12))
    ensures ExpirationMillis(text, tzOffsetMinutes) == Some(LocalMillis(midnight, tzOffsetMinutes) + 12 * MsPerHour)
  {
    var noon := midnight.(hours := 12);
    ExpirationMillisOfParse(text, noon, tzOffsetMinutes);
    LocalMillisHourShift(midnight, tzOffsetMinutes, 12);
  }

  /**
   * A rendering of a time in the midnight hour is read back twelve hours
   * late: the instant the parser yields is the true one plus 12 hours.
   */
  lemma {:induction false} MidnightReadTwelveHoursLate(t: LocalDateTime, tzOffsetMinutes: int)
    requires ValidClock(t) && t.hour == 0
    ensures ExpirationMillis(RenderEnUS(t), tzOffsetMinutes)
         == Some(LocalMillis(DateArgs(t.year, t.month - 1, t.day, 0, t.minute, t.second), tzOffsetMinutes) + 12 * MsPerHour)
  {
    var midnight := DateArgs(t.year, t.month - 1, t.day, 0, t.minute, t.second);
    assert ParseExpirationDate(RenderEnUS(t)) == Some(midnight.(hours := 12)) by {
      RenderParseRoundTrip(t);
    }
    ReadAtNoon(RenderEnUS(t), midnight, tzOffsetMinutes);
  }

  // ---------------------------------------------------------------------
  // calculateExpirationTime
  // ---------------------------------------------------------------------

  /**
   * calculateExpirationTime: the instant `now` shifted by the device's
   * timezone offset (getTimezoneOffset() minutes) and then by the token's
   * lifetime in seconds; the ISO-8601 text toISOString makes of it is
   * represented by the instant itself.
   */
  function CalculateExpirationTime(now: int, tzOffsetMinutes: int, secondsUntilExpiry: int): int
  {
    var currentUtcTimestamp := now + tzOffsetMinutes * MsPerMinute;
    currentUtcTimestamp + secondsUntilExpiry * MsPerSecond
  }

  /** A longer lifetime never gives an earlier expiration; each second adds 1000 ms. */
  lemma ExpirationTimeMonotone(now: int, tzOffsetMinutes: int, s1: int, s2: int)
    requires s1 <= s2
    ensures CalculateExpirationTime(now, tzOffsetMinutes, s1) <= CalculateExpirationTime(now, tzOffsetMinutes, s2)
    ensures CalculateExpirationTime(now, tzOffsetMinutes, s2) - CalculateExpirationTime(now, tzOffsetMinutes, s1)
         == (s2 - s1) * MsPerSecond
  {
  }

  /** On a device at UTC the offset vanishes and the expiration is `now` plus the lifetime. */
  lemma ExpirationTimeAtUtc(now: int, secondsUntilExpiry: int)
    ensures CalculateExpirationTime(now, 0, secondsUntilExpiry) == now + secondsUntilExpiry * 1000
  {
  }
}
