/**
  Dates as text in backend/app/jobs/telegram_bot.py: the printer of a period's
  range, and the parser of a range a user types.
 */
module DateText {
  import opened Wrappers
  import opened Calendar

  // ---------------------------------------------------------------------------
  // Digits
  // ---------------------------------------------------------------------------

  predicate IsDigit(c: char) {
    '0' <= c <= '9'
  }

  function DigitValue(c: char): int
    requires IsDigit(c)
  {
    c as int - '0' as int
  }

  function DigitChar(d: int): (c: char)
    requires 0 <= d <= 9
    ensures IsDigit(c) && DigitValue(c) == d
  {
    ('0' as int + d) as char
  }

  predicate AllDigits(s: string) {
    forall i :: 0 <= i < |s| ==> IsDigit(s[i])
  }

  predicate NoDigits(s: string) {
    forall i :: 0 <= i < |s| ==> !IsDigit(s[i])
  }

  /** `int` of a string of digits. */
  function Number(s: string): (n: int)
    requires AllDigits(s)
    ensures n >= 0
  {
    if s == "" then 0 else 10 * Number(s[..|s| - 1]) + DigitValue(s[|s| - 1])
  }

  /** `%02d` */
  function TwoDigits(n: int): (s: string)
    requires 0 <= n <= 99
    ensures |s| == 2 && AllDigits(s)
  {
    [DigitChar(n / 10), DigitChar(n % 10)]
  }

  function FourDigits(n: int): (s: string)
    requires 0 <= n <= 9999
    ensures |s| == 4 && AllDigits(s)
  {
    TwoDigits(n / 100) + TwoDigits(n % 100)
  }

  /** The number without leading zeros. */
  function Decimal(n: int): (s: string)
    requires 0 <= n
    ensures |s| >= 1 && AllDigits(s)
  {
    if n < 10 then [DigitChar(n)] else Decimal(n / 10) + [DigitChar(n % 10)]
  }

  lemma {:induction false} NumberAppend(s: string, d: int)
    requires AllDigits(s) && 0 <= d <= 9
    ensures Number(s + [DigitChar(d)]) == 10 * Number(s) + d
  {
    var longer := s + [DigitChar(d)];
    assert longer[..|longer| - 1] == s;
  }

  lemma TwoDigitsNumber(n: int)
    requires 0 <= n <= 99
    ensures Number(TwoDigits(n)) == n
  {
    NumberAppend("", n / 10);
    NumberAppend([DigitChar(n / 10)], n % 10);
    assert "" + [DigitChar(n / 10)] == [DigitChar(n / 10)];
    assert [DigitChar(n / 10)] + [DigitChar(n % 10)] == TwoDigits(n);
  }

  lemma FourDigitsNumber(n: int)
    requires 0 <= n <= 9999
    ensures Number(FourDigits(n)) == n
  {
    var high, low := TwoDigits(n / 100), n % 100;
    TwoDigitsNumber(n / 100);
    NumberAppend(high, low / 10);
    NumberAppend(high + [DigitChar(low / 10)], low % 10);
    assert FourDigits(n) == high + [DigitChar(low / 10)] + [DigitChar(low % 10)];
  }

  lemma {:induction false} DecimalNumber(n: int)
    requires 0 <= n
    ensures Number(Decimal(n)) == n
  {
    if n < 10 {
      NumberAppend("", n);
      assert "" + [DigitChar(n)] == [DigitChar(n)];
    } else {
      DecimalNumber(n / 10);
      NumberAppend(Decimal(n / 10), n % 10);
    }
  }

  lemma DecimalLength(n: int)
    requires 0 <= n <= 9999
    ensures |Decimal(n)| <= 4
  {
    if n >= 10 {
      var tens := n / 10;
      if tens >= 10 {
        var hundreds := tens / 10;
        if hundreds >= 10 {
          assert |Decimal(hundreds / 10)| == 1;
        }
        assert |Decimal(hundreds)| <= 2;
      }
      assert |Decimal(tens)| <= 3;
    }
  }

  // ---------------------------------------------------------------------------
  // Printing
  // ---------------------------------------------------------------------------

  /** `%d/%m/%Y`; whether `%Y` pads years below 1000 differs between platforms. */
  function DayText(date: Date, padded: bool): string
    requires Valid(date) && InRange(date)
  {
    TwoDigits(date.day) + "/" + TwoDigits(date.month) + "/" + YearText(date.year, padded)
  }

  function YearText(year: int, padded: bool): (s: string)
    requires MIN_YEAR <= year <= MAX_YEAR
    ensures AllDigits(s)
  {
    if padded then FourDigits(year) else Decimal(year)
  }

  const DASH := " \U{2013} "

  /** `period_range_text` */
  function PeriodRangeText(window: Option<Window>, padded: bool): (text: Result<string, Overflow>)
    requires window.Some? ==> ValidInstant(window.value.start) && ValidInstant(window.value.end)
  {
    match window
    case None => Ok("All recorded data")
    case Some(w) =>
      match Shift(w.end, -1)
      case Err(e) => Err(e)
      case Ok(last) => Ok(DayText(w.start.date, padded) + DASH + DayText(last.date, padded))
  }

  // ---------------------------------------------------------------------------
  // The date token
  // ---------------------------------------------------------------------------

  predicate IsSeparator(c: char) {
    c == '/' || c == '-' || c == '.'
  }

  /** The three captured groups of a date token. */
  datatype Groups = Groups(first: string, second: string, third: string)

  predicate Captured(groups: Groups) {
    && 1 <= |groups.first| <= 4 && AllDigits(groups.first)
    && 1 <= |groups.second| <= 2 && AllDigits(groups.second)
    && 1 <= |groups.third| <= 4 && AllDigits(groups.third)
  }

  /** The pattern reads `s` from its start, capturing `groups`. */
  ghost predicate Reads(s: string, groups: Groups) {
    && Captured(groups)
    && exists c, d ::
         && IsSeparator(c) && IsSeparator(d)
         && groups.first + [c] + groups.second + [d] + groups.third <= s
  }

  function DigitRun(s: string): (n: nat)
    ensures n <= |s| && AllDigits(s[..n])
    ensures n < |s| ==> !IsDigit(s[n])
  {
    if s == "" || !IsDigit(s[0]) then 0
    else
      var n := DigitRun(s[1..]);
      assert forall i :: 0 <= i < n ==> s[1..][..n][i] == s[i + 1];
      1 + n
  }

  /** One to `most` digits and a separator at the start of `s`: the digits, and the text behind. */
  function Leading(s: string, most: nat): (split: Option<(string, string)>)
    ensures split.Some? ==>
              && var (digits, rest) := split.value;
              && 1 <= |digits| <= most && AllDigits(digits)
              && |s| == |digits| + 1 + |rest|
  {
    var n := DigitRun(s);
    if 1 <= n <= most && n < |s| && IsSeparator(s[n]) then Some((s[..n], s[n + 1..])) else None
  }

  /** The match of the pattern at the start of `s`, as the greedy search finds it. */
  function MatchPrefix(s: string): (found: Option<Groups>)
    ensures found.Some? ==> Captured(found.value) && Span(found.value) <= |s|
  {
    match Leading(s, 4)
    case None => None
    case Some((first, afterFirst)) =>
      match Leading(afterFirst, 2)
      case None => None
      case Some((second, afterSecond)) =>
        var n := Min(DigitRun(afterSecond), 4);
        if n == 0 then None
        else
          assert forall i :: 0 <= i < n ==> afterSecond[..n][i] == afterSecond[..DigitRun(afterSecond)][i];
          Some(Groups(first, second, afterSecond[..n]))
  }

  function Span(groups: Groups): nat {
    |groups.first| + |groups.second| + |groups.third| + 2
  }

  /** `findall`: the matches from left to right, none overlapping the one before. */
  function FindAll(s: string): (found: seq<Groups>)
    ensures forall i :: 0 <= i < |found| ==> Captured(found[i])
    decreases |s|
  {
    if s == "" then []
    else
      match MatchPrefix(s)
      case Some(groups) => [groups] + FindAll(s[Span(groups)..])
      case None => FindAll(s[1..])
  }

  /** `_parse_date_token`; no value stands for the raised error. */
  function DateOf(groups: Groups): (date: Option<Date>)
    requires Captured(groups)
    ensures date.Some? ==> Valid(date.value) && InRange(date.value)
  {
    var first, second, third := Number(groups.first), Number(groups.second), Number(groups.third);
    var date := if |groups.first| == 4 then Date(first, second, third) else Date(third, second, first);
    if InRange(date) && Valid(date) then Some(date) else None
  }

  lemma {:induction false} RunOf(digits: string, rest: string)
    requires AllDigits(digits)
    requires rest != "" ==> !IsDigit(rest[0])
    ensures DigitRun(digits + rest) == |digits|
    decreases |digits|
  {
    if digits == "" {
      assert digits + rest == rest;
    } else {
      assert (digits + rest)[1..] == digits[1..] + rest;
      RunOf(digits[1..], rest);
    }
  }

  /**
    The search finds a match exactly when the pattern can read the text, and it
    finds the reading a backtracking engine prefers: the first two groups admit
    no other choice, and the third is as long as it can be.
   */
  lemma MatchPrefixPrefers(s: string, groups: Groups)
    ensures MatchPrefix(s).Some? ==> Reads(s, MatchPrefix(s).value)
    ensures Reads(s, groups) ==>
              && MatchPrefix(s).Some?
              && var found := MatchPrefix(s).value;
              && groups.first == found.first && groups.second == found.second && groups.third <= found.third
  {
    if MatchPrefix(s).Some? {
      MatchPrefixReads(s);
    }
    if Reads(s, groups) {
      var c, d :| IsSeparator(c) && IsSeparator(d) &&
                  groups.first + [c] + groups.second + [d] + groups.third <= s;
      var rest := s[Span(groups)..];
      assert s == groups.first + [c] + groups.second + [d] + groups.third + rest;
      MatchReading(groups, c, d, rest);
    }
  }

  lemma LeadingSplits(s: string, most: nat)
    requires Leading(s, most).Some?
    ensures var (digits, rest) := Leading(s, most).value;
            exists c :: IsSeparator(c) && s == digits + [c] + rest
  {
    var n := DigitRun(s);
    assert s == s[..n] + [s[n]] + s[n + 1..];
  }

  lemma MatchPrefixReads(s: string)
    requires MatchPrefix(s).Some?
    ensures Reads(s, MatchPrefix(s).value)
  {
    hide DigitRun, Leading;
    var groups := MatchPrefix(s).value;
    var (first, afterFirst) := Leading(s, 4).value;
    var (second, afterSecond) := Leading(afterFirst, 2).value;
    LeadingSplits(s, 4);
    LeadingSplits(afterFirst, 2);
    var c :| IsSeparator(c) && s == first + [c] + afterFirst;
    var d :| IsSeparator(d) && afterFirst == second + [d] + afterSecond;
    var tail := afterSecond[|groups.third|..];
    assert afterSecond == groups.third + tail;
    Regroup(groups, c, d, tail);
  }

  lemma Regroup(groups: Groups, c: char, d: char, tail: string)
    ensures groups.first + [c] + (groups.second + [d] + (groups.third + tail))
         == groups.first + [c] + groups.second + [d] + groups.third + tail
  {
  }

  lemma LeadingOf(digits: string, c: char, rest: string, most: nat)
    requires AllDigits(digits) && IsSeparator(c) && 1 <= |digits| <= most
    ensures Leading(digits + [c] + rest, most) == Some((digits, rest))
  {
    var s := digits + [c] + rest;
    assert s == digits + ([c] + rest);
    RunOf(digits, [c] + rest);
    assert s[..|digits|] == digits && s[|digits| + 1..] == rest;
  }

  /** The shape of the search on a text that starts with a reading. */
  lemma MatchReading(groups: Groups, c: char, d: char, rest: string)
    requires Captured(groups) && IsSeparator(c) && IsSeparator(d)
    ensures
      var s := groups.first + [c] + groups.second + [d] + groups.third + rest;
      var third := (groups.third + rest)[..Min(DigitRun(groups.third + rest), 4)];
      && MatchPrefix(s) == Some(Groups(groups.first, groups.second, third))
      && groups.third <= third
  {
    var afterSecond := groups.third + rest;
    var afterFirst := groups.second + [d] + afterSecond;
    Regroup(groups, c, d, rest);
    LeadingOf(groups.first, c, afterFirst, 4);
    LeadingOf(groups.second, d, afterSecond, 2);
    RunAtLeast(groups.third, rest);
  }

  lemma {:induction false} RunAtLeast(digits: string, rest: string)
    requires AllDigits(digits)
    ensures DigitRun(digits + rest) >= |digits|
    decreases |digits|
  {
    if digits != "" {
      assert (digits + rest)[1..] == digits[1..] + rest;
      RunAtLeast(digits[1..], rest);
    }
  }

  /** A complete token followed by a non-digit is found, and the search goes on behind it. */
  lemma FindToken(groups: Groups, c: char, d: char, rest: string)
    requires Captured(groups) && IsSeparator(c) && IsSeparator(d)
    requires rest != "" ==> !IsDigit(rest[0])
    ensures FindAll(groups.first + [c] + groups.second + [d] + groups.third + rest) == [groups] + FindAll(rest)
  {
    var s := groups.first + [c] + groups.second + [d] + groups.third + rest;
    MatchReading(groups, c, d, rest);
    RunOf(groups.third, rest);
    assert (groups.third + rest)[..|groups.third|] == groups.third;
    assert s[Span(groups)..] == rest;
  }

  lemma {:induction false} SkipGap(gap: string, rest: string)
    requires NoDigits(gap)
    ensures FindAll(gap + rest) == FindAll(rest)
    decreases |gap|
  {
    if gap == "" {
      assert gap + rest == rest;
    } else {
      assert (gap + rest)[1..] == gap[1..] + rest;
      SkipGap(gap[1..], rest);
    }
  }

  // ---------------------------------------------------------------------------
  // Ranges
  // ---------------------------------------------------------------------------

  /** The window from the earlier of two dates to the midnight after the later one. */
  function Spanning(a: Date, b: Date): (window: Result<Window, Overflow>)
    requires Valid(a) && Valid(b)
  {
    var start, last := if Before(b, a) then b else a, if Before(a, b) then b else a;
    match Shift(Instant(last, 0), 1)
    case Err(e) => Err(e)
    case Ok(end) => Ok(Window(Instant(start, 0), end))
  }

  function ParsedRange(raw: string): (range: Result<Option<Window>, Overflow>) {
    var matches := FindAll(raw);
    if |matches| < 2 then Ok(None)
    else
      match (DateOf(matches[0]), DateOf(matches[1]))
      case (Some(a), Some(b)) =>
        (match Spanning(a, b)
         case Err(e) => Err(e)
         case Ok(window) => Ok(Some(window)))
      case _ => Ok(None)
  }

  /** `parse_date_range` */
  method ParseDateRange(raw: string) returns (range: Result<Option<Window>, Overflow>)
    ensures range == ParsedRange(raw)
  {
    hide FindAll, DateOf, AddDays;
    var matches := FindAll(raw);
    if |matches| < 2 {
      return Ok(None);
    }
    var parsed: seq<Date> := [];
    for i := 0 to 2
      invariant |parsed| == i
      invariant forall j :: 0 <= j < i ==> DateOf(matches[j]) == Some(parsed[j])
    {
      var date := DateOf(matches[i]);
      if date.None? {
        return Ok(None);
      }
      parsed := parsed + [date.value];
    }
    var start, last := parsed[0], parsed[0];
    if Before(parsed[1], start) {
      start := parsed[1];
    }
    if Before(last, parsed[1]) {
      last := parsed[1];
    }
    var end := Shift(Instant(last, 0), 1);
    match end {
      case Err(e) => range := Err(e);
      case Ok(bound) => range := Ok(Some(Window(Instant(start, 0), bound)));
    }
  }

  /** A typed date: its groups and the two separators between them. */
  datatype Token = Token(groups: Groups, c: char, d: char)

  predicate WellFormed(token: Token) {
    Captured(token.groups) && IsSeparator(token.c) && IsSeparator(token.d)
  }

  function TokenText(token: Token): string {
    token.groups.first + [token.c] + token.groups.second + [token.d] + token.groups.third
  }

  /** Text with two tokens in it yields exactly those two, whatever surrounds them. */
  lemma TwoTokens(before: string, a: Token, gap: string, b: Token, after: string)
    requires WellFormed(a) && WellFormed(b)
    requires NoDigits(before) && NoDigits(gap) && gap != ""
    requires after != "" ==> !IsDigit(after[0])
    ensures var found := FindAll(before + TokenText(a) + gap + TokenText(b) + after);
            |found| >= 2 && found[0] == a.groups && found[1] == b.groups
  {
    hide FindAll, TokenText;
    var fromB := TokenText(b) + after;
    var fromA := TokenText(a) + (gap + fromB);
    assert before + TokenText(a) + gap + TokenText(b) + after == before + fromA;
    SkipGap(before, fromA);
    TokenThen(a, gap + fromB);
    SkipGap(gap, fromB);
    TokenThen(b, after);
  }

  lemma TokenThen(token: Token, rest: string)
    requires WellFormed(token)
    requires rest != "" ==> !IsDigit(rest[0])
    ensures FindAll(TokenText(token) + rest) == [token.groups] + FindAll(rest)
  {
    hide FindAll;
    FindToken(token.groups, token.c, token.d, rest);
  }

  /** The order in which the two dates are typed does not matter, valid or not. */
  lemma OrderDoesNotMatter(before: string, a: Token, gap: string, b: Token, after: string)
    requires WellFormed(a) && WellFormed(b)
    requires NoDigits(before) && NoDigits(gap) && gap != ""
    requires after != "" ==> !IsDigit(after[0])
    ensures ParsedRange(before + TokenText(a) + gap + TokenText(b) + after)
         == ParsedRange(before + TokenText(b) + gap + TokenText(a) + after)
  {
    hide FindAll, TokenText;
    TwoTokens(before, a, gap, b, after);
    TwoTokens(before, b, gap, a, after);
    var first, second := DateOf(a.groups), DateOf(b.groups);
    if first.Some? && second.Some? {
      SpanningCommutes(first.value, second.value);
    }
  }

  lemma SpanningCommutes(a: Date, b: Date)
    requires Valid(a) && Valid(b)
    ensures Spanning(a, b) == Spanning(b, a)
  {
    if !Before(a, b) && !Before(b, a) {
      assert a == b;
    }
  }

  /** A parsed range is never empty: it starts at a midnight and ends at a later one. */
  lemma ParsedNotEmpty(raw: string)
    requires ParsedRange(raw).Ok? && ParsedRange(raw).value.Some?
    ensures
      var window := ParsedRange(raw).value.value;
      && ValidInstant(window.start) && ValidInstant(window.end)
      && window.start.micros == 0 && window.end.micros == 0
      && Timeline(window.start) < Timeline(window.end)
  {
    var a, b := DateOf(FindAll(raw)[0]).value, DateOf(FindAll(raw)[1]).value;
    var start, last := if Before(b, a) then b else a, if Before(a, b) then b else a;
    AddDaysOrdinal(last, 1);
    OrdinalMonotone(start, last);
  }

  // ---------------------------------------------------------------------------
  // Round trip
  // ---------------------------------------------------------------------------

  function Printed(date: Date, padded: bool): (token: Token)
    requires Valid(date) && InRange(date)
  {
    Token(Groups(TwoDigits(date.day), TwoDigits(date.month), YearText(date.year, padded)), '/', '/')
  }

  lemma PrintedDate(date: Date, padded: bool)
    requires Valid(date) && InRange(date)
    ensures WellFormed(Printed(date, padded))
    ensures TokenText(Printed(date, padded)) == DayText(date, padded)
    ensures DateOf(Printed(date, padded).groups) == Some(date)
  {
    hide TwoDigits, Number;
    TwoDigitsNumber(date.day);
    TwoDigitsNumber(date.month);
    YearTextNumber(date.year, padded);
    assert Captured(Printed(date, padded).groups);
  }

  lemma YearTextNumber(year: int, padded: bool)
    requires MIN_YEAR <= year <= MAX_YEAR
    ensures 1 <= |YearText(year, padded)| <= 4
    ensures Number(YearText(year, padded)) == year
  {
    hide TwoDigits, Number;
    if padded {
      FourDigitsNumber(year);
    } else {
      DecimalNumber(year);
      DecimalLength(year);
    }
  }

  lemma PrintedRange(start: Date, last: Date, padded: bool)
    requires Valid(start) && InRange(start) && Valid(last) && InRange(last)
    ensures ParsedRange(DayText(start, padded) + DASH + DayText(last, padded))
         == match Spanning(start, last) case Err(e) => Err(e) case Ok(window) => Ok(Some(window))
  {
    hide FindAll, TokenText, Printed, DayText, Spanning, DateOf;
    var a, b := Printed(start, padded), Printed(last, padded);
    PrintedDate(start, padded);
    PrintedDate(last, padded);
    TwoTokens("", a, DASH, b, "");
    assert DayText(start, padded) + DASH + DayText(last, padded)
        == "" + TokenText(a) + DASH + TokenText(b) + "";
  }

  /** Printing a range and parsing the text gives the range back, exactly when it is not empty. */
  lemma RoundTrip(start: Instant, end: Instant, padded: bool)
    requires ValidInstant(start) && ValidInstant(end) && start.micros == 0 && end.micros == 0
    requires PeriodRangeText(Some(Window(start, end)), padded).Ok?
    ensures ParsedRange(PeriodRangeText(Some(Window(start, end)), padded).value) == Ok(Some(Window(start, end)))
       <==> Timeline(start) < Timeline(end)
  {
    var last := AddDays(end.date, -1);
    PrintedRange(start.date, last, padded);
    AddDaysOrdinal(end.date, -1);
    AddDaysUnique(last, 1, end.date);
    OrdinalMonotone(start.date, last);
  }

  /** The ways to type a date: year first, in four digits, or day first; leading zeros are free elsewhere. */
  ghost predicate Writes(token: Token, date: Date) {
    && WellFormed(token) && Valid(date) && InRange(date)
    && var groups := token.groups;
    && groups.second in {TwoDigits(date.month), Decimal(date.month)}
    && (|| (groups.first == FourDigits(date.year) && groups.third in {TwoDigits(date.day), Decimal(date.day)})
        || (groups.first in {TwoDigits(date.day), Decimal(date.day)} && groups.third in {FourDigits(date.year), Decimal(date.year)}))
  }

  lemma ShortDecimal(n: int)
    requires 0 <= n <= 99
    ensures |Decimal(n)| <= 2
  {
    if n >= 10 {
      assert |Decimal(n / 10)| == 1;
    }
  }

  /** Either way the date is read as written. */
  lemma WrittenIsRead(token: Token, date: Date)
    requires Writes(token, date)
    ensures DateOf(token.groups) == Some(date)
  {
    hide TwoDigits, FourDigits, Decimal, Number;
    TwoDigitsNumber(date.day);
    TwoDigitsNumber(date.month);
    FourDigitsNumber(date.year);
    DecimalNumber(date.day);
    DecimalNumber(date.month);
    DecimalNumber(date.year);
    ShortDecimal(date.day);
  }

  /** From the midnight of the earlier date to the midnight after the later one; there is none after the last day of all. */
  ghost predicate Covers(range: Result<Option<Window>, Overflow>, from: Date, last: Date)
    requires Valid(from) && Valid(last)
  {
    var earlier, later := if Before(last, from) then last else from, if Before(from, last) then last else from;
    if later == Date(MAX_YEAR, 12, 31) then range.Err?
    else
      && range.Ok? && range.value.Some?
      && range.value.value.start == Instant(earlier, 0) && range.value.value.end.micros == 0
      && Valid(range.value.value.end.date) && Ordinal(range.value.value.end.date) == Ordinal(later) + 1
  }

  lemma SpanningCovers(from: Date, last: Date)
    requires Valid(from) && InRange(from) && Valid(last) && InRange(last)
    ensures Covers(match Spanning(from, last) case Err(e) => Err(e) case Ok(window) => Ok(Some(window)), from, last)
  {
    NextDayExactly(if Before(from, last) then last else from);
    hide AddDays, Ordinal;
  }

  lemma NextDayExactly(date: Date)
    requires Valid(date) && InRange(date)
    ensures InRange(AddDays(date, 1)) <==> date != Date(MAX_YEAR, 12, 31)
    ensures Ordinal(AddDays(date, 1)) == Ordinal(date) + 1
  {
    AddDaysOrdinal(date, 1);
  }

  /** Two typed dates, each in either form and in either order, give the days from the earlier to the later one. */
  lemma TypedRange(before: string, a: Token, gap: string, b: Token, after: string, from: Date, last: Date)
    requires Writes(a, from) && Writes(b, last)
    requires NoDigits(before) && NoDigits(gap) && gap != ""
    requires after != "" ==> !IsDigit(after[0])
    ensures Valid(from) && Valid(last)
    ensures Covers(ParsedRange(before + TokenText(a) + gap + TokenText(b) + after), from, last)
  {
    hide FindAll, TokenText, DateOf, Writes, Covers, Spanning;
    WrittenFits(a, from);
    WrittenFits(b, last);
    WrittenIsRead(a, from);
    WrittenIsRead(b, last);
    TwoTokens(before, a, gap, b, after);
    SpanningCovers(from, last);
  }

  lemma WrittenFits(token: Token, date: Date)
    requires Writes(token, date)
    ensures WellFormed(token) && Valid(date) && InRange(date)
  {
  }

  // ---------------------------------------------------------------------------
  // ISO format of a midnight
  // ---------------------------------------------------------------------------

  const MIDNIGHT_UTC := "T00:00:00+00:00"

  /** `isoformat` of a midnight in UTC. */
  function IsoFormat(date: Date): (s: string)
    requires Valid(date) && InRange(date)
    ensures |s| == 25
  {
    FourDigits(date.year) + "-" + TwoDigits(date.month) + "-" + TwoDigits(date.day) + MIDNIGHT_UTC
  }

  /** `fromisoformat` on the texts `isoformat` writes for midnights in UTC; all others are refused here. */
  function FromIsoFormat(s: string): (date: Option<Date>)
    ensures date.Some? ==> Valid(date.value) && InRange(date.value)
  {
    if |s| != 25 || s[4] != '-' || s[7] != '-' || s[10..] != MIDNIGHT_UTC then None
    else if !AllDigits(s[..4]) || !AllDigits(s[5..7]) || !AllDigits(s[8..10]) then None
    else
      var date := Date(Number(s[..4]), Number(s[5..7]), Number(s[8..10]));
      if InRange(date) && Valid(date) then Some(date) else None
  }

  lemma IsoRoundTrip(date: Date)
    requires Valid(date) && InRange(date)
    ensures FromIsoFormat(IsoFormat(date)) == Some(date)
    ensures '|' !in IsoFormat(date)
  {
    var s := IsoFormat(date);
    FourDigitsNumber(date.year);
    TwoDigitsNumber(date.month);
    TwoDigitsNumber(date.day);
    assert s[..4] == FourDigits(date.year);
    assert s[5..7] == TwoDigits(date.month);
    assert s[8..10] == TwoDigits(date.day);
    assert s[10..] == MIDNIGHT_UTC;
  }
}
