/**
 * Python's `datetime.strptime(text, "%Y-%m-%d").date()`, the expiry check that
 * precedes a stream subscription.
 *
 * The format compiles to the regular expression
 *   (\d\d\d\d)-(1[0-2]|0[1-9]|[1-9])-(3[01]|[12]\d|0[1-9]|[1-9]| [1-9])
 * which must match a prefix of the text, tried alternative by alternative, and
 * then has to have consumed the whole text ("unconverted data remains"
 * otherwise). The calendar check of the date constructor follows.
 */
module IsoDate {
  import opened Wrappers

  datatype Date = Date(year: int, month: int, day: int)

  predicate IsLeapYear(y: int)
  {
    y % 4 == 0 && (y % 100 != 0 || y % 400 == 0)
  }

  function DaysInMonth(y: int, m: int): int
    requires 1 <= m <= 12
  {
    if m == 2 then (if IsLeapYear(y) then 29 else 28)
    else if m == 4 || m == 6 || m == 9 || m == 11 then 30
    else 31
  }

  /** The dates Python's `date` type can hold. */
  predicate ValidDate(d: Date)
  {
    1 <= d.year <= 9999 && 1 <= d.month <= 12 && 1 <= d.day <= DaysInMonth(d.year, d.month)
  }

  predicate IsDigit(c: char)
  {
    '0' <= c <= '9'
  }

  function DigitValue(c: char): int
  {
    c as int - '0' as int
  }

  /** The decimal digit for `n`. */
  function Digit(n: nat): (c: char)
    requires n < 10
    ensures IsDigit(c) && DigitValue(c) == n
  {
    ('0' as int + n) as char
  }

  /** `n` as two digits, with a leading zero below 10. */
  function Pad2(n: nat): (s: string)
    requires n < 100
    ensures |s| == 2
  {
    [Digit(n / 10), Digit(n % 10)]
  }

  /** `y` as four digits, with leading zeros. */
  function YearText(y: nat): (s: string)
    requires y <= 9999
    ensures |s| == 4
  {
    Pad2(y / 100) + Pad2(y % 100)
  }

  /** The texts `%m` reads as month `m`: two digits, or one digit below 10. */
  function MonthTexts(m: nat): set<string>
    requires m < 100
  {
    {Pad2(m)} + (if m < 10 then {[Digit(m)]} else {})
  }

  /** The texts `%d` reads as day `d`: two digits, or one digit or a space and one digit below 10. */
  function DayTexts(d: nat): set<string>
    requires d < 100
  {
    {Pad2(d)} + (if d < 10 then {[Digit(d)], [' ', Digit(d)]} else {})
  }

  /** `%Y`: exactly four digits, read as the year they spell. */
  function YearField(s: string): (r: Option<int>)
    ensures r.Some? ==> 0 <= r.value <= 9999 && s == YearText(r.value)
  {
    if |s| == 4 && IsDigit(s[0]) && IsDigit(s[1]) && IsDigit(s[2]) && IsDigit(s[3]) then
      var y := DigitValue(s[0]) * 1000 + DigitValue(s[1]) * 100 + DigitValue(s[2]) * 10 + DigitValue(s[3]);
      SpellsFourDigits(s, y);
      Some(y)
    else None
  }

  lemma SpellsFourDigits(s: string, y: int)
    requires |s| == 4 && IsDigit(s[0]) && IsDigit(s[1]) && IsDigit(s[2]) && IsDigit(s[3])
    requires y == DigitValue(s[0]) * 1000 + DigitValue(s[1]) * 100 + DigitValue(s[2]) * 10 + DigitValue(s[3])
    ensures 0 <= y <= 9999 && s == YearText(y)
  {
    var hi, lo := DigitValue(s[0]) * 10 + DigitValue(s[1]), DigitValue(s[2]) * 10 + DigitValue(s[3]);
    assert y == hi * 100 + lo;
    assert y / 100 == hi && y % 100 == lo;
    assert Pad2(hi) == [s[0], s[1]] && Pad2(lo) == [s[2], s[3]];
  }

  /** Every year Python can hold is read back from its four-digit form. */
  lemma YearFieldReads(y: nat)
    requires y <= 9999
    ensures YearField(YearText(y)) == Some(y)
  {
    var s := YearText(y);
    var hi, lo := y / 100, y % 100;
    assert s == [Digit(hi / 10), Digit(hi % 10), Digit(lo / 10), Digit(lo % 10)];
    assert y == (hi / 10) * 1000 + (hi % 10) * 100 + (lo / 10) * 10 + lo % 10;
  }

  /**
   * `%m` between the two dashes. The regular expression is followed by '-', so
   * exactly one of the alternatives `1[0-2]`, `0[1-9]`, `[1-9]` can match the
   * whole field.
   */
  function MonthField(s: string): (r: Option<int>)
    ensures r.Some? ==> 1 <= r.value <= 12 && s in MonthTexts(r.value)
  {
    if |s| == 2 && s[0] == '1' && '0' <= s[1] <= '2' then
      assert s == Pad2(10 + DigitValue(s[1]));
      Some(10 + DigitValue(s[1]))
    else if |s| == 2 && s[0] == '0' && '1' <= s[1] <= '9' then
      assert s == Pad2(DigitValue(s[1]));
      Some(DigitValue(s[1]))
    else if |s| == 1 && '1' <= s[0] <= '9' then
      assert s == [Digit(DigitValue(s[0]))];
      Some(DigitValue(s[0]))
    else None
  }

  /** Every month is read back from each of its texts. */
  lemma MonthFieldReads(m: nat, s: string)
    requires 1 <= m <= 12 && s in MonthTexts(m)
    ensures MonthField(s) == Some(m)
  {
  }

  /**
   * `%d` at the end of the text: the first alternative that matches wins, and
   * then the match has to reach the end of the text. So "35" fails: `[1-9]`
   * takes the "3" and the "5" is left over.
   */
  function DayField(s: string): (r: Option<int>)
    ensures r.Some? ==> 1 <= r.value <= 31 && s in DayTexts(r.value)
  {
    if |s| >= 2 && s[0] == '3' && '0' <= s[1] <= '1' then
      if |s| == 2 then
        assert s == Pad2(30 + DigitValue(s[1]));
        Some(30 + DigitValue(s[1]))
      else None
    else if |s| >= 2 && '1' <= s[0] <= '2' && IsDigit(s[1]) then
      if |s| == 2 then
        assert s == Pad2(DigitValue(s[0]) * 10 + DigitValue(s[1]));
        Some(DigitValue(s[0]) * 10 + DigitValue(s[1]))
      else None
    else if |s| >= 2 && s[0] == '0' && '1' <= s[1] <= '9' then
      if |s| == 2 then
        assert s == Pad2(DigitValue(s[1]));
        Some(DigitValue(s[1]))
      else None
    else if |s| >= 1 && '1' <= s[0] <= '9' then
      if |s| == 1 then
        assert s == [Digit(DigitValue(s[0]))];
        Some(DigitValue(s[0]))
      else None
    else if |s| >= 2 && s[0] == ' ' && '1' <= s[1] <= '9' then
      if |s| == 2 then
        assert s == [' ', Digit(DigitValue(s[1]))];
        Some(DigitValue(s[1]))
      else None
    else None
  }

  /** Every day number is read back from each of its texts. */
  lemma DayFieldReads(d: nat, s: string)
    requires 1 <= d <= 31 && s in DayTexts(d)
    ensures DayField(s) == Some(d)
  {
  }

  /** Index of the first '-' in `s`, or |s| when there is none. */
  function FirstDash(s: string): (i: nat)
    ensures i <= |s|
    ensures i < |s| ==> s[i] == '-'
    ensures forall j :: 0 <= j < i ==> s[j] != '-'
  {
    if s == [] then 0 else if s[0] == '-' then 0 else 1 + FirstDash(s[1..])
  }

  lemma FirstDashIs(s: string, i: nat)
    requires i < |s| && s[i] == '-'
    requires forall j :: 0 <= j < i ==> s[j] != '-'
    ensures FirstDash(s) == i
  {
    var k := FirstDash(s);
    assert !(k < i) && !(i < k);
  }

  /**
   * `text` spells `d` the way `%Y-%m-%d` reads it: the four-digit year, a
   * dash, one of the month's texts, a dash, one of the day's texts.
   */
  predicate Spells(text: string, d: Date)
    requires ValidDate(d)
  {
    && |text| > 5 && text[..4] == YearText(d.year) && text[4] == '-'
    && exists k :: 5 <= k < |text| && text[k] == '-' && text[5..k] in MonthTexts(d.month) && text[k + 1..] in DayTexts(d.day)
  }

  /** `datetime.strptime(text, "%Y-%m-%d").date()`; None where it raises ValueError. */
  function ParseYmd(text: string): (r: Option<Date>)
    ensures r.Some? ==> ValidDate(r.value) && Spells(text, r.value)
  {
    if |text| < 5 || text[4] != '-' then None
    else
      var rest := text[5..];
      var k := FirstDash(rest);
      if k == |rest| then None
      else
        match (YearField(text[..4]), MonthField(rest[..k]), DayField(rest[k + 1..]))
        case (Some(y), Some(m), Some(d)) =>
          if ValidDate(Date(y, m, d)) then
            assert text[5..5 + k] == rest[..k] && text[5 + k] == '-' && text[5 + k + 1..] == rest[k + 1..];
            Some(Date(y, m, d))
          else None
        case _ => None
  }

  /** Conversely, every text that spells a valid date parses to it. */
  lemma SpelledDateParses(text: string, d: Date)
    requires ValidDate(d) && Spells(text, d)
    ensures ParseYmd(text) == Some(d)
  {
    var k :| 5 <= k < |text| && text[k] == '-' && text[5..k] in MonthTexts(d.month) && text[k + 1..] in DayTexts(d.day);
    var rest := text[5..];
    var month := text[5..k];
    assert forall j :: 0 <= j < |month| ==> month[j] != '-' by {
      assert month == Pad2(d.month) || month == [Digit(d.month)];
    }
    FirstDashIs(rest, k - 5);
    assert rest[..k - 5] == month && rest[k - 5 + 1..] == text[k + 1..];
    YearFieldReads(d.year);
    MonthFieldReads(d.month, month);
    DayFieldReads(d.day, text[k + 1..]);
  }

  /** `date.isoformat()`: zero-padded YYYY-MM-DD. */
  function FormatYmd(d: Date): (s: string)
    requires ValidDate(d)
    ensures |s| == 10 && s[4] == '-' && s[7] == '-'
    ensures Spells(s, d)
  {
    var s := YearText(d.year) + "-" + Pad2(d.month) + "-" + Pad2(d.day);
    assert s[..4] == YearText(d.year) && s[5..7] == Pad2(d.month) && s[8..] == Pad2(d.day);
    s
  }

  /** Every date prints in a form that parses back to that date. */
  lemma FormatThenParse(d: Date)
    requires ValidDate(d)
    ensures ParseYmd(FormatYmd(d)) == Some(d)
  {
    SpelledDateParses(FormatYmd(d), d);
  }
}
