/**
 * Date handling of the activity-schedule import: relative offsets such as
 * "2nd week", moving an ISO date by whole days, local `yyyy-mm-dd` formatting
 * and the normaliser that turns a spreadsheet cell into a date.
 */
module ActivityDates {
  import opened Wrappers
  import opened Text
  import opened Calendar

  /** One spreadsheet cell as the sheet reader hands it over. */
  datatype Cell =
    | Blank                              // null or undefined
    | Str(text: string)
    | Num(value: real, shown: string)    // a number and its JavaScript `String()` form
    | Bool(flag: bool)

  /** `String(c ?? '')` */
  function CellText(c: Cell): string {
    match c
    case Blank => ""
    case Str(s) => s
    case Num(_, shown) => shown
    case Bool(b) => if b then "true" else "false"
  }

  // ---------------------------------------------------------------------------
  // Relative targets ("1st day", "3rd week", "2nd month", "10")

  predicate AllSpaces(s: string) {
    forall i :: 0 <= i < |s| ==> IsSpace(s[i])
  }

  /** `s` is white space followed by `word`, and nothing else. */
  predicate SpacesThen(s: string, word: string) {
    |word| <= |s| && s[|s| - |word|..] == word && AllSpaces(s[..|s| - |word|])
  }

  /** `rest` matches `(?:st|nd|rd|th)?\s*word$`. */
  predicate UnitTail(rest: string, word: string) {
    || SpacesThen(rest, word)
    || (|rest| >= 2 && rest[..2] in {"st", "nd", "rd", "th"} && SpacesThen(rest[2..], word))
  }

  /**
   * `t` matches `^(\d+)(?:st|nd|rd|th)?\s*word$`. The group `(\d+)` can only
   * be the whole run of leading digits, since nothing after it starts with a digit.
   */
  predicate UnitMatch(t: string, word: string) {
    var ds := LeadingDigits(t);
    ds != [] && UnitTail(t[|ds|..], word)
  }

  /** `parseInt(s, 10)`: leading white space, an optional sign, then the leading digits; `None` is NaN. */
  function ParseInt(s: string): Option<int> {
    ParseSigned(TrimStart(s))
  }

  function ParseSigned(u: string): Option<int> {
    if |u| > 0 && u[0] == '-' then
      (match DigitRun(u[1..]) case Some(n) => Some(-n) case None => None)
    else if |u| > 0 && u[0] == '+' then DigitRun(u[1..])
    else DigitRun(u)
  }

  /** The value of the leading digits, if there are any. */
  function DigitRun(b: string): Option<int> {
    var ds := LeadingDigits(b);
    if ds == [] then None else Some(DigitsValue(ds))
  }

  /** `parseTargetRelativeToDays`: the offset in days a target expression names, if any. */
  function RelativeDays(text: string): (r: Option<int>)
    ensures r.Some? ==> r.value >= 0
  {
    if text == "" then None else RelativeOfNormalised(Lower(Trim(text)))
  }

  /** The same, on text already trimmed and lower-cased. */
  function RelativeOfNormalised(t: string): (r: Option<int>)
    ensures r.Some? ==> r.value >= 0
  {
    var n := DigitsValue(LeadingDigits(t));
    if UnitMatch(t, "day") then Some(if n - 1 > 0 then n - 1 else 0)
    else if UnitMatch(t, "week") then Some(7 * n)
    else if UnitMatch(t, "month") then Some(30 * n)
    else
      match ParseInt(t)
      case Some(k) => if k >= 0 then Some(k) else None
      case None => None
  }

  // ---------------------------------------------------------------------------
  // Formatting and moving dates

  /** `toISODateLocal`: local year (unpadded), month and day padded to two digits. */
  function ToIsoDateLocal(d: JsDate): string {
    match d
    case Invalid => "NaN-NaN-NaN"
    case At(t) => IsoText(Fields(t))
  }

  /** The text `toISODateLocal` writes for the given local fields. */
  function IsoText(x: Ymd): string
    requires ValidYmd(x)
  {
    IntToDecimal(x.year) + "-" + PadStart2(NatToDecimal(x.month)) + "-" + PadStart2(NatToDecimal(x.day))
  }

  /**
   * `Number(piece)` for a piece of `split('-')`, `None` meaning NaN. Exact for
   * the pieces that reach it here: missing (undefined), blank, or decimal digits
   * (see `ParsedDateDashed`).
   */
  function NumberOf(piece: Option<string>): Option<int> {
    match piece
    case None => None
    case Some(s) =>
      if AllSpaces(s) then Some(0)
      else if AllDigits(s) then Some(DigitsValue(s))
      else None
  }

  function Piece(parts: seq<string>, i: nat): Option<string> {
    if i < |parts| then Some(parts[i]) else None
  }

  /** `addDays(isoDate, days)`: rebuild the date from its three pieces, move it, format it. */
  function AddDays(iso: string, days: int): string {
    ToIsoDateLocal(MoveDays(StartDate(iso), days))
  }

  /** `const [y, m, d] = iso.split('-').map(Number); new Date(y, m - 1, d)` */
  function StartDate(iso: string): JsDate {
    var parts := Split(iso, '-');
    var y, m, dd := NumberOf(Piece(parts, 0)), NumberOf(Piece(parts, 1)), NumberOf(Piece(parts, 2));
    if y.Some? && m.Some? && dd.Some? then NewDate(y.value, m.value - 1, dd.value) else Invalid
  }

  /** `d.setDate(d.getDate() + days)` */
  function MoveDays(d: JsDate, days: int): JsDate {
    match d
    case Invalid => Invalid
    case At(t) => SetDate(d, Fields(t).day + days)
  }

  // ---------------------------------------------------------------------------
  // The cell normaliser

  /** `^\d{4}-\d{2}-\d{2}$` */
  predicate IsIsoShape(s: string) {
    && |s| == 10 && s[4] == '-' && s[7] == '-'
    && forall i :: 0 <= i < 10 && i != 4 && i != 7 ==> IsDigit(s[i])
  }

  /** `s` is `a` digits, '-', `b` digits, '-', four digits. */
  predicate DmyAt(s: string, a: nat, b: nat) {
    && |s| == a + b + 6 && s[a] == '-' && s[a + 1 + b] == '-'
    && AllDigits(s[..a]) && AllDigits(s[a + 1..a + 1 + b]) && AllDigits(s[a + b + 2..])
  }

  function DmyValues(s: string, a: nat, b: nat): (int, int, int)
    requires DmyAt(s, a, b)
  {
    (DigitsValue(s[..a]), DigitsValue(s[a + 1..a + 1 + b]), DigitsValue(s[a + b + 2..]))
  }

  /** `^(\d{1,2})-(\d{1,2})-(\d{4})$`: day, month and year as written. */
  function MatchDmy(s: string): Option<(int, int, int)> {
    if DmyAt(s, 1, 1) then Some(DmyValues(s, 1, 1))
    else if DmyAt(s, 1, 2) then Some(DmyValues(s, 1, 2))
    else if DmyAt(s, 2, 1) then Some(DmyValues(s, 2, 1))
    else if DmyAt(s, 2, 2) then Some(DmyValues(s, 2, 2))
    else None
  }

  /** `new Date(year, month - 1, day)`, kept only if it is valid and has that day and month. */
  function DmyDate(day: int, month: int, year: int): (r: Option<JsDate>)
    ensures r.Some? ==> r.value.At?
  {
    KeepIfSame(NewDate(year, month - 1, day), day, month)
  }

  /** The strict check: a valid date whose day of month and month are the ones asked for. */
  function KeepIfSame(d: JsDate, day: int, month: int): (r: Option<JsDate>)
    ensures r.Some? ==> r.value.At?
  {
    match d
    case Invalid => None
    case At(t) => if Fields(t).day == day && Fields(t).month - 1 == month - 1 then Some(d) else None
  }

  /** The day-month-year branch: the date kept for text of the form d-m-yyyy, if any. */
  function DmyDateOf(u: string): (r: Option<JsDate>)
    ensures r.Some? ==> r.value.At?
  {
    match MatchDmy(u)
    case Some((day, month, year)) => DmyDate(day, month, year)
    case None => None
  }

  /** The year both the code and Excel count serial numbers from. */
  const EpochYear: int := 1900

  /**
   * The serial-number branch as written: `new Date(1900, 0, 1)` moved by
   * `setDate(getDate() + (serial - 1))`, which reads serial 1 as 1900-01-01
   * and counts on from there without Excel's 29 February 1900.
   */
  function SerialDateAsWritten(serial: int): JsDate {
    MoveDays(NewDate(EpochYear, 0, 1), serial - 1)
  }

  /**
   * The date Excel shows for a serial number. Excel counts 1900 as a leap
   * year, so serial 60 is a 29 February 1900 that does not exist and every
   * serial from 61 on is one day earlier than a plain count from 1900-01-01.
   */
  function ExcelSerialDate(serial: int): JsDate {
    Clip(MakeDay(EpochYear, 0, if serial >= 61 then serial - 1 else serial))
  }

  /** `new Date(text)` as far as the code uses it: valid dates are formatted, others dropped. */
  function NativeFallback(u: string, native: string -> Option<int>): Option<string> {
    match native(u)
    case None => None
    case Some(t) => if Clip(t).At? then Some(ToIsoDateLocal(At(t))) else None
  }

  /**
   * `parseDateCell`. `native` stands for `new Date(text)`: the local day of the
   * date it parses, or `None` for an invalid date. Serial numbers are read as
   * the code reads them (`SerialDateAsWritten`).
   */
  function ParseDateCell(c: Cell, native: string -> Option<int>): (r: Option<string>)
    ensures r.Some? ==> r.value != ""
  {
    match c
    case Blank => None
    case Bool(_) => None
    case Str(s) => ParseDateText(Trim(s), native)
    case Num(v, _) => SerialCell(v)
  }

  /** The serial-number branch of `parseDateCell`: a serial from 1 to 2958465, floored. */
  function SerialCell(v: real): (r: Option<string>)
    ensures r.Some? ==> r.value != ""
  {
    if 1.0 <= v <= 2958465.0 then SerialText(SerialDateAsWritten(v.Floor)) else None
  }

  /** The serial branch's result: a valid date formatted, none for an invalid one. */
  function SerialText(d: JsDate): (r: Option<string>)
    ensures r.Some? ==> r.value != ""
  {
    match d
    case Invalid => None
    case At(t) => IsoNotEmpty(t); Some(ToIsoDateLocal(At(t)))
  }

  /**
   * `parseDateCell` with the serial-number branch corrected to the date Excel
   * shows (`ExcelSerialDate`); every other cell is read as the code reads it.
   */
  function ParseDateCellExcel(c: Cell, native: string -> Option<int>): (r: Option<string>)
    ensures r.Some? ==> r.value != ""
    ensures !c.Num? ==> r == ParseDateCell(c, native)
  {
    match c
    case Num(v, _) => ExcelSerialCell(v)
    case _ => ParseDateCell(c, native)
  }

  /** The serial-number branch with Excel's reading. */
  function ExcelSerialCell(v: real): (r: Option<string>)
    ensures r.Some? ==> r.value != ""
  {
    if 1.0 <= v <= 2958465.0 then SerialText(ExcelSerialDate(v.Floor)) else None
  }

  /** `parseDateCell` on trimmed text: ISO text as it is, then d-m-yyyy, then `new Date(text)`. */
  function ParseDateText(u: string, native: string -> Option<int>): (r: Option<string>)
    ensures r.Some? ==> r.value != ""
  {
    if IsIsoShape(u) then Some(u)
    else
      match DmyDateOf(u)
      case Some(d) => Some(ToIsoDateLocal(d))
      case None => NativeFallback(u, native)
  }

  datatype ActivityType = RegularUpdate | Milestone

  /** `normalizeActivityType` */
  function NormalizeActivityType(c: Cell): ActivityType {
    if c.Blank? then RegularUpdate
    else if Contains(Lower(Trim(CellText(c))), "milestone") then Milestone
    else RegularUpdate
  }

  // ---------------------------------------------------------------------------
  // Properties of relative targets

  /** The four ways `RelativeOfNormalised` can end, one lemma each. */
  lemma DayWins(t: string)
    requires UnitMatch(t, "day")
    ensures var n := DigitsValue(LeadingDigits(t)); RelativeOfNormalised(t) == Some(if n >= 1 then n - 1 else 0)
  {
  }

  lemma WeekWins(t: string)
    requires !UnitMatch(t, "day") && UnitMatch(t, "week")
    ensures RelativeOfNormalised(t) == Some(7 * DigitsValue(LeadingDigits(t)))
  {
  }

  lemma MonthWins(t: string)
    requires !UnitMatch(t, "day") && !UnitMatch(t, "week") && UnitMatch(t, "month")
    ensures RelativeOfNormalised(t) == Some(30 * DigitsValue(LeadingDigits(t)))
  {
  }

  lemma NumberWins(t: string)
    requires !UnitMatch(t, "day") && !UnitMatch(t, "week") && !UnitMatch(t, "month")
    ensures RelativeOfNormalised(t) == match ParseInt(t) case Some(k) => if k >= 0 then Some(k) else None case None => None
  {
  }

  /** Lower-casing keeps a character that is not white space off the white-space list. */
  lemma LowerNotSpace(c: char)
    requires !IsSpace(c)
    ensures !IsSpace(LowerChar(c))
  {
  }

  /** Trimming and lower-casing leave text whose ends are not white space. */
  lemma NormalisedEnds(text: string)
    ensures var t := Lower(Trim(text)); t == [] || (!IsSpace(t[0]) && !IsSpace(t[|t| - 1]))
  {
    var u := Trim(text);
    var i, j := TrimSpan(text);
    if u != [] {
      assert u[0] == text[i] && u[|u| - 1] == text[j - 1];
      LowerNotSpace(u[0]);
      LowerNotSpace(u[|u| - 1]);
    }
  }

  /** No unit word can follow an empty remainder. */
  lemma NoTailOnEmpty(word: string)
    requires word != []
    ensures !UnitTail([], word)
  {
  }

  /** A unit word after an optional st/nd/rd/th and white space is a unit tail. */
  lemma UnitTailOf(suffix: string, gap: string, word: string)
    requires suffix in {"", "st", "nd", "rd", "th"}
    requires AllSpaces(gap)
    ensures UnitTail(suffix + gap + word, word)
  {
    var rest := suffix + gap + word;
    assert rest[|rest| - |word|..] == word;
    if suffix == "" {
      assert rest[..|rest| - |word|] == gap;
    } else {
      assert rest[..2] == suffix;
      assert rest[2..] == gap + word;
      assert (gap + word)[..|gap|] == gap;
    }
  }

  /** A remainder ending in `word` does not end in another unit word. */
  lemma OtherUnitFails(rest: string, word: string, other: string)
    requires |rest| >= |word| && rest[|rest| - |word|..] == word
    requires |other| <= |word| && word[|word| - |other|..] != other
    ensures !UnitTail(rest, other)
  {
    assert rest[|rest| - |other|..] == word[|word| - |other|..];
    if |rest| >= 2 {
      var r2 := rest[2..];
      if |other| <= |r2| {
        assert r2[|r2| - |other|..] == word[|word| - |other|..];
      }
    }
  }

  /** Non-empty text with no white space at its ends and no upper-case letters is already normalised. */
  lemma NormalForm(t: string)
    requires t != [] && !IsSpace(t[0]) && !IsSpace(t[|t| - 1])
    requires forall i :: 0 <= i < |t| ==> !('A' <= t[i] <= 'Z')
    ensures RelativeDays(t) == RelativeOfNormalised(t)
  {
    TrimKeeps(t);
    LowerKeeps(t);
  }

  /** A concatenation has no upper-case letter when neither part has one. */
  lemma NoUpperJoin(a: string, b: string)
    requires forall i :: 0 <= i < |a| ==> !('A' <= a[i] <= 'Z')
    requires forall i :: 0 <= i < |b| ==> !('A' <= b[i] <= 'Z')
    ensures forall i :: 0 <= i < |a + b| ==> !('A' <= (a + b)[i] <= 'Z')
  {
    forall i | 0 <= i < |a + b|
      ensures !('A' <= (a + b)[i] <= 'Z')
    {
      if i < |a| {
        assert (a + b)[i] == a[i];
      } else {
        assert (a + b)[i] == b[i - |a|];
      }
    }
  }

  lemma DigitsNoUpper(ds: string)
    requires AllDigits(ds)
    ensures forall i :: 0 <= i < |ds| ==> !('A' <= ds[i] <= 'Z')
  {
  }

  lemma SpacesNoUpper(gap: string)
    requires AllSpaces(gap)
    ensures forall i :: 0 <= i < |gap| ==> !('A' <= gap[i] <= 'Z')
  {
  }

  /** The unit match of `ds + rest` is decided by `rest` alone. */
  lemma UnitMatchOf(ds: string, rest: string, word: string)
    requires ds != [] && AllDigits(ds)
    requires rest == [] || !IsDigit(rest[0])
    ensures LeadingDigits(ds + rest) == ds
    ensures UnitMatch(ds + rest, word) <==> UnitTail(rest, word)
  {
    LeadingDigitsOf(ds, rest);
    assert (ds + rest)[|ds|..] == rest;
  }

  /** The text of `RelativeNthUnit` is already normalised. */
  lemma NthNormal(ds: string, suffix: string, gap: string, word: string)
    requires ds != [] && AllDigits(ds)
    requires suffix in {"", "st", "nd", "rd", "th"}
    requires AllSpaces(gap)
    requires word in {"day", "week", "month"}
    ensures var t := ds + suffix + gap + word; RelativeDays(t) == RelativeOfNormalised(t)
  {
    var t := ds + suffix + gap + word;
    assert t[0] == ds[0] && t[|t| - 1] == word[|word| - 1];
    DigitsNoUpper(ds);
    SpacesNoUpper(gap);
    NoUpperJoin(ds, suffix);
    NoUpperJoin(ds + suffix, gap);
    NoUpperJoin(ds + suffix + gap, word);
    NormalForm(t);
  }

  /** `suffix + gap + word` starts with no digit. */
  lemma NthRest(suffix: string, gap: string, word: string)
    requires suffix in {"", "st", "nd", "rd", "th"}
    requires AllSpaces(gap)
    requires word in {"day", "week", "month"}
    ensures var rest := suffix + gap + word; rest != [] && !IsDigit(rest[0])
  {
    var rest := suffix + gap + word;
    assert rest[0] == if suffix != "" then suffix[0] else if gap != "" then gap[0] else word[0];
  }

  /** The text of `RelativeNthUnit` matches its own unit. */
  lemma NthOwnUnit(ds: string, suffix: string, gap: string, word: string)
    requires ds != [] && AllDigits(ds)
    requires suffix in {"", "st", "nd", "rd", "th"}
    requires AllSpaces(gap)
    requires word in {"day", "week", "month"}
    ensures var t := ds + suffix + gap + word; LeadingDigits(t) == ds && UnitMatch(t, word)
  {
    var rest := suffix + gap + word;
    assert ds + suffix + gap + word == ds + rest;
    NthRest(suffix, gap, word);
    UnitMatchOf(ds, rest, word);
    UnitTailOf(suffix, gap, word);
  }

  /** The text of `RelativeNthUnit` does not match a unit other than its own. */
  lemma NthOtherUnit(ds: string, suffix: string, gap: string, word: string, other: string)
    requires ds != [] && AllDigits(ds)
    requires suffix in {"", "st", "nd", "rd", "th"}
    requires AllSpaces(gap)
    requires word in {"day", "week", "month"}
    requires |other| <= |word| && word[|word| - |other|..] != other
    ensures !UnitMatch(ds + suffix + gap + word, other)
  {
    var rest := suffix + gap + word;
    assert ds + suffix + gap + word == ds + rest;
    NthRest(suffix, gap, word);
    UnitMatchOf(ds, rest, other);
    assert rest[|rest| - |word|..] == word;
    OtherUnitFails(rest, word, other);
  }

  /**
   * A target written as digits, an optional st/nd/rd/th, optional white space
   * and a unit: "N day" is day N counted from the start (N - 1 days, never
   * negative), "N week" is 7N days and "N month" is 30N days.
   */
  lemma {:induction false} RelativeNthUnit(ds: string, suffix: string, gap: string, word: string)
    requires ds != [] && AllDigits(ds)
    requires suffix in {"", "st", "nd", "rd", "th"}
    requires AllSpaces(gap)
    requires word in {"day", "week", "month"}
    ensures var n := DigitsValue(ds);
      RelativeDays(ds + suffix + gap + word)
      == Some(if word == "day" then (if n >= 1 then n - 1 else 0) else if word == "week" then 7 * n else 30 * n)
  {
    var t := ds + suffix + gap + word;
    NthNormal(ds, suffix, gap, word);
    NthOwnUnit(ds, suffix, gap, word);
    if word == "day" {
      DayWins(t);
    } else if word == "week" {
      NthOtherUnit(ds, suffix, gap, word, "day");
      WeekWins(t);
    } else {
      NthOtherUnit(ds, suffix, gap, word, "day");
      NthOtherUnit(ds, suffix, gap, word, "week");
      MonthWins(t);
    }
  }

  /** `parseInt` reads the leading digits of text that starts with a digit. */
  lemma ParseIntDigits(ds: string, rest: string)
    requires ds != [] && AllDigits(ds)
    requires rest == [] || !IsDigit(rest[0])
    ensures ParseInt(ds + rest) == Some(DigitsValue(ds))
  {
    var t := ds + rest;
    assert t[0] == ds[0];
    assert TrimStart(t) == t;
    LeadingDigitsOf(ds, rest);
  }

  /** Digits, then a remainder with no digit in front and no upper-case letter, is normalised. */
  lemma PrefixNormal(ds: string, rest: string)
    requires ds != [] && AllDigits(ds)
    requires rest == [] || !IsSpace(rest[|rest| - 1])
    requires forall i :: 0 <= i < |rest| ==> !('A' <= rest[i] <= 'Z')
    ensures RelativeDays(ds + rest) == RelativeOfNormalised(ds + rest)
  {
    var t := ds + rest;
    assert t[0] == ds[0] && t[|t| - 1] == if rest == [] then ds[|ds| - 1] else rest[|rest| - 1];
    DigitsNoUpper(ds);
    NoUpperJoin(ds, rest);
    NormalForm(t);
  }

  /** Digits followed by a remainder that is no unit tail match no unit. */
  lemma PrefixNoUnit(ds: string, rest: string)
    requires ds != [] && AllDigits(ds)
    requires rest == [] || !IsDigit(rest[0])
    requires !UnitTail(rest, "day") && !UnitTail(rest, "week") && !UnitTail(rest, "month")
    ensures !UnitMatch(ds + rest, "day") && !UnitMatch(ds + rest, "week") && !UnitMatch(ds + rest, "month")
  {
    UnitMatchOf(ds, rest, "day");
    UnitMatchOf(ds, rest, "week");
    UnitMatchOf(ds, rest, "month");
  }

  /**
   * Text that starts with digits but does not end in a recognised unit falls
   * through to `parseInt`, which reads the leading digits: "2 weeks" is 2 days
   * and "10" is 10 days.
   */
  lemma {:induction false} RelativeNumericPrefix(ds: string, rest: string)
    requires ds != [] && AllDigits(ds)
    requires rest == [] || (!IsDigit(rest[0]) && !IsSpace(rest[|rest| - 1]))
    requires forall i :: 0 <= i < |rest| ==> !('A' <= rest[i] <= 'Z')
    requires !UnitTail(rest, "day") && !UnitTail(rest, "week") && !UnitTail(rest, "month")
    ensures RelativeDays(ds + rest) == Some(DigitsValue(ds))
  {
    PrefixNormal(ds, rest);
    PrefixNoUnit(ds, rest);
    ParseIntDigits(ds, rest);
    NumberWins(ds + rest);
  }

  /** A bare number of days is taken as it is. */
  lemma RelativePlainNumber(ds: string)
    requires ds != [] && AllDigits(ds)
    ensures RelativeDays(ds) == Some(DigitsValue(ds))
  {
    NoTailOnEmpty("day");
    NoTailOnEmpty("week");
    NoTailOnEmpty("month");
    RelativeNumericPrefix(ds, []);
    assert ds + [] == ds;
  }

  /** Text that does not start with a digit or a sign names no offset. */
  lemma {:induction false} RelativeNeedsDigits(text: string)
    requires var t := Lower(Trim(text)); t == [] || (!IsDigit(t[0]) && t[0] != '-' && t[0] != '+')
    ensures RelativeDays(text) == None
  {
    if text != "" {
      var t := Lower(Trim(text));
      NormalisedEnds(text);
      assert LeadingDigits(t) == [];
      assert TrimStart(t) == t;
      NumberWins(t);
    }
  }

  lemma NegativeNormal(ds: string)
    requires ds != [] && AllDigits(ds)
    ensures RelativeDays("-" + ds) == RelativeOfNormalised("-" + ds)
  {
    var t := "-" + ds;
    assert t[0] == '-' && t[|t| - 1] == ds[|ds| - 1];
    DigitsNoUpper(ds);
    NoUpperJoin("-", ds);
    NormalForm(t);
  }

  lemma NegativeNoDigits(ds: string)
    ensures LeadingDigits("-" + ds) == []
  {
  }

  /** `parseInt` skips no white space when there is none in front. */
  lemma ParseIntNoLead(t: string)
    requires t != [] && !IsSpace(t[0])
    ensures ParseInt(t) == ParseSigned(t)
  {
  }

  /** After a minus sign `parseInt` negates the digits that follow. */
  lemma ParseMinus(t: string, ds: string)
    requires t != [] && t[0] == '-' && t[1..] == ds && AllDigits(ds)
    requires DigitRun(ds) == Some(DigitsValue(ds))
    ensures ParseSigned(t) == Some(0 - DigitsValue(ds))
  {
  }

  lemma DigitRunAll(ds: string)
    requires ds != [] && AllDigits(ds)
    ensures DigitRun(ds) == Some(DigitsValue(ds))
  {
    LeadingDigitsOf(ds, []);
    assert ds + [] == ds;
  }

  lemma NegativeParse(ds: string)
    requires ds != [] && AllDigits(ds)
    ensures ParseInt("-" + ds) == Some(0 - DigitsValue(ds))
  {
    var t := "-" + ds;
    assert t[0] == '-' && t[1..] == ds;
    ParseIntNoLead(t);
    DigitRunAll(ds);
    ParseMinus(t, ds);
  }

  /** A negative number of days is refused. */
  lemma {:induction false} RelativeNegative(ds: string)
    requires AllDigits(ds) && DigitsValue(ds) > 0
    ensures RelativeDays("-" + ds) == None
  {
    NegativeNormal(ds);
    NegativeNoDigits(ds);
    NegativeParse(ds);
    NumberWins("-" + ds);
  }

  // ---------------------------------------------------------------------------
  // Properties of the date text

  /** A natural number below 100 has at most two decimal digits. */
  lemma SmallDecimal(n: nat)
    requires n < 100
    ensures |NatToDecimal(n)| <= 2
  {
    if n >= 10 {
      assert NatToDecimal(n) == NatToDecimal(n / 10) + [DigitChar(n % 10)];
    }
  }

  /** A month or day number, padded: two digits with the same value. */
  lemma PaddedField(n: nat)
    requires n < 100
    ensures var p := PadStart2(NatToDecimal(n)); |p| == 2 && AllDigits(p) && DigitsValue(p) == n
  {
    SmallDecimal(n);
    PaddedValue(NatToDecimal(n));
    DecimalRoundTrip(n);
  }

  /** The date text of a year from 0 on: year digits, then month and day as two digits each. */
  lemma IsoPieces(x: Ymd) returns (y: string, m: string, d: string)
    requires ValidYmd(x) && x.year >= 0
    ensures IsoText(x) == y + "-" + m + "-" + d
    ensures y == NatToDecimal(x.year) && y != [] && AllDigits(y) && AllDigits(m) && AllDigits(d) && |m| == 2 && |d| == 2
    ensures DigitsValue(y) == x.year && DigitsValue(m) == x.month && DigitsValue(d) == x.day
  {
    y := NatToDecimal(x.year);
    m := PadStart2(NatToDecimal(x.month));
    d := PadStart2(NatToDecimal(x.day));
    DecimalRoundTrip(x.year);
    PaddedField(x.month);
    PaddedField(x.day);
  }

  lemma NoDash(s: string)
    requires AllDigits(s)
    ensures '-' !in s
  {
    assert forall i :: 0 <= i < |s| ==> s[i] != '-';
  }

  /** Three digit strings joined by '-' split back into themselves. */
  lemma SplitThree(y: string, m: string, d: string)
    requires AllDigits(y) && AllDigits(m) && AllDigits(d)
    ensures Split(y + "-" + m + "-" + d, '-') == [y, m, d]
  {
    NoDash(y);
    NoDash(m);
    NoDash(d);
    assert y + "-" + m + "-" + d == y + ['-'] + (m + ['-'] + d);
    SplitCons(y, '-', m + ['-'] + d);
    SplitCons(m, '-', d);
  }

  /** Four, two and two digits joined by '-' have the ISO shape. */
  lemma IsoShapeOf(y: string, m: string, d: string)
    requires AllDigits(y) && AllDigits(m) && AllDigits(d) && |y| == 4 && |m| == 2 && |d| == 2
    ensures IsIsoShape(y + "-" + m + "-" + d)
  {
    var s := y + "-" + m + "-" + d;
    forall i | 0 <= i < 10 && i != 4 && i != 7
      ensures IsDigit(s[i])
    {
      if i < 4 {
        assert s[i] == y[i];
      } else if i < 7 {
        assert s[i] == m[i - 5];
      } else {
        assert s[i] == d[i - 8];
      }
    }
  }

  lemma IsoTextShape(x: Ymd)
    requires ValidYmd(x) && 1000 <= x.year <= 9999
    ensures IsIsoShape(IsoText(x))
  {
    var y, m, d := IsoPieces(x);
    assert Pow10(3) == 1000 && Pow10(4) == 10000;
    DecimalLength(x.year, 3);
    IsoShapeOf(y, m, d);
  }

  lemma IsoTextTrimmed(x: Ymd)
    requires ValidYmd(x) && x.year >= 0
    ensures Trim(IsoText(x)) == IsoText(x)
  {
    var y, m, d := IsoPieces(x);
    var s := y + "-" + m + "-" + d;
    assert s[0] == y[0] && s[|s| - 1] == d[1];
    DigitNotSpace(y[0]);
    DigitNotSpace(d[1]);
    TrimKeeps(s);
  }

  /** A valid date never formats as empty text. */
  lemma IsoNotEmpty(t: int)
    ensures ToIsoDateLocal(At(t)) != ""
  {
    var x := Fields(t);
    assert |IsoText(x)| >= |IntToDecimal(x.year)|;
  }

  /** A four-digit year formats as `yyyy-mm-dd`. */
  lemma IsoFormat(t: int)
    requires 1000 <= Fields(t).year <= 9999
    ensures IsIsoShape(ToIsoDateLocal(At(t)))
  {
    IsoTextShape(Fields(t));
  }

  /** Text of the `yyyy-mm-dd` shape, once trimmed, is kept as it is. */
  lemma IsoCellUnchanged(s: string, native: string -> Option<int>)
    requires IsIsoShape(Trim(s))
    ensures ParseDateCell(Str(s), native) == Some(Trim(s))
    ensures ParseDateCellExcel(Str(s), native) == Some(Trim(s))
  {
  }

  /** A date this code formats with a four-digit year is read back unchanged. */
  lemma IsoReadBack(t: int, native: string -> Option<int>)
    requires 1000 <= Fields(t).year <= 9999
    ensures ParseDateCell(Str(ToIsoDateLocal(At(t))), native) == Some(ToIsoDateLocal(At(t)))
  {
    IsoTextShape(Fields(t));
    IsoTextTrimmed(Fields(t));
  }

  /** `Number` reads a non-empty digit string as its value. */
  lemma NumberOfDigits(s: string)
    requires s != [] && AllDigits(s)
    ensures NumberOf(Some(s)) == Some(DigitsValue(s))
  {
    DigitNotSpace(s[0]);
  }

  /** `new Date(y, m - 1, d)` rebuilds a day of a year from 100 on from its own fields. */
  lemma RebuiltDay(t: int)
    requires 100 <= Fields(t).year <= 99999
    ensures NewDate(Fields(t).year, Fields(t).month - 1, Fields(t).day) == At(t)
  {
    MakeDayOfFields(t);
    InClip(t);
  }

  /** `addDays` reads the three numbers back from the date text when they are plain digits. */
  lemma StartOfDigits(iso: string, y: string, m: string, d: string, year: int, month: int, day: int)
    requires iso == y + "-" + m + "-" + d
    requires y != [] && m != [] && d != [] && AllDigits(y) && AllDigits(m) && AllDigits(d)
    requires DigitsValue(y) == year && DigitsValue(m) == month && DigitsValue(d) == day
    ensures StartDate(iso) == NewDate(year, month - 1, day)
  {
    SplitThree(y, m, d);
    NumberOfDigits(y);
    NumberOfDigits(m);
    NumberOfDigits(d);
  }

  /** `addDays` reads back the date this code formatted for a year from 100 to 99999. */
  lemma StartOfIso(t: int)
    requires 100 <= Fields(t).year <= 99999
    ensures StartDate(ToIsoDateLocal(At(t))) == At(t)
  {
    var y, m, d := IsoPieces(Fields(t));
    StartOfDigits(ToIsoDateLocal(At(t)), y, m, d, Fields(t).year, Fields(t).month, Fields(t).day);
    RebuiltDay(t);
  }

  lemma MoveDaysMoves(t: int, days: int)
    ensures MoveDays(At(t), days) == Clip(t + days)
  {
    SetDateMoves(t, days);
  }

  /**
   * `addDays` on a date this code formatted (years 100 to 99999) moves it by
   * exactly `days` whole days, as far as the dates stay representable.
   */
  lemma AddDaysMoves(t: int, days: int)
    requires 100 <= Fields(t).year <= 99999
    ensures AddDays(ToIsoDateLocal(At(t)), days) == ToIsoDateLocal(Clip(t + days))
  {
    StartOfIso(t);
    MoveDaysMoves(t, days);
  }

  /** Every piece of `split('-')` is a digit string (possibly empty), and there are at least three. */
  predicate DashedDigits(r: string) {
    var parts := Split(r, '-');
    |parts| >= 3 && forall k :: 0 <= k < |parts| ==> AllDigits(parts[k])
  }

  /** The date text of a year before 0 starts with the minus sign. */
  lemma NegativeIsoPieces(x: Ymd) returns (y: string, m: string, d: string)
    requires ValidYmd(x) && x.year < 0
    ensures IsoText(x) == "-" + y + "-" + m + "-" + d
    ensures AllDigits(y) && AllDigits(m) && AllDigits(d)
  {
    y := NatToDecimal(-x.year);
    m := PadStart2(NatToDecimal(x.month));
    d := PadStart2(NatToDecimal(x.day));
    PaddedField(x.month);
    PaddedField(x.day);
  }

  lemma NegativeDashed(y: string, m: string, d: string)
    requires AllDigits(y) && AllDigits(m) && AllDigits(d)
    ensures DashedDigits("-" + y + "-" + m + "-" + d)
  {
    var w := y + "-" + m + "-" + d;
    SplitThree(y, m, d);
    Regroup(y, m, d);
    SplitLead('-', w);
    DashedOf(Split("-" + w, '-'), y, m, d);
  }

  lemma Regroup(y: string, m: string, d: string)
    ensures "-" + y + "-" + m + "-" + d == "-" + (y + "-" + m + "-" + d)
  {
  }

  lemma DashedOf(parts: seq<string>, y: string, m: string, d: string)
    requires parts == [[]] + [y, m, d]
    requires AllDigits(y) && AllDigits(m) && AllDigits(d)
    ensures |parts| >= 3 && forall k :: 0 <= k < |parts| ==> AllDigits(parts[k])
  {
  }

  lemma IsoTextDashedFromZero(x: Ymd)
    requires ValidYmd(x) && x.year >= 0
    ensures DashedDigits(IsoText(x))
  {
    var y, m, d := IsoPieces(x);
    SplitThree(y, m, d);
  }

  lemma IsoTextDashedBeforeZero(x: Ymd)
    requires ValidYmd(x) && x.year < 0
    ensures DashedDigits(IsoText(x))
  {
    var y, m, d := NegativeIsoPieces(x);
    NegativeDashed(y, m, d);
  }

  lemma IsoTextDashed(x: Ymd)
    requires ValidYmd(x)
    ensures DashedDigits(IsoText(x))
  {
    if x.year >= 0 {
      IsoTextDashedFromZero(x);
    } else {
      IsoTextDashedBeforeZero(x);
    }
  }

  /** Every date `toISODateLocal` writes splits into digit pieces. */
  lemma IsoOutputDashed(t: int)
    ensures DashedDigits(ToIsoDateLocal(At(t)))
  {
    IsoTextDashed(Fields(t));
  }

  /** Text of the ISO shape splits into three digit pieces. */
  lemma IsoShapeDashed(u: string)
    requires IsIsoShape(u)
    ensures DashedDigits(u)
  {
    var y, m, d := u[..4], u[5..7], u[8..];
    assert u == y + "-" + m + "-" + d;
    assert AllDigits(y) && AllDigits(m) && AllDigits(d) by {
      assert forall i :: 0 <= i < 4 ==> y[i] == u[i];
      assert forall i :: 0 <= i < 2 ==> m[i] == u[i + 5] && d[i] == u[i + 8];
    }
    SplitThree(y, m, d);
  }

  /** The text branch of `parseDateCell` yields digit pieces. */
  lemma TextCellDashed(s: string, native: string -> Option<int>)
    requires ParseDateCell(Str(s), native).Some?
    ensures DashedDigits(ParseDateCell(Str(s), native).value)
  {
    var u := Trim(s);
    if IsIsoShape(u) {
      IsoShapeDashed(u);
    } else if DmyDateOf(u).Some? {
      IsoOutputDashed(DmyDateOf(u).value.day);
    } else {
      IsoOutputDashed(native(u).value);
    }
  }

  /**
   * Every date `parseDateCell` returns splits on '-' into (possibly empty)
   * digit pieces, so `addDays` reads each piece with `Number` exactly.
   */
  lemma ParsedDateDashed(c: Cell, native: string -> Option<int>)
    requires ParseDateCell(c, native).Some?
    ensures DashedDigits(ParseDateCell(c, native).value)
  {
    match c {
      case Str(s) => TextCellDashed(s, native);
      case Num(v, _) => IsoOutputDashed(SerialDateAsWritten(v.Floor).day);
    }
  }

  // ---------------------------------------------------------------------------
  // Properties of day-month-year text

  /** Each way of matching `d{1,2}-d{1,2}-dddd` bounds the numbers and rules out the ISO shape. */
  lemma DmyAtBounds(s: string, a: nat, b: nat)
    requires DmyAt(s, a, b) && 1 <= a <= 2 && 1 <= b <= 2
    ensures DmyValues(s, a, b).0 < 100 && DmyValues(s, a, b).1 < 100 && DmyValues(s, a, b).2 < 10000
    ensures !IsIsoShape(s)
  {
    assert Pow10(1) == 10 && Pow10(2) == 100 && Pow10(4) == 10000;
    DigitsBound(s[..a]);
    DigitsBound(s[a + 1..a + 1 + b]);
    DigitsBound(s[a + b + 2..]);
    assert !IsDigit(s[a]);
  }

  /** A day-month-year match reads a day and a month below 100 and a year from 0 to 9999. */
  lemma MatchDmyBounds(s: string)
    requires MatchDmy(s).Some?
    ensures var (day, month, year) := MatchDmy(s).value; 0 <= day < 100 && 0 <= month < 100 && 0 <= year <= 9999
    ensures !IsIsoShape(s)
  {
    if DmyAt(s, 1, 1) {
      DmyAtBounds(s, 1, 1);
    } else if DmyAt(s, 1, 2) {
      DmyAtBounds(s, 1, 2);
    } else if DmyAt(s, 2, 1) {
      DmyAtBounds(s, 2, 1);
    } else {
      DmyAtBounds(s, 2, 2);
    }
  }

  /** A real day of a year from 0 to 100000 keeps its fields and survives TimeClip. */
  lemma RealDayInClip(y: int, month: int, day: int)
    requires ValidYmd(Ymd(y, month, day)) && 0 <= y <= 100000
    ensures Fields(MakeDay(y, month - 1, day)) == Ymd(y, month, day)
    ensures Clip(MakeDay(y, month - 1, day)) == At(MakeDay(y, month - 1, day))
  {
    FieldsOfMakeDay(y, month - 1, day);
    InClip(MakeDay(y, month - 1, day));
  }

  /** `new Date(year, month - 1, day)` for the fields of a real day. */
  lemma NewDateOfReal(year: int, month: int, day: int, t: int)
    requires t == MakeDay(FullYear(year), month - 1, day) && Clip(t) == At(t)
    ensures NewDate(year, month - 1, day) == At(t)
  {
  }

  /** `DmyDate` on numbers whose `Date` is the valid day `t`. */
  lemma DmyOfDay(day: int, month: int, year: int, t: int)
    requires NewDate(year, month - 1, day) == At(t)
    ensures DmyDate(day, month, year) == if Fields(t).day == day && Fields(t).month == month then Some(At(t)) else None
  {
  }

  lemma DmyKeptAt(day: int, month: int, year: int, t: int)
    requires NewDate(year, month - 1, day) == At(t)
    requires Fields(t).day == day && Fields(t).month == month
    ensures DmyDate(day, month, year) == Some(At(t))
  {
    DmyOfDay(day, month, year, t);
  }

  /** A real day is kept, as that day. */
  lemma DmyKeptReal(day: int, month: int, year: int)
    requires 0 <= year <= 9999
    requires 1 <= month <= 12 && 1 <= day <= DaysInMonth(FullYear(year), month)
    ensures DmyDate(day, month, year) == Some(At(MakeDay(FullYear(year), month - 1, day)))
  {
    var t := MakeDay(FullYear(year), month - 1, day);
    RealDayInClip(FullYear(year), month, day);
    NewDateOfReal(year, month, day, t);
    DmyKeptAt(day, month, year, t);
  }

  /** A day whose fields differ from the numbers asked for fails the strict check. */
  lemma RolledOverDropped(t: int, day: int, month: int)
    requires !(Fields(t).month - 1 == month - 1 && Fields(t).day == day)
    ensures KeepIfSame(At(t), day, month) == None
  {
  }

  /** Numbers that do not name a real day roll over and are dropped. */
  lemma DmyDroppedRollover(day: int, month: int, year: int)
    requires !(1 <= month <= 12 && 1 <= day <= DaysInMonth(FullYear(year), month))
    ensures DmyDate(day, month, year) == None
  {
    var t := MakeDay(FullYear(year), month - 1, day);
    MakeDayKeepsFields(FullYear(year), month - 1, day);
    if Clip(t).At? {
      RolledOverDropped(t, day, month);
    }
  }

  /**
   * The strict day-month-year check keeps a date exactly when the numbers
   * name a real day (years 0 to 99 read as 1900 to 1999), and then it is that day.
   */
  lemma DmyKept(day: int, month: int, year: int)
    requires 0 <= year <= 9999
    ensures DmyDate(day, month, year).Some? <==> 1 <= month <= 12 && 1 <= day <= DaysInMonth(FullYear(year), month)
    ensures DmyDate(day, month, year).Some? ==> DmyDate(day, month, year).value == At(MakeDay(FullYear(year), month - 1, day))
  {
    if 1 <= month <= 12 && 1 <= day <= DaysInMonth(FullYear(year), month) {
      DmyKeptReal(day, month, year);
    } else {
      DmyDroppedRollover(day, month, year);
    }
  }

  /** On trimmed text of the form d-m-yyyy, the date kept is the strict check's. */
  lemma DmyText(u: string, native: string -> Option<int>)
    requires MatchDmy(u).Some?
    ensures var (day, month, year) := MatchDmy(u).value;
      ParseDateText(u, native) ==
        if DmyDate(day, month, year).Some? then Some(ToIsoDateLocal(DmyDate(day, month, year).value))
        else NativeFallback(u, native)
  {
    MatchDmyBounds(u);
  }

  /**
   * Text of the form d-m-yyyy becomes that day when it is a real day;
   * otherwise (31-04-2024, 29-02-2023) it is left to the native parser.
   */
  lemma DmyCell(s: string, native: string -> Option<int>)
    requires MatchDmy(Trim(s)).Some?
    ensures var (day, month, year) := MatchDmy(Trim(s)).value;
      && (1 <= month <= 12 && 1 <= day <= DaysInMonth(FullYear(year), month) ==>
            ParseDateCell(Str(s), native) == Some(ToIsoDateLocal(At(MakeDay(FullYear(year), month - 1, day)))))
      && (!(1 <= month <= 12 && 1 <= day <= DaysInMonth(FullYear(year), month)) ==>
            ParseDateCell(Str(s), native) == NativeFallback(Trim(s), native))
  {
    MatchDmyBounds(Trim(s));
    DmyText(Trim(s), native);
    var (day, month, year) := MatchDmy(Trim(s)).value;
    DmyKept(day, month, year);
  }

  // ---------------------------------------------------------------------------
  // Spreadsheet serial numbers

  /** The day number of 1900-01-01. */
  lemma EpochValue()
    ensures DayFromYear(EpochYear) == -25567
  {
    assert DayFromYear(1900) == -25567;
  }

  /** The code's starting point, `new Date(1900, 0, 1)`, is 1900-01-01. */
  lemma EpochDate()
    ensures NewDate(EpochYear, 0, 1) == At(DayFromYear(EpochYear))
  {
    MakeDayInYear(EpochYear, 0, 1);
    EpochValue();
  }

  /** As written, serial n is day n - 1 after 1900-01-01. */
  lemma SerialAsWrittenCounts(serial: int)
    ensures SerialDateAsWritten(serial) == Clip(DayFromYear(EpochYear) + serial - 1)
  {
    EpochDate();
    MoveDaysMoves(DayFromYear(EpochYear), serial - 1);
  }

  /** Excel's serial n is day n - 1 after 1900-01-01 up to 60, and day n - 2 from 61 on. */
  lemma ExcelSerialDay(serial: int)
    ensures ExcelSerialDate(serial) == Clip(DayFromYear(EpochYear) + (if serial >= 61 then serial - 2 else serial - 1))
  {
    MakeDayInYear(EpochYear, 0, if serial >= 61 then serial - 1 else serial);
  }

  /** From serial 61 on, the code's date is one day after the date Excel shows. */
  lemma SerialAsWrittenOneDayLate(serial: int)
    requires 61 <= serial <= 2958465
    ensures ExcelSerialDate(serial).At? && SerialDateAsWritten(serial) == At(ExcelSerialDate(serial).day + 1)
  {
    EpochValue();
    SerialAsWrittenCounts(serial);
    ExcelSerialDay(serial);
  }

  /** Up to serial 60 the code and Excel agree. */
  lemma SerialAsWrittenAgreesEarly(serial: int)
    requires 1 <= serial <= 60
    ensures SerialDateAsWritten(serial) == ExcelSerialDate(serial)
  {
    SerialAsWrittenCounts(serial);
    ExcelSerialDay(serial);
  }

  /** 2024-01-01 is day 45290 after 1900-01-01. */
  lemma NewYear2024(t: int)
    requires t == DayFromYear(EpochYear) + 45290
    ensures Fields(t) == Ymd(2024, 1, 1) && Fields(t + 1) == Ymd(2024, 1, 2)
  {
    EpochValue();
    FieldsOfDay(t, 2024, 0, 1);
    FieldsOfDay(t + 1, 2024, 0, 2);
  }

  /** Serial 45292, which Excel shows as 2024-01-01: the code gives 2024-01-02. */
  lemma SerialNewYear2024(serial: int)
    requires serial == 45292
    ensures ExcelSerialDate(serial).At? && Fields(ExcelSerialDate(serial).day) == Ymd(2024, 1, 1)
    ensures SerialDateAsWritten(serial).At? && Fields(SerialDateAsWritten(serial).day) == Ymd(2024, 1, 2)
  {
    EpochValue();
    SerialAsWrittenCounts(serial);
    ExcelSerialDay(serial);
    NewYear2024(DayFromYear(EpochYear) + 45290);
  }

  /** 10000-01-01 is day 2958464 after 1900-01-01, the day before it 9999-12-31. */
  lemma YearTenThousand(t: int)
    requires t == DayFromYear(EpochYear) + 2958464
    ensures Fields(t) == Ymd(10000, 1, 1) && Fields(t - 1) == Ymd(9999, 12, 31)
  {
    EpochValue();
    FieldsOfDay(t, 10000, 0, 1);
    FieldsOfDay(t - 1, 9999, 11, 31);
  }

  /** The year 10000 writes as a five-digit year, which has no `yyyy-mm-dd` shape. */
  lemma FiveDigitYear(t: int)
    requires Fields(t).year == 10000
    ensures !IsIsoShape(ToIsoDateLocal(At(t)))
  {
    var y, m, d := IsoPieces(Fields(t));
    assert Pow10(4) == 10000 && Pow10(5) == 100000;
    DecimalLength(10000, 4);
  }

  /**
   * The largest serial accepted, 2958465, which Excel shows as 9999-12-31: the
   * code gives 10000-01-01, whose text has no `yyyy-mm-dd` shape.
   */
  lemma SerialTopAsWritten(serial: int)
    requires serial == 2958465
    ensures ExcelSerialDate(serial).At? && Fields(ExcelSerialDate(serial).day) == Ymd(9999, 12, 31)
    ensures SerialDateAsWritten(serial).At? && Fields(SerialDateAsWritten(serial).day) == Ymd(10000, 1, 1)
    ensures !IsIsoShape(ToIsoDateLocal(SerialDateAsWritten(serial)))
  {
    EpochValue();
    SerialAsWrittenCounts(serial);
    ExcelSerialDay(serial);
    YearTenThousand(DayFromYear(EpochYear) + 2958464);
    FiveDigitYear(DayFromYear(EpochYear) + 2958464);
  }

  /** The days from 1900-01-01 up to 9999-12-31 have four-digit years from 1900. */
  lemma YearsOfSerialRange(k: int)
    requires DayFromYear(EpochYear) <= k < DayFromYear(10000)
    ensures 1900 <= Fields(k).year <= 9999
  {
    var y := Fields(k).year;
    FieldsYear(k);
    DayFromYearApart(y + 1, EpochYear);
    DayFromYearApart(10000, y);
  }

  /** Every serial Excel can hold falls in the years 1900 to 9999. */
  lemma ExcelSerialRange(serial: int)
    requires 1 <= serial <= 2958465
    ensures ExcelSerialDate(serial).At?
    ensures 1900 <= Fields(ExcelSerialDate(serial).day).year <= 9999
  {
    EpochValue();
    ExcelSerialDay(serial);
    assert DayFromYear(10000) == 2932897;
    YearsOfSerialRange(DayFromYear(EpochYear) + (if serial >= 61 then serial - 2 else serial - 1));
  }

  /**
   * A number cell between 1 and 2958465 becomes the `yyyy-mm-dd` date Excel
   * shows for it; any other number gives no date.
   */
  lemma NumberCell(v: real, shown: string, native: string -> Option<int>)
    ensures 1.0 <= v <= 2958465.0 ==>
      && ParseDateCellExcel(Num(v, shown), native) == Some(ToIsoDateLocal(ExcelSerialDate(v.Floor)))
      && IsIsoShape(ToIsoDateLocal(ExcelSerialDate(v.Floor)))
    ensures !(1.0 <= v <= 2958465.0) ==> ParseDateCellExcel(Num(v, shown), native) == None
  {
    if 1.0 <= v <= 2958465.0 {
      ExcelSerialRange(v.Floor);
      IsoFormat(ExcelSerialDate(v.Floor).day);
    }
  }

  /**
   * As written, a number cell between 1 and 2958465 becomes the date
   * `floor(v) - 1` days after 1900-01-01; any other number gives no date.
   */
  lemma NumberCellAsWritten(v: real, shown: string, native: string -> Option<int>)
    ensures 1.0 <= v <= 2958465.0 ==>
      ParseDateCell(Num(v, shown), native) == Some(ToIsoDateLocal(At(DayFromYear(EpochYear) + v.Floor - 1)))
    ensures !(1.0 <= v <= 2958465.0) ==> ParseDateCell(Num(v, shown), native) == None
  {
    SerialCellAsWritten(v);
    assert ParseDateCell(Num(v, shown), native) == SerialCell(v);
  }

  /** The serial branch as written, on its own. */
  lemma SerialCellAsWritten(v: real)
    ensures 1.0 <= v <= 2958465.0 ==>
      SerialCell(v) == Some(ToIsoDateLocal(At(DayFromYear(EpochYear) + v.Floor - 1)))
    ensures !(1.0 <= v <= 2958465.0) ==> SerialCell(v) == None
  {
    if 1.0 <= v <= 2958465.0 {
      var n := v.Floor;
      var k := DayFromYear(EpochYear) + n - 1;
      assert SerialDateAsWritten(n) == At(k) by {
        assert 1 <= n <= 2958465;
        assert -MaxDay <= k <= MaxDay by {
          EpochValue();
        }
        SerialAsWrittenCounts(n);
      }
      assert SerialCell(v) == SerialText(SerialDateAsWritten(n));
    }
  }

  /** Below the top serial, the code's date has a four-digit year. */
  lemma SerialAsWrittenIso(n: int)
    requires 1 <= n < 2958465
    ensures IsIsoShape(ToIsoDateLocal(At(DayFromYear(EpochYear) + n - 1)))
  {
    EpochValue();
    assert DayFromYear(10000) == 2932897;
    YearsOfSerialRange(DayFromYear(EpochYear) + n - 1);
    IsoFormat(DayFromYear(EpochYear) + n - 1);
  }

  /** The number cell 45292, which Excel shows as 2024-01-01, is read by the code as 2024-01-02. */
  lemma CellNewYear2024(v: real, shown: string, native: string -> Option<int>)
    requires v == 45292.0
    ensures var t := DayFromYear(EpochYear) + v.Floor - 2;
      && ParseDateCellExcel(Num(v, shown), native) == Some(ToIsoDateLocal(At(t)))
      && ParseDateCell(Num(v, shown), native) == Some(ToIsoDateLocal(At(t + 1)))
      && Fields(t) == Ymd(2024, 1, 1) && Fields(t + 1) == Ymd(2024, 1, 2)
  {
    var t := DayFromYear(EpochYear) + v.Floor - 2;
    assert v.Floor == 45292;
    assert ParseDateCellExcel(Num(v, shown), native) == Some(ToIsoDateLocal(At(t))) by {
      NumberCell(v, shown, native);
      ExcelSerialDay(v.Floor);
      assert -MaxDay <= t <= MaxDay by {
        EpochValue();
      }
    }
    assert ParseDateCell(Num(v, shown), native) == Some(ToIsoDateLocal(At(t + 1))) by {
      NumberCellAsWritten(v, shown, native);
    }
    NewYear2024(t);
  }

  // ---------------------------------------------------------------------------
  // Activity types

  /** A cell is a milestone exactly when its text contains "milestone" in any letter case. */
  lemma MilestoneAnywhere(c: Cell)
    ensures NormalizeActivityType(c) == Milestone <==> !c.Blank? && Contains(Lower(CellText(c)), "milestone")
  {
    ContainsTrimmedLower(CellText(c), "milestone");
  }
}
