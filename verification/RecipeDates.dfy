/** The date printer and the date parser of extension/adapters/recipe-values.js: which written
    forms survive being read back, under the order in which the printer tries its patterns. */
module RecipeDates {
  import opened Options

  datatype Date = Date(y: nat, m: nat, d: nat)

  /** What a JavaScript expression leaves: text, `undefined`, or a thrown TypeError. */
  datatype Printed = Text(s: string) | Undefined | Thrown

  const MONTHS: seq<string> := [
    "January", "February", "March", "April", "May", "June", "July", "August", "September",
    "October", "November", "December"]

  // ---- decimal text --------------------------------------------------------------------

  predicate IsDigit(c: char) { '0' <= c <= '9' }

  predicate AllDigits(s: string) { forall i :: 0 <= i < |s| ==> IsDigit(s[i]) }

  function Digit(n: nat): (c: char)
    requires n < 10
    ensures IsDigit(c) && Value(c) == n
  {
    ('0' as int + n) as char
  }

  function Decimal(n: nat): (s: string)
    ensures |s| >= 1 && AllDigits(s)
  {
    if n < 10 then [Digit(n)] else Decimal(n / 10) + [Digit(n % 10)]
  }

  function Value(c: char): nat { if IsDigit(c) then c as int - '0' as int else 0 }

  /** The number a run of digits stands for (unary plus on a match of `\d+`). */
  function Number(s: string): nat {
    if s == "" then 0 else 10 * Number(s[..|s| - 1]) + Value(s[|s| - 1])
  }

  lemma {:induction false} NumberOfDecimal(n: nat)
    ensures Number(Decimal(n)) == n
  {
    var s := Decimal(n);
    if n >= 10 {
      NumberOfDecimal(n / 10);
      assert s[..|s| - 1] == Decimal(n / 10);
    } else {
      assert s[..0] == "";
    }
  }

  lemma {:induction false} DecimalLength(n: nat)
    ensures n < 10 <==> |Decimal(n)| == 1
    ensures n < 100 <==> |Decimal(n)| <= 2
    ensures n < 1000 <==> |Decimal(n)| <= 3
    ensures n < 10000 <==> |Decimal(n)| <= 4
  {
    if n >= 10 { DecimalLength(n / 10); }
  }

  /** `String(n).padStart(2, "0")`. */
  function Pad(n: nat): (s: string)
    ensures |s| >= 2 && AllDigits(s)
  {
    if |Decimal(n)| < 2 then "0" + Decimal(n) else Decimal(n)
  }

  lemma PadReads(n: nat)
    requires n < 100
    ensures |Pad(n)| == 2 && Number(Pad(n)) == n
  {
    DecimalLength(n);
    NumberOfDecimal(n);
    if n < 10 {
      assert Pad(n)[..1] == "0" && "0"[..0] == "";
      assert Number("0") == 0;
    }
  }

  // ---- the parser ----------------------------------------------------------------------

  /** The characters `\s` matches and `trim` removes. */
  predicate IsSpace(c: char) {
    var n := c as int;
    || 9 <= n <= 13 || n == 32 || n == 0xA0 || n == 0x1680 || 0x2000 <= n <= 0x200A
    || n == 0x2028 || n == 0x2029 || n == 0x202F || n == 0x205F || n == 0x3000 || n == 0xFEFF
  }

  function TrimStart(s: string): string { if s != "" && IsSpace(s[0]) then TrimStart(s[1..]) else s }

  function TrimEnd(s: string): string {
    if s != "" && IsSpace(s[|s| - 1]) then TrimEnd(s[..|s| - 1]) else s
  }

  function Trim(s: string): string { TrimEnd(TrimStart(s)) }

  /** The length of the longest run of digits a string opens with. */
  function Run(s: string): (n: nat)
    ensures n <= |s|
  {
    if s == "" || !IsDigit(s[0]) then 0 else Run(s[1..]) + 1
  }

  predicate IsLetter(c: char) { 'a' <= c <= 'z' || 'A' <= c <= 'Z' }

  function Letters(s: string): (n: nat)
    ensures n <= |s|
  {
    if s == "" || !IsLetter(s[0]) then 0 else Letters(s[1..]) + 1
  }

  function Spaces(s: string): (n: nat)
    ensures n <= |s|
  {
    if s == "" || !IsSpace(s[0]) then 0 else Spaces(s[1..]) + 1
  }

  function Lower(s: string): string {
    if s == "" then ""
    else [if 'A' <= s[0] <= 'Z' then (s[0] as int + 32) as char else s[0]] + Lower(s[1..])
  }

  function Least(a: nat, b: nat): nat { if a < b then a else b }

  /** `^(\d{4})-(\d{1,2})(?:-(\d{1,2}))?`: anchored at the start only. */
  function Dashed(t: string): Option<Date> {
    if !(Run(t) == 4 && |t| > 4 && t[4] == '-') then None else
      var k := Least(2, Run(t[5..]));
      if k == 0 then None else
        var rest := t[5 + k..];
        var j := if rest != "" && rest[0] == '-' then Least(2, Run(rest[1..])) else 0;
        Some(Date(Number(t[..4]), Number(t[5..5 + k]), if j == 0 then 1 else Number(rest[1..1 + j])))
  }

  predicate FourDigits(s: string) { |s| == 4 && AllDigits(s) }

  /** `^(\d{1,2})\/(?:(\d{1,2})\/)?(\d{4})$`. */
  function Slashed(t: string): Option<Date> {
    var k := Run(t);
    if !(1 <= k <= 2 && |t| > k && t[k] == '/') then None else
      var rest := t[k + 1..];
      if FourDigits(rest) then Some(Date(Number(rest), Number(t[..k]), 1)) else
        var j := Run(rest);
        if 1 <= j <= 2 && |rest| > j && rest[j] == '/' && FourDigits(rest[j + 1..])
        then Some(Date(Number(rest[j + 1..]), Number(t[..k]), Number(rest[..j])))
        else None
  }

  /** `findIndex`: the first month whose name opens with the word's first three letters. */
  function MonthIndex(word: string, from: nat): Option<nat>
    requires |word| >= 3 && from <= 12
    decreases 12 - from
  {
    if from == 12 then None
    else if Lower(word[..3]) <= Lower(MONTHS[from]) then Some(from)
    else MonthIndex(word, from + 1)
  }

  /** `^([A-Za-z]{3,9})\.?\s+(\d{4})$`. */
  function Worded(t: string): Option<Date> {
    var k := Letters(t);
    if !(3 <= k <= 9) then None else
      var dot := if |t| > k && t[k] == '.' then 1 else 0;
      var rest := t[k + dot..];
      var gap := Spaces(rest);
      if gap == 0 || !FourDigits(rest[gap..]) then None else
        match MonthIndex(t[..k], 0)
        case Some(i) => Some(Date(Number(rest[gap..]), i + 1, 1))
        case None => None
  }

  function ParseDate(s: string): Option<Date> {
    if s == "" then None else FirstForm(Trim(s))
  }

  function FirstForm(t: string): Option<Date> {
    if Dashed(t).Some? then Dashed(t)
    else if Slashed(t).Some? then Slashed(t)
    else if Worded(t).Some? then Worded(t)
    else if FourDigits(t) then Some(Date(Number(t), 1, 1))
    else None
  }

  // ---- the printer ---------------------------------------------------------------------

  /** The branches of `formatDate`, in the order they stand. */
  datatype Style =
    | MonthText | MonthAbbr | MonthList | Year | Day | Day2 | Month
    | SlashMonthDayYear | SlashShortYear | SlashPlain | SlashMonthYear
    | DashYearMonthDay | DashYearMonth | DashAbbrYear | DashMonthYear
    | Comma | Month2 | Today | Otherwise

  predicate At(s: string, p: string, i: nat) { i + |p| <= |s| && s[i..i + |p|] == p }

  predicate Contains(s: string, p: string) { exists i: nat :: i <= |s| && At(s, p, i) }

  predicate EndsWith(s: string, p: string) { |p| <= |s| && s[|s| - |p|..] == p }

  function Dispatch(name: string): Style {
    if Contains(name, "month_text") then MonthText
    else if Contains(name, "month_abbr") then MonthAbbr
    else if EndsWith(name, "_month") then MonthList
    else if EndsWith(name, "_year") || EndsWith(name, "_YYYY") then Year
    else if EndsWith(name, "_day") || EndsWith(name, "_D") then Day
    else if EndsWith(name, "_DD") then Day2
    else if EndsWith(name, "_M") then Month
    else if Contains(name, "slashes_MMDDYYYY") || EndsWith(name, "_MMDDYYYY") then SlashMonthDayYear
    else if Contains(name, "slashes_MDDYY") then SlashShortYear
    else if Contains(name, "slashes_MDYYYY") then SlashPlain
    else if Contains(name, "slashes_MMYYYY") || EndsWith(name, "_MMYYYY") then SlashMonthYear
    else if Contains(name, "dashes_YYYYMMDD") then DashYearMonthDay
    else if Contains(name, "dashes_YYYYMM") then DashYearMonth
    else if Contains(name, "dashes_MMMYYYY") then DashAbbrYear
    else if Contains(name, "dashes_MMYYYY") then DashMonthYear
    else if Contains(name, "month_DD_comma_YYYY") then Comma
    else if EndsWith(name, "_MM") then Month2
    else if "current_date" <= name || "disability_date" <= name || "today" <= name || "birthday" <= name then Today
    else Otherwise
  }

  /** `String(d.y).slice(-2)`. */
  function Last2(s: string): string { if |s| <= 2 then s else s[|s| - 2..] }

  /** `MONTHS[d.m - 1]`, which is undefined for a month that is none. */
  function MonthName(m: nat): Option<string> {
    if 1 <= m <= 12 then Some(MONTHS[m - 1]) else None
  }

  function InTemplate(name: Option<string>): string { if name.Some? then name.value else "undefined" }

  function Print(style: Style, d: Date): Printed {
    match style
    case MonthText => if MonthName(d.m).Some? then Text(MonthName(d.m).value) else Undefined
    case MonthAbbr => if MonthName(d.m).Some? then Text(MonthName(d.m).value[..3]) else Thrown
    case MonthList => Text(Decimal(d.m) + " | " + Pad(d.m) + " | " + InTemplate(MonthName(d.m)))
    case Year => Text(Decimal(d.y))
    case Day => Text(Decimal(d.d))
    case Day2 => Text(Pad(d.d))
    case Month => Text(Decimal(d.m))
    case SlashMonthDayYear => Text(Pad(d.m) + "/" + Pad(d.d) + "/" + Decimal(d.y))
    case SlashShortYear => Text(Decimal(d.m) + "/" + Pad(d.d) + "/" + Last2(Decimal(d.y)))
    case SlashPlain => Text(Decimal(d.m) + "/" + Decimal(d.d) + "/" + Decimal(d.y))
    case SlashMonthYear => Text(Pad(d.m) + "/" + Decimal(d.y))
    case DashYearMonthDay => Text(Decimal(d.y) + "-" + Pad(d.m) + "-" + Pad(d.d))
    case DashYearMonth => Text(Decimal(d.y) + "-" + Pad(d.m))
    case DashAbbrYear => if MonthName(d.m).Some? then Text(MonthName(d.m).value[..3] + "-" + Decimal(d.y)) else Thrown
    case DashMonthYear => Text(Pad(d.m) + "-" + Decimal(d.y))
    case Comma => Text(InTemplate(MonthName(d.m)) + " " + Pad(d.d) + ", " + Decimal(d.y))
    case Month2 => Text(Pad(d.m))
    case Today => Text(Pad(d.m) + "/" + Pad(d.d) + "/" + Decimal(d.y))
    case Otherwise => Text(Pad(d.m) + "/" + Decimal(d.y))
  }

  function FormatDate(name: string, d: Date): Printed { Print(Dispatch(name), d) }

  // ---- what is read back ---------------------------------------------------------------

  /** What the parser makes of each printed form of a date whose year has four digits. */
  function Recovered(style: Style, d: Date): Option<Date> {
    match style
    case SlashMonthDayYear | SlashPlain | DashYearMonthDay | Today => Some(d)
    case SlashMonthYear | DashYearMonth | Otherwise => Some(d.(d := 1))
    case Year => Some(Date(d.y, 1, 1))
    case _ => None
  }

  predicate Valid(d: Date) { 1 <= d.m <= 12 && 1 <= d.d <= 31 }

  lemma NotSpace(c: char)
    requires IsDigit(c) || IsLetter(c)
    ensures !IsSpace(c)
  {
  }

  lemma TrimKeeps(s: string)
    requires s != "" && !IsSpace(s[0]) && !IsSpace(s[|s| - 1])
    ensures Trim(s) == s
  {
  }

  lemma {:induction false} RunOf(a: string, rest: string)
    requires AllDigits(a) && (rest == "" || !IsDigit(rest[0]))
    ensures Run(a + rest) == |a|
  {
    if a == "" {
      assert a + rest == rest;
    } else {
      assert (a + rest)[1..] == a[1..] + rest;
      RunOf(a[1..], rest);
    }
  }

  /** Of a text that opens with a digit, only the numeric forms are left to try. */
  lemma DigitFirst(t: string)
    requires t != "" && IsDigit(t[0]) && !IsSpace(t[|t| - 1])
    ensures ParseDate(t) == Numeric(t)
  {
    NotSpace(t[0]);
    TrimKeeps(t);
    assert Worded(t) == None;
  }

  function Numeric(t: string): Option<Date> {
    if Dashed(t).Some? then Dashed(t)
    else if Slashed(t).Some? then Slashed(t)
    else if FourDigits(t) then Some(Date(Number(t), 1, 1)) else None
  }

  lemma SlashedTail(a: string, rest: string)
    requires AllDigits(a) && 1 <= |a| <= 2
    ensures var t := a + "/" + rest;
            && Run(t) == |a| && Dashed(t) == None && !FourDigits(t)
            && t[..|a|] == a && t[|a| + 1..] == rest
  {
    var t := a + "/" + rest;
    assert t == a + ("/" + rest);
    RunOf(a, "/" + rest);
    assert t[|a|] == '/' && !IsDigit(t[|a|]);
  }

  /** A date whose year is written with four digits, none otherwise. */
  function WithYear(y: string, m: string, d: nat): Option<Date>
  {
    if |y| == 4 then Some(Date(Number(y), Number(m), d)) else None
  }

  lemma SlashedForm(a: string, b: string, y: string)
    requires AllDigits(a) && AllDigits(b) && AllDigits(y) && 1 <= |a| <= 2 && 1 <= |b| <= 2 && y != ""
    ensures Numeric(a + "/" + (b + "/" + y)) == WithYear(y, a, Number(b))
  {
    var rest := b + "/" + y;
    SlashedTail(a, rest);
    SlashedTail(b, y);
    assert (a + "/" + rest)[|a|] == '/' && rest[|b|] == '/';
  }

  /** `a/b/y` reads as a date exactly when y has four digits. */
  lemma SlashedThree(a: string, b: string, y: string)
    requires AllDigits(a) && AllDigits(b) && AllDigits(y) && 1 <= |a| <= 2 && 1 <= |b| <= 2 && y != ""
    ensures ParseDate(a + "/" + b + "/" + y) == WithYear(y, a, Number(b))
  {
    var t := a + "/" + (b + "/" + y);
    assert t == a + "/" + b + "/" + y;
    NotSpace(y[|y| - 1]);
    SlashedForm(a, b, y);
    DigitFirst(t);
  }

  /** `a/y` reads as the first of a month exactly when y has four digits. */
  lemma SlashedTwo(a: string, y: string)
    requires AllDigits(a) && AllDigits(y) && 1 <= |a| <= 2 && y != ""
    ensures ParseDate(a + "/" + y) == WithYear(y, a, 1)
  {
    var t := a + "/" + y;
    SlashedTail(a, y);
    NotSpace(y[|y| - 1]);
    DigitFirst(t);
    RunAll(y);
    assert t[|a|] == '/';
  }

  lemma DashedHead(y: string, rest: string)
    requires AllDigits(y) && y != ""
    ensures var t := y + "-" + rest;
            && Run(t) == |y| && Slashed(t) == None && !FourDigits(t)
            && t[|y|] == '-' && t[..|y|] == y && t[|y| + 1..] == rest
  {
    var t := y + "-" + rest;
    assert t == y + ("-" + rest);
    RunOf(y, "-" + rest);
    assert t[|y|] == '-' && !IsDigit(t[|y|]);
  }

  /** What the dashed form takes from the text after the year. */
  lemma DashedParts(y: string, m: string, rest: string)
    requires FourDigits(y) && AllDigits(m) && |m| == 2
    requires rest == "" || (|rest| == 3 && rest[0] == '-' && AllDigits(rest[1..]))
    ensures Dashed(y + "-" + (m + rest)) ==
            Some(Date(Number(y), Number(m), if rest == "" then 1 else Number(rest[1..])))
  {
    var t := y + "-" + (m + rest);
    DashedHead(y, m + rest);
    RunOf(m, rest);
    assert t[5..5 + 2] == m && t[5 + 2..] == rest;
    if rest != "" { RunAll(rest[1..]); assert rest[1..1 + 2] == rest[1..]; }
  }

  lemma DashedForm(y: string, m: string, rest: string)
    requires AllDigits(y) && AllDigits(m) && y != "" && |m| == 2
    requires rest == "" || (|rest| == 3 && rest[0] == '-' && AllDigits(rest[1..]))
    ensures Numeric(y + "-" + (m + rest)) == WithYear(y, m, if rest == "" then 1 else Number(rest[1..]))
  {
    DashedHead(y, m + rest);
    if |y| == 4 { DashedParts(y, m, rest); }
  }

  /** `y-m` and `y-m-d` read as a date exactly when y has four digits. */
  lemma DashedTwo(y: string, m: string)
    requires AllDigits(y) && AllDigits(m) && y != "" && |m| == 2
    ensures ParseDate(y + "-" + m) == WithYear(y, m, 1)
  {
    assert m + "" == m;
    NotSpace(m[1]);
    DashedForm(y, m, "");
    DigitFirst(y + "-" + m);
  }

  lemma DashedThree(y: string, m: string, d: string)
    requires AllDigits(y) && AllDigits(m) && AllDigits(d) && y != "" && |m| == 2 && |d| == 2
    ensures ParseDate(y + "-" + m + "-" + d) == WithYear(y, m, Number(d))
  {
    var rest := "-" + d;
    assert rest[1..] == d;
    assert y + "-" + (m + rest) == y + "-" + m + "-" + d;
    NotSpace(d[1]);
    DashedForm(y, m, rest);
    DigitFirst(y + "-" + (m + rest));
  }

  lemma RunAll(a: string)
    requires AllDigits(a)
    ensures Run(a) == |a|
  {
    RunOf(a, "");
    assert a + "" == a;
  }

  lemma NoSeparator(t: string)
    requires AllDigits(t)
    ensures Dashed(t) == None && Slashed(t) == None
  {
    RunAll(t);
  }

  lemma DigitsOnly(y: string)
    requires AllDigits(y) && y != ""
    ensures ParseDate(y) == LoneYear(y)
  {
    NotSpace(y[|y| - 1]);
    DigitFirst(y);
    NoSeparator(y);
  }

  /** Digits alone are a year when there are four of them. */
  function LoneYear(y: string): Option<Date> {
    if |y| == 4 then Some(Date(Number(y), 1, 1)) else None
  }

  /** One or two digits before anything but a digit or a slash open no date. */
  lemma OddTextFails(a: string, rest: string)
    requires AllDigits(a) && 1 <= |a| <= 2 && rest != "" && !IsDigit(rest[0]) && rest[0] != '/'
    requires !IsSpace(rest[|rest| - 1])
    ensures ParseDate(a + rest) == None
  {
    var t := a + rest;
    DigitFirst(t);
    RunOf(a, rest);
    assert t[|a|] == rest[0];
  }

  lemma {:induction false} LettersOf(a: string, rest: string)
    requires AllLetters(a) && (rest == "" || !IsLetter(rest[0]))
    ensures Letters(a + rest) == |a|
  {
    if a == "" {
      assert a + rest == rest;
    } else {
      assert (a + rest)[1..] == a[1..] + rest;
      LettersOf(a[1..], rest);
    }
  }

  /** A word followed by no blank, or by a blank and something longer than a year, is no date. */
  lemma WordFails(w: string, rest: string)
    requires w != "" && AllLetters(w)
    requires rest == "" || (!IsLetter(rest[0]) && rest[0] != '.' && !IsSpace(rest[|rest| - 1]))
    requires rest == "" || !IsSpace(rest[0]) || (|rest| > 5 && !IsSpace(rest[1]))
    ensures ParseDate(w + rest) == None
  {
    var t := w + rest;
    NotSpace(w[0]);
    NotSpace(w[|w| - 1]);
    TrimKeeps(t);
    assert t[0] == w[0] && Run(t) == 0;
    LettersOf(w, rest);
    assert t[|w|..] == rest;
    if rest != "" && IsSpace(rest[0]) {
      assert rest[1..][0] == rest[1];
      assert Spaces(rest[1..]) == 0 && Spaces(rest) == 1;
    }
  }

  predicate AllLetters(s: string) { forall i :: 0 <= i < |s| ==> IsLetter(s[i]) }

  lemma MonthNames(m: nat)
    requires 1 <= m <= 12
    ensures |MONTHS[m - 1]| >= 3 && AllLetters(MONTHS[m - 1])
  {
  }

  /** The whole table: every printed form of every valid date, read back. A form gives back what
      `Recovered` says when the year has four digits, and no date at all otherwise. */
  lemma PrintedDatesReadBack(style: Style, d: Date)
    requires Valid(d)
    ensures Print(style, d).Text?
    ensures ParseDate(Print(style, d).s) == if 1000 <= d.y <= 9999 then Recovered(style, d) else None
  {
    if style in {MonthText, MonthAbbr, MonthList, DashAbbrYear, DashMonthYear, Comma} {
      WordedFormsFail(style, d);
    } else if style in {Year, Day, Day2, Month, Month2} {
      LoneNumberRead(style, d);
    } else {
      SeparatedRead(style, d);
    }
  }

  lemma LoneNumberRead(style: Style, d: Date)
    requires Valid(d) && style in {Year, Day, Day2, Month, Month2}
    ensures Print(style, d).Text?
    ensures ParseDate(Print(style, d).s) == if 1000 <= d.y <= 9999 then Recovered(style, d) else None
  {
    var text := Print(style, d).s;
    PadReads(d.m); PadReads(d.d);
    NumberOfDecimal(d.y);
    DecimalLength(d.y); DecimalLength(d.m); DecimalLength(d.d);
    DigitsOnly(text);
  }

  lemma SeparatedRead(style: Style, d: Date)
    requires Valid(d)
    requires style in {SlashMonthDayYear, SlashShortYear, SlashPlain, SlashMonthYear, DashYearMonthDay, DashYearMonth, Today, Otherwise}
    ensures Print(style, d).Text?
    ensures ParseDate(Print(style, d).s) == if 1000 <= d.y <= 9999 then Recovered(style, d) else None
  {
    var y, m, day := Decimal(d.y), Pad(d.m), Pad(d.d);
    PadReads(d.m); PadReads(d.d);
    NumberOfDecimal(d.y);
    DecimalLength(d.y);
    match style
    case SlashMonthDayYear => SlashedThree(m, day, y);
    case SlashShortYear => UnpaddedRead(style, d);
    case SlashPlain => UnpaddedRead(style, d);
    case SlashMonthYear => SlashedTwo(m, y);
    case DashYearMonthDay => DashedThree(y, m, day);
    case DashYearMonth => DashedTwo(y, m);
    case Today => SlashedThree(m, day, y);
    case Otherwise => SlashedTwo(m, y);
  }

  lemma UnpaddedRead(style: Style, d: Date)
    requires Valid(d) && style in {SlashShortYear, SlashPlain}
    ensures ParseDate(Print(style, d).s) == if 1000 <= d.y <= 9999 then Recovered(style, d) else None
  {
    DecimalLength(d.y); DecimalLength(d.m); DecimalLength(d.d);
    NumberOfDecimal(d.y); NumberOfDecimal(d.m); NumberOfDecimal(d.d);
    if style == SlashPlain {
      SlashedThree(Decimal(d.m), Decimal(d.d), Decimal(d.y));
    } else {
      PadReads(d.d);
      SlashedThree(Decimal(d.m), Pad(d.d), Last2(Decimal(d.y)));
    }
  }

  lemma WordedFormsFail(style: Style, d: Date)
    requires Valid(d) && style in {MonthText, MonthAbbr, MonthList, DashAbbrYear, DashMonthYear, Comma}
    ensures Print(style, d).Text? && ParseDate(Print(style, d).s) == None
  {
    var y, m, day, name := Decimal(d.y), Pad(d.m), Pad(d.d), MONTHS[d.m - 1];
    MonthNames(d.m);
    PadReads(d.m);
    NotSpace(y[|y| - 1]);
    match style
    case MonthText => assert name + "" == name; WordFails(name, "");
    case MonthAbbr => assert name[..3] + "" == name[..3]; WordFails(name[..3], "");
    case MonthList => MonthListFails(d);
    case DashAbbrYear =>
      assert Print(style, d).s == name[..3] + ("-" + y);
      WordFails(name[..3], "-" + y);
    case DashMonthYear =>
      assert m + "-" + y == m + ("-" + y);
      OddTextFails(m, "-" + y);
    case Comma => CommaFails(d);
  }

  lemma MonthListFails(d: Date)
    requires Valid(d)
    ensures ParseDate(Print(MonthList, d).s) == None
  {
    MonthNames(d.m);
    ListedFails(Decimal(d.m), Pad(d.m), MONTHS[d.m - 1]);
    DecimalLength(d.m);
  }

  lemma ListedFails(a: string, m: string, name: string)
    requires AllDigits(a) && name != "" && AllLetters(name)
    ensures 1 <= |a| <= 2 ==> ParseDate(a + " | " + m + " | " + name) == None
  {
    var rest := " | " + m + " | " + name;
    assert a + " | " + m + " | " + name == a + rest;
    NotSpace(name[|name| - 1]);
    assert rest[|rest| - 1] == name[|name| - 1] && rest[0] == ' ';
    if 1 <= |a| <= 2 { OddTextFails(a, rest); }
  }

  lemma CommaTextFails(name: string, day: string, y: string)
    requires name != "" && AllLetters(name) && AllDigits(day) && |day| >= 2 && AllDigits(y) && y != ""
    ensures ParseDate(name + " " + day + ", " + y) == None
  {
    hide ParseDate;
    var rest := " " + day + ", " + y;
    assert name + " " + day + ", " + y == name + rest;
    NotSpace(y[|y| - 1]);
    NotSpace(day[0]);
    assert rest[|rest| - 1] == y[|y| - 1] && rest[0] == ' ' && rest[1] == day[0];
    WordFails(name, rest);
  }

  lemma CommaFails(d: Date)
    requires Valid(d)
    ensures ParseDate(Print(Comma, d).s) == None
  {
    MonthNames(d.m);
    hide ParseDate;
    CommaTextFails(MONTHS[d.m - 1], Pad(d.d), Decimal(d.y));
  }

  // ---- which names reach which form ----------------------------------------------------

  lemma LacksChar(s: string, p: string, c: char)
    requires c in p && c !in s
    ensures !Contains(s, p) && !EndsWith(s, p)
  {
    var k :| 0 <= k < |p| && p[k] == c;
    forall i: nat | i <= |s| ensures !At(s, p, i) {
      if i + |p| <= |s| { assert s[i..i + |p|][k] == s[i + k]; }
    }
    if |p| <= |s| { assert s[|s| - |p|..][k] == s[|s| - |p| + k]; }
  }

  /** A name that ends in `tail` does not end in `p`, when the two endings differ at `k`. */
  lemma EndsDiffer(s: string, tail: string, p: string, k: nat)
    requires EndsWith(s, tail) && k < |p| <= |tail| && tail[|tail| - |p| + k] != p[k]
    ensures !EndsWith(s, p)
  {
    assert s[|s| - |tail|..][|tail| - |p| + k] == s[|s| - |p| + k];
    assert s[|s| - |p|..][k] == s[|s| - |p| + k];
  }

  /** None of the short endings the first branches ask for. */
  predicate LongEnding(s: string) {
    && !EndsWith(s, "_month") && !EndsWith(s, "_year") && !EndsWith(s, "_YYYY") && !EndsWith(s, "_day")
    && !EndsWith(s, "_D") && !EndsWith(s, "_DD") && !EndsWith(s, "_M")
  }

  lemma LongEndings(s: string, tail: string)
    requires EndsWith(s, tail) && |tail| >= 6
    requires tail[|tail| - 1] in "YMD" && tail[|tail| - 2] != '_' && tail[|tail| - 3] != '_' && tail[|tail| - 5] != '_'
    ensures LongEnding(s)
  {
    EndsDiffer(s, tail, "_month", 5); EndsDiffer(s, tail, "_year", 0); EndsDiffer(s, tail, "_YYYY", 0);
    EndsDiffer(s, tail, "_day", 3); EndsDiffer(s, tail, "_D", 0); EndsDiffer(s, tail, "_DD", 0);
    EndsDiffer(s, tail, "_M", 0);
  }

  lemma EndingHolds(s: string, tail: string)
    requires EndsWith(s, tail)
    ensures Contains(s, tail)
  {
    assert At(s, tail, |s| - |tail|);
  }

  predicate NoMonthMark(s: string) { !Contains(s, "month_text") && !Contains(s, "month_abbr") }

  /** Names that end in a format reach that format's branch, unless they hold an earlier
      branch's mark as well. */
  lemma SlashMonthDayYearNames(s: string)
    requires EndsWith(s, "slashes_MMDDYYYY") && NoMonthMark(s)
    ensures Dispatch(s) == SlashMonthDayYear
  {
    hide Contains, EndsWith;
    LongEndings(s, "slashes_MMDDYYYY");
    EndingHolds(s, "slashes_MMDDYYYY");
  }

  lemma SlashPlainNames(s: string)
    requires EndsWith(s, "slashes_MDYYYY") && NoMonthMark(s)
    requires !Contains(s, "slashes_MMDDYYYY") && !Contains(s, "slashes_MDDYY")
    ensures Dispatch(s) == SlashPlain
  {
    hide Contains, EndsWith;
    LongEndings(s, "slashes_MDYYYY");
    EndingHolds(s, "slashes_MDYYYY");
    EndsDiffer(s, "slashes_MDYYYY", "_MMDDYYYY", 2);
  }

  lemma SlashMonthYearNames(s: string)
    requires EndsWith(s, "slashes_MMYYYY") && NoMonthMark(s)
    requires !Contains(s, "slashes_MMDDYYYY") && !Contains(s, "slashes_MDDYY") && !Contains(s, "slashes_MDYYYY")
    ensures Dispatch(s) == SlashMonthYear
  {
    hide Contains, EndsWith;
    LongEndings(s, "slashes_MMYYYY");
    EndingHolds(s, "slashes_MMYYYY");
    EndsDiffer(s, "slashes_MMYYYY", "_MMDDYYYY", 2);
  }

  predicate NoSlashMark(s: string) {
    && !Contains(s, "slashes_MMDDYYYY") && !Contains(s, "slashes_MDDYY")
    && !Contains(s, "slashes_MDYYYY") && !Contains(s, "slashes_MMYYYY")
  }

  lemma DashYearMonthDayNames(s: string)
    requires EndsWith(s, "dashes_YYYYMMDD") && NoMonthMark(s) && NoSlashMark(s)
    ensures Dispatch(s) == DashYearMonthDay
  {
    hide Contains, EndsWith;
    LongEndings(s, "dashes_YYYYMMDD");
    EndingHolds(s, "dashes_YYYYMMDD");
    EndsDiffer(s, "dashes_YYYYMMDD", "_MMDDYYYY", 8);
    EndsDiffer(s, "dashes_YYYYMMDD", "_MMYYYY", 6);
  }

  lemma DashYearMonthNames(s: string)
    requires EndsWith(s, "dashes_YYYYMM") && NoMonthMark(s) && NoSlashMark(s) && !Contains(s, "dashes_YYYYMMDD")
    ensures Dispatch(s) == DashYearMonth
  {
    hide Contains, EndsWith;
    LongEndings(s, "dashes_YYYYMM");
    EndingHolds(s, "dashes_YYYYMM");
    EndsDiffer(s, "dashes_YYYYMM", "_MMDDYYYY", 8);
    EndsDiffer(s, "dashes_YYYYMM", "_MMYYYY", 6);
  }

  lemma EndsWithin(s: string, tail: string, p: string)
    requires EndsWith(s, tail) && EndsWith(tail, p)
    ensures EndsWith(s, p)
  {
    assert s[|s| - |p|..] == s[|s| - |tail|..][|tail| - |p|..];
  }

  /** Two branches are shadowed. A name that ends in `dashes_MMYYYY` is printed with a slash, or
      by a still earlier branch, */
  lemma DashMonthYearIsShadowed(name: string)
    requires EndsWith(name, "dashes_MMYYYY")
    ensures Dispatch(name) !in {DashYearMonthDay, DashYearMonth, DashAbbrYear, DashMonthYear}
  {
    hide Contains, EndsWith;
    EndsWithin(name, "dashes_MMYYYY", "_MMYYYY");
  }

  /** and one that ends in `month_DD_comma_YYYY` as a year at most. */
  lemma CommaIsShadowed(name: string)
    requires EndsWith(name, "month_DD_comma_YYYY")
    ensures Dispatch(name) in {MonthText, MonthAbbr, Year}
  {
    hide Contains, EndsWith;
    EndsWithin(name, "month_DD_comma_YYYY", "_YYYY");
    EndsDiffer(name, "month_DD_comma_YYYY", "_month", 5);
  }

  /** A name with no underscore carries no format at all. */
  lemma BareNames(s: string)
    requires '_' !in s
    ensures Dispatch(s) == if "today" <= s || "birthday" <= s then Today else Otherwise
  {
    NoUnderscoreEndings(s);
    NoUnderscoreMarks(s);
    LacksChar(s, "_MMDDYYYY", '_'); LacksChar(s, "_MMYYYY", '_'); LacksChar(s, "_MM", '_');
    assert "current_date"[7] == '_' && "disability_date"[10] == '_';
  }

  lemma NoUnderscoreEndings(s: string)
    requires '_' !in s
    ensures LongEnding(s) && NoMonthMark(s)
  {
    LacksChar(s, "month_text", '_'); LacksChar(s, "month_abbr", '_'); LacksChar(s, "_month", '_');
    LacksChar(s, "_year", '_'); LacksChar(s, "_YYYY", '_'); LacksChar(s, "_day", '_'); LacksChar(s, "_D", '_');
    LacksChar(s, "_DD", '_'); LacksChar(s, "_M", '_');
  }

  lemma NoUnderscoreMarks(s: string)
    requires '_' !in s
    ensures NoSlashMark(s) && !Contains(s, "dashes_YYYYMMDD") && !Contains(s, "dashes_YYYYMM")
    ensures !Contains(s, "dashes_MMMYYYY") && !Contains(s, "dashes_MMYYYY") && !Contains(s, "month_DD_comma_YYYY")
  {
    LacksChar(s, "slashes_MMDDYYYY", '_'); LacksChar(s, "slashes_MDDYY", '_');
    LacksChar(s, "slashes_MDYYYY", '_'); LacksChar(s, "slashes_MMYYYY", '_');
    LacksChar(s, "dashes_YYYYMMDD", '_'); LacksChar(s, "dashes_YYYYMM", '_');
    LacksChar(s, "dashes_MMMYYYY", '_'); LacksChar(s, "dashes_MMYYYY", '_');
    LacksChar(s, "month_DD_comma_YYYY", '_');
  }

  /** What `formatDate` writes for a name, `parseDate` reads back as `Recovered` says. */
  lemma FormatThenParse(name: string, d: Date)
    requires Valid(d)
    ensures FormatDate(name, d).Text?
    ensures ParseDate(FormatDate(name, d).s) == if 1000 <= d.y <= 9999 then Recovered(Dispatch(name), d) else None
  {
    PrintedDatesReadBack(Dispatch(name), d);
  }
}
