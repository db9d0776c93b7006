/**
 * The date normaliser of preprocess/preprocess.py (`convert_date_format`):
 * a date string is tried against three patterns in a fixed order and the
 * first one that parses is re-emitted as `YYYY-MM-DD`.
 *
 * The parsing library behind the patterns is not part of this model; its
 * grammar is written out here. A pattern accepts exactly ten characters: a
 * four-digit year, a two-digit month and a two-digit day (one-digit month or
 * day fields are not accepted), separated by the pattern's separator, and the
 * three numbers must name a real day of the proleptic Gregorian calendar with
 * a year from 1 to 9999.
 */
module DateNormalizer {
  import opened Wrappers
  import opened Digits

  datatype Date = Date(year: nat, month: nat, day: nat)

  /** Gregorian rule: every fourth year, except centuries not divisible by 400. */
  predicate IsLeapYear(year: int) {
    year % 4 == 0 && (year % 100 != 0 || year % 400 == 0)
  }

  function DaysInMonth(year: int, month: int): (n: int)
    requires 1 <= month <= 12
    ensures 28 <= n <= 31
    ensures n < 30 <==> month == 2
    ensures n == 29 <==> month == 2 && IsLeapYear(year)
  {
    if month == 2 then (if IsLeapYear(year) then 29 else 28)
    else if month == 4 || month == 6 || month == 9 || month == 11 then 30
    else 31
  }

  predicate IsValidDate(d: Date) {
    1 <= d.year <= 9999 && 1 <= d.month <= 12 && 1 <= d.day <= DaysInMonth(d.year, d.month)
  }

  /** Which field a pattern starts with; the month is always in the middle. */
  datatype FieldOrder = YearFirst | DayFirst

  datatype Pattern = Pattern(order: FieldOrder, sep: char)

  /** `%Y-%m-%d` */
  const YEAR_MONTH_DAY_DASH := Pattern(YearFirst, '-')
  /** `%d-%m-%Y` */
  const DAY_MONTH_YEAR_DASH := Pattern(DayFirst, '-')
  /** `%d/%m/%Y` */
  const DAY_MONTH_YEAR_SLASH := Pattern(DayFirst, '/')

  /** The patterns in the order they are tried. */
  const PATTERNS: seq<Pattern> := [YEAR_MONTH_DAY_DASH, DAY_MONTH_YEAR_DASH, DAY_MONTH_YEAR_SLASH]

  /** The message of the error raised when no pattern parses. */
  function ParseErrorMessage(s: string): string {
    "Unable to parse date: " + s
  }

  /** A valid date written in pattern `p`. */
  function Render(d: Date, p: Pattern): string
    requires IsValidDate(d)
  {
    var year, month, day := PadDigits(d.year, 4), PadDigits(d.month, 2), PadDigits(d.day, 2);
    match p.order
    case YearFirst => year + [p.sep] + month + [p.sep] + day
    case DayFirst => day + [p.sep] + month + [p.sep] + year
  }

  /** The canonical `YYYY-MM-DD` shape: ten characters, dashes at 4 and 7, digits elsewhere. */
  predicate IsIsoShape(s: string) {
    |s| == 10 && forall i :: 0 <= i < 10 ==> if i == 4 || i == 7 then s[i] == '-' else IsDigit(s[i])
  }

  /** `strftime('%Y-%m-%d')` of a parsed date. */
  function FormatIso(d: Date): (r: string)
    requires IsValidDate(d)
    ensures IsIsoShape(r)
  {
    Render(d, YEAR_MONTH_DAY_DASH)
  }

  /** Where the fields and the two separators sit in a ten-character string. */
  datatype Layout = Layout(year: nat, month: nat, day: nat, sep1: nat, sep2: nat)

  function LayoutOf(order: FieldOrder): Layout {
    match order
    case YearFirst => Layout(0, 5, 8, 4, 7)
    case DayFirst => Layout(6, 3, 0, 2, 5)
  }

  /** A strict parse of `s` under pattern `p`: the whole string must match and name a real day. */
  function ParseWith(s: string, p: Pattern): (r: Option<Date>)
    ensures r.Some? ==> IsValidDate(r.value)
  {
    var at := LayoutOf(p.order);
    if |s| == 10 && s[at.sep1] == p.sep && s[at.sep2] == p.sep
       && AllDigits(s[at.year..at.year + 4])
       && AllDigits(s[at.month..at.month + 2])
       && AllDigits(s[at.day..at.day + 2])
    then
      var d := Date(DigitsValue(s[at.year..at.year + 4]),
                    DigitsValue(s[at.month..at.month + 2]),
                    DigitsValue(s[at.day..at.day + 2]));
      if IsValidDate(d) then Some(d) else None
    else
      None
  }

  /** Parsing under a pattern accepts exactly the renderings of valid dates in that pattern. */
  lemma ParseRender(s: string, p: Pattern, d: Date)
    ensures ParseWith(s, p) == Some(d) <==> IsValidDate(d) && s == Render(d, p)
  {
    if IsValidDate(d) && s == Render(d, p) {
      RenderParses(d, p);
    }
    if ParseWith(s, p) == Some(d) {
      ParsedIsRendered(s, p);
    }
  }

  lemma RenderParses(d: Date, p: Pattern)
    requires IsValidDate(d)
    ensures ParseWith(Render(d, p), p) == Some(d)
  {
    var s, at := Render(d, p), LayoutOf(p.order);
    assert s[at.year..at.year + 4] == PadDigits(d.year, 4);
    assert s[at.month..at.month + 2] == PadDigits(d.month, 2);
    assert s[at.day..at.day + 2] == PadDigits(d.day, 2);
    assert Pow10(4) == 10000;
    PadDigitsValue(d.year, 4);
    PadDigitsValue(d.month, 2);
    PadDigitsValue(d.day, 2);
  }

  lemma ParsedIsRendered(s: string, p: Pattern)
    requires ParseWith(s, p).Some?
    ensures s == Render(ParseWith(s, p).value, p)
  {
    var d, at := ParseWith(s, p).value, LayoutOf(p.order);
    var year, month, day := s[at.year..at.year + 4], s[at.month..at.month + 2], s[at.day..at.day + 2];
    DigitsValuePadded(year);
    DigitsValuePadded(month);
    DigitsValuePadded(day);
    assert PadDigits(d.year, 4) == year && PadDigits(d.month, 2) == month && PadDigits(d.day, 2) == day;
    match p.order
    case YearFirst =>
      assert Render(d, p) == year + [p.sep] + month + [p.sep] + day;
      SplitTen(s, 4, 7);
    case DayFirst =>
      assert Render(d, p) == day + [p.sep] + month + [p.sep] + year;
      SplitTen(s, 2, 5);
  }

  /** A ten-character string is its three fields around the two separator positions. */
  lemma SplitTen(s: string, a: nat, b: nat)
    requires |s| == 10 && a < b < 10
    ensures s == s[..a] + [s[a]] + s[a + 1..b] + [s[b]] + s[b + 1..]
  {
  }

  /**
   * The first pattern of `ps` under which `s` parses, tried in order; a
   * later pattern is only looked at when every earlier one failed.
   */
  function FirstMatch(s: string, ps: seq<Pattern>): (r: Option<Date>)
    ensures r.None? <==> forall i :: 0 <= i < |ps| ==> ParseWith(s, ps[i]).None?
    ensures r.Some? ==> exists i :: 0 <= i < |ps| && ParseWith(s, ps[i]) == r
                                 && forall j :: 0 <= j < i ==> ParseWith(s, ps[j]).None?
  {
    if ps == [] then None
    else match ParseWith(s, ps[0])
      case Some(d) => Some(d)
      case None =>
        var r := FirstMatch(s, ps[1..]);
        FirstMatchShift(s, ps, r);
        r
  }

  /** A match found in the tail, after the head failed, is a first match of the whole list. */
  lemma FirstMatchShift(s: string, ps: seq<Pattern>, r: Option<Date>)
    requires |ps| > 0 && ParseWith(s, ps[0]).None?
    requires r.Some? ==> exists i :: 0 <= i < |ps| - 1 && ParseWith(s, ps[1..][i]) == r
                                  && forall j :: 0 <= j < i ==> ParseWith(s, ps[1..][j]).None?
    ensures r.Some? ==> exists i :: 1 <= i < |ps| && ParseWith(s, ps[i]) == r
                                 && forall j :: 0 <= j < i ==> ParseWith(s, ps[j]).None?
  {
    if r.Some? {
      var i :| 0 <= i < |ps| - 1 && ParseWith(s, ps[1..][i]) == r
               && forall j :: 0 <= j < i ==> ParseWith(s, ps[1..][j]).None?;
      assert ParseWith(s, ps[i + 1]) == r;
      forall j | 0 <= j < i + 1
        ensures ParseWith(s, ps[j]).None?
      {
        if j > 0 { assert ps[j] == ps[1..][j - 1]; }
      }
    }
  }

  /** `convert_date_format` as a function of the input string. */
  function NormalizeDate(s: string): (r: Result<string, string>)
    ensures r.Ok? ==> IsIsoShape(r.value)
  {
    match FirstMatch(s, PATTERNS)
    case Some(d) => Ok(FormatIso(d))
    case None => Err(ParseErrorMessage(s))
  }

  /**
   * The source's loop: try each pattern in order and return on the first
   * success; raise the parse error once all three have failed.
   */
  method ConvertDateFormat(s: string) returns (r: Result<string, string>)
    ensures r == NormalizeDate(s)
  {
    for i := 0 to |PATTERNS|
      invariant FirstMatch(s, PATTERNS) == FirstMatch(s, PATTERNS[i..])
    {
      var parsed := ParseWith(s, PATTERNS[i]);
      if parsed.Some? {
        return Ok(FormatIso(parsed.value));
      }
      assert PATTERNS[i..][1..] == PATTERNS[i + 1..];
    }
    return Err(ParseErrorMessage(s));
  }

  /**
   * First match wins: the result is that of the first pattern that parses,
   * whatever the later patterns would have given.
   */
  lemma NormalizeDateFirstMatchWins(s: string, i: nat)
    requires i < |PATTERNS| && ParseWith(s, PATTERNS[i]).Some?
    requires forall j :: 0 <= j < i ==> ParseWith(s, PATTERNS[j]).None?
    ensures NormalizeDate(s) == Ok(FormatIso(ParseWith(s, PATTERNS[i]).value))
  {
    var r := FirstMatch(s, PATTERNS);
    var k :| 0 <= k < |PATTERNS| && ParseWith(s, PATTERNS[k]) == r
             && forall j :: 0 <= j < k ==> ParseWith(s, PATTERNS[j]).None?;
    assert !(k < i) && !(i < k);
  }

  /**
   * Failure: the normaliser fails exactly when the string is not a valid
   * date written in any of the three patterns, and the error names the input.
   */
  lemma NormalizeDateFails(s: string)
    ensures NormalizeDate(s).Err? <==> forall d, p :: p in PATTERNS && IsValidDate(d) ==> Render(d, p) != s
    ensures NormalizeDate(s).Err? ==> NormalizeDate(s).error == ParseErrorMessage(s)
  {
    if NormalizeDate(s).Err? {
      forall d, p | p in PATTERNS && IsValidDate(d) ensures Render(d, p) != s {
        ParseRender(s, p, d);
      }
    } else {
      var i :| 0 <= i < |PATTERNS| && ParseWith(s, PATTERNS[i]) == FirstMatch(s, PATTERNS);
      var d := ParseWith(s, PATTERNS[i]).value;
      ParseRender(s, PATTERNS[i], d);
    }
  }

  /** When no pattern parses, the result is the error naming the input. */
  lemma NormalizeDateRejects(s: string)
    requires forall i :: 0 <= i < |PATTERNS| ==> ParseWith(s, PATTERNS[i]).None?
    ensures NormalizeDate(s) == Err(ParseErrorMessage(s))
  {
    assert FirstMatch(s, PATTERNS).None?;
  }

  /** The strings that are already in canonical form. */
  ghost predicate IsCanonicalDate(s: string) {
    exists d :: IsValidDate(d) && FormatIso(d) == s
  }

  /** A canonical date is returned unchanged, and nothing else is returned unchanged. */
  lemma NormalizeDateFixedPoints(s: string)
    ensures NormalizeDate(s) == Ok(s) <==> IsCanonicalDate(s)
  {
    if IsCanonicalDate(s) {
      var d :| IsValidDate(d) && FormatIso(d) == s;
      ParseRender(s, YEAR_MONTH_DAY_DASH, d);
      NormalizeDateFirstMatchWins(s, 0);
    }
    if NormalizeDate(s) == Ok(s) {
      var d := FirstMatch(s, PATTERNS).value;
      assert FormatIso(d) == s;
    }
  }

  /** Idempotence: normalising a normalised date gives it back. */
  lemma NormalizeDateIdempotent(s: string)
    requires NormalizeDate(s).Ok?
    ensures NormalizeDate(NormalizeDate(s).value) == NormalizeDate(s)
  {
    var r := NormalizeDate(s).value;
    assert FormatIso(FirstMatch(s, PATTERNS).value) == r;
    NormalizeDateFixedPoints(r);
  }
}
