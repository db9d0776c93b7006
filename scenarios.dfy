/**
 * Worked examples: single dates through the normaliser, and single-row
 * tables through the pipeline.
 */
module Scenarios {
  import opened Wrappers
  import opened Digits
  import opened DateNormalizer
  import opened RowPipeline

  /** A string of the wrong length, or without the pattern's first separator, does not parse. */
  lemma SeparatorMismatch(s: string, p: Pattern)
    requires |s| == 10 ==> s[LayoutOf(p.order).sep1] != p.sep
    ensures ParseWith(s, p).None?
  {
  }

  /** The value of a four-digit year string, one digit at a time. */
  lemma YearValue(t: string, n: nat)
    requires |t| == 4 && AllDigits(t)
    requires n == ((DigitValue(t[0]) * 10 + DigitValue(t[1])) * 10 + DigitValue(t[2])) * 10 + DigitValue(t[3])
    ensures DigitsValue(t) == n
  {
    assert t[..1][..0] == [];
    assert DigitsValue(t[..1]) == DigitValue(t[0]);
    assert t[..2][..1] == t[..1];
    assert DigitsValue(t[..2]) == DigitValue(t[0]) * 10 + DigitValue(t[1]);
    assert t[..3][..2] == t[..2];
    assert DigitsValue(t[..3]) == DigitsValue(t[..2]) * 10 + DigitValue(t[2]);
    assert t[..4] == t;
  }

  lemma PaddedYear(n: nat, t: string)
    requires (n == 2021 && t == "2021") || (n == 2020 && t == "2020")
    ensures PadDigits(n, 4) == t
  {
    YearValue(t, n);
    DigitsValuePadded(t);
  }

  lemma PaddedField(n: nat, t: string)
    requires (n == 1 && t == "01") || (n == 2 && t == "02") || (n == 3 && t == "03") || (n == 5 && t == "05")
    ensures PadDigits(n, 2) == t
  {
    DigitsValuePadded(t);
  }

  lemma Written20210305()
    ensures Render(Date(2021, 3, 5), DAY_MONTH_YEAR_DASH) == "05-03-2021"
    ensures FormatIso(Date(2021, 3, 5)) == "2021-03-05"
  {
    PaddedYear(2021, "2021");
    PaddedField(3, "03");
    PaddedField(5, "05");
  }

  lemma Written20200201()
    ensures Render(Date(2020, 2, 1), DAY_MONTH_YEAR_SLASH) == "01/02/2020"
    ensures FormatIso(Date(2020, 2, 1)) == "2020-02-01"
  {
    PaddedYear(2020, "2020");
    PaddedField(2, "02");
    PaddedField(1, "01");
  }

  lemma Written20210301()
    ensures IsValidDate(Date(2021, 3, 1)) && FormatIso(Date(2021, 3, 1)) == "2021-03-01"
  {
    PaddedYear(2021, "2021");
    PaddedField(3, "03");
    PaddedField(1, "01");
  }

  lemma IsoDateFixed()
    ensures NormalizeDate("2021-03-01") == Ok("2021-03-01")
  {
    Written20210301();
    NormalizeDateFixedPoints("2021-03-01");
  }

  /** Day first with dashes: the first pattern fails on the separator positions, the second parses. */
  lemma DayFirstDashDate(s: string)
    requires s == "05-03-2021"
    ensures NormalizeDate(s) == Ok("2021-03-05")
  {
    var d := Date(2021, 3, 5);
    Written20210305();
    ParseRender(s, DAY_MONTH_YEAR_DASH, d);
    SeparatorMismatch(s, YEAR_MONTH_DAY_DASH);
    NormalizeDateFirstMatchWins(s, 1);
  }

  lemma DayFirstSlashDate(s: string)
    requires s == "01/02/2020"
    ensures NormalizeDate(s) == Ok("2020-02-01")
  {
    var d := Date(2020, 2, 1);
    Written20200201();
    ParseRender(s, DAY_MONTH_YEAR_SLASH, d);
    SeparatorMismatch(s, YEAR_MONTH_DAY_DASH);
    SeparatorMismatch(s, DAY_MONTH_YEAR_DASH);
    NormalizeDateFirstMatchWins(s, 2);
  }

  /** Day and month first: the fields of `s` read as the given numbers. */
  lemma DayFirstFields(s: string, day: nat, month: nat, year: nat)
    requires |s| == 10 && s[2] == '-' && s[5] == '-'
    requires AllDigits(s[0..2]) && DigitsValue(s[0..2]) == day
    requires AllDigits(s[3..5]) && DigitsValue(s[3..5]) == month
    requires AllDigits(s[6..10]) && DigitsValue(s[6..10]) == year
    ensures ParseWith(s, DAY_MONTH_YEAR_DASH)
         == if IsValidDate(Date(year, month, day)) then Some(Date(year, month, day)) else None
  {
  }

  /** The value of a two-digit field string. */
  lemma FieldValue(t: string, n: nat)
    requires |t| == 2 && AllDigits(t) && n == DigitValue(t[0]) * 10 + DigitValue(t[1])
    ensures DigitsValue(t) == n
  {
    assert t[..1][..0] == [];
  }

  lemma MonthThirteenUnparsed()
    ensures ParseWith("13-13-2020", DAY_MONTH_YEAR_DASH).None?
  {
    var s := "13-13-2020";
    assert s[0..2] == "13";
    assert s[3..5] == "13";
    assert s[6..10] == "2020";
    FieldValue("13", 13);
    DayFirstFields(s, 13, 13, DigitsValue("2020"));
  }

  /** Month 13 is rejected by every pattern, and the error names the input. */
  lemma InvalidMonthRejected()
    ensures NormalizeDate("13-13-2020") == Err("Unable to parse date: 13-13-2020")
  {
    var s := "13-13-2020";
    SeparatorMismatch(s, YEAR_MONTH_DAY_DASH);
    MonthThirteenUnparsed();
    SeparatorMismatch(s, DAY_MONTH_YEAR_SLASH);
    NormalizeDateRejects(s);
    assert ParseErrorMessage(s) == "Unable to parse date: 13-13-2020";
  }

  lemma LeapDay2021Unparsed()
    ensures ParseWith("29-02-2021", DAY_MONTH_YEAR_DASH).None?
  {
    var s := "29-02-2021";
    assert s[0..2] == "29";
    assert s[3..5] == "02";
    assert s[6..10] == "2021";
    FieldValue("29", 29);
    FieldValue("02", 2);
    YearValue("2021", 2021);
    DayFirstFields(s, 29, 2, 2021);
    assert !IsLeapYear(2021);
  }

  /** 2021 is not a leap year, so 29 February 2021 does not exist. */
  lemma NonLeapDayRejected()
    ensures NormalizeDate("29-02-2021").Err?
  {
    var s := "29-02-2021";
    SeparatorMismatch(s, YEAR_MONTH_DAY_DASH);
    LeapDay2021Unparsed();
    SeparatorMismatch(s, DAY_MONTH_YEAR_SLASH);
    NormalizeDateRejects(s);
  }

  /** Two-digit years are never accepted. */
  lemma TwoDigitYearRejected()
    ensures NormalizeDate("05-03-21").Err?
  {
    var s := "05-03-21";
    SeparatorMismatch(s, YEAR_MONTH_DAY_DASH);
    SeparatorMismatch(s, DAY_MONTH_YEAR_DASH);
    SeparatorMismatch(s, DAY_MONTH_YEAR_SLASH);
    NormalizeDateRejects(s);
  }

  /** A complete row with a positive quantity comes out with its postal code and dates normalised. */
  lemma CompleteRowCleaned(row: Row)
    requires row == Row(Some(5), Some(94107), Some("2021-03-01"), Some("05-03-2021"), [])
    ensures Preprocessed([row]) == Ok([CleanRow(5, "94107", "2021-03-01", "2021-03-05", [])])
  {
    CompleteRowConverts(row);
    var out := PreprocessedWith([row], NormalizeDate).value;
    CompleteRowOutput(row, out);
    assert out == [out[0]];
  }

  lemma CompleteRowConverts(row: Row)
    requires row == Row(Some(5), Some(94107), Some("2021-03-01"), Some("05-03-2021"), [])
    ensures PreprocessedWith([row], NormalizeDate).Ok?
  {
    var table := [row];
    assert !HasBadDate(row, NormalizeDate) by {
      IsoDateFixed();
      DayFirstDashDate("05-03-2021");
    }
    assert forall i :: 0 <= i < |table| ==> table[i] == row;
    PreprocessedFails(table, NormalizeDate);
  }

  lemma CompleteRowOutput(row: Row, out: seq<CleanRow>)
    requires row == Row(Some(5), Some(94107), Some("2021-03-01"), Some("05-03-2021"), [])
    requires PreprocessedWith([row], NormalizeDate) == Ok(out)
    ensures |out| == 1 && out[0] == CleanRow(5, "94107", "2021-03-01", "2021-03-05", [])
  {
    PreprocessedRows([row], NormalizeDate);
    assert Survives(row) && SurvivorIndices([row]) == [0];
    assert ProducedFrom(row, out[0], NormalizeDate);
    IsoDateFixed();
    DayFirstDashDate("05-03-2021");
    PostalCodeWritten();
  }

  lemma PostalCodeWritten()
    ensures IntToDecimal(94107) == "94107"
  {
  }

  /** A row with quantity 0 is filtered out, whatever its dates. */
  lemma ZeroQuantityRowDropped()
    ensures Preprocessed([Row(Some(0), Some(10001), Some("01/02/2020"), Some("01/03/2020"), [])]) == Ok([])
  {
    var row := Row(Some(0), Some(10001), Some("01/02/2020"), Some("01/03/2020"), []);
    DroppedRowIsInert([], NormalizeDate, 0, row);
    assert [] + [row] + [] == [row];
  }

  /** A row with an empty ship date is dropped, so even a bad order date in it is never parsed. */
  lemma MissingShipDateRowDropped()
    ensures Preprocessed([Row(Some(5), Some(94107), Some("13-13-2020"), None, [])]) == Ok([])
  {
    var row := Row(Some(5), Some(94107), Some("13-13-2020"), None, []);
    DroppedRowIsInert([], NormalizeDate, 0, row);
    assert [] + [row] + [] == [row];
  }

  /** A surviving row with an impossible date stops the whole run. */
  lemma BadDateAbortsRun(good: Row, bad: Row)
    requires good == Row(Some(5), Some(94107), Some("2021-03-01"), Some("05-03-2021"), [])
    requires bad == Row(Some(2), Some(10001), Some("13-13-2020"), Some("01/03/2020"), [])
    ensures Preprocessed([good, bad]) == Err("Unable to parse date: 13-13-2020")
  {
    var table := [good, bad];
    assert Survives(table[1]);
    InvalidMonthRejected();
    assert NormalizeDate(table[1].orderDate.value).Err?;
    IsoDateFixed();
    assert forall j :: 0 <= j < 1 && Survives(table[j]) ==> NormalizeDate(table[j].orderDate.value).Ok?;
    PreprocessedReportsFirstBadOrderDate(table, NormalizeDate, 1);
    assert PreprocessedWith(table, NormalizeDate) == Err(NormalizeDate(table[1].orderDate.value).error);
  }
}
