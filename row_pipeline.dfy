/**
 * The transform part of `preprocess` in preprocess/preprocess.py: the table
 * read from the CSV goes through, in this order,
 *   1. `dropna`: every row with a missing value in any column is removed;
 *   2. the quantity filter: only rows with `quantity > 0` are kept;
 *   3. `postal_code` becomes the decimal string of its integer value;
 *   4. `order_date`, then `ship_date`, go through the date normaliser.
 * The table is written only when all of this succeeds; here that is an `Ok`
 * result, and a date that does not parse is an `Err` carrying its message.
 *
 * Each stage is a specification function over the sequence of rows and a
 * method with a loop proved equal to it; `Preprocess` runs the stages.
 */
module RowPipeline {
  import opened Wrappers
  import opened Digits
  import opened DateNormalizer

  /**
   * A row as read from the CSV. `None` is a missing value (an empty field,
   * read as NaN). `rest` holds the pass-through columns, in column order.
   */
  datatype Row = Row(
    quantity: Option<int>,
    postalCode: Option<int>,
    orderDate: Option<string>,
    shipDate: Option<string>,
    rest: seq<Option<string>>)

  /** A row with a value in every column. */
  datatype FullRow = FullRow(
    quantity: int,
    postalCode: int,
    orderDate: string,
    shipDate: string,
    rest: seq<string>)

  /** A row after `postal_code` has been turned into a string. */
  datatype CleanRow = CleanRow(
    quantity: int,
    postalCode: string,
    orderDate: string,
    shipDate: string,
    rest: seq<string>)

  /** The two columns the date normaliser is applied to. */
  datatype DateColumn = OrderDate | ShipDate

  predicate HasNoMissing(r: Row) {
    && r.quantity.Some?
    && r.postalCode.Some?
    && r.orderDate.Some?
    && r.shipDate.Some?
    && forall j :: 0 <= j < |r.rest| ==> r.rest[j].Some?
  }

  /** The rows that come through both filters. */
  predicate Survives(r: Row) {
    HasNoMissing(r) && r.quantity.value > 0
  }

  /** The same row, its values taken out of their `Some`. */
  function Filled(r: Row): (f: FullRow)
    requires HasNoMissing(r)
    ensures r.quantity == Some(f.quantity) && r.postalCode == Some(f.postalCode)
    ensures r.orderDate == Some(f.orderDate) && r.shipDate == Some(f.shipDate)
    ensures |f.rest| == |r.rest| && forall j :: 0 <= j < |r.rest| ==> r.rest[j] == Some(f.rest[j])
  {
    FullRow(r.quantity.value, r.postalCode.value, r.orderDate.value, r.shipDate.value,
            seq(|r.rest|, j requires 0 <= j < |r.rest| => r.rest[j].value))
  }

  // ---------------------------------------------------------------- stage 1

  /** `df.dropna()`: the complete rows, in their order. */
  function WithoutMissing(rows: seq<Row>): seq<FullRow> {
    if rows == [] then []
    else
      var last := rows[|rows| - 1];
      WithoutMissing(rows[..|rows| - 1]) + if HasNoMissing(last) then [Filled(last)] else []
  }

  method DropNa(rows: seq<Row>) returns (out: seq<FullRow>)
    ensures out == WithoutMissing(rows)
  {
    out := [];
    for i := 0 to |rows|
      invariant out == WithoutMissing(rows[..i])
    {
      assert rows[..i + 1][..i] == rows[..i];
      if HasNoMissing(rows[i]) {
        out := out + [Filled(rows[i])];
      }
    }
    assert rows[..|rows|] == rows;
  }

  // ---------------------------------------------------------------- stage 2

  /** `df[df["quantity"] > 0]`: the rows with a positive quantity, in their order. */
  function WithPositiveQuantity(rows: seq<FullRow>): seq<FullRow> {
    if rows == [] then []
    else
      var last := rows[|rows| - 1];
      WithPositiveQuantity(rows[..|rows| - 1]) + if last.quantity > 0 then [last] else []
  }

  method FilterQuantity(rows: seq<FullRow>) returns (out: seq<FullRow>)
    ensures out == WithPositiveQuantity(rows)
  {
    out := [];
    for i := 0 to |rows|
      invariant out == WithPositiveQuantity(rows[..i])
    {
      assert rows[..i + 1][..i] == rows[..i];
      if rows[i].quantity > 0 {
        out := out + [rows[i]];
      }
    }
    assert rows[..|rows|] == rows;
  }

  // ---------------------------------------------------------------- stage 3

  /** `astype(int).astype(str)` on the postal code of one row. */
  function CastPostal(r: FullRow): (c: CleanRow)
    ensures ParseInt(c.postalCode) == Some(r.postalCode) && IsCanonicalDecimal(c.postalCode)
    ensures c.quantity == r.quantity && c.orderDate == r.orderDate && c.shipDate == r.shipDate
    ensures c.rest == r.rest
  {
    IntToDecimalRoundTrip(r.postalCode);
    CleanRow(r.quantity, IntToDecimal(r.postalCode), r.orderDate, r.shipDate, r.rest)
  }

  /** Stage 3 on the whole table: one row per row, in order, its postal code a string that reads back as its integer. */
  function WithPostalStrings(rows: seq<FullRow>): (out: seq<CleanRow>)
    ensures |out| == |rows|
    ensures forall k :: 0 <= k < |rows| ==>
              && ParseInt(out[k].postalCode) == Some(rows[k].postalCode)
              && out[k].quantity == rows[k].quantity
              && out[k].orderDate == rows[k].orderDate && out[k].shipDate == rows[k].shipDate
              && out[k].rest == rows[k].rest
  {
    seq(|rows|, k requires 0 <= k < |rows| => CastPostal(rows[k]))
  }

  method CastPostalCode(rows: seq<FullRow>) returns (out: seq<CleanRow>)
    ensures out == WithPostalStrings(rows)
  {
    out := [];
    for i := 0 to |rows|
      invariant |out| == i
      invariant forall k :: 0 <= k < i ==> out[k] == CastPostal(rows[k])
    {
      out := out + [CastPostal(rows[i])];
    }
  }

  // ---------------------------------------------------------------- stage 4

  function DateOf(r: CleanRow, col: DateColumn): string {
    match col
    case OrderDate => r.orderDate
    case ShipDate => r.shipDate
  }

  function WithDate(r: CleanRow, col: DateColumn, date: string): CleanRow {
    match col
    case OrderDate => r.(orderDate := date)
    case ShipDate => r.(shipDate := date)
  }

  /**
   * `df[col].apply(convert)`: the rows are converted in order, and the first
   * date that `convert` rejects stops the whole column with its error.
   */
  function WithDatesConverted(rows: seq<CleanRow>, col: DateColumn, convert: string -> Result<string, string>)
    : (r: Result<seq<CleanRow>, string>)
    ensures r.Ok? ==> |r.value| == |rows|
    ensures r.Err? ==> exists k :: 0 <= k < |rows| && convert(DateOf(rows[k], col)) == Err(r.error)
  {
    if rows == [] then Ok([])
    else
      var last := rows[|rows| - 1];
      match WithDatesConverted(rows[..|rows| - 1], col, convert)
      case Err(e) =>
        var k :| 0 <= k < |rows| - 1 && convert(DateOf(rows[..|rows| - 1][k], col)) == Err(e);
        assert rows[..|rows| - 1][k] == rows[k];
        Err(e)
      case Ok(done) =>
        match convert(DateOf(last, col))
        case Err(e) => Err(e)
        case Ok(date) => Ok(done + [WithDate(last, col, date)])
  }

  /** A column converts exactly when every date in it converts; each row then gets its own date converted. */
  lemma {:induction false} DatesConvertedOk(rows: seq<CleanRow>, col: DateColumn, convert: string -> Result<string, string>)
    ensures WithDatesConverted(rows, col, convert).Ok?
        <==> forall k :: 0 <= k < |rows| ==> convert(DateOf(rows[k], col)).Ok?
    ensures WithDatesConverted(rows, col, convert).Ok? ==>
              var out := WithDatesConverted(rows, col, convert).value;
              |out| == |rows| &&
              forall k :: 0 <= k < |rows| ==> out[k] == WithDate(rows[k], col, convert(DateOf(rows[k], col)).value)
  {
    if rows != [] {
      var prefix := rows[..|rows| - 1];
      DatesConvertedOk(prefix, col, convert);
      assert forall k :: 0 <= k < |prefix| ==> prefix[k] == rows[k];
    }
  }

  /** The error of a column is that of its first date that does not convert. */
  lemma {:induction false} DatesConvertedFirstError(
    rows: seq<CleanRow>, col: DateColumn, convert: string -> Result<string, string>, k: nat)
    requires k < |rows| && convert(DateOf(rows[k], col)).Err?
    requires forall j :: 0 <= j < k ==> convert(DateOf(rows[j], col)).Ok?
    ensures WithDatesConverted(rows, col, convert) == Err(convert(DateOf(rows[k], col)).error)
  {
    var prefix := rows[..|rows| - 1];
    if k == |rows| - 1 {
      DatesConvertedOk(prefix, col, convert);
    } else {
      DatesConvertedFirstError(prefix, col, convert, k);
    }
  }

  method ApplyDateConversion(rows: seq<CleanRow>, col: DateColumn) returns (r: Result<seq<CleanRow>, string>)
    ensures r == WithDatesConverted(rows, col, NormalizeDate)
  {
    var done := [];
    for i := 0 to |rows|
      invariant WithDatesConverted(rows[..i], col, NormalizeDate) == Ok(done)
    {
      var converted := ConvertDateFormat(DateOf(rows[i], col));
      ColumnStep(rows, col, NormalizeDate, i, done);
      if converted.Err? {
        return Err(converted.error);
      }
      done := done + [WithDate(rows[i], col, converted.value)];
    }
    assert rows[..|rows|] == rows;
    r := Ok(done);
  }

  /**
   * One step of the column loop: the converted prefix grows by one row, or
   * the first failure becomes the result of the whole column.
   */
  lemma ColumnStep(rows: seq<CleanRow>, col: DateColumn, convert: string -> Result<string, string>,
                   i: nat, done: seq<CleanRow>)
    requires i < |rows| && WithDatesConverted(rows[..i], col, convert) == Ok(done)
    ensures convert(DateOf(rows[i], col)).Ok? ==>
              WithDatesConverted(rows[..i + 1], col, convert)
                == Ok(done + [WithDate(rows[i], col, convert(DateOf(rows[i], col)).value)])
    ensures convert(DateOf(rows[i], col)).Err? ==>
              WithDatesConverted(rows, col, convert) == Err(convert(DateOf(rows[i], col)).error)
  {
    assert rows[..i + 1][..i] == rows[..i];
    if convert(DateOf(rows[i], col)).Err? {
      DatesConvertedOk(rows[..i], col, convert);
      DatesConvertedFirstError(rows, col, convert, i);
    }
  }

  /** Both date columns, `order_date` first. */
  function BothDatesConverted(rows: seq<CleanRow>, convert: string -> Result<string, string>)
    : (r: Result<seq<CleanRow>, string>)
    ensures r.Ok? ==> |r.value| == |rows|
    ensures r.Err? ==>
              exists k :: 0 <= k < |rows|
                && (convert(rows[k].orderDate) == Err(r.error) || convert(rows[k].shipDate) == Err(r.error))
  {
    match WithDatesConverted(rows, OrderDate, convert)
    case Err(e) => Err(e)
    case Ok(withOrder) =>
      DatesConvertedOk(rows, OrderDate, convert);
      WithDatesConverted(withOrder, ShipDate, convert)
  }

  /** Both columns convert exactly when every date converts; each row then has both its dates converted. */
  lemma BothDatesConvertedOk(rows: seq<CleanRow>, convert: string -> Result<string, string>)
    ensures BothDatesConverted(rows, convert).Ok? <==>
              forall k :: 0 <= k < |rows| ==> convert(rows[k].orderDate).Ok? && convert(rows[k].shipDate).Ok?
    ensures BothDatesConverted(rows, convert).Ok? ==>
              var out := BothDatesConverted(rows, convert).value;
              |out| == |rows| &&
              forall k :: 0 <= k < |rows| ==>
                out[k] == rows[k].(orderDate := convert(rows[k].orderDate).value,
                                   shipDate := convert(rows[k].shipDate).value)
  {
    DatesConvertedOk(rows, OrderDate, convert);
    if WithDatesConverted(rows, OrderDate, convert).Ok? {
      var withOrder := WithDatesConverted(rows, OrderDate, convert).value;
      DatesConvertedOk(withOrder, ShipDate, convert);
      assert forall k :: 0 <= k < |rows| ==> withOrder[k].shipDate == rows[k].shipDate;
    }
  }

  // ------------------------------------------------------------ the pipeline

  /** The table after stages 1 to 3. */
  function Cleaned(table: seq<Row>): seq<CleanRow> {
    WithPostalStrings(WithPositiveQuantity(WithoutMissing(table)))
  }

  /** The whole transform with a given date converter. */
  function PreprocessedWith(table: seq<Row>, convert: string -> Result<string, string>)
    : (r: Result<seq<CleanRow>, string>)
    ensures r.Ok? ==> |r.value| == |SurvivingRows(table)|
    ensures r.Err? ==>
              exists i :: 0 <= i < |table| && Survives(table[i])
                && (convert(table[i].orderDate.value) == Err(r.error) || convert(table[i].shipDate.value) == Err(r.error))
  {
    CleanedAtIndices(table);
    SurvivingRowsAtIndices(table);
    var r := BothDatesConverted(Cleaned(table), convert);
    if r.Err? then
      var idx := SurvivorIndices(table);
      var k :| 0 <= k < |Cleaned(table)| &&
               (convert(Cleaned(table)[k].orderDate) == Err(r.error) || convert(Cleaned(table)[k].shipDate) == Err(r.error));
      assert Survives(table[idx[k]]) && Cleaned(table)[k] == CastPostal(Filled(table[idx[k]]));
      r
    else r
  }

  /** The whole transform: `Ok` with the table to write, or the error that stops the run. */
  function Preprocessed(table: seq<Row>): Result<seq<CleanRow>, string> {
    PreprocessedWith(table, NormalizeDate)
  }

  method Preprocess(table: seq<Row>) returns (r: Result<seq<CleanRow>, string>)
    ensures r == Preprocessed(table)
  {
    var complete := DropNa(table);
    var positive := FilterQuantity(complete);
    var cleaned := CastPostalCode(positive);
    var withOrderDates := ApplyDateConversion(cleaned, OrderDate);
    if withOrderDates.Err? {
      return Err(withOrderDates.error);
    }
    r := ApplyDateConversion(withOrderDates.value, ShipDate);
  }

  // ------------------------------------------------------- surviving rows

  /**
   * The positions of the rows that come through both filters: increasing,
   * and holding exactly the positions of surviving rows.
   */
  function SurvivorIndices(table: seq<Row>): (idx: seq<nat>)
    ensures forall k :: 0 <= k < |idx| ==> idx[k] < |table|
    ensures forall k, l :: 0 <= k < l < |idx| ==> idx[k] < idx[l]
    ensures forall i :: 0 <= i < |table| ==> (Survives(table[i]) <==> i in idx)
  {
    if table == [] then []
    else
      var prefix := table[..|table| - 1];
      var idx := SurvivorIndices(prefix);
      assert forall i :: 0 <= i < |prefix| ==> table[i] == prefix[i];
      idx + if Survives(table[|table| - 1]) then [|table| - 1] else []
  }

  /** The surviving rows themselves, in their order. */
  function SurvivingRows(table: seq<Row>): (rows: seq<Row>)
    ensures forall r :: r in rows <==> r in table && Survives(r)
  {
    if table == [] then []
    else
      var last := table[|table| - 1];
      var prefix := table[..|table| - 1];
      assert table == prefix + [last];
      SurvivingRows(prefix) + if Survives(last) then [last] else []
  }

  /** The surviving rows are the rows at the surviving positions. */
  lemma {:induction false} SurvivingRowsAtIndices(table: seq<Row>)
    ensures |SurvivingRows(table)| == |SurvivorIndices(table)|
    ensures forall k :: 0 <= k < |SurvivorIndices(table)| ==>
              SurvivingRows(table)[k] == table[SurvivorIndices(table)[k]]
  {
    if table != [] {
      var prefix := table[..|table| - 1];
      var last := table[|table| - 1];
      SurvivingRowsAtIndices(prefix);
      var rows, idx := SurvivingRows(prefix), SurvivorIndices(prefix);
      var extra := if Survives(last) then [last] else [];
      var extraIdx := if Survives(last) then [|table| - 1] else [];
      assert SurvivingRows(table) == rows + extra;
      assert SurvivorIndices(table) == idx + extraIdx;
      forall k | 0 <= k < |idx + extraIdx|
        ensures (rows + extra)[k] == table[(idx + extraIdx)[k]]
      {
        if k < |idx| {
          assert rows[k] == prefix[idx[k]] == table[idx[k]];
        }
      }
    }
  }

  /** Filtering a concatenation filters each part. */
  lemma {:induction false} SurvivingRowsAppend(a: seq<Row>, b: seq<Row>)
    ensures SurvivingRows(a + b) == SurvivingRows(a) + SurvivingRows(b)
  {
    if b == [] {
      assert a + b == a;
    } else {
      var prefix := b[..|b| - 1];
      assert (a + b)[..|a + b| - 1] == a + prefix;
      SurvivingRowsAppend(a, prefix);
    }
  }

  /** Stages 1 and 2 keep exactly the surviving rows, in their order. */
  lemma {:induction false} FilteredAreSurvivors(table: seq<Row>)
    ensures var kept := WithPositiveQuantity(WithoutMissing(table));
            |kept| == |SurvivingRows(table)| &&
            forall k :: 0 <= k < |kept| ==>
              Survives(SurvivingRows(table)[k]) && kept[k] == Filled(SurvivingRows(table)[k])
  {
    if table != [] {
      var prefix := table[..|table| - 1];
      var last := table[|table| - 1];
      FilteredAreSurvivors(prefix);
      var a := WithoutMissing(prefix);
      if HasNoMissing(last) {
        assert WithoutMissing(table) == a + [Filled(last)];
        assert (a + [Filled(last)])[..|a|] == a;
      } else {
        assert WithoutMissing(table) == a;
      }
    }
  }

  /** Stages 1 to 3 give one row per surviving position, its postal code cast. */
  lemma CleanedAtIndices(table: seq<Row>)
    ensures |Cleaned(table)| == |SurvivorIndices(table)|
    ensures forall k :: 0 <= k < |SurvivorIndices(table)| ==>
              var r := table[SurvivorIndices(table)[k]];
              Survives(r) && Cleaned(table)[k] == CastPostal(Filled(r))
  {
    FilteredAreSurvivors(table);
    SurvivingRowsAtIndices(table);
  }

  // ------------------------------------------------------------ properties

  /** What an output row says about the input row it came from, given the date converter. */
  predicate ProducedFrom(r: Row, c: CleanRow, convert: string -> Result<string, string>) {
    && r.quantity == Some(c.quantity)
    && r.postalCode.Some? && c.postalCode == IntToDecimal(r.postalCode.value)
    && r.orderDate.Some? && convert(r.orderDate.value) == Ok(c.orderDate)
    && r.shipDate.Some? && convert(r.shipDate.value) == Ok(c.shipDate)
    && |c.rest| == |r.rest| && forall j :: 0 <= j < |r.rest| ==> r.rest[j] == Some(c.rest[j])
  }

  /**
   * On success the output has one row per surviving input row, in the same
   * order, each produced from that row; no other input row appears.
   */
  lemma PreprocessedRows(table: seq<Row>, convert: string -> Result<string, string>)
    requires PreprocessedWith(table, convert).Ok?
    ensures var out := PreprocessedWith(table, convert).value;
            var idx := SurvivorIndices(table);
            |out| == |idx| && forall k :: 0 <= k < |idx| ==> ProducedFrom(table[idx[k]], out[k], convert)
  {
    CleanedAtIndices(table);
    BothDatesConvertedOk(Cleaned(table), convert);
  }

  /** A surviving row holding a date that `convert` rejects. */
  predicate HasBadDate(r: Row, convert: string -> Result<string, string>) {
    Survives(r) && (convert(r.orderDate.value).Err? || convert(r.shipDate.value).Err?)
  }

  /** The run fails exactly when some surviving row holds a date that does not convert. */
  lemma PreprocessedFails(table: seq<Row>, convert: string -> Result<string, string>)
    ensures PreprocessedWith(table, convert).Err? <==>
              exists i :: 0 <= i < |table| && HasBadDate(table[i], convert)
  {
    if exists i :: 0 <= i < |table| && HasBadDate(table[i], convert) {
      var i :| 0 <= i < |table| && HasBadDate(table[i], convert);
      BadDateFails(table, convert, i);
    } else {
      NoBadDateSucceeds(table, convert);
    }
  }

  lemma BadDateFails(table: seq<Row>, convert: string -> Result<string, string>, i: nat)
    requires i < |table| && HasBadDate(table[i], convert)
    ensures PreprocessedWith(table, convert).Err?
  {
    var cleaned := Cleaned(table);
    var idx := SurvivorIndices(table);
    CleanedAtIndices(table);
    BothDatesConvertedOk(cleaned, convert);
    var k :| 0 <= k < |idx| && idx[k] == i;
    assert cleaned[k].orderDate == table[i].orderDate.value;
    assert cleaned[k].shipDate == table[i].shipDate.value;
  }

  lemma NoBadDateSucceeds(table: seq<Row>, convert: string -> Result<string, string>)
    requires forall i :: 0 <= i < |table| ==> !HasBadDate(table[i], convert)
    ensures PreprocessedWith(table, convert).Ok?
  {
    var cleaned := Cleaned(table);
    var idx := SurvivorIndices(table);
    CleanedAtIndices(table);
    forall k | 0 <= k < |cleaned|
      ensures convert(cleaned[k].orderDate).Ok? && convert(cleaned[k].shipDate).Ok?
    {
      assert !HasBadDate(table[idx[k]], convert);
    }
    BothDatesConvertedOk(cleaned, convert);
  }

  /**
   * `order_date` is converted before `ship_date`, row by row: the first
   * surviving row, in table order, whose order date does not convert names
   * the error.
   */
  lemma PreprocessedReportsFirstBadOrderDate(table: seq<Row>, convert: string -> Result<string, string>, i: nat)
    requires i < |table| && Survives(table[i]) && convert(table[i].orderDate.value).Err?
    requires forall j :: 0 <= j < i && Survives(table[j]) ==> convert(table[j].orderDate.value).Ok?
    ensures PreprocessedWith(table, convert) == Err(convert(table[i].orderDate.value).error)
  {
    var cleaned := Cleaned(table);
    var idx := SurvivorIndices(table);
    CleanedAtIndices(table);
    var k :| 0 <= k < |idx| && idx[k] == i;
    forall j | 0 <= j < k ensures convert(DateOf(cleaned[j], OrderDate)).Ok? {
      assert Survives(table[idx[j]]) && idx[j] < i;
    }
    DatesConvertedFirstError(cleaned, OrderDate, convert, k);
  }

  /**
   * When every order date converts, the first surviving row whose ship date
   * does not convert names the error.
   */
  lemma PreprocessedReportsFirstBadShipDate(table: seq<Row>, convert: string -> Result<string, string>, i: nat)
    requires forall j :: 0 <= j < |table| && Survives(table[j]) ==> convert(table[j].orderDate.value).Ok?
    requires i < |table| && Survives(table[i]) && convert(table[i].shipDate.value).Err?
    requires forall j :: 0 <= j < i && Survives(table[j]) ==> convert(table[j].shipDate.value).Ok?
    ensures PreprocessedWith(table, convert) == Err(convert(table[i].shipDate.value).error)
  {
    var cleaned := Cleaned(table);
    var idx := SurvivorIndices(table);
    CleanedAtIndices(table);
    forall j | 0 <= j < |cleaned| ensures convert(cleaned[j].orderDate).Ok? {
      assert Survives(table[idx[j]]);
    }
    var k :| 0 <= k < |idx| && idx[k] == i;
    forall j | 0 <= j < k ensures convert(cleaned[j].shipDate).Ok? {
      assert Survives(table[idx[j]]) && idx[j] < i;
    }
    FirstBadShipDate(cleaned, convert, k);
  }

  /** With every order date good, the first ship date that does not convert names the error of both columns. */
  lemma FirstBadShipDate(rows: seq<CleanRow>, convert: string -> Result<string, string>, k: nat)
    requires forall j :: 0 <= j < |rows| ==> convert(rows[j].orderDate).Ok?
    requires k < |rows| && convert(rows[k].shipDate).Err?
    requires forall j :: 0 <= j < k ==> convert(rows[j].shipDate).Ok?
    ensures BothDatesConverted(rows, convert) == Err(convert(rows[k].shipDate).error)
  {
    DatesConvertedOk(rows, OrderDate, convert);
    var withOrder := WithDatesConverted(rows, OrderDate, convert).value;
    assert forall j :: 0 <= j < |rows| ==> DateOf(withOrder[j], ShipDate) == rows[j].shipDate;
    DatesConvertedFirstError(withOrder, ShipDate, convert, k);
  }

  /** The outcome depends on the surviving rows only. */
  lemma OnlySurvivorsMatter(t1: seq<Row>, t2: seq<Row>, convert: string -> Result<string, string>)
    requires SurvivingRows(t1) == SurvivingRows(t2)
    ensures PreprocessedWith(t1, convert) == PreprocessedWith(t2, convert)
  {
    FilteredAreSurvivors(t1);
    FilteredAreSurvivors(t2);
    assert WithPositiveQuantity(WithoutMissing(t1)) == WithPositiveQuantity(WithoutMissing(t2));
  }

  /**
   * A row with a missing value or a non-positive quantity, wherever it is
   * inserted, changes nothing: its dates never reach the converter.
   */
  lemma DroppedRowIsInert(table: seq<Row>, convert: string -> Result<string, string>, i: nat, r: Row)
    requires i <= |table| && !Survives(r)
    ensures PreprocessedWith(table[..i] + [r] + table[i..], convert) == PreprocessedWith(table, convert)
  {
    SurvivingRowsSkip(table[..i], r, table[i..]);
    assert table[..i] + table[i..] == table;
    OnlySurvivorsMatter(table[..i] + [r] + table[i..], table, convert);
  }

  lemma SurvivingRowsSkip(a: seq<Row>, r: Row, b: seq<Row>)
    requires !Survives(r)
    ensures SurvivingRows(a + [r] + b) == SurvivingRows(a + b)
  {
    SurvivingRowsAppend(a + [r], b);
    SurvivingRowsAppend(a, [r]);
    SurvivingRowsAppend(a, b);
    assert SurvivingRows([r]) == [] by {
      assert [r][..0] == [];
    }
    assert SurvivingRows(a + [r]) == SurvivingRows(a);
  }

  /**
   * With the date normaliser: every output row has a positive quantity, a
   * postal code in canonical decimal form that reads back as itself, and both
   * dates in canonical `YYYY-MM-DD` form, which the normaliser leaves unchanged.
   */
  lemma PreprocessedRowInvariants(table: seq<Row>)
    requires Preprocessed(table).Ok?
    ensures forall c :: c in Preprocessed(table).value ==>
              && c.quantity > 0
              && IsCanonicalDecimal(c.postalCode)
              && ParseInt(c.postalCode).Some? && IntToDecimal(ParseInt(c.postalCode).value) == c.postalCode
              && IsIsoShape(c.orderDate) && NormalizeDate(c.orderDate) == Ok(c.orderDate)
              && IsIsoShape(c.shipDate) && NormalizeDate(c.shipDate) == Ok(c.shipDate)
  {
    var out := Preprocessed(table).value;
    var idx := SurvivorIndices(table);
    PreprocessedRows(table, NormalizeDate);
    forall c | c in out
      ensures c.quantity > 0
      ensures IsCanonicalDecimal(c.postalCode)
      ensures ParseInt(c.postalCode).Some? && IntToDecimal(ParseInt(c.postalCode).value) == c.postalCode
      ensures IsIsoShape(c.orderDate) && NormalizeDate(c.orderDate) == Ok(c.orderDate)
      ensures IsIsoShape(c.shipDate) && NormalizeDate(c.shipDate) == Ok(c.shipDate)
    {
      var k :| 0 <= k < |out| && out[k] == c;
      var r := table[idx[k]];
      assert Survives(r);
      IntToDecimalRoundTrip(r.postalCode.value);
      CanonicalDecimalRoundTrip(c.postalCode);
      NormalizeDateIdempotent(r.orderDate.value);
      NormalizeDateIdempotent(r.shipDate.value);
    }
  }
}
