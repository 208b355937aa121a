/** Which responses parse, and what each refusal means, said on the cells themselves. */
module CandleRules {
  import opened Basics
  import opened Calendar
  import opened Decimals
  import opened Candles

  // Columns 1 to 4 are positive prices in order.
  ghost predicate Priced(lex: Lexicon, cells: seq<Cell>)
    requires |cells| >= 6
  {
    exists open: Decimal, high: Decimal, low: Decimal, close: Decimal ::
      Reads(lex, cells[1], open) && Reads(lex, cells[2], high) && Reads(lex, cells[3], low) && Reads(lex, cells[4], close) &&
      open.coefficient > 0 && high.coefficient > 0 && low.coefficient > 0 && close.coefficient > 0 &&
      Le(low, open) && Le(open, high) && Le(low, close) && Le(close, high)
  }

  // A row on its own.
  ghost predicate GoodRow(lex: Lexicon, row: Row) {
    row.Row? && (|row.cells| == 6 || |row.cells| == 7) &&
    (exists t: int :: ReadsAt(lex, row.cells[0], t)) && Priced(lex, row.cells) && (exists n: int :: ReadsWhole(lex, row.cells[5], n)) &&
    (|row.cells| == 7 ==> exists d: Decimal :: Reads(lex, row.cells[6], d))
  }

  // The second row is later than the first.
  ghost predicate Later(lex: Lexicon, row: Row, next: Row)
    requires row.Row? && next.Row? && row.cells != [] && next.cells != []
  {
    exists s: int, t: int :: ReadsAt(lex, row.cells[0], s) && ReadsAt(lex, next.cells[0], t) && s < t
  }

  // The rows of one schema, good row by row, and strictly increasing in time.
  ghost predicate GoodRows(lex: Lexicon, rows: seq<Row>) {
    (forall i :: 0 <= i < |rows| ==> GoodRow(lex, rows[i])) &&
    ((forall i :: 0 <= i < |rows| ==> |rows[i].cells| == 6) || (forall i :: 0 <= i < |rows| ==> |rows[i].cells| == 7)) &&
    (forall i :: 0 < i < |rows| ==> Later(lex, rows[i - 1], rows[i]))
  }

  // The envelope: an object whose status is "success" and whose data is a mapping with a list of candles.
  predicate HasRows(p: Payload, rows: seq<Row>) {
    p.Object? && p.status == Some(String(Lit("success"))) && p.data == Some(Mapping(Some(Rows(rows))))
  }

  /* ---------- one row ---------- */

  lemma Column(lex: Lexicon, c: Cell)
    ensures forall d: Decimal :: Reads(lex, c, d) <==> ReadDecimal(lex, c) == Some(d)
    ensures ReadDecimal(lex, c).Some? ==> Reads(lex, c, ReadDecimal(lex, c).value) && ReadDecimal(lex, c).value.Finite?
    ensures ReadDecimal(lex, c).None? ==> forall d: Decimal :: !Reads(lex, c, d)
  {
    forall d: Decimal ensures Reads(lex, c, d) <==> ReadDecimal(lex, c) == Some(d) { ReadsIs(lex, c, d); }
  }

  lemma Prices(lex: Lexicon, cells: seq<Cell>)
    requires |cells| >= 6
    ensures PriceFault(lex, cells).None? <==> Priced(lex, cells)
  {
    hide Le, ReadDecimal, Reads;
    Column(lex, cells[1]);
    Column(lex, cells[2]);
    Column(lex, cells[3]);
    Column(lex, cells[4]);
  }

  lemma Rest(lex: Lexicon, cells: seq<Cell>, symbol: Text)
    requires |cells| == 6 || |cells| == 7
    ensures RestFault(lex, cells, symbol).None? <==>
            (exists n: int :: ReadsWhole(lex, cells[5], n)) && (|cells| == 7 ==> exists d: Decimal :: Reads(lex, cells[6], d)) && !Blank(symbol)
    ensures RestFault(lex, cells, symbol) == Some(BlankSymbol) <==>
            (exists n: int :: ReadsWhole(lex, cells[5], n)) && (|cells| == 7 ==> exists d: Decimal :: Reads(lex, cells[6], d)) && Blank(symbol)
    ensures RestFault(lex, cells, symbol) == Some(BadOpenInterest) <==> |cells| == 7 && forall d: Decimal :: !Reads(lex, cells[6], d)
    ensures RestFault(lex, cells, symbol) == Some(BadVolume) ==> forall n: int :: !ReadsWhole(lex, cells[5], n)
  {
    hide ReadDecimal, ReadVolume, ReadsWhole, Reads, Blank;
    forall n: int ensures ReadsWhole(lex, cells[5], n) <==> ReadVolume(lex, cells[5]) == Some(n) { ReadsWholeIs(lex, cells[5], n); }
    if ReadVolume(lex, cells[5]).Some? { assert ReadsWhole(lex, cells[5], ReadVolume(lex, cells[5]).value); }
    if |cells| == 7 {
      forall d: Decimal ensures Reads(lex, cells[6], d) <==> ReadDecimal(lex, cells[6]) == Some(d) { ReadsIs(lex, cells[6], d); }
      if ReadDecimal(lex, cells[6]).Some? { assert Reads(lex, cells[6], ReadDecimal(lex, cells[6]).value); }
    }
  }

  lemma Times(lex: Lexicon, c: Cell)
    ensures ReadStamp(lex, c).Ok? <==> exists t: int :: ReadsAt(lex, c, t)
    ensures ReadStamp(lex, c).Ok? ==> ReadsAt(lex, c, Instant(ReadStamp(lex, c).value)) && ReadStamp(lex, c).value.offset == IST
    ensures ReadStamp(lex, c).Ok? ==> forall t: int :: ReadsAt(lex, c, t) ==> t == Instant(ReadStamp(lex, c).value)
  {
    hide ReadStamp, ReadsAt, Instant;
    forall t: int ensures ReadsAt(lex, c, t) <==> ReadStamp(lex, c).Ok? && Instant(ReadStamp(lex, c).value) == t { ReadsAtIs(lex, c, t); }
    if ReadStamp(lex, c).Ok? { assert ReadsAt(lex, c, Instant(ReadStamp(lex, c).value)); }
  }

  lemma RowOnItsOwn(lex: Lexicon, symbol: Text, row: Row)
    ensures Readable(lex, symbol, row) <==> GoodRow(lex, row) && !Blank(symbol)
  {
    if Shaped(row) {
      Times(lex, row.cells[0]);
      Prices(lex, row.cells);
      Rest(lex, row.cells, symbol);
    }
    hide ReadStamp, PriceFault, RestFault, ReadsAt, Priced, ReadsWhole, Reads, Blank;
  }

  lemma Order(lex: Lexicon, rows: seq<Row>, i: int)
    requires 0 < i < |rows| && Shaped(rows[i - 1]) && Shaped(rows[i]) && ReadStamp(lex, rows[i - 1].cells[0]).Ok? && ReadStamp(lex, rows[i].cells[0]).Ok?
    ensures OrderFault(lex, rows, i, ReadStamp(lex, rows[i].cells[0]).value).None? <==> Later(lex, rows[i - 1], rows[i])
  {
    Times(lex, rows[i - 1].cells[0]);
    Times(lex, rows[i].cells[0]);
    hide ReadStamp, ReadsAt;
    var s, t := ReadStamp(lex, rows[i - 1].cells[0]).value, ReadStamp(lex, rows[i].cells[0]).value;
    assert s.local < t.local <==> Instant(s) < Instant(t);
    assert ReadsAt(lex, rows[i - 1].cells[0], Instant(s)) && ReadsAt(lex, rows[i].cells[0], Instant(t));
  }

  lemma FaultSplit(lex: Lexicon, symbol: Text, rows: seq<Row>, i: int)
    requires 0 <= i < |rows|
    ensures RowFault(lex, symbol, rows, i).None? <==>
            Readable(lex, symbol, rows[i]) && (rows[0].Row? ==> |rows[i].cells| == |rows[0].cells|) &&
            (Shaped(rows[i]) && ReadStamp(lex, rows[i].cells[0]).Ok? ==>
              OrderFault(lex, rows, i, ReadStamp(lex, rows[i].cells[0]).value).None?)
  {
    hide ReadStamp, PriceFault, RestFault, OrderFault;
  }

  /* ---------- the whole response ---------- */

  lemma GoodFaultless(lex: Lexicon, symbol: Text, rows: seq<Row>, i: int)
    requires GoodRows(lex, rows) && !Blank(symbol) && 0 <= i < |rows|
    ensures RowFault(lex, symbol, rows, i).None?
  {
    hide RowFault, Readable, GoodRow, OrderFault, Later, Blank, ReadStamp;
    FaultSplit(lex, symbol, rows, i);
    assert GoodRow(lex, rows[i]) && GoodRow(lex, rows[0]);
    RowOnItsOwn(lex, symbol, rows[i]);
    ReadableParts(lex, symbol, rows[i]);
    if i > 0 {
      RowOnItsOwn(lex, symbol, rows[i - 1]);
      ReadableParts(lex, symbol, rows[i - 1]);
      Order(lex, rows, i);
    } else {
      FirstInOrder(lex, rows);
    }
  }

  lemma FirstInOrder(lex: Lexicon, rows: seq<Row>)
    requires rows != []
    ensures forall t :: OrderFault(lex, rows, 0, t).None?
  {
  }

  lemma ReadableParts(lex: Lexicon, symbol: Text, row: Row)
    requires Readable(lex, symbol, row)
    ensures Shaped(row) && row.Row? && ReadStamp(lex, row.cells[0]).Ok? && (|row.cells| == 6 || |row.cells| == 7)
  {
    hide ReadStamp, PriceFault, RestFault;
  }

  lemma FaultlessGood(lex: Lexicon, symbol: Text, rows: seq<Row>)
    requires rows != [] && forall i :: 0 <= i < |rows| ==> RowFault(lex, symbol, rows, i).None?
    ensures GoodRows(lex, rows) && !Blank(symbol)
  {
    hide RowFault, Readable, GoodRow, OrderFault, Later, Blank, ReadStamp;
    forall i | 0 <= i < |rows| ensures GoodRow(lex, rows[i]) && !Blank(symbol) && Readable(lex, symbol, rows[i]) {
      FaultSplit(lex, symbol, rows, i);
      RowOnItsOwn(lex, symbol, rows[i]);
    }
    ReadableParts(lex, symbol, rows[0]);
    forall i | 0 <= i < |rows| ensures Shaped(rows[i]) && ReadStamp(lex, rows[i].cells[0]).Ok? && |rows[i].cells| == |rows[0].cells| {
      FaultSplit(lex, symbol, rows, i);
      ReadableParts(lex, symbol, rows[i]);
    }
    assert |rows[0].cells| == 6 || |rows[0].cells| == 7;
    forall i | 0 < i < |rows| ensures Later(lex, rows[i - 1], rows[i]) {
      FaultSplit(lex, symbol, rows, i);
      Order(lex, rows, i);
    }
  }

  lemma RowsAccepted(lex: Lexicon, symbol: Text, rows: seq<Row>)
    ensures ParseRows(lex, symbol, rows).Ok? <==> rows == [] || (GoodRows(lex, rows) && !Blank(symbol))
  {
    NoFault(lex, symbol, rows, |rows|);
    hide RowFault, FirstFault, GoodRows, Blank, BarOf, InterestOf;
    if rows != [] {
      if forall i :: 0 <= i < |rows| ==> RowFault(lex, symbol, rows, i).None? {
        FaultlessGood(lex, symbol, rows);
      } else if GoodRows(lex, rows) && !Blank(symbol) {
        forall i | 0 <= i < |rows| ensures RowFault(lex, symbol, rows, i).None? { GoodFaultless(lex, symbol, rows, i); }
      }
    }
  }

  lemma Envelope(p: Payload, rows: seq<Row>)
    ensures RowsOf(p) == Ok(rows) <==> HasRows(p, rows)
  {
  }

  /** A response parses exactly when its envelope is a success with a row list, and that list is empty or, for a symbol that is
      not blank, consists of good rows of one schema, strictly increasing in time. */
  lemma ParsesIff(lex: Lexicon, p: Payload, symbol: Text)
    ensures Parse(lex, p, symbol).Ok? <==>
            exists rows: seq<Row> :: HasRows(p, rows) && (rows == [] || (GoodRows(lex, rows) && !Blank(symbol)))
    ensures forall rows: seq<Row> :: HasRows(p, rows) && Parse(lex, p, symbol).Ok? ==>
              |Parse(lex, p, symbol).value.bars| == |rows| &&
              (Parse(lex, p, symbol).value.hadOpenInterest <==> rows != [] && forall i :: 0 <= i < |rows| ==> rows[i].Row? && |rows[i].cells| == 7)
  {
    forall rows: seq<Row> ensures RowsOf(p) == Ok(rows) <==> HasRows(p, rows) { Envelope(p, rows); }
    hide HasRows, RowsOf, GoodRows, ParseRows, Blank;
    if RowsOf(p).Ok? {
      RowsAccepted(lex, symbol, RowsOf(p).value);
      if Parse(lex, p, symbol).Ok? {
        ParsedBars(lex, symbol, RowsOf(p).value);
        Interest(lex, symbol, RowsOf(p).value);
      }
    }
  }

  /** `parse_historical_candles`: the envelope, in the order of its checks, then the row loop. */
  method ParseHistoricalCandles(lex: Lexicon, p: Payload, symbol: Text) returns (r: Result<Parsed, ParseFault>)
    ensures r == Parse(lex, p, symbol)
    ensures r.Ok? <==> exists rows: seq<Row> :: HasRows(p, rows) && (rows == [] || (GoodRows(lex, rows) && !Blank(symbol)))
  {
    hide GoodRows, ParseRows, Blank, HasRows;
    ParsesIff(lex, p, symbol);
    match p {
      case LoaderRaises => return Err(LoaderFailure);
      case NotJson => return Err(BadPayload);
      case NotObject => return Err(BadPayload);
      case Object(status, data) =>
        if status.None? || data.None? { return Err(BadPayload); }
        if status.value != String(Lit("success")) { return Err(BadStatus); }
        if !data.value.Mapping? || data.value.candles.None? { return Err(BadData); }
        if !data.value.candles.value.Rows? { return Err(BadData); }
        if data.value.candles.value.rows == [] {
          NothingParsed(lex, symbol);
          return Ok(Parsed([], [], false));
        }
        r := ParseCandles(lex, symbol, data.value.candles.value.rows);
    }
  }

  lemma NothingParsed(lex: Lexicon, symbol: Text)
    ensures ParseRows(lex, symbol, []) == Ok(Parsed([], [], false))
  {
    NoFault(lex, symbol, [], 0);
    var parsed := ParsedRows(lex, symbol, []);
    assert parsed.bars == [] && parsed.openInterest == [];
  }

  lemma Interest(lex: Lexicon, symbol: Text, rows: seq<Row>)
    requires ParseRows(lex, symbol, rows).Ok?
    ensures ParseRows(lex, symbol, rows).value.hadOpenInterest <==>
            rows != [] && forall i :: 0 <= i < |rows| ==> rows[i].Row? && |rows[i].cells| == 7
  {
    RowsAccepted(lex, symbol, rows);
    NoFault(lex, symbol, rows, |rows|);
    hide RowFault, FirstFault, GoodRow, Blank, BarOf, InterestOf, Later;
    if rows != [] { assert GoodRow(lex, rows[0]); GoodIsRow(lex, rows[0]); }
    forall i | 0 <= i < |rows| ensures rows[i].Row? { GoodIsRow(lex, rows[i]); }
  }

  lemma GoodIsRow(lex: Lexicon, row: Row)
    requires GoodRow(lex, row)
    ensures row.Row? && Shaped(row)
  {
  }

  /* ---------- refusals ---------- */

  // What each fault of row i says about its cells.
  ghost predicate Means(lex: Lexicon, symbol: Text, rows: seq<Row>, i: int, f: ParseFault)
    requires 0 <= i < |rows|
  {
    var row := rows[i];
    match f
    case BadRow => !(row.Row? && (|row.cells| == 6 || |row.cells| == 7))
    case MixedSchema => row.Row? && rows[0].Row? && |row.cells| != |rows[0].cells|
    case BadTimestamp => Shaped(row) && !(row.cells[0].String? && lex.stampOf(row.cells[0].text).Aware?)
    case CalendarOverflow =>
      Shaped(row) && row.cells[0].String? && lex.stampOf(row.cells[0].text).Aware? && forall t: int :: !ReadsAt(lex, row.cells[0], t)
    case DuplicateTimestamp =>
      i > 0 && Shaped(row) && Shaped(rows[i - 1]) && exists t: int :: ReadsAt(lex, rows[i - 1].cells[0], t) && ReadsAt(lex, row.cells[0], t)
    case OutOfOrderTimestamp =>
      i > 0 && Shaped(row) && Shaped(rows[i - 1]) && Later(lex, row, rows[i - 1])
    case BadPrice => Shaped(row) && Illegible(lex, row.cells)
    case NonPositivePrice => Shaped(row) && NotPositive(lex, row.cells)
    case BadOhlc => Shaped(row) && Crossed(lex, row.cells)
    case BadOpenInterest => Shaped(row) && |row.cells| == 7 && forall d: Decimal :: !Reads(lex, row.cells[6], d)
    case BadVolume => Shaped(row) && forall n: int :: !ReadsWhole(lex, row.cells[5], n)
    case BlankSymbol => GoodRow(lex, row) && Blank(symbol)
    case _ => false
  }

  // Some price column is no finite number.
  ghost predicate Illegible(lex: Lexicon, cells: seq<Cell>)
    requires |cells| >= 6
  {
    (forall d: Decimal :: !Reads(lex, cells[1], d)) || (forall d: Decimal :: !Reads(lex, cells[2], d)) ||
    (forall d: Decimal :: !Reads(lex, cells[3], d)) || (forall d: Decimal :: !Reads(lex, cells[4], d))
  }

  // Some price column is zero or less.
  ghost predicate NotPositive(lex: Lexicon, cells: seq<Cell>)
    requires |cells| >= 6
  {
    (exists d: Decimal :: Reads(lex, cells[1], d) && d.coefficient <= 0) || (exists d: Decimal :: Reads(lex, cells[2], d) && d.coefficient <= 0) ||
    (exists d: Decimal :: Reads(lex, cells[3], d) && d.coefficient <= 0) || (exists d: Decimal :: Reads(lex, cells[4], d) && d.coefficient <= 0)
  }

  // Positive prices that are not low <= open, close <= high.
  ghost predicate Crossed(lex: Lexicon, cells: seq<Cell>)
    requires |cells| >= 6
  {
    exists open: Decimal, high: Decimal, low: Decimal, close: Decimal ::
      Reads(lex, cells[1], open) && Reads(lex, cells[2], high) && Reads(lex, cells[3], low) && Reads(lex, cells[4], close) &&
      open.coefficient > 0 && high.coefficient > 0 && low.coefficient > 0 && close.coefficient > 0 &&
      !(Le(low, open) && Le(open, high) && Le(low, close) && Le(close, high))
  }

  lemma PriceRefused(lex: Lexicon, cells: seq<Cell>)
    requires |cells| >= 6
    ensures match PriceFault(lex, cells)
            case None => true
            case Some(BadPrice) => Illegible(lex, cells)
            case Some(NonPositivePrice) => NotPositive(lex, cells)
            case Some(BadOhlc) => Crossed(lex, cells)
            case _ => false
  {
    hide Le, ReadDecimal, Reads;
    Column(lex, cells[1]);
    Column(lex, cells[2]);
    Column(lex, cells[3]);
    Column(lex, cells[4]);
  }

  lemma StampRefused(lex: Lexicon, symbol: Text, rows: seq<Row>, i: int)
    requires 0 <= i < |rows| && Shaped(rows[i]) && ReadStamp(lex, rows[i].cells[0]).Err?
    ensures Means(lex, symbol, rows, i, ReadStamp(lex, rows[i].cells[0]).error)
  {
  }

  lemma OrderRefused(lex: Lexicon, symbol: Text, rows: seq<Row>, i: int)
    requires 0 <= i < |rows| && Shaped(rows[i]) && ReadStamp(lex, rows[i].cells[0]).Ok?
    ensures var f := OrderFault(lex, rows, i, ReadStamp(lex, rows[i].cells[0]).value);
            f.Some? ==> Means(lex, symbol, rows, i, f.value)
  {
    if i > 0 && Shaped(rows[i - 1]) {
      Times(lex, rows[i - 1].cells[0]);
      Times(lex, rows[i].cells[0]);
    }
    hide ReadStamp, ReadsAt;
  }

  lemma PricesRefused(lex: Lexicon, symbol: Text, rows: seq<Row>, i: int)
    requires 0 <= i < |rows| && Shaped(rows[i]) && PriceFault(lex, rows[i].cells).Some?
    ensures Means(lex, symbol, rows, i, PriceFault(lex, rows[i].cells).value)
  {
    PriceRefused(lex, rows[i].cells);
    hide PriceFault, Illegible, NotPositive, Crossed, ReadsAt, GoodRow, Blank;
  }

  lemma RestRefused(lex: Lexicon, symbol: Text, rows: seq<Row>, i: int)
    requires 0 <= i < |rows| && Shaped(rows[i]) && ReadStamp(lex, rows[i].cells[0]).Ok? && PriceFault(lex, rows[i].cells).None?
    requires RestFault(lex, rows[i].cells, symbol).Some?
    ensures Means(lex, symbol, rows, i, RestFault(lex, rows[i].cells, symbol).value)
  {
    Times(lex, rows[i].cells[0]);
    Prices(lex, rows[i].cells);
    Rest(lex, rows[i].cells, symbol);
    RestFaults(lex, rows[i].cells, symbol);
    hide PriceFault, RestFault, Priced, ReadStamp, ReadsAt, Reads, ReadsWhole, Blank, Crossed, Illegible, NotPositive, Instant;
  }

  lemma RestFaults(lex: Lexicon, cells: seq<Cell>, symbol: Text)
    requires |cells| >= 6 && RestFault(lex, cells, symbol).Some?
    ensures var f := RestFault(lex, cells, symbol).value; f == BadOpenInterest || f == BadVolume || f == BlankSymbol
  {
    hide ReadDecimal, ReadVolume, Blank;
  }

  /** Every fault of a row means what it says. */
  lemma RowFaultMeans(lex: Lexicon, symbol: Text, rows: seq<Row>, i: int)
    requires 0 <= i < |rows| && RowFault(lex, symbol, rows, i).Some?
    ensures Means(lex, symbol, rows, i, RowFault(lex, symbol, rows, i).value)
  {
    hide ReadStamp, PriceFault, RestFault, OrderFault, Means;
    if !Shaped(rows[i]) || (rows[0].Row? && |rows[i].cells| != |rows[0].cells|) {
      ShapeRefused(lex, symbol, rows, i);
    } else if ReadStamp(lex, rows[i].cells[0]).Err? {
      StampRefused(lex, symbol, rows, i);
    } else if OrderFault(lex, rows, i, ReadStamp(lex, rows[i].cells[0]).value).Some? {
      OrderRefused(lex, symbol, rows, i);
    } else if PriceFault(lex, rows[i].cells).Some? {
      PricesRefused(lex, symbol, rows, i);
    } else {
      RestRefused(lex, symbol, rows, i);
    }
  }

  lemma ShapeRefused(lex: Lexicon, symbol: Text, rows: seq<Row>, i: int)
    requires 0 <= i < |rows| && (!Shaped(rows[i]) || (rows[0].Row? && |rows[i].cells| != |rows[0].cells|))
    ensures Means(lex, symbol, rows, i, if !Shaped(rows[i]) then BadRow else MixedSchema)
  {
    hide GoodRow, Blank, ReadsAt;
  }

  // Row i is the first that is not accepted, its timestamp having no date in IST.
  ghost predicate OutOfCalendar(lex: Lexicon, symbol: Text, rows: seq<Row>, i: int) {
    0 <= i < |rows| && Means(lex, symbol, rows, i, CalendarOverflow) &&
    (i > 0 ==> GoodRows(lex, rows[..i]) && !Blank(symbol) && rows[0].Row? && |rows[i].cells| == |rows[0].cells|)
  }

  lemma Prefix(lex: Lexicon, symbol: Text, rows: seq<Row>, i: int, j: int)
    requires 0 <= j < i <= |rows|
    ensures RowFault(lex, symbol, rows[..i], j) == RowFault(lex, symbol, rows, j)
  {
    hide ReadStamp, PriceFault, RestFault;
  }

  lemma OverflowAtRow(lex: Lexicon, symbol: Text, rows: seq<Row>, i: int)
    requires OutOfCalendar(lex, symbol, rows, i)
    ensures ParseRows(lex, symbol, rows) == Err(CalendarOverflow)
  {
    hide RowFault, GoodRows, Blank, ParseRows, Means;
    forall j | 0 <= j < i ensures RowFault(lex, symbol, rows, j).None? {
      GoodFaultless(lex, symbol, rows[..i], j);
      Prefix(lex, symbol, rows, i, j);
    }
    OverflowFault(lex, symbol, rows, i);
    RefusedForFirstFault(lex, symbol, rows, i);
  }

  lemma OverflowFault(lex: Lexicon, symbol: Text, rows: seq<Row>, i: int)
    requires 0 <= i < |rows| && Means(lex, symbol, rows, i, CalendarOverflow) && (i > 0 ==> rows[0].Row? && |rows[i].cells| == |rows[0].cells|)
    ensures RowFault(lex, symbol, rows, i) == Some(CalendarOverflow)
  {
    hide PriceFault, RestFault, OrderFault, ReadsAt;
    Times(lex, rows[i].cells[0]);
  }

  lemma BlankAtRow(lex: Lexicon, symbol: Text, rows: seq<Row>)
    requires rows != [] && GoodRow(lex, rows[0]) && Blank(symbol)
    ensures ParseRows(lex, symbol, rows) == Err(BlankSymbol)
  {
    hide ParseRows, Blank, FirstFault;
    GoodIsRow(lex, rows[0]);
    Times(lex, rows[0].cells[0]);
    Prices(lex, rows[0].cells);
    Rest(lex, rows[0].cells, symbol);
    FirstInOrder(lex, rows);
    assert RowFault(lex, symbol, rows, 0) == Some(BlankSymbol) by {
      hide ReadStamp, PriceFault, RestFault, OrderFault, ReadsAt, Reads, ReadsWhole, Priced;
    }
    hide RowFault;
    RefusedForFirstFault(lex, symbol, rows, 0);
  }

  // What the first fault of the rows says, when it is no parse error.
  lemma EscapesAtRow(lex: Lexicon, symbol: Text, rows: seq<Row>)
    requires ParseRows(lex, symbol, rows).Err?
    ensures var f := ParseRows(lex, symbol, rows).error;
            !f.LoaderFailure? && (f.CalendarOverflow? ==> exists i :: OutOfCalendar(lex, symbol, rows, i)) &&
            (f.BlankSymbol? ==> rows != [] && GoodRow(lex, rows[0]) && Blank(symbol))
  {
    hide RowFault, Means, GoodRow, FirstFault, Blank, ParseRows, GoodRows;
    var i := FaultAt(lex, symbol, rows);
    var f := ParseRows(lex, symbol, rows).error;
    RowFaultMeans(lex, symbol, rows, i);
    NoLoader(lex, symbol, rows, i);
    if i > 0 {
      forall j | 0 <= j < |rows[..i]| ensures RowFault(lex, symbol, rows[..i], j).None? { Prefix(lex, symbol, rows, i, j); }
      FaultlessGood(lex, symbol, rows[..i]);
    }
    if f.BlankSymbol? { BlankMeans(lex, symbol, rows, i); }
    if f.CalendarOverflow? {
      OverflowShape(lex, symbol, rows, i);
      assert OutOfCalendar(lex, symbol, rows, i);
    }
  }

  lemma OverflowShape(lex: Lexicon, symbol: Text, rows: seq<Row>, i: int)
    requires 0 <= i < |rows| && RowFault(lex, symbol, rows, i) == Some(CalendarOverflow) && (i > 0 ==> RowFault(lex, symbol, rows, 0).None?)
    ensures i > 0 ==> rows[0].Row? && |rows[i].cells| == |rows[0].cells|
  {
    hide ReadStamp, PriceFault, RestFault, OrderFault;
  }

  /** What leaves the parser as another exception than its own parse error: the decoder's own, the blank symbol of an
      instrument whose first row is good, and the first row that is not accepted having a timestamp without a date in IST. */
  lemma EscapesIff(lex: Lexicon, p: Payload, symbol: Text)
    ensures Parse(lex, p, symbol) == Err(LoaderFailure) <==> p.LoaderRaises?
    ensures Parse(lex, p, symbol) == Err(BlankSymbol) <==>
            exists rows: seq<Row> :: HasRows(p, rows) && rows != [] && GoodRow(lex, rows[0]) && Blank(symbol)
    ensures Parse(lex, p, symbol) == Err(CalendarOverflow) <==>
            exists rows: seq<Row>, i :: HasRows(p, rows) && OutOfCalendar(lex, symbol, rows, i)
  {
    hide ParseRows, OutOfCalendar, GoodRow, Blank;
    forall rows: seq<Row> ensures RowsOf(p) == Ok(rows) <==> HasRows(p, rows) { Envelope(p, rows); }
    EnvelopeFaults(p);
    hide RowsOf, HasRows;
    if RowsOf(p).Ok? {
      var rows := RowsOf(p).value;
      if ParseRows(lex, symbol, rows).Err? { EscapesAtRow(lex, symbol, rows); }
      if rows != [] && GoodRow(lex, rows[0]) && Blank(symbol) { BlankAtRow(lex, symbol, rows); }
      if i :| OutOfCalendar(lex, symbol, rows, i) { OverflowAtRow(lex, symbol, rows, i); }
    }
  }

  lemma EnvelopeFaults(p: Payload)
    ensures RowsOf(p).Err? ==> (RowsOf(p).error == LoaderFailure <==> p.LoaderRaises?) && RowsOf(p).error != BlankSymbol && RowsOf(p).error != CalendarOverflow
    ensures p.LoaderRaises? ==> RowsOf(p).Err?
  {
  }

  lemma BlankMeans(lex: Lexicon, symbol: Text, rows: seq<Row>, i: int)
    requires 0 <= i < |rows| && Means(lex, symbol, rows, i, BlankSymbol)
    ensures GoodRow(lex, rows[i]) && Blank(symbol)
  {
  }

  lemma NoLoader(lex: Lexicon, symbol: Text, rows: seq<Row>, i: int)
    requires 0 <= i < |rows|
    ensures !Means(lex, symbol, rows, i, LoaderFailure)
  {
  }

  // The first faulty row.
  lemma FaultAt(lex: Lexicon, symbol: Text, rows: seq<Row>) returns (i: int)
    requires ParseRows(lex, symbol, rows).Err?
    ensures 0 <= i < |rows| && RowFault(lex, symbol, rows, i) == Some(ParseRows(lex, symbol, rows).error)
    ensures forall j :: 0 <= j < i ==> RowFault(lex, symbol, rows, j).None?
  {
    hide RowFault, FirstFault;
    NoFault(lex, symbol, rows, |rows|);
    i := 0;
    while RowFault(lex, symbol, rows, i).None?
      invariant 0 <= i < |rows|
      invariant forall j :: 0 <= j < i ==> RowFault(lex, symbol, rows, j).None?
      decreases |rows| - i
    {
      NoFault(lex, symbol, rows, i + 1);
      i := i + 1;
    }
    RefusedForFirstFault(lex, symbol, rows, i);
  }
}
