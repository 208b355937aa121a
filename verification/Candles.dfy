/** Parsing of a historical-candle response into normalized bars. */
module Candles {
  import opened Basics
  import opened Calendar
  import opened Decimals
  import opened Bars

  /* ---------- the decoded payload ---------- */

  datatype Cell = Null | Boolean(value: bool) | Number(literal: Text) | String(text: Text) | Compound

  datatype Row = NotAList | Row(cells: seq<Cell>)

  datatype Candles = NotRows | Rows(rows: seq<Row>)

  datatype Data = NotMapping | Mapping(candles: Option<Candles>)

  // What `json.loads` makes of the bytes.  It can also raise what is no decoding error: a ValueError for an integer of more
  // than 4300 digits, a RecursionError for deep nesting.
  datatype Payload = NotJson | LoaderRaises | NotObject | Object(status: Option<Cell>, data: Option<Data>)

  // How the standard library reads a number literal or an ISO timestamp; any such reading.
  datatype Reading = Unreadable | Naive | Aware(instant: int)

  datatype Lexicon = Lexicon(decimalOf: Text -> Option<Decimal>, stampOf: Text -> Reading)

  datatype ParseFault =
    | BadPayload | BadStatus | BadData | BadRow | MixedSchema | BadTimestamp | DuplicateTimestamp | OutOfOrderTimestamp
    | BadPrice | NonPositivePrice | BadOhlc | BadOpenInterest | BadVolume
    | LoaderFailure    // ValueError or RecursionError from `json.loads`
    | CalendarOverflow // OverflowError from `astimezone`
    | BlankSymbol      // ValueError from NormalizedBar

  // Raised as HistoricalCandleParseError.
  predicate ParseError(f: ParseFault) { !f.LoaderFailure? && !f.CalendarOverflow? && !f.BlankSymbol? }

  datatype Parsed = Parsed(bars: seq<Bar>, openInterest: seq<Option<Decimal>>, hadOpenInterest: bool)

  /* ---------- one cell ---------- */

  // `_decimal`.
  function ReadDecimal(lex: Lexicon, c: Cell): (r: Option<Decimal>)
    ensures r.Some? ==> r.value.Finite?
  {
    var read := match c
      case Number(t) => lex.decimalOf(t)
      case String(t) => lex.decimalOf(t)
      case _ => None;
    if read.Some? && read.value.Finite? then read else None
  }

  // `_volume`.
  function ReadVolume(lex: Lexicon, c: Cell): (r: Option<int>)
    ensures r.Some? ==> r.value >= 0
  {
    match ReadDecimal(lex, c)
    case None => None
    case Some(d) => if !Integral(d) || d.coefficient < 0 then None else Some(ToInt(d))
  }

  // `_timestamp`.
  function ReadStamp(lex: Lexicon, c: Cell): (r: Result<Stamp, ParseFault>)
    ensures r.Ok? ==> ValidStamp(r.value) && r.value.offset == IST
  {
    if !c.String? then Err(BadTimestamp)
    else
      match lex.stampOf(c.text)
      case Aware(instant) =>
        (match ToZone(Stamp(instant, 0), IST)
         case None => Err(CalendarOverflow)
         case Some(s) => Ok(s))
      case _ => Err(BadTimestamp)
  }

  /* ---------- one row ---------- */

  predicate Shaped(row: Row) { row.Row? && (|row.cells| == 6 || |row.cells| == 7) }

  function PriceFault(lex: Lexicon, cells: seq<Cell>): Option<ParseFault>
    requires |cells| >= 6
  {
    match (ReadDecimal(lex, cells[1]), ReadDecimal(lex, cells[2]), ReadDecimal(lex, cells[3]), ReadDecimal(lex, cells[4]))
    case (Some(open), Some(high), Some(low), Some(close)) =>
      if !(Positive(open) && Positive(high) && Positive(low) && Positive(close)) then Some(NonPositivePrice)
      else if !(Le(low, open) && Le(open, high) && Le(low, close) && Le(close, high)) then Some(BadOhlc)
      else None
    case _ => Some(BadPrice)
  }

  // Open interest is read before volume; the symbol is checked last, by NormalizedBar.
  function RestFault(lex: Lexicon, cells: seq<Cell>, symbol: Text): Option<ParseFault>
    requires |cells| >= 6
  {
    if |cells| == 7 && ReadDecimal(lex, cells[6]).None? then Some(BadOpenInterest)
    else if ReadVolume(lex, cells[5]).None? then Some(BadVolume)
    else if Blank(symbol) then Some(BlankSymbol)
    else None
  }

  /* ---------- cells, read ---------- */

  // The cell is a number, or text that reads as one, and finite.
  predicate Reads(lex: Lexicon, c: Cell, d: Decimal) {
    d.Finite? && ((c.Number? && lex.decimalOf(c.literal) == Some(d)) || (c.String? && lex.decimalOf(c.text) == Some(d)))
  }

  // The cell is text that reads as this instant, which has a date in IST.
  predicate ReadsAt(lex: Lexicon, c: Cell, t: int) {
    c.String? && lex.stampOf(c.text) == Aware(t) && 0 <= t + IST * MICROS < MAX_LOCAL
  }

  // The cell is a whole number, not negative.
  ghost predicate ReadsWhole(lex: Lexicon, c: Cell, n: int) {
    n >= 0 && exists d: Decimal :: Reads(lex, c, d) && Same(d, Finite(n, 0))
  }

  lemma ReadsIs(lex: Lexicon, c: Cell, d: Decimal)
    ensures Reads(lex, c, d) <==> ReadDecimal(lex, c) == Some(d)
  {
  }

  lemma ReadsAtIs(lex: Lexicon, c: Cell, t: int)
    ensures ReadsAt(lex, c, t) <==> ReadStamp(lex, c).Ok? && Instant(ReadStamp(lex, c).value) == t
    ensures ReadStamp(lex, c) == Err(CalendarOverflow) <==>
            c.String? && lex.stampOf(c.text).Aware? && !ReadsAt(lex, c, lex.stampOf(c.text).instant)
    ensures ReadStamp(lex, c).Err? ==> ReadStamp(lex, c).error == CalendarOverflow || ReadStamp(lex, c).error == BadTimestamp
  {
  }

  lemma ReadsWholeIs(lex: Lexicon, c: Cell, n: int)
    ensures ReadsWhole(lex, c, n) <==> ReadVolume(lex, c) == Some(n)
  {
    hide Same, Integral, ToInt, Reads;
    match ReadDecimal(lex, c)
    case None => forall d: Decimal ensures !Reads(lex, c, d) { ReadsIs(lex, c, d); }
    case Some(d) =>
      forall x: Decimal ensures Reads(lex, c, x) <==> x == d { ReadsIs(lex, c, x); }
      WholeIff(d, n);
  }

  // What is wrong with row i when the rows before it are fine.
  function RowFault(lex: Lexicon, symbol: Text, rows: seq<Row>, i: int): Option<ParseFault>
    requires 0 <= i < |rows|
  {
    if !Shaped(rows[i]) then Some(BadRow)
    else if rows[0].Row? && |rows[i].cells| != |rows[0].cells| then Some(MixedSchema)
    else
      match ReadStamp(lex, rows[i].cells[0])
      case Err(f) => Some(f)
      case Ok(t) =>
        var order := OrderFault(lex, rows, i, t);
        if order.Some? then order
        else if PriceFault(lex, rows[i].cells).Some? then PriceFault(lex, rows[i].cells)
        else RestFault(lex, rows[i].cells, symbol)
  }

  function OrderFault(lex: Lexicon, rows: seq<Row>, i: int, t: Stamp): Option<ParseFault>
    requires 0 <= i < |rows|
  {
    if i == 0 || !Shaped(rows[i - 1]) then None
    else
      match ReadStamp(lex, rows[i - 1].cells[0])
      case Err(_) => None
      case Ok(previous) =>
        if t.local == previous.local then Some(DuplicateTimestamp)
        else if t.local < previous.local then Some(OutOfOrderTimestamp)
        else None
  }

  // The row reads on its own.
  predicate Readable(lex: Lexicon, symbol: Text, row: Row) {
    Shaped(row) && ReadStamp(lex, row.cells[0]).Ok? &&
    PriceFault(lex, row.cells).None? && RestFault(lex, row.cells, symbol).None?
  }

  function BarOf(lex: Lexicon, symbol: Text, row: Row): (b: Bar)
    requires Readable(lex, symbol, row)
    ensures ValidBar(b) && GoodPrices(b) && b.timestamp.offset == IST
  {
    Bar(symbol, ReadStamp(lex, row.cells[0]).value,
        Num(ReadDecimal(lex, row.cells[1]).value), Num(ReadDecimal(lex, row.cells[2]).value),
        Num(ReadDecimal(lex, row.cells[3]).value), Num(ReadDecimal(lex, row.cells[4]).value),
        ReadVolume(lex, row.cells[5]).value)
  }

  function InterestOf(lex: Lexicon, row: Row): Option<Decimal>
    requires Shaped(row)
  {
    if |row.cells| == 7 then ReadDecimal(lex, row.cells[6]) else None
  }

  predicate Taken(lex: Lexicon, symbol: Text, row: Row, b: Bar, interest: Option<Decimal>) {
    Readable(lex, symbol, row) && b == BarOf(lex, symbol, row) && interest == InterestOf(lex, row)
  }

  /* ---------- the whole response ---------- */

  // The first fault among the first n rows.
  function FirstFault(lex: Lexicon, symbol: Text, rows: seq<Row>, n: int): Option<ParseFault>
    requires 0 <= n <= |rows|
  {
    if n == 0 then None
    else if FirstFault(lex, symbol, rows, n - 1).Some? then FirstFault(lex, symbol, rows, n - 1)
    else RowFault(lex, symbol, rows, n - 1)
  }

  predicate AllGood(lex: Lexicon, symbol: Text, rows: seq<Row>) {
    forall i :: 0 <= i < |rows| ==> RowFault(lex, symbol, rows, i).None?
  }

  function ParsedRows(lex: Lexicon, symbol: Text, rows: seq<Row>): Parsed
    requires AllGood(lex, symbol, rows)
  {
    Parsed(seq(|rows|, i requires 0 <= i < |rows| && RowFault(lex, symbol, rows, i).None? => BarOf(lex, symbol, rows[i])),
           seq(|rows|, i requires 0 <= i < |rows| && RowFault(lex, symbol, rows, i).None? => InterestOf(lex, rows[i])),
           rows != [] && Shaped(rows[0]) && |rows[0].cells| == 7)
  }

  function ParseRows(lex: Lexicon, symbol: Text, rows: seq<Row>): Result<Parsed, ParseFault> {
    var fault := FirstFault(lex, symbol, rows, |rows|);
    if fault.Some? then Err(fault.value)
    else
      NoFault(lex, symbol, rows, |rows|);
      Ok(ParsedRows(lex, symbol, rows))
  }

  function RowsOf(p: Payload): Result<seq<Row>, ParseFault> {
    if p.LoaderRaises? then Err(LoaderFailure)
    else if !p.Object? || p.status.None? || p.data.None? then Err(BadPayload)
    else if p.status.value != String(Lit("success")) then Err(BadStatus)
    else if !p.data.value.Mapping? || p.data.value.candles.None? || !p.data.value.candles.value.Rows? then Err(BadData)
    else Ok(p.data.value.candles.value.rows)
  }

  function Parse(lex: Lexicon, p: Payload, symbol: Text): Result<Parsed, ParseFault> {
    match RowsOf(p)
    case Err(f) => Err(f)
    case Ok(rows) => ParseRows(lex, symbol, rows)
  }

  lemma {:induction false} NoFault(lex: Lexicon, symbol: Text, rows: seq<Row>, n: int)
    requires 0 <= n <= |rows|
    ensures FirstFault(lex, symbol, rows, n).None? <==> forall i :: 0 <= i < n ==> RowFault(lex, symbol, rows, i).None?
  {
    hide RowFault;
    if n > 0 { NoFault(lex, symbol, rows, n - 1); }
  }

  lemma {:induction false} FaultStays(lex: Lexicon, symbol: Text, rows: seq<Row>, n: int, m: int)
    requires 0 <= n <= m <= |rows| && FirstFault(lex, symbol, rows, n).Some?
    ensures FirstFault(lex, symbol, rows, m) == FirstFault(lex, symbol, rows, n)
    decreases m
  {
    hide RowFault;
    if n < m { FaultStays(lex, symbol, rows, n, m - 1); }
  }

  lemma NextRow(lex: Lexicon, symbol: Text, rows: seq<Row>, n: int)
    requires 0 <= n < |rows| && FirstFault(lex, symbol, rows, n).None?
    ensures RowFault(lex, symbol, rows, n).None? ==> FirstFault(lex, symbol, rows, n + 1).None?
    ensures RowFault(lex, symbol, rows, n).Some? ==>
              ParseRows(lex, symbol, rows) == Err(RowFault(lex, symbol, rows, n).value)
  {
    hide RowFault;
    if RowFault(lex, symbol, rows, n).Some? { FaultStays(lex, symbol, rows, n + 1, |rows|); }
  }

  /** `parse_historical_candles` from the row list on: the loop with `row_length`, `previous` and growing lists. */
  method ParseCandles(lex: Lexicon, symbol: Text, rows: seq<Row>) returns (r: Result<Parsed, ParseFault>)
    ensures r == ParseRows(lex, symbol, rows)
  {
    hide ReadStamp, ReadDecimal, ReadVolume, PriceFault, RestFault, Blank, FirstFault, ParseRows;
    var rowLength: Option<int> := None;
    var bars: seq<Bar> := [];
    var openInterest: seq<Option<Decimal>> := [];
    var previous: Option<Stamp> := None;
    FirstFaultNone(lex, symbol, rows);
    for index := 0 to |rows|
      invariant FirstFault(lex, symbol, rows, index).None?
      invariant |bars| == |openInterest| == index
      invariant rowLength == (if index == 0 || !rows[0].Row? then None else Some(|rows[0].cells|))
      invariant index > 0 ==> Shaped(rows[0])
      invariant previous.Some? <==> index > 0
      invariant index > 0 ==> Shaped(rows[index - 1]) && ReadStamp(lex, rows[index - 1].cells[0]) == Ok(previous.value)
      invariant forall i :: 0 <= i < index ==> Taken(lex, symbol, rows[i], bars[i], openInterest[i])
    {
      var row := rows[index];
      NextRow(lex, symbol, rows, index);
      if !row.Row? || (|row.cells| != 6 && |row.cells| != 7) { return Err(BadRow); }
      if rowLength.None? {
        rowLength := Some(|row.cells|);
      } else if |row.cells| != rowLength.value { return Err(MixedSchema); }
      var timestamp := ReadStamp(lex, row.cells[0]);
      if timestamp.Err? { return Err(timestamp.error); }
      if previous.Some? && timestamp.value.local <= previous.value.local {
        return Err(if timestamp.value.local == previous.value.local then DuplicateTimestamp else OutOfOrderTimestamp);
      }
      previous := Some(timestamp.value);
      var prices := PriceFault(lex, row.cells);
      if prices.Some? { return Err(prices.value); }
      var rest := RestFault(lex, row.cells, symbol);
      if rest.Some? { return Err(rest.value); }
      bars := bars + [BarOf(lex, symbol, row)];
      openInterest := openInterest + [InterestOf(lex, row)];
    }
    ParsedAll(lex, symbol, rows, bars, openInterest);
    return Ok(Parsed(bars, openInterest, rowLength == Some(7)));
  }

  lemma FirstFaultNone(lex: Lexicon, symbol: Text, rows: seq<Row>)
    ensures FirstFault(lex, symbol, rows, 0).None?
  {
  }

  lemma GoodRowReadable(lex: Lexicon, symbol: Text, rows: seq<Row>, i: int)
    requires 0 <= i < |rows| && RowFault(lex, symbol, rows, i).None?
    ensures Readable(lex, symbol, rows[i])
  {
    hide ReadStamp, PriceFault, RestFault;
  }

  lemma ParsedAll(lex: Lexicon, symbol: Text, rows: seq<Row>, bars: seq<Bar>, interest: seq<Option<Decimal>>)
    requires FirstFault(lex, symbol, rows, |rows|).None? && |bars| == |interest| == |rows|
    requires forall i :: 0 <= i < |rows| ==> Taken(lex, symbol, rows[i], bars[i], interest[i])
    ensures ParseRows(lex, symbol, rows) == Ok(Parsed(bars, interest, rows != [] && Shaped(rows[0]) && |rows[0].cells| == 7))
  {
    hide RowFault, Readable, BarOf, InterestOf, Shaped, FirstFault;
    NoFault(lex, symbol, rows, |rows|);
    var p := ParsedRows(lex, symbol, rows);
    assert p.bars == bars;
    assert p.openInterest == interest;
  }

  /* ---------- what parsed bars satisfy ---------- */

  // Every bar the parser makes: positive prices in order, whole volume, IST, and strictly increasing instants.
  predicate ParserBars(bars: seq<Bar>) {
    (forall i :: 0 <= i < |bars| ==> ValidBar(bars[i]) && GoodPrices(bars[i]) && bars[i].timestamp.offset == IST) &&
    (forall i :: 0 < i < |bars| ==> Gap(bars, i) > 0)
  }

  lemma OrderedStep(lex: Lexicon, symbol: Text, rows: seq<Row>, i: int)
    requires 0 < i < |rows| && RowFault(lex, symbol, rows, i).None? && Readable(lex, symbol, rows[i - 1])
    ensures Readable(lex, symbol, rows[i])
    ensures BarOf(lex, symbol, rows[i - 1]).timestamp.local < BarOf(lex, symbol, rows[i]).timestamp.local
  {
    hide ReadStamp, PriceFault, RestFault, ReadDecimal, ReadVolume;
  }

  /** Parsed bars are strictly increasing, well-priced and in IST, one for each row. */
  lemma ParsedBars(lex: Lexicon, symbol: Text, rows: seq<Row>)
    requires ParseRows(lex, symbol, rows).Ok?
    ensures ParserBars(ParseRows(lex, symbol, rows).value.bars)
    ensures |ParseRows(lex, symbol, rows).value.bars| == |rows|
  {
    hide RowFault, Readable, BarOf, InterestOf, Shaped, FirstFault, ValidBar, GoodPrices;
    NoFault(lex, symbol, rows, |rows|);
    var bars := ParseRows(lex, symbol, rows).value.bars;
    forall i | 0 <= i < |rows| ensures Readable(lex, symbol, rows[i]) && bars[i] == BarOf(lex, symbol, rows[i]) {
      GoodRowReadable(lex, symbol, rows, i);
    }
    forall i | 0 < i < |bars| ensures Gap(bars, i) > 0 {
      OrderedStep(lex, symbol, rows, i);
    }
  }

  /** A response is refused exactly for its first faulty row. */
  lemma {:induction false} RefusedForFirstFault(lex: Lexicon, symbol: Text, rows: seq<Row>, i: int)
    requires 0 <= i < |rows| && RowFault(lex, symbol, rows, i).Some?
    requires forall j :: 0 <= j < i ==> RowFault(lex, symbol, rows, j).None?
    ensures ParseRows(lex, symbol, rows) == Err(RowFault(lex, symbol, rows, i).value)
  {
    hide RowFault, ParseRows, FirstFault;
    NoFault(lex, symbol, rows, i);
    NextRow(lex, symbol, rows, i);
  }

  // The bar says what its row says: the instant, the four prices column by column, and the volume as a number.
  ghost predicate SaysRow(lex: Lexicon, symbol: Text, cells: seq<Cell>, b: Bar, interest: Option<Decimal>) {
    (|cells| == 6 || |cells| == 7) && b.symbol == symbol && b.timestamp.offset == IST &&
    ReadsAt(lex, cells[0], Instant(b.timestamp)) &&
    Says(lex, cells[1], b.open) && Says(lex, cells[2], b.high) && Says(lex, cells[3], b.low) && Says(lex, cells[4], b.close) &&
    ReadsWhole(lex, cells[5], b.volume) &&
    (if |cells| == 6 then interest.None? else interest.Some? && Reads(lex, cells[6], interest.value))
  }

  predicate Says(lex: Lexicon, c: Cell, p: Price) { p.Num? && Reads(lex, c, p.value) }

  lemma BarSaysRow(lex: Lexicon, symbol: Text, row: Row)
    requires Readable(lex, symbol, row)
    ensures SaysRow(lex, symbol, row.cells, BarOf(lex, symbol, row), InterestOf(lex, row))
  {
    var cells, b := row.cells, BarOf(lex, symbol, row);
    ReadsAtIs(lex, cells[0], Instant(b.timestamp));
    ReadsWholeIs(lex, cells[5], b.volume);
    hide ReadVolume, ReadStamp, ReadsAt, ReadsWhole, Le, Positive, Blank, Instant;
    ReadsIs(lex, cells[1], b.open.value);
    ReadsIs(lex, cells[2], b.high.value);
    ReadsIs(lex, cells[3], b.low.value);
    ReadsIs(lex, cells[4], b.close.value);
    if |cells| == 7 { ReadsIs(lex, cells[6], InterestOf(lex, row).value); }
    hide Reads, ReadDecimal;
  }

  /** Each bar and open-interest value is exactly what the columns of its row say. */
  lemma ParsedColumns(lex: Lexicon, symbol: Text, rows: seq<Row>, i: int)
    requires ParseRows(lex, symbol, rows).Ok? && 0 <= i < |rows|
    ensures rows[i].Row? && |ParseRows(lex, symbol, rows).value.bars| == |rows| == |ParseRows(lex, symbol, rows).value.openInterest|
    ensures SaysRow(lex, symbol, rows[i].cells, ParseRows(lex, symbol, rows).value.bars[i], ParseRows(lex, symbol, rows).value.openInterest[i])
  {
    hide RowFault, Readable, BarOf, InterestOf, FirstFault, SaysRow;
    NoFault(lex, symbol, rows, |rows|);
    GoodRowReadable(lex, symbol, rows, i);
    BarSaysRow(lex, symbol, rows[i]);
    ReadableIsRow(lex, symbol, rows[i]);
  }

  lemma ReadableIsRow(lex: Lexicon, symbol: Text, row: Row)
    requires Readable(lex, symbol, row)
    ensures Shaped(row)
  {
  }
}
