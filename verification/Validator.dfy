/** `validate_normalized_bars`: one pass of counters, and what its verdict means. */
module Validator {
  import opened Basics
  import opened Calendar
  import opened Decimals
  import opened Bars
  import opened Candles

  datatype Element = NotABar | ABar(bar: Bar)

  datatype ErrorCode =
    EmptyBars | InvalidPriceType | InvalidPriceValue | InvalidOhlc | NonMonotonicTimestamps | InvalidVolume | InvalidNormalizedBars

  datatype ValidationResult = ValidationResult(
    isValid: bool, barCount: nat, strictlyIncreasing: bool, duplicates: nat, nonIncreasing: nat,
    invalidOhlc: nat, nonPositive: nat, negativeVolume: nat, deltas: map<int, nat>, errorCode: Option<ErrorCode>)

  // Python's `int(...)`, which truncates toward zero.
  function Truncate(micros: int): int { if micros >= 0 then micros / MICROS else -(-micros / MICROS) }

  predicate TypedPrices(b: Bar) { b.open.Num? && b.high.Num? && b.low.Num? && b.close.Num? }

  /* ---------- what is counted ---------- */

  // The bars among the elements, in order; a stranger neither counts nor resets `previous`.
  function BarsIn(xs: seq<Element>): seq<Bar> {
    if xs == [] then []
    else BarsIn(xs[..|xs| - 1]) + (if xs[|xs| - 1].ABar? then [xs[|xs| - 1].bar] else [])
  }

  function Strangers(xs: seq<Element>): nat {
    if xs == [] then 0 else Strangers(xs[..|xs| - 1]) + (if xs[|xs| - 1].ABar? then 0 else 1)
  }

  datatype Kind = PriceWrong | OhlcWrong | VolumeNegative | TypeWrong

  predicate IsOfKind(k: Kind, b: Bar) {
    match k
    case PriceWrong => !PositivePrices(b)
    case OhlcWrong => PositivePrices(b) && !Ohlc(b)
    case VolumeNegative => b.volume < 0
    case TypeWrong => !TypedPrices(b)
  }

  function Count(k: Kind, bars: seq<Bar>): nat {
    if bars == [] then 0 else Count(k, bars[..|bars| - 1]) + (if IsOfKind(k, bars[|bars| - 1]) then 1 else 0)
  }

  function Delta(bars: seq<Bar>, i: int): int
    requires 0 < i < |bars|
  {
    Truncate(Gap(bars, i))
  }

  // How many consecutive pairs lie `d` whole seconds apart.
  function CountDelta(d: int, bars: seq<Bar>): nat {
    if |bars| < 2 then 0
    else CountDelta(d, bars[..|bars| - 1]) + (if Delta(bars, |bars| - 1) == d then 1 else 0)
  }

  function CountBack(bars: seq<Bar>): nat {
    if |bars| < 2 then 0
    else CountBack(bars[..|bars| - 1]) + (if Delta(bars, |bars| - 1) <= 0 then 1 else 0)
  }

  // The Counter agrees with the pairs.
  ghost predicate Distribution(deltas: map<int, nat>, bars: seq<Bar>) {
    forall d :: (if d in deltas then deltas[d] else 0) == CountDelta(d, bars)
  }

  /* ---------- the verdict ---------- */

  // Lines 52-67: the first of the reasons in the source's order.
  function CodeOf(xs: seq<Element>): Option<ErrorCode> {
    var bars := BarsIn(xs);
    if xs == [] then Some(EmptyBars)
    else if Count(TypeWrong, bars) > 0 then Some(InvalidPriceType)
    else if Count(PriceWrong, bars) > 0 then Some(InvalidPriceValue)
    else if Count(OhlcWrong, bars) > 0 then Some(InvalidOhlc)
    else if CountBack(bars) > 0 then Some(NonMonotonicTimestamps)
    else if Count(VolumeNegative, bars) > 0 then Some(InvalidVolume)
    else if Strangers(xs) > 0 then Some(InvalidNormalizedBars)
    else None
  }

  // What acceptance says about the bars.
  predicate Acceptable(xs: seq<Element>) {
    xs != [] &&
    (forall i :: 0 <= i < |xs| ==> xs[i].ABar? && GoodPrices(xs[i].bar) && xs[i].bar.volume >= 0) &&
    (forall i :: 0 < i < |xs| ==> Instant(xs[i].bar.timestamp) - Instant(xs[i - 1].bar.timestamp) >= MICROS)
  }

  lemma DeltaSigns(micros: int)
    ensures Truncate(micros) > 0 <==> micros >= MICROS
    ensures Truncate(micros) == 0 <==> -MICROS < micros < MICROS
    ensures Truncate(micros) < 0 <==> micros <= -MICROS
  {
  }

  lemma {:induction false} CountZero(k: Kind, bars: seq<Bar>)
    ensures Count(k, bars) == 0 <==> forall i :: 0 <= i < |bars| ==> !IsOfKind(k, bars[i])
  {
    hide IsOfKind;
    if bars != [] { CountZero(k, bars[..|bars| - 1]); }
  }

  lemma {:induction false} CountBackZero(bars: seq<Bar>)
    ensures CountBack(bars) == 0 <==> forall i :: 0 < i < |bars| ==> Gap(bars, i) >= MICROS
  {
    if |bars| >= 2 {
      var front := bars[..|bars| - 1];
      CountBackZero(front);
      forall i | 0 < i < |front| ensures Gap(front, i) == Gap(bars, i) { }
      DeltaSigns(Gap(bars, |bars| - 1));
      hide Gap, Truncate;
    }
  }

  lemma {:induction false} NoStrangers(xs: seq<Element>)
    ensures Strangers(xs) == 0 <==> forall i :: 0 <= i < |xs| ==> xs[i].ABar?
    ensures Strangers(xs) == 0 ==>
              |BarsIn(xs)| == |xs| && forall i :: 0 <= i < |xs| ==> xs[i].ABar? && xs[i].bar == BarsIn(xs)[i]
  {
    if xs != [] { NoStrangers(xs[..|xs| - 1]); }
  }

  lemma KindsClear(b: Bar)
    ensures !IsOfKind(PriceWrong, b) && !IsOfKind(OhlcWrong, b) && !IsOfKind(VolumeNegative, b) <==> GoodPrices(b) && b.volume >= 0
    ensures IsOfKind(TypeWrong, b) ==> IsOfKind(PriceWrong, b)
  {
    hide Ohlc;
  }

  // No reason given about the bars, when there are no strangers.
  lemma CodeNoneMeans(xs: seq<Element>)
    ensures CodeOf(xs).None? ==>
              xs != [] && Strangers(xs) == 0 && CountBack(BarsIn(xs)) == 0 &&
              Count(PriceWrong, BarsIn(xs)) == 0 && Count(OhlcWrong, BarsIn(xs)) == 0 && Count(VolumeNegative, BarsIn(xs)) == 0
    ensures xs != [] && Strangers(xs) == 0 && CountBack(BarsIn(xs)) == 0 &&
            Count(PriceWrong, BarsIn(xs)) == 0 && Count(OhlcWrong, BarsIn(xs)) == 0 && Count(VolumeNegative, BarsIn(xs)) == 0
            ==> CodeOf(xs).None?
  {
    var bars := BarsIn(xs);
    CountZero(TypeWrong, bars);
    CountZero(PriceWrong, bars);
    hide Count, Strangers, CountBack, BarsIn, IsOfKind;
    if Count(PriceWrong, bars) == 0 {
      forall i | 0 <= i < |bars| ensures !IsOfKind(TypeWrong, bars[i]) { KindsClear(bars[i]); }
    }
  }

  lemma GoodAll(bars: seq<Bar>)
    ensures Count(PriceWrong, bars) == 0 && Count(OhlcWrong, bars) == 0 && Count(VolumeNegative, bars) == 0 <==>
            forall i :: 0 <= i < |bars| ==> GoodPrices(bars[i]) && bars[i].volume >= 0
  {
    hide Count, IsOfKind, GoodPrices;
    CountZero(PriceWrong, bars);
    CountZero(OhlcWrong, bars);
    CountZero(VolumeNegative, bars);
    forall i | 0 <= i < |bars|
      ensures !IsOfKind(PriceWrong, bars[i]) && !IsOfKind(OhlcWrong, bars[i]) && !IsOfKind(VolumeNegative, bars[i]) <==>
              GoodPrices(bars[i]) && bars[i].volume >= 0
    {
      KindsClear(bars[i]);
    }
  }

  /** The verdict is exact: no error code exactly when the list is non-empty, every element is a well-priced bar,
      and every bar comes at least one second after the one before. */
  lemma AcceptedIff(xs: seq<Element>)
    ensures CodeOf(xs).None? <==> Acceptable(xs)
  {
    hide Count, Strangers, CountBack, BarsIn, CodeOf, GoodPrices;
    var bars := BarsIn(xs);
    CodeNoneMeans(xs);
    NoStrangers(xs);
    GoodAll(bars);
    CountBackZero(bars);
    if Strangers(xs) == 0 {
      forall i | 0 < i < |xs| ensures Gap(bars, i) == Instant(xs[i].bar.timestamp) - Instant(xs[i - 1].bar.timestamp) { }
      assert forall i :: 0 <= i < |bars| ==> xs[i].bar == bars[i];
    }
  }

  /* ---------- the loop ---------- */

  lemma BarsStep(xs: seq<Element>, n: int)
    requires 0 <= n < |xs|
    ensures xs[n].ABar? ==> BarsIn(xs[..n + 1]) == BarsIn(xs[..n]) + [xs[n].bar] && Strangers(xs[..n + 1]) == Strangers(xs[..n])
    ensures !xs[n].ABar? ==> BarsIn(xs[..n + 1]) == BarsIn(xs[..n]) && Strangers(xs[..n + 1]) == Strangers(xs[..n]) + 1
  {
    assert xs[..n + 1][..n] == xs[..n];
  }

  lemma CountStep(k: Kind, bars: seq<Bar>, b: Bar)
    ensures Count(k, bars + [b]) == Count(k, bars) + (if IsOfKind(k, b) then 1 else 0)
  {
    hide IsOfKind;
    assert (bars + [b])[..|bars|] == bars;
  }

  // What one more bar does to the pair counts.
  lemma GapStep(bars: seq<Bar>, b: Bar)
    ensures bars == [] ==> CountBack(bars + [b]) == 0 == CountBack(bars)
    ensures bars != [] ==>
              var delta := Truncate(Instant(b.timestamp) - Instant(bars[|bars| - 1].timestamp));
              CountBack(bars + [b]) == CountBack(bars) + (if delta <= 0 then 1 else 0)
  {
    assert (bars + [b])[..|bars|] == bars;
    hide Truncate;
  }

  lemma DeltaStep(d: int, bars: seq<Bar>, b: Bar)
    ensures bars == [] ==> CountDelta(d, bars + [b]) == 0 == CountDelta(d, bars)
    ensures bars != [] ==>
              var delta := Truncate(Instant(b.timestamp) - Instant(bars[|bars| - 1].timestamp));
              CountDelta(d, bars + [b]) == CountDelta(d, bars) + (if delta == d then 1 else 0)
  {
    assert (bars + [b])[..|bars|] == bars;
    hide Truncate;
  }

  lemma DistributionStep(deltas: map<int, nat>, bars: seq<Bar>, b: Bar)
    requires Distribution(deltas, bars)
    ensures bars == [] ==> Distribution(deltas, bars + [b])
    ensures bars != [] ==>
              var delta := Truncate(Instant(b.timestamp) - Instant(bars[|bars| - 1].timestamp));
              Distribution(deltas[delta := 1 + (if delta in deltas then deltas[delta] else 0)], bars + [b])
  {
    hide CountDelta, Truncate;
    forall d
      ensures CountDelta(d, bars + [b]) == CountDelta(d, bars) +
              (if bars != [] && Truncate(Instant(b.timestamp) - Instant(bars[|bars| - 1].timestamp)) == d then 1 else 0)
    {
      DeltaStep(d, bars, b);
    }
  }

  // The counters after some of the elements.
  datatype Tally = Tally(duplicates: nat, nonIncreasing: nat, invalidOhlc: nat, nonPositive: nat, negativeVolume: nat,
                         invalidPriceType: bool, strangers: nat, previous: Option<Stamp>)

  ghost predicate Tallied(t: Tally, deltas: map<int, nat>, bars: seq<Bar>, strangers: nat) {
    t.duplicates == CountDelta(0, bars) && t.nonIncreasing == CountBack(bars) &&
    t.invalidOhlc == Count(OhlcWrong, bars) && t.nonPositive == Count(PriceWrong, bars) &&
    t.negativeVolume == Count(VolumeNegative, bars) && (t.invalidPriceType <==> Count(TypeWrong, bars) > 0) &&
    t.strangers == strangers &&
    t.previous == (if bars == [] then None else Some(bars[|bars| - 1].timestamp)) && Distribution(deltas, bars)
  }

  function TallyPrices(t: Tally, b: Bar): Tally {
    if !TypedPrices(b) then t.(invalidPriceType := true, nonPositive := t.nonPositive + 1)
    else if !PositivePrices(b) then t.(nonPositive := t.nonPositive + 1)
    else if !Ohlc(b) then t.(invalidOhlc := t.invalidOhlc + 1)
    else t
  }

  function TallyGap(t: Tally, b: Bar): Tally {
    if t.previous.None? then t
    else
      var delta := Truncate(Instant(b.timestamp) - Instant(t.previous.value));
      if delta == 0 then t.(duplicates := t.duplicates + 1, nonIncreasing := t.nonIncreasing + 1)
      else if delta < 0 then t.(nonIncreasing := t.nonIncreasing + 1)
      else t
  }

  function TallyBar(t: Tally, b: Bar): Tally {
    var priced := TallyPrices(t, b);
    var counted := if b.volume < 0 then priced.(negativeVolume := priced.negativeVolume + 1) else priced;
    TallyGap(counted, b).(previous := Some(b.timestamp))
  }

  lemma TallyFields(t: Tally, b: Bar)
    ensures var d := TallyBar(t, b);
            d.invalidOhlc == t.invalidOhlc + (if IsOfKind(OhlcWrong, b) then 1 else 0) &&
            d.nonPositive == t.nonPositive + (if IsOfKind(PriceWrong, b) then 1 else 0) &&
            d.negativeVolume == t.negativeVolume + (if IsOfKind(VolumeNegative, b) then 1 else 0) &&
            (d.invalidPriceType <==> t.invalidPriceType || IsOfKind(TypeWrong, b)) &&
            d.strangers == t.strangers && d.previous == Some(b.timestamp)
    ensures var d := TallyBar(t, b); var delta := if t.previous.Some? then Truncate(Instant(b.timestamp) - Instant(t.previous.value)) else 1;
            d.duplicates == t.duplicates + (if delta == 0 then 1 else 0) &&
            d.nonIncreasing == t.nonIncreasing + (if delta <= 0 then 1 else 0)
  {
    hide Ohlc, Truncate, Instant, Positive;
  }

  lemma TallyStep(t: Tally, deltas: map<int, nat>, bars: seq<Bar>, strangers: nat, b: Bar)
    requires Tallied(t, deltas, bars, strangers)
    ensures bars == [] ==> Tallied(TallyBar(t, b), deltas, bars + [b], strangers)
    ensures bars != [] ==>
              var delta := Truncate(Instant(b.timestamp) - Instant(bars[|bars| - 1].timestamp));
              Tallied(TallyBar(t, b), deltas[delta := 1 + (if delta in deltas then deltas[delta] else 0)], bars + [b], strangers)
  {
    CountStep(OhlcWrong, bars, b);
    CountStep(PriceWrong, bars, b);
    CountStep(VolumeNegative, bars, b);
    CountStep(TypeWrong, bars, b);
    GapStep(bars, b);
    DeltaStep(0, bars, b);
    DistributionStep(deltas, bars, b);
    TallyFields(t, b);
    hide Count, CountBack, CountDelta, Distribution, Truncate, Instant, IsOfKind, TallyBar;
  }

  lemma NothingTallied()
    ensures Tallied(Tally(0, 0, 0, 0, 0, false, 0, None), map[], [], 0)
  {
  }

  /** The validator's loop: every counter is the number of bars or pairs it names. */
  method ValidateNormalizedBars(xs: seq<Element>) returns (r: ValidationResult)
    ensures r.isValid <==> Acceptable(xs)
    ensures r.errorCode == CodeOf(xs)
    ensures r.barCount == |xs| && r.duplicates == CountDelta(0, BarsIn(xs))
    ensures r.nonIncreasing == CountBack(BarsIn(xs)) && (r.strictlyIncreasing <==> r.nonIncreasing == 0)
    ensures r.nonPositive == Count(PriceWrong, BarsIn(xs)) && r.invalidOhlc == Count(OhlcWrong, BarsIn(xs))
    ensures r.negativeVolume == Count(VolumeNegative, BarsIn(xs)) && Distribution(r.deltas, BarsIn(xs))
  {
    hide Acceptable, Tallied, BarsIn, Strangers, CodeOf, Count, CountBack, CountDelta, Distribution,
         Truncate, TypedPrices, PositivePrices, Ohlc, Instant;
    var duplicates: nat, nonIncreasing: nat, invalidOhlc: nat, nonPositive: nat, negativeVolume: nat, strangers: nat := 0, 0, 0, 0, 0, 0;
    var invalidPriceType := false;
    var deltas: map<int, nat> := map[];
    var previous: Option<Stamp> := None;
    NothingTallied();
    Empty(xs);
    for index := 0 to |xs|
      invariant Tallied(Tally(duplicates, nonIncreasing, invalidOhlc, nonPositive, negativeVolume, invalidPriceType, strangers, previous),
                        deltas, BarsIn(xs[..index]), Strangers(xs[..index]))
    {
      ghost var t := Tally(duplicates, nonIncreasing, invalidOhlc, nonPositive, negativeVolume, invalidPriceType, strangers, previous);
      BarsStep(xs, index);
      if xs[index].NotABar? {
        StrangerStep(t, deltas, BarsIn(xs[..index]), Strangers(xs[..index]));
        strangers := strangers + 1;
        continue;
      }
      var bar := xs[index].bar;
      TallyStep(t, deltas, BarsIn(xs[..index]), Strangers(xs[..index]), bar);
      PreviousIs(t, deltas, BarsIn(xs[..index]), Strangers(xs[..index]));
      if !TypedPrices(bar) {
        invalidPriceType := true;
        nonPositive := nonPositive + 1;
      } else if !PositivePrices(bar) {
        nonPositive := nonPositive + 1;
      } else if !Ohlc(bar) {
        invalidOhlc := invalidOhlc + 1;
      }
      if bar.volume < 0 { negativeVolume := negativeVolume + 1; }
      if previous.Some? {
        var delta := Truncate(Instant(bar.timestamp) - Instant(previous.value));
        deltas := deltas[delta := 1 + (if delta in deltas then deltas[delta] else 0)];
        if delta == 0 {
          duplicates := duplicates + 1;
          nonIncreasing := nonIncreasing + 1;
        } else if delta < 0 {
          nonIncreasing := nonIncreasing + 1;
        }
      }
      previous := Some(bar.timestamp);
    }
    assert xs[..|xs|] == xs;
    var code := if xs == [] then Some(EmptyBars)
      else if invalidPriceType then Some(InvalidPriceType)
      else if nonPositive > 0 then Some(InvalidPriceValue)
      else if invalidOhlc > 0 then Some(InvalidOhlc)
      else if nonIncreasing > 0 then Some(NonMonotonicTimestamps)
      else if negativeVolume > 0 then Some(InvalidVolume)
      else if strangers > 0 then Some(InvalidNormalizedBars)
      else None;
    CodeFromTally(Tally(duplicates, nonIncreasing, invalidOhlc, nonPositive, negativeVolume, invalidPriceType, strangers, previous), deltas, xs);
    AcceptedIff(xs);
    r := ValidationResult(code.None?, |xs|, nonIncreasing == 0, duplicates, nonIncreasing,
                          invalidOhlc, nonPositive, negativeVolume, deltas, code);
  }

  lemma Empty(xs: seq<Element>)
    ensures BarsIn(xs[..0]) == [] && Strangers(xs[..0]) == 0
  {
  }

  lemma StrangerStep(t: Tally, deltas: map<int, nat>, bars: seq<Bar>, strangers: nat)
    requires Tallied(t, deltas, bars, strangers)
    ensures Tallied(t.(strangers := t.strangers + 1), deltas, bars, strangers + 1)
  {
    hide Count, CountBack, CountDelta, Distribution;
  }

  lemma PreviousIs(t: Tally, deltas: map<int, nat>, bars: seq<Bar>, strangers: nat)
    requires Tallied(t, deltas, bars, strangers)
    ensures t.previous == (if bars == [] then None else Some(bars[|bars| - 1].timestamp))
  {
    hide Count, CountBack, CountDelta, Distribution;
  }

  lemma CodeFromTally(t: Tally, deltas: map<int, nat>, xs: seq<Element>)
    requires Tallied(t, deltas, BarsIn(xs), Strangers(xs))
    ensures CodeOf(xs) ==
            if xs == [] then Some(EmptyBars)
            else if t.invalidPriceType then Some(InvalidPriceType)
            else if t.nonPositive > 0 then Some(InvalidPriceValue)
            else if t.invalidOhlc > 0 then Some(InvalidOhlc)
            else if t.nonIncreasing > 0 then Some(NonMonotonicTimestamps)
            else if t.negativeVolume > 0 then Some(InvalidVolume)
            else if t.strangers > 0 then Some(InvalidNormalizedBars)
            else None
    ensures t.duplicates == CountDelta(0, BarsIn(xs)) && t.nonIncreasing == CountBack(BarsIn(xs))
    ensures t.nonPositive == Count(PriceWrong, BarsIn(xs)) && t.invalidOhlc == Count(OhlcWrong, BarsIn(xs))
    ensures t.negativeVolume == Count(VolumeNegative, BarsIn(xs)) && Distribution(deltas, BarsIn(xs))
  {
    hide Count, CountBack, CountDelta, Distribution, Strangers, BarsIn;
  }

  /* ---------- after the parser ---------- */

  function Elements(bars: seq<Bar>): seq<Element> { seq(|bars|, i requires 0 <= i < |bars| => ABar(bars[i])) }

  /** On parsed bars the validator accepts exactly the non-empty lists whose neighbours are a second or more apart,
      and can complain only of an empty list or of timestamps: bars less than a second apart pass the parser but not here. */
  lemma ParsedVerdict(bars: seq<Bar>)
    requires ParserBars(bars)
    ensures CodeOf(Elements(bars)).None? <==> bars != [] && forall i :: 0 < i < |bars| ==> Gap(bars, i) >= MICROS
    ensures CodeOf(Elements(bars)) in {None, Some(EmptyBars), Some(NonMonotonicTimestamps)}
    ensures CodeOf(Elements(bars)) == Some(EmptyBars) <==> bars == []
  {
    hide Count, CountBack, Strangers, BarsIn, ValidBar, GoodPrices;
    var xs := Elements(bars);
    NoStrangers(xs);
    assert BarsIn(xs) == bars;
    ParsedClear(bars);
    CountBackZero(bars);
  }

  lemma ParsedClear(bars: seq<Bar>)
    requires ParserBars(bars)
    ensures Count(PriceWrong, bars) == 0 && Count(OhlcWrong, bars) == 0 && Count(VolumeNegative, bars) == 0 && Count(TypeWrong, bars) == 0
  {
    hide Count, GoodPrices, IsOfKind;
    GoodAll(bars);
    CountZero(TypeWrong, bars);
    CountZero(PriceWrong, bars);
    forall i | 0 <= i < |bars| ensures !IsOfKind(TypeWrong, bars[i]) { KindsClear(bars[i]); }
  }

  /* ---------- which code ---------- */

  lemma {:induction false} BarsAmong(xs: seq<Element>)
    ensures forall b :: b in BarsIn(xs) <==> ABar(b) in xs
  {
    if xs != [] {
      BarsAmong(xs[..|xs| - 1]);
      assert xs == xs[..|xs| - 1] + [xs[|xs| - 1]];
    }
  }

  lemma CountSome(k: Kind, bars: seq<Bar>)
    ensures Count(k, bars) > 0 <==> exists b :: b in bars && IsOfKind(k, b)
  {
    hide IsOfKind;
    CountZero(k, bars);
  }

  // Some neighbours are less than a second apart, or out of order.
  predicate TooClose(bars: seq<Bar>) { exists i :: 0 < i < |bars| && Gap(bars, i) < MICROS }

  lemma CountBackSome(bars: seq<Bar>)
    ensures CountBack(bars) > 0 <==> TooClose(bars)
  {
    CountBackZero(bars);
    hide Gap;
  }

  lemma StrangersSome(xs: seq<Element>)
    ensures Strangers(xs) > 0 <==> NotABar in xs
  {
    NoStrangers(xs);
    hide Strangers, BarsIn;
  }

  /** The code names the first of these that is so: no elements; a bar with a price that is no Decimal; with a price that is not
      finite and positive; with prices not low <= open, close <= high; neighbours less than a second apart; a bar with a negative
      volume; an element that is no bar. */
  lemma CodeExact(xs: seq<Element>)
    ensures CodeOf(xs) ==
            if xs == [] then Some(EmptyBars)
            else if exists b :: ABar(b) in xs && !(b.open.Num? && b.high.Num? && b.low.Num? && b.close.Num?) then Some(InvalidPriceType)
            else if exists b :: ABar(b) in xs && !PositivePrices(b) then Some(InvalidPriceValue)
            else if exists b :: ABar(b) in xs && PositivePrices(b) && !Ohlc(b) then Some(InvalidOhlc)
            else if TooClose(BarsIn(xs)) then Some(NonMonotonicTimestamps)
            else if exists b :: ABar(b) in xs && b.volume < 0 then Some(InvalidVolume)
            else if NotABar in xs then Some(InvalidNormalizedBars)
            else None
  {
    var bars := BarsIn(xs);
    BarsAmong(xs);
    CountSome(TypeWrong, bars);
    CountSome(PriceWrong, bars);
    CountSome(OhlcWrong, bars);
    CountSome(VolumeNegative, bars);
    CountBackSome(bars);
    StrangersSome(xs);
    hide Count, CountBack, Strangers, BarsIn, TooClose, PositivePrices, Ohlc;
  }
}
