/**
 * SignalGenerator: the put-call-ratio (PCR) signal of one symbol.
 * generate_signals totals open interest over one expiry's entries, compares
 * the PCR with four fixed thresholds and, for a directional reading, asks
 * select_strike for a strike. analyze_option_chain feeds it from the raw payload.
 */
module SignalGenerator {
  import opened Wrappers
  import opened Payload
  import opened StrikeSelection
  import opened Rounding

  datatype Strength = StrongBuy | Buy

  /** The branch that fired; the code renders it as the `reason` text. */
  datatype Reason = HighPcrBullish | ModeratePcrSlightlyBullish | LowPcrBearish | ModeratePcrSlightlyBearish

  /** The outcome of the threshold comparisons, before a strike is chosen. */
  datatype Decision = NoSignal | Trade(side: Side, strength: Strength, reason: Reason)

  /**
   * One row of the signal list. `side` is the `type` column; `currentPrice`
   * and `pcr` hold the rounded values the code stores.
   */
  datatype Signal = Signal(
    symbol: string,
    side: Side,
    strength: Strength,
    strike: real,
    currentPrice: real,
    pcr: real,
    expiry: string,
    reason: Reason)

  /** The four running totals of generate_signals. */
  datatype Totals = Totals(ceOi: real, peOi: real, ceVolume: real, peVolume: real)

  const StrongBullishAbove: real := 1.3
  const BullishAbove: real := 1.1
  const StrongBearishBelow: real := 0.7
  const BearishBelow: real := 0.9

  /** A leg's `openInterest`, or 0 when the leg or the key is missing. */
  function LegOpenInterest(leg: Option<Leg>): real {
    if leg.Some? then OrZero(leg.value.openInterest) else 0.0
  }

  function LegVolume(leg: Option<Leg>): real {
    if leg.Some? then OrZero(leg.value.totalTradedVolume) else 0.0
  }

  function Plus(a: Totals, b: Totals): Totals {
    Totals(a.ceOi + b.ceOi, a.peOi + b.peOi, a.ceVolume + b.ceVolume, a.peVolume + b.peVolume)
  }

  /** What one entry adds to the totals. */
  function EntryTotals(e: StrikeEntry): Totals {
    Totals(LegOpenInterest(e.ce), LegOpenInterest(e.pe), LegVolume(e.ce), LegVolume(e.pe))
  }

  /** The totals over a list of entries: the sum of what each entry adds. */
  function ChainTotals(entries: seq<StrikeEntry>): Totals {
    if entries == [] then Totals(0.0, 0.0, 0.0, 0.0)
    else Plus(ChainTotals(entries[..|entries| - 1]), EntryTotals(entries[|entries| - 1]))
  }

  /** Totals are additive over concatenation, so the order of the entries does not matter to them. */
  lemma {:induction false} ChainTotalsAppend(a: seq<StrikeEntry>, b: seq<StrikeEntry>)
    ensures ChainTotals(a + b) == Plus(ChainTotals(a), ChainTotals(b))
  {
    if b == [] {
      assert a + b == a;
    } else {
      var init, last := b[..|b| - 1], b[|b| - 1];
      assert ChainTotals(a + b) == Plus(ChainTotals(a + init), EntryTotals(last)) by {
        var ab := a + b;
        assert ab[..|ab| - 1] == a + init;
        assert ab[|ab| - 1] == last;
      }
      ChainTotalsAppend(a, init);
      var x, y, z := ChainTotals(a), ChainTotals(init), EntryTotals(last);
      assert Plus(Plus(x, y), z) == Plus(x, Plus(y, z));
    }
  }

  /** Open interest of a leg is never negative when the data says so, and then neither are the totals. */
  predicate NonNegativeOpenInterest(entries: seq<StrikeEntry>) {
    forall i :: 0 <= i < |entries| ==> LegOpenInterest(entries[i].ce) >= 0.0 && LegOpenInterest(entries[i].pe) >= 0.0
  }

  /** Put OI over call OI, or exactly 1 when call OI is not positive. */
  function Pcr(t: Totals): (p: real)
    ensures t.ceOi > 0.0 ==> p * t.ceOi == t.peOi
    ensures t.ceOi <= 0.0 ==> p == 1.0
  {
    if t.ceOi > 0.0 then t.peOi / t.ceOi else 1.0
  }

  lemma {:induction false} ChainOpenInterestNonNegative(entries: seq<StrikeEntry>)
    requires NonNegativeOpenInterest(entries)
    ensures ChainTotals(entries).ceOi >= 0.0 && ChainTotals(entries).peOi >= 0.0
    ensures Pcr(ChainTotals(entries)) >= 0.0
  {
    if entries != [] {
      ChainOpenInterestNonNegative(entries[..|entries| - 1]);
    }
  }

  /** The if/elif chain of generate_signals, tested in the code's order. */
  function Classify(pcr: real): Decision {
    if pcr > StrongBullishAbove then Trade(CE, StrongBuy, HighPcrBullish)
    else if pcr > BullishAbove then Trade(CE, Buy, ModeratePcrSlightlyBullish)
    else if pcr < StrongBearishBelow then Trade(PE, StrongBuy, LowPcrBearish)
    else if pcr < BearishBelow then Trade(PE, Buy, ModeratePcrSlightlyBearish)
    else NoSignal
  }

  /** The classification is a partition of the PCR axis into five bands. */
  lemma ClassifyBands(pcr: real)
    ensures Classify(pcr) == Trade(CE, StrongBuy, HighPcrBullish) <==> pcr > 1.3
    ensures Classify(pcr) == Trade(CE, Buy, ModeratePcrSlightlyBullish) <==> 1.1 < pcr <= 1.3
    ensures Classify(pcr) == Trade(PE, StrongBuy, LowPcrBearish) <==> pcr < 0.7
    ensures Classify(pcr) == Trade(PE, Buy, ModeratePcrSlightlyBearish) <==> 0.7 <= pcr < 0.9
    ensures Classify(pcr) == NoSignal <==> 0.9 <= pcr <= 1.1
    ensures Classify(pcr).Trade? ==> (Classify(pcr).side == CE <==> pcr > 1.1)
  {
  }

  /** generate_signals as a function of its inputs: at most one signal. */
  function SignalsFor(entries: seq<StrikeEntry>, symbol: string, price: real, expiry: string): seq<Signal> {
    if entries == [] then []
    else
      var pcr := Pcr(ChainTotals(entries));
      match Classify(pcr)
      case NoSignal => []
      case Trade(side, strength, reason) =>
        var strike := StrikeFor(entries, price, side);
        if strike.Some? && strike.value != 0.0
        then [Signal(symbol, side, strength, strike.value, Round2(price), Round2(pcr), expiry, reason)]
        else []
  }

  /**
   * No entries, no signal; otherwise at most one. There is exactly one when
   * the PCR lies outside the neutral band and some entry has a truthy strike,
   * and then it carries the branch's side, strength and reason, the strike
   * select_strike returns for that side, and the rounded price and PCR.
   */
  lemma SignalShape(entries: seq<StrikeEntry>, symbol: string, price: real, expiry: string)
    ensures var r := SignalsFor(entries, symbol, price, expiry);
            var pcr := Pcr(ChainTotals(entries));
            && (entries == [] ==> r == [])
            && |r| <= 1
            && (|r| == 1 <==>
                  entries != [] && Classify(pcr).Trade?
                  && exists i :: 0 <= i < |entries| && HasTruthyStrike(entries[i]))
            && (|r| == 1 ==>
                  && r[0].side == Classify(pcr).side
                  && r[0].strength == Classify(pcr).strength
                  && r[0].reason == Classify(pcr).reason
                  && StrikeFor(entries, price, r[0].side) == Some(r[0].strike)
                  && r[0].strike in Strikes(entries)
                  && r[0].symbol == symbol && r[0].expiry == expiry
                  && r[0].currentPrice == Round2(price)
                  && r[0].pcr == Round2(pcr))
  {
    if entries != [] {
      var pcr := Pcr(ChainTotals(entries));
      if Classify(pcr).Trade? {
        var side := Classify(pcr).side;
        NoneIffNoTruthyStrike(entries, price, side);
        if StrikeFor(entries, price, side).Some? {
          ResultIsCollectedStrike(entries, price, side);
        }
      }
    }
  }

  /** With no positive call open interest the PCR is 1, which lies in the neutral band. */
  lemma NoCallInterestNoSignal(entries: seq<StrikeEntry>, symbol: string, price: real, expiry: string)
    requires ChainTotals(entries).ceOi <= 0.0
    ensures SignalsFor(entries, symbol, price, expiry) == []
  {
  }

  /** generate_signals, with its totalling loop. */
  method GenerateSignals(entries: seq<StrikeEntry>, symbol: string, price: real, expiry: string)
    returns (signals: seq<Signal>)
    ensures signals == SignalsFor(entries, symbol, price, expiry)
  {
    signals := [];
    if |entries| == 0 {
      return;
    }
    var ceOi, peOi, ceVolume, peVolume := 0.0, 0.0, 0.0, 0.0;
    var i := 0;
    while i < |entries|
      invariant 0 <= i <= |entries|
      invariant Totals(ceOi, peOi, ceVolume, peVolume) == ChainTotals(entries[..i])
    {
      var item := entries[i];
      assert entries[..i + 1] == entries[..i] + [item];
      if item.ce.Some? {
        ceOi := ceOi + OrZero(item.ce.value.openInterest);
        ceVolume := ceVolume + OrZero(item.ce.value.totalTradedVolume);
      }
      if item.pe.Some? {
        peOi := peOi + OrZero(item.pe.value.openInterest);
        peVolume := peVolume + OrZero(item.pe.value.totalTradedVolume);
      }
      i := i + 1;
    }
    assert entries[..i] == entries;
    var pcr := Pcr(Totals(ceOi, peOi, ceVolume, peVolume));
    var decision := Classify(pcr);
    if decision.Trade? {
      var strike := SelectStrike(entries, price, decision.side);
      if strike.Some? && strike.value != 0.0 {
        signals := signals + [Signal(symbol, decision.side, decision.strength, strike.value,
                                     Round2(price), Round2(pcr), expiry, decision.reason)];
      }
    }
  }

  /**
   * analyze_option_chain: `None` when a required key is missing or the expiry
   * list is empty, and otherwise the signals of the first expiry's entries.
   */
  method AnalyzeOptionChain(data: Option<Chain>, symbol: string) returns (r: Option<seq<Signal>>)
    ensures r.None? <==> !HasRequiredKeys(data)
    ensures r.Some? ==>
      var snapshot := Normalize(data).value;
      && r.value == SignalsFor(snapshot.entries, symbol, snapshot.underlyingValue, snapshot.expiry)
      && |r.value| <= 1
  {
    var snapshot := Normalize(data);
    if snapshot.None? {
      return None;
    }
    var s := snapshot.value;
    var signals := GenerateSignals(s.entries, symbol, s.underlyingValue, s.expiry);
    SignalShape(s.entries, symbol, s.underlyingValue, s.expiry);
    r := Some(signals);
  }
}
