/**
 * The option-chain payload that analyze_option_chain receives, and the
 * expiry filter it applies before any signal logic runs.
 *
 * Every key the code reads with `[...]` or `.get(...)` is an `Option`:
 * `None` stands for a missing key.
 */
module Payload {
  import opened Wrappers

  /** The two option legs of a strike entry: "CE" (call) and "PE" (put). */
  datatype Side = CE | PE

  /** One leg block of a strike entry. */
  datatype Leg = Leg(openInterest: Option<real>, totalTradedVolume: Option<real>)

  /** One element of a `data` list: a strike for one expiry, with its legs. */
  datatype StrikeEntry = StrikeEntry(
    strikePrice: Option<real>,
    expiryDate: Option<string>,
    ce: Option<Leg>,
    pe: Option<Leg>)

  datatype Records = Records(underlyingValue: Option<real>, expiryDates: Option<seq<string>>)

  datatype Filtered = Filtered(data: Option<seq<StrikeEntry>>)

  /** The whole payload: `records`, `filtered` and the top-level `data`. */
  datatype Chain = Chain(records: Option<Records>, filtered: Option<Filtered>, data: Option<seq<StrikeEntry>>)

  /** What analyze_option_chain hands on to generate_signals. */
  datatype Snapshot = Snapshot(underlyingValue: real, expiry: string, entries: seq<StrikeEntry>)

  /** `leg.get(key, 0)` */
  function OrZero(x: Option<real>): real {
    if x.Some? then x.value else 0.0
  }

  /**
   * The strike list analyze_option_chain reads: `filtered.data` when it is a
   * non-empty list, and otherwise the top-level `data` (an empty list when absent).
   */
  function SourceEntries(c: Chain): seq<StrikeEntry> {
    var filtered := if c.filtered.Some? && c.filtered.value.data.Some? then c.filtered.value.data.value else [];
    if filtered != [] then filtered
    else if c.data.Some? then c.data.value
    else []
  }

  /** The entries tagged with `expiry`, each as often as it occurs in `entries`. */
  function ForExpiry(entries: seq<StrikeEntry>, expiry: string): (r: seq<StrikeEntry>)
    ensures |r| <= |entries|
    ensures forall e :: e in r <==> e in entries && e.expiryDate == Some(expiry)
    ensures forall e :: multiset(r)[e] == if e.expiryDate == Some(expiry) then multiset(entries)[e] else 0
  {
    if entries == [] then []
    else
      var init := entries[..|entries| - 1];
      var last := entries[|entries| - 1];
      assert entries == init + [last];
      ForExpiry(init, expiry) + (if last.expiryDate == Some(expiry) then [last] else [])
  }

  /** True when every key analyze_option_chain indexes with `[...]` is there. */
  predicate HasRequiredKeys(data: Option<Chain>) {
    && data.Some?
    && data.value.records.Some?
    && data.value.records.value.underlyingValue.Some?
    && data.value.records.value.expiryDates.Some?
    && |data.value.records.value.expiryDates.value| > 0
  }

  /**
   * The pure part of analyze_option_chain: `None` where the code returns
   * `None` (falsy payload, or a KeyError or IndexError caught by its handler),
   * and otherwise the spot price, the first expiry and that expiry's entries.
   */
  function Normalize(data: Option<Chain>): (r: Option<Snapshot>)
    ensures r.None? <==> !HasRequiredKeys(data)
    ensures r.Some? ==>
      var rec := data.value.records.value;
      && r.value.underlyingValue == rec.underlyingValue.value
      && r.value.expiry == rec.expiryDates.value[0]
      && (forall e :: e in r.value.entries <==>
            e in SourceEntries(data.value) && e.expiryDate == Some(rec.expiryDates.value[0]))
      && (forall e :: multiset(r.value.entries)[e] ==
            if e.expiryDate == Some(rec.expiryDates.value[0]) then multiset(SourceEntries(data.value))[e] else 0)
  {
    if !HasRequiredKeys(data) then None
    else
      var rec := data.value.records.value;
      var expiry := rec.expiryDates.value[0];
      Some(Snapshot(rec.underlyingValue.value, expiry, ForExpiry(SourceEntries(data.value), expiry)))
  }
}
