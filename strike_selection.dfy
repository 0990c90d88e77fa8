/**
 * select_strike: the strike a signal recommends for a call ("CE") or a
 * put ("PE"), given the entries of one expiry and the spot price.
 */
module StrikeSelection {
  import opened Wrappers
  import opened Payload
  import opened Ordering

  /** The call target sits 1% above spot, the put target 1% below. */
  const CallTargetFactor: real := 1.01
  const PutTargetFactor: real := 0.99

  /** `if strike_price:` skips a missing strike and a strike of 0. */
  predicate HasTruthyStrike(e: StrikeEntry) {
    e.strikePrice.Some? && e.strikePrice.value != 0.0
  }

  /** The list the collecting loop of select_strike builds, in entry order. */
  function Strikes(entries: seq<StrikeEntry>): (r: seq<real>)
    ensures |r| <= |entries|
    ensures forall x :: x in r ==> x != 0.0
    ensures forall x :: x in r ==> exists i :: 0 <= i < |entries| && entries[i].strikePrice == Some(x)
    ensures forall i :: 0 <= i < |entries| && HasTruthyStrike(entries[i]) ==> entries[i].strikePrice.value in r
  {
    if entries == [] then []
    else
      var init := entries[..|entries| - 1];
      var last := entries[|entries| - 1];
      var r := Strikes(init) + (if HasTruthyStrike(last) then [last.strikePrice.value] else []);
      assert forall i :: 0 <= i < |init| ==> init[i] == entries[i];
      r
  }

  /**
   * What select_strike does with the sorted, non-empty strike list. A call
   * takes, among strikes strictly above spot, the first one nearest the
   * target, or else the largest strike. A put applies `max` to the distance
   * from its target, so among strikes strictly below spot it takes the first
   * one FARTHEST from the target, or else the smallest strike.
   */
  function Pick(sorted: seq<real>, price: real, side: Side): real
    requires sorted != []
  {
    match side
    case CE =>
      var valid := Filter(sorted, GreaterThan(price));
      if valid != [] then valid[FirstMinIndex(valid, DistanceTo(price * CallTargetFactor))]
      else sorted[FirstMaxIndex(sorted, Identity)]
    case PE =>
      var valid := Filter(sorted, LessThan(price));
      if valid != [] then valid[FirstMaxIndex(valid, DistanceTo(price * PutTargetFactor))]
      else sorted[FirstMinIndex(sorted, Identity)]
  }

  /** select_strike as a function of its inputs; `None` when no strike was collected. */
  function StrikeFor(entries: seq<StrikeEntry>, price: real, side: Side): Option<real> {
    var strikes := Strikes(entries);
    if strikes == [] then None else Some(Pick(SortAsc(strikes), price, side))
  }

  /** select_strike, with its collecting loop. */
  method SelectStrike(entries: seq<StrikeEntry>, price: real, side: Side) returns (r: Option<real>)
    ensures r == StrikeFor(entries, price, side)
  {
    var strikes: seq<real> := [];
    var i := 0;
    while i < |entries|
      invariant 0 <= i <= |entries|
      invariant strikes == Strikes(entries[..i])
    {
      var item := entries[i];
      assert entries[..i + 1] == entries[..i] + [item];
      if item.strikePrice.Some? && item.strikePrice.value != 0.0 {
        strikes := strikes + [item.strikePrice.value];
      }
      i := i + 1;
    }
    assert entries[..i] == entries;
    if strikes == [] {
      return None;
    }
    strikes := SortAsc(strikes);
    r := Some(Pick(strikes, price, side));
  }

  /** select_strike returns None exactly when no entry carries a truthy strike. */
  lemma NoneIffNoTruthyStrike(entries: seq<StrikeEntry>, price: real, side: Side)
    ensures StrikeFor(entries, price, side).None? <==>
            forall i :: 0 <= i < |entries| ==> !HasTruthyStrike(entries[i])
  {
    if StrikeFor(entries, price, side).Some? {
      var x := Strikes(entries)[0];
      assert x in Strikes(entries);
      var i :| 0 <= i < |entries| && entries[i].strikePrice == Some(x);
      assert HasTruthyStrike(entries[i]);
    }
  }

  /** Sorting keeps exactly the collected strikes. */
  lemma SortedStrikesSameMembers(strikes: seq<real>)
    ensures forall x :: x in SortAsc(strikes) <==> x in strikes
  {
    forall x
      ensures x in SortAsc(strikes) <==> x in strikes
    {
      assert x in SortAsc(strikes) <==> x in multiset(SortAsc(strikes));
    }
  }

  /** The element Pick chooses is one of the sorted strikes. */
  lemma PickIsMember(sorted: seq<real>, price: real, side: Side)
    requires sorted != []
    ensures Pick(sorted, price, side) in sorted
  {
    match side
    case CE =>
      var valid := Filter(sorted, GreaterThan(price));
      if valid != [] {
        assert valid[FirstMinIndex(valid, DistanceTo(price * CallTargetFactor))] in valid;
      }
    case PE =>
      var valid := Filter(sorted, LessThan(price));
      if valid != [] {
        assert valid[FirstMaxIndex(valid, DistanceTo(price * PutTargetFactor))] in valid;
      }
  }

  /** A returned strike is one of the collected strikes, so it is never 0 and `if strike:` always passes. */
  lemma ResultIsCollectedStrike(entries: seq<StrikeEntry>, price: real, side: Side)
    requires StrikeFor(entries, price, side).Some?
    ensures StrikeFor(entries, price, side).value in Strikes(entries)
    ensures StrikeFor(entries, price, side).value != 0.0
  {
    var sorted := SortAsc(Strikes(entries));
    PickIsMember(sorted, price, side);
    SortedStrikesSameMembers(Strikes(entries));
  }

  /** Pick on the call side, stated over the sorted list. */
  lemma PickCall(sorted: seq<real>, price: real)
    requires SortedAsc(sorted) && sorted != []
    ensures var r := Pick(sorted, price, CE);
            var target := price * CallTargetFactor;
            && r in sorted
            && ((exists x :: x in sorted && x > price) ==>
                 && r > price
                 && forall x :: x in sorted && x > price ==>
                      Distance(r, target) <= Distance(x, target)
                      && (Distance(r, target) == Distance(x, target) ==> r <= x))
            && (!(exists x :: x in sorted && x > price) ==>
                 forall x :: x in sorted ==> x <= r)
  {
    PickIsMember(sorted, price, CE);
    var key := DistanceTo(price * CallTargetFactor);
    var valid := Filter(sorted, GreaterThan(price));
    if valid != [] {
      var k := FirstMinIndex(valid, key);
      assert valid[k] in valid;
      forall x | x in sorted && x > price
        ensures Apply(key, valid[k]) <= Apply(key, x)
        ensures Apply(key, valid[k]) == Apply(key, x) ==> valid[k] <= x
      {
        assert x in valid;
        var j :| 0 <= j < |valid| && valid[j] == x;
        if Apply(key, valid[j]) == Apply(key, valid[k]) {
          FirstMinIsSmallestAmongTies(valid, key, j);
        }
      }
    } else {
      assert forall x :: x in sorted ==> x <= price;
      var k := FirstMaxIndex(sorted, Identity);
      forall x | x in sorted
        ensures x <= sorted[k]
      {
        var j :| 0 <= j < |sorted| && sorted[j] == x;
      }
    }
  }

  /** Pick on the put side, stated over the sorted list. */
  lemma PickPut(sorted: seq<real>, price: real)
    requires SortedAsc(sorted) && sorted != []
    ensures var r := Pick(sorted, price, PE);
            var target := price * PutTargetFactor;
            && r in sorted
            && ((exists x :: x in sorted && x < price) ==>
                 && r < price
                 && forall x :: x in sorted && x < price ==>
                      Distance(x, target) <= Distance(r, target)
                      && (Distance(r, target) == Distance(x, target) ==> r <= x))
            && (!(exists x :: x in sorted && x < price) ==>
                 forall x :: x in sorted ==> r <= x)
  {
    PickIsMember(sorted, price, PE);
    var key := DistanceTo(price * PutTargetFactor);
    var valid := Filter(sorted, LessThan(price));
    if valid != [] {
      var k := FirstMaxIndex(valid, key);
      assert valid[k] in valid;
      forall x | x in sorted && x < price
        ensures Apply(key, x) <= Apply(key, valid[k])
        ensures Apply(key, valid[k]) == Apply(key, x) ==> valid[k] <= x
      {
        assert x in valid;
        var j :| 0 <= j < |valid| && valid[j] == x;
        if Apply(key, valid[j]) == Apply(key, valid[k]) {
          FirstMaxIsSmallestAmongTies(valid, key, j);
        }
      }
    } else {
      assert forall x :: x in sorted ==> x >= price;
      var k := FirstMinIndex(sorted, Identity);
      forall x | x in sorted
        ensures sorted[k] <= x
      {
        var j :| 0 <= j < |sorted| && sorted[j] == x;
      }
    }
  }

  /**
   * Call side. With some collected strike strictly above spot, the result is
   * above spot, no such strike is nearer the 1%-above target, and of two
   * equally near the smaller wins. With none above spot, the result is the
   * largest strike.
   */
  lemma CallStrike(entries: seq<StrikeEntry>, price: real)
    requires StrikeFor(entries, price, CE).Some?
    ensures var r := StrikeFor(entries, price, CE).value;
            var target := price * CallTargetFactor;
            && r in Strikes(entries)
            && ((exists x :: x in Strikes(entries) && x > price) ==>
                 && r > price
                 && forall x :: x in Strikes(entries) && x > price ==>
                      Distance(r, target) <= Distance(x, target)
                      && (Distance(r, target) == Distance(x, target) ==> r <= x))
            && (!(exists x :: x in Strikes(entries) && x > price) ==>
                 forall x :: x in Strikes(entries) ==> x <= r)
  {
    ResultIsCollectedStrike(entries, price, CE);
    SortedStrikesSameMembers(Strikes(entries));
    PickCall(SortAsc(Strikes(entries)), price);
  }

  /**
   * Put side, as the code is written: with some collected strike strictly
   * below spot, the result is below spot, no such strike is FARTHER from the
   * 1%-below target, and of two equally far the smaller wins. With none below
   * spot, the result is the smallest strike.
   */
  lemma PutStrike(entries: seq<StrikeEntry>, price: real)
    requires StrikeFor(entries, price, PE).Some?
    ensures var r := StrikeFor(entries, price, PE).value;
            var target := price * PutTargetFactor;
            && r in Strikes(entries)
            && ((exists x :: x in Strikes(entries) && x < price) ==>
                 && r < price
                 && forall x :: x in Strikes(entries) && x < price ==>
                      Distance(x, target) <= Distance(r, target)
                      && (Distance(r, target) == Distance(x, target) ==> r <= x))
            && (!(exists x :: x in Strikes(entries) && x < price) ==>
                 forall x :: x in Strikes(entries) ==> r <= x)
  {
    ResultIsCollectedStrike(entries, price, PE);
    SortedStrikesSameMembers(Strikes(entries));
    PickPut(SortAsc(Strikes(entries)), price);
  }

  function EntryAt(strike: real): StrikeEntry {
    StrikeEntry(Some(strike), Some("26-Dec-2024"), None, None)
  }

  /** Four entries of one expiry, with strikes 98, 90, 0 and 103. */
  function ExampleEntries(): seq<StrikeEntry> {
    [EntryAt(98.0), EntryAt(90.0), EntryAt(0.0), EntryAt(103.0)]
  }

  /** The loop skips the strike of 0, and sorting orders the other three. */
  lemma ExampleStrikes()
    ensures Strikes(ExampleEntries()) == [98.0, 90.0, 103.0]
    ensures SortAsc(Strikes(ExampleEntries())) == [90.0, 98.0, 103.0]
  {
    ExampleCollected();
    ExampleSorted();
  }

  lemma ExampleSorted()
    ensures SortAsc([98.0, 90.0, 103.0]) == [90.0, 98.0, 103.0]
  {
    ExampleSortedTail();
    ExampleInsert();
    assert [98.0, 90.0, 103.0][1..] == [90.0, 103.0];
  }

  lemma ExampleSortedTail()
    ensures SortAsc([90.0, 103.0]) == [90.0, 103.0]
  {
    assert [90.0, 103.0][1..] == [103.0];
    assert [103.0][1..] == [];
  }

  lemma ExampleInsert()
    ensures InsertAsc(98.0, [90.0, 103.0]) == [90.0, 98.0, 103.0]
  {
    assert [90.0, 103.0][1..] == [103.0];
    assert InsertAsc(98.0, [103.0]) == [98.0, 103.0];
  }

  lemma ExampleCollected()
    ensures Strikes(ExampleEntries()) == [98.0, 90.0, 103.0]
  {
    var entries := ExampleEntries();
    var e1, e2, e3 := [EntryAt(98.0)], [EntryAt(98.0), EntryAt(90.0)], [EntryAt(98.0), EntryAt(90.0), EntryAt(0.0)];
    assert e1[..0] == [];
    assert Strikes(e1) == [98.0];
    assert e2[..1] == e1;
    assert Strikes(e2) == [98.0, 90.0];
    assert e3[..2] == e2;
    assert Strikes(e3) == [98.0, 90.0];
    assert entries[..3] == e3;
  }

  /** With spot 100 the call goes to 103, the only strike above spot. */
  lemma CallExample()
    ensures StrikeFor(ExampleEntries(), 100.0, CE) == Some(103.0)
  {
    ExampleStrikes();
    var sorted := [90.0, 98.0, 103.0];
    assert 103.0 in sorted;
    PickIsMember(sorted, 100.0, CE);
    PickCall(sorted, 100.0);
  }

  /**
   * With spot 100 the put goes to 90: of the two strikes below spot, 90 is
   * farther from the target 99 than 98 is.
   */
  lemma PutExample()
    ensures StrikeFor(ExampleEntries(), 100.0, PE) == Some(90.0)
  {
    ExampleStrikes();
    var sorted := [90.0, 98.0, 103.0];
    assert 90.0 in sorted;
    PickIsMember(sorted, 100.0, PE);
    PickPut(sorted, 100.0);
    var put := Pick(sorted, 100.0, PE);
    assert put == 90.0 || put == 98.0;
    assert 100.0 * PutTargetFactor == 99.0;
    assert Distance(90.0, 99.0) == 9.0 && Distance(98.0, 99.0) == 1.0;
  }
}
