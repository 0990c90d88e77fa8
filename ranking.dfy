/**
 * The ordering step of LiveOptionTradingSystem.format_signals: signals are
 * ranked by strength (STRONG BUY = 2, BUY = 1) and then by their stored
 * (rounded) PCR, both descending. The two-column sort is stable, so signals
 * that agree on both keys keep their input order.
 */
module Ranking {
  import opened SignalGenerator

  /** The `strength_score` column. */
  function StrengthScore(s: Strength): (score: int)
    ensures score == 1 || score == 2
    ensures score == 2 <==> s == StrongBuy
  {
    match s
    case StrongBuy => 2
    case Buy => 1
  }

  /** `a` sorts strictly before `b`. */
  predicate Ahead(a: Signal, b: Signal) {
    || StrengthScore(a.strength) > StrengthScore(b.strength)
    || (StrengthScore(a.strength) == StrengthScore(b.strength) && a.pcr > b.pcr)
  }

  /** `a` and `b` tie on both sort keys. */
  predicate SameRank(a: Signal, b: Signal) {
    a.strength == b.strength && a.pcr == b.pcr
  }

  /** No signal sorts strictly before one that precedes it. */
  predicate Ranked(s: seq<Signal>) {
    forall i, j :: 0 <= i < j < |s| ==> !Ahead(s[j], s[i])
  }

  /** Places `x` in front of the first signal that does not sort strictly before it. */
  function Insert(x: Signal, s: seq<Signal>): (r: seq<Signal>)
    ensures multiset(r) == multiset(s) + multiset{x}
  {
    if s == [] || !Ahead(s[0], x) then [x] + s
    else
      assert s == [s[0]] + s[1..];
      [s[0]] + Insert(x, s[1..])
  }

  lemma {:induction false} InsertRanked(x: Signal, s: seq<Signal>)
    requires Ranked(s)
    ensures Ranked(Insert(x, s))
  {
    if s != [] && Ahead(s[0], x) {
      var rest := Insert(x, s[1..]);
      assert Ranked(s[1..]);
      InsertRanked(x, s[1..]);
      assert s == [s[0]] + s[1..];
      forall i | 0 <= i < |rest|
        ensures !Ahead(rest[i], s[0])
      {
        assert rest[i] in multiset(s[1..]) + multiset{x};
        if rest[i] != x {
          assert rest[i] in s[1..];
          var j :| 0 <= j < |s[1..]| && s[1..][j] == rest[i];
          assert s[j + 1] == rest[i];
        }
      }
    }
  }

  /** The row order format_signals produces. */
  function RankSignals(s: seq<Signal>): (r: seq<Signal>)
    ensures multiset(r) == multiset(s)
    ensures |r| == |s|
    ensures Ranked(r)
  {
    if s == [] then []
    else
      assert s == [s[0]] + s[1..];
      var r := Insert(s[0], RankSignals(s[1..]));
      InsertRanked(s[0], RankSignals(s[1..]));
      assert |r| == |multiset(r)|;
      r
  }

  /** The signals of `s` that tie with `a` on both keys, in order. */
  function Peers(s: seq<Signal>, a: Signal): seq<Signal> {
    if s == [] then []
    else (if SameRank(s[0], a) then [s[0]] else []) + Peers(s[1..], a)
  }

  lemma {:induction false} InsertPeers(x: Signal, s: seq<Signal>, a: Signal)
    ensures Peers(Insert(x, s), a) == (if SameRank(x, a) then [x] else []) + Peers(s, a)
  {
    if s == [] || !Ahead(s[0], x) {
      assert ([x] + s)[1..] == s;
    } else {
      var rest := Insert(x, s[1..]);
      assert ([s[0]] + rest)[1..] == rest;
      InsertPeers(x, s[1..], a);
      if SameRank(x, a) {
        assert !SameRank(s[0], a);
      }
    }
  }

  /** Stability: the ranking keeps every group of tied signals in its input order. */
  lemma {:induction false} RankSignalsStable(s: seq<Signal>, a: Signal)
    ensures Peers(RankSignals(s), a) == Peers(s, a)
  {
    if s != [] {
      RankSignalsStable(s[1..], a);
      InsertPeers(s[0], RankSignals(s[1..]), a);
    }
  }

  /** Ranking an already ranked list changes nothing. */
  lemma {:induction false} RankSignalsIdempotent(s: seq<Signal>)
    requires Ranked(s)
    ensures RankSignals(s) == s
  {
    if s != [] {
      assert Ranked(s[1..]);
      RankSignalsIdempotent(s[1..]);
      assert s[1..] == [] || !Ahead(s[1], s[0]);
    }
  }
}
