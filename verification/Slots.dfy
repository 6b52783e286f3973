/**
 * Candles seen as a ledger of instants: which candles sit at which slot of a bucket, when
 * a bucket is complete, and what one bar over its slots is.
 */
module Slots {
  import opened Prelude
  import opened Candles

  /** The candles stamped t, in their order of appearance. */
  function At(candles: seq<Candle>, t: int): seq<Candle> {
    if candles == [] then []
    else if candles[0].timestamp == t then [candles[0]] + At(candles[1..], t)
    else At(candles[1..], t)
  }

  /** The n slots b, b + step, ... hold exactly one candle each, and no candle lies between slots. */
  ghost predicate Full(candles: seq<Candle>, b: int, step: int, n: nat)
    decreases n
  {
    n == 0 || (
      && |At(candles, b)| == 1
      && (forall t | b < t < b + step :: At(candles, t) == [])
      && Full(candles, b + step, step, n - 1))
  }

  function SlotRows(candles: seq<Candle>, b: int, step: int, n: nat): seq<Candle>
    decreases n
  {
    if n == 0 then [] else At(candles, b) + SlotRows(candles, b + step, step, n - 1)
  }

  lemma {:induction false} AtMember(candles: seq<Candle>, t: int, c: Candle)
    ensures c in At(candles, t) <==> c in candles && c.timestamp == t
  {
    if candles != [] {
      AtMember(candles[1..], t, c);
      assert candles == [candles[0]] + candles[1..];
    }
  }

  lemma {:induction false} AtConcat(a: seq<Candle>, b: seq<Candle>, t: int)
    ensures At(a + b, t) == At(a, t) + At(b, t)
  {
    if a == [] {
      assert a + b == b;
    } else {
      assert (a + b)[1..] == a[1..] + b;
      AtConcat(a[1..], b, t);
    }
  }

  lemma {:induction false} AtIsWithKey(candles: seq<Candle>, t: int)
    ensures At(candles, t) == WithKey(candles, TimeKey, t as real)
  {
    if candles != [] { AtIsWithKey(candles[1..], t); }
  }

  /** Sorting by time moves no candle out of its slot. */
  lemma AtByTime(candles: seq<Candle>, t: int)
    ensures At(ByTime(candles), t) == At(candles, t)
  {
    SortByIsStable(candles, TimeKey, t as real);
    AtIsWithKey(candles, t);
    AtIsWithKey(ByTime(candles), t);
    assert WithKey(ByTime(candles), TimeKey, t as real) == WithKey(candles, TimeKey, t as real);
  }

  // ------------------------------------------ a bucket is what its slots hold

  ghost predicate SameSlots(x: seq<Candle>, y: seq<Candle>, from: int, to: int) {
    forall t | from <= t < to :: At(x, t) == At(y, t)
  }

  lemma {:induction false} FullCongruence(x: seq<Candle>, y: seq<Candle>, b: int, step: int, n: nat)
    requires step > 0 && SameSlots(x, y, b, b + n * step)
    ensures Full(x, b, step, n) <==> Full(y, b, step, n)
    ensures SlotRows(x, b, step, n) == SlotRows(y, b, step, n)
    decreases n
  {
    if n > 0 {
      assert n * step == step + (n - 1) * step && (n - 1) * step >= 0;
      FullCongruence(x, y, b + step, step, n - 1);
      assert At(x, b) == At(y, b);
      assert forall t | b < t < b + step :: At(x, t) == At(y, t);
    }
  }

  /** A candle inside a full bucket sits on a slot, so none is stamped after the last slot. */
  lemma {:induction false} FullEndsAtLastSlot(candles: seq<Candle>, b: int, step: int, n: nat, t: int)
    requires step > 0 && Full(candles, b, step, n) && b + n * step - step < t < b + n * step && b <= t
    ensures At(candles, t) == []
    decreases n
  {
    if n > 0 {
      assert n * step == step + (n - 1) * step;
      if n > 1 { FullEndsAtLastSlot(candles, b + step, step, n - 1, t); }
    }
  }

  lemma {:induction false} SlotRowsOfFull(candles: seq<Candle>, b: int, step: int, n: nat)
    requires Full(candles, b, step, n)
    ensures |SlotRows(candles, b, step, n)| == n
    ensures forall i | 0 <= i < n :: SlotRows(candles, b, step, n)[i].timestamp == b + i * step
    ensures forall c | c in SlotRows(candles, b, step, n) :: c in candles
    decreases n
  {
    if n > 0 {
      var rest := SlotRows(candles, b + step, step, n - 1);
      SlotRowsOfFull(candles, b + step, step, n - 1);
      var c := At(candles, b)[0];
      AtMember(candles, b, c);
      assert SlotRows(candles, b, step, n) == [c] + rest;
      forall i | 0 <= i < n ensures SlotRows(candles, b, step, n)[i].timestamp == b + i * step {
        if i > 0 {
          assert SlotRows(candles, b, step, n)[i] == rest[i - 1];
          assert b + step + (i - 1) * step == b + i * step;
        }
      }
    }
  }

  // ---------------------------------------- strictly increasing output is its slots

  predicate Increasing(candles: seq<Candle>) {
    forall i | 0 <= i < |candles| - 1 :: candles[i].timestamp < candles[i + 1].timestamp
  }

  lemma {:induction false} IncreasingFromFirst(candles: seq<Candle>, i: nat)
    requires Increasing(candles) && 0 < i < |candles|
    ensures candles[0].timestamp < candles[i].timestamp
  {
    if i > 1 { IncreasingFromFirst(candles, i - 1); }
  }

  lemma AtFirst(candles: seq<Candle>)
    requires Increasing(candles) && candles != []
    ensures At(candles, candles[0].timestamp) == [candles[0]]
    ensures forall t | t < candles[0].timestamp :: At(candles, t) == []
    ensures forall t | t <= candles[0].timestamp :: At(candles[1..], t) == []
  {
    forall c | c in candles[1..] ensures candles[0].timestamp < c.timestamp {
      var i :| 0 <= i < |candles| - 1 && candles[1..][i] == c;
      IncreasingFromFirst(candles, i + 1);
    }
    forall t | t <= candles[0].timestamp ensures At(candles[1..], t) == [] {
      if At(candles[1..], t) != [] { AtMember(candles[1..], t, At(candles[1..], t)[0]); }
    }
  }

  /** An earlier output is a prefix of a later one exactly when the later one keeps every slot up to a cut. */
  lemma {:induction false} PrefixByCut(x: seq<Candle>, y: seq<Candle>, cut: int)
    requires Increasing(x) && Increasing(y)
    requires forall t | t < cut :: At(x, t) == At(y, t)
    requires forall t | t >= cut :: At(x, t) == []
    ensures x <= y
  {
    if x != [] {
      AtFirst(x);
      var t0 := x[0].timestamp;
      assert At(x, t0) != [];
      AtMember(y, t0, x[0]);
      assert y != [];
      AtFirst(y);
      var u := y[0].timestamp;
      assert At(y, t0) == At(x, t0) == [x[0]];
      assert u <= t0;
      assert At(x, u) == At(y, u) == [y[0]];
      assert u == t0;
      forall t | t < cut ensures At(x[1..], t) == At(y[1..], t) {
        assert At(x, t) == At(y, t);
      }
      forall t | t >= cut ensures At(x[1..], t) == [] {
        assert At(x, t) == [];
      }
      PrefixByCut(x[1..], y[1..], cut);
    }
  }

  lemma {:induction false} SameSlotsSameSequence(x: seq<Candle>, y: seq<Candle>)
    requires Increasing(x) && Increasing(y)
    requires forall t :: At(x, t) == At(y, t)
    ensures x == y
  {
    if x == [] {
      if y != [] { AtFirst(y); assert false; }
    } else {
      AtFirst(x);
      AtMember(y, x[0].timestamp, x[0]);
      assert y != [];
      AtFirst(y);
      assert At(y, x[0].timestamp) != [] && At(x, y[0].timestamp) != [];
      forall t ensures At(x[1..], t) == At(y[1..], t) {
        if t > x[0].timestamp { assert At(x, t) == At(y, t); }
      }
      SameSlotsSameSequence(x[1..], y[1..]);
    }
  }

  lemma PrefixKeepsSlots(x: seq<Candle>, y: seq<Candle>, c: Candle)
    requires x <= y && c in x
    ensures c in y
  {
    assert y[..|x|] == x;
  }
}
