/** The price simulator: every five seconds each stock's price moves by a
    random amount of at most 0.25 in either direction and is floored at 0.01.
    The random draws are the `deltas` argument, one per stock, already in cents. */
module Prices {
  import opened Records

  const MinPrice: Cents := 1    // 0.01
  const MaxDelta: Cents := 25   // 0.25

  /** A draw of `(Math.random() - 0.5) * 0.5`, rounded to cents. */
  predicate Bounded(delta: Cents) {
    -MaxDelta <= delta <= MaxDelta
  }

  /** One stock's new price: the old price plus the draw, floored at 0.01. */
  function NextPrice(price: Cents, delta: Cents): (r: Cents)
    ensures r >= MinPrice
    ensures r == price + delta || (r == MinPrice && price + delta < MinPrice)
    ensures price >= MinPrice && Bounded(delta) ==> -MaxDelta <= r - price <= MaxDelta
  {
    if price + delta < MinPrice then MinPrice else price + delta
  }

  /** The catalog after one tick: only the prices change. */
  function Ticked(stocks: seq<Stock>, deltas: seq<Cents>): (r: seq<Stock>)
    requires |deltas| == |stocks|
    ensures |r| == |stocks|
    ensures forall i :: 0 <= i < |r| ==> r[i] == stocks[i].(price := r[i].price) && r[i].price >= MinPrice
    ensures forall i :: 0 <= i < |r| && stocks[i].price >= MinPrice && Bounded(deltas[i]) ==>
      -MaxDelta <= r[i].price - stocks[i].price <= MaxDelta
  {
    seq(|stocks|, i requires 0 <= i < |stocks| => stocks[i].(price := NextPrice(stocks[i].price, deltas[i])))
  }

  /** Every round of draws has one delta per stock. */
  predicate RoundsFit(stocks: seq<Stock>, rounds: seq<seq<Cents>>) {
    forall k :: 0 <= k < |rounds| ==> |rounds[k]| == |stocks|
  }

  /** The catalog after one tick per round of draws, in order. */
  function TickRounds(stocks: seq<Stock>, rounds: seq<seq<Cents>>): (r: seq<Stock>)
    requires RoundsFit(stocks, rounds)
    ensures |r| == |stocks|
    ensures forall i :: 0 <= i < |r| ==> r[i] == stocks[i].(price := r[i].price)
    decreases |rounds|
  {
    if rounds == [] then stocks
    else TickRounds(Ticked(stocks, rounds[0]), rounds[1..])
  }

  /** No sequence of ticks takes a price below 0.01. */
  lemma {:induction false} TickRoundsFloor(stocks: seq<Stock>, rounds: seq<seq<Cents>>)
    requires RoundsFit(stocks, rounds)
    requires forall i :: 0 <= i < |stocks| ==> stocks[i].price >= MinPrice
    ensures forall i :: 0 <= i < |stocks| ==> TickRounds(stocks, rounds)[i].price >= MinPrice
    decreases |rounds|
  {
    if rounds != [] {
      TickRoundsFloor(Ticked(stocks, rounds[0]), rounds[1..]);
    }
  }

  /** After n ticks with bounded draws a price is within n * 0.25 of where it
      started, the floor included. */
  lemma {:induction false} TickRoundsDrift(stocks: seq<Stock>, rounds: seq<seq<Cents>>)
    requires RoundsFit(stocks, rounds)
    requires forall i :: 0 <= i < |stocks| ==> stocks[i].price >= MinPrice
    requires forall k, i :: 0 <= k < |rounds| && 0 <= i < |rounds[k]| ==> Bounded(rounds[k][i])
    ensures forall i :: 0 <= i < |stocks| ==>
      -MaxDelta * |rounds| <= TickRounds(stocks, rounds)[i].price - stocks[i].price <= MaxDelta * |rounds|
    decreases |rounds|
  {
    if rounds != [] {
      var next := Ticked(stocks, rounds[0]);
      assert forall k, i :: 0 <= k < |rounds[1..]| && 0 <= i < |rounds[1..][k]| ==> Bounded(rounds[1..][k][i]) by {
        forall k, i | 0 <= k < |rounds[1..]| && 0 <= i < |rounds[1..][k]|
          ensures Bounded(rounds[1..][k][i])
        {
          assert rounds[1..][k] == rounds[k + 1];
        }
      }
      TickRoundsDrift(next, rounds[1..]);
    }
  }
}
