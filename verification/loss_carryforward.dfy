/**
 * Loss carry-forward for income tax (revenue_module.py:84-124 and, in the
 * older engine, financial_calculator.py:300-331). Losses wait in a queue,
 * oldest first; a profitable year offsets the oldest ones before it is taxed,
 * and a loss year appends to the queue and pushes out the oldest entry once
 * the queue holds more than `loss_offset_years` entries.
 */
module LossCarryforward {
  import opened Money
  import opened YearTables

  /** The end of Python's slice `q[:k]` on a list of length `n`. */
  function SliceEnd(n: nat, k: int): (e: nat)
    ensures e <= n
    ensures k >= 0 ==> e == if k < n then k else n
    ensures k < 0 ==> e == if n + k > 0 then n + k else 0
  {
    if k >= 0 then (if k < n then k else n)
    else if n + k > 0 then n + k else 0
  }

  /** The losses a profit may offset: `q[:k]`. */
  function Window(q: seq<real>, k: int): (w: seq<real>)
    ensures w == q[..SliceEnd(|q|, k)]
  {
    q[..SliceEnd(|q|, k)]
  }

  /** The state after the offset loop: profit still taxable and the losses, some reduced. */
  datatype Offset = Offset(remaining: real, losses: seq<real>)

  /**
   * The offset loop over `losses`, oldest first: while profit remains, a loss
   * no larger than it is cleared and subtracted, and a larger loss is reduced
   * by what remains, which ends the offsetting.
   */
  function OffsetLosses(losses: seq<real>, remaining: real): (r: Offset)
    ensures |r.losses| == |losses|
    ensures remaining <= 0.0 ==> r == Offset(remaining, losses)
    ensures remaining >= 0.0 ==> 0.0 <= r.remaining
    decreases |losses|
  {
    if |losses| == 0 then Offset(remaining, [])
    else
      var loss := losses[0];
      var entry := if remaining <= 0.0 then loss else if loss <= remaining then 0.0 else loss - remaining;
      var left := if remaining <= 0.0 then remaining else if loss <= remaining then remaining - loss else 0.0;
      var rest := OffsetLosses(losses[1..], left);
      Offset(rest.remaining, [entry] + rest.losses)
  }

  /**
   * Offsetting non-negative losses never adds to the profit or to any loss,
   * and profit left over means every loss in the window was cleared.
   */
  lemma {:induction false} OffsetBounds(losses: seq<real>, remaining: real)
    ensures var r := OffsetLosses(losses, remaining);
      && (remaining >= 0.0 && (forall i :: 0 <= i < |losses| ==> losses[i] >= 0.0) ==> r.remaining <= remaining)
      && (r.remaining > 0.0 ==> forall i :: 0 <= i < |r.losses| ==> r.losses[i] == 0.0)
      && ((forall i :: 0 <= i < |losses| ==> losses[i] >= 0.0) ==>
            forall i :: 0 <= i < |losses| ==> 0.0 <= r.losses[i] <= losses[i])
    decreases |losses|
  {
    if |losses| > 0 {
      var loss := losses[0];
      var entry := if remaining <= 0.0 then loss else if loss <= remaining then 0.0 else loss - remaining;
      var left := if remaining <= 0.0 then remaining else if loss <= remaining then remaining - loss else 0.0;
      var rest := OffsetLosses(losses[1..], left);
      OffsetBounds(losses[1..], left);
      assert OffsetLosses(losses, remaining) == Offset(rest.remaining, [entry] + rest.losses);
    }
  }

  /** The entries still owed after offsetting: `[loss for loss in q if loss > 0]`. */
  function KeepPositive(q: seq<real>): (r: seq<real>)
    ensures |r| <= |q|
    ensures forall i :: 0 <= i < |r| ==> r[i] > 0.0
    ensures forall x :: x in r <==> x in q && x > 0.0
  {
    if |q| == 0 then []
    else KeepPositive(q[..|q| - 1]) + (if q[|q| - 1] > 0.0 then [q[|q| - 1]] else [])
  }

  /** The carry-forward queue a well-run engine can hold: at most `k` entries, all positive. */
  predicate WellFormed(q: seq<real>, k: int) {
    && |q| <= (if k > 0 then k else 0)
    && forall i :: 0 <= i < |q| ==> q[i] > 0.0
  }

  /** One operation year's outcome: the taxable profit and the queue after it. */
  datatype Carry = Carry(taxable: real, queue: seq<real>)

  /** A profitable (or break-even) year: offset the window, then drop cleared losses. */
  function ProfitYear(q: seq<real>, k: int, profit: real): Carry {
    if |q| == 0 then Carry(profit, q)
    else
      var n := SliceEnd(|q|, k);
      var o := OffsetLosses(q[..n], profit);
      Carry(o.remaining, KeepPositive(o.losses + q[n..]))
  }

  /** A loss year: queue the loss; past `k` entries the oldest one is forfeited. */
  function LossYear(q: seq<real>, k: int, loss: real): seq<real> {
    var grown := q + [loss];
    if |grown| > k then grown[1..] else grown
  }

  /** The carry-forward step for a year whose profit before tax is `profit`. */
  function Step(q: seq<real>, k: int, profit: real): (c: Carry)
    ensures profit < 0.0 ==> c.taxable == 0.0
    ensures profit >= 0.0 ==> 0.0 <= c.taxable
  {
    if profit >= 0.0 then ProfitYear(q, k, profit) else Carry(0.0, LossYear(q, k, -profit))
  }

  /** The queue after the operation years whose profits are `profits`, from empty. */
  function Carried(profits: seq<real>, k: int): seq<real> {
    if |profits| == 0 then [] else Step(Carried(profits[..|profits| - 1], k), k, profits[|profits| - 1]).queue
  }

  /**
   * What the offsetting takes off the queue is exactly what it takes off the
   * taxable profit.
   */
  lemma {:induction false} OffsetConserves(losses: seq<real>, remaining: real)
    ensures Sum(losses) - Sum(OffsetLosses(losses, remaining).losses)
            == remaining - OffsetLosses(losses, remaining).remaining
    decreases |losses|
  {
    if |losses| > 0 {
      var loss := losses[0];
      var left := if remaining <= 0.0 then remaining else if loss <= remaining then remaining - loss else 0.0;
      var entry := if remaining <= 0.0 then loss else if loss <= remaining then 0.0 else loss - remaining;
      var rest := OffsetLosses(losses[1..], left);
      assert OffsetLosses(losses, remaining) == Offset(rest.remaining, [entry] + rest.losses);
      OffsetConserves(losses[1..], left);
      assert Sum(losses) == loss + Sum(losses[1..]) by {
        SumCons(loss, losses[1..]);
        assert losses == [loss] + losses[1..];
      }
      SumCons(entry, rest.losses);
      assert loss - entry == remaining - left;
    }
  }

  /** Filtering out non-positive entries keeps the order: it distributes over `+`. */
  lemma {:induction false} KeepPositiveAppend(a: seq<real>, b: seq<real>)
    ensures KeepPositive(a + b) == KeepPositive(a) + KeepPositive(b)
    decreases |b|
  {
    if |b| == 0 {
      assert a + b == a;
    } else {
      assert (a + b)[..|a + b| - 1] == a + b[..|b| - 1];
      KeepPositiveAppend(a, b[..|b| - 1]);
    }
  }

  /** A queue of positive entries is left as it is by the filter. */
  lemma {:induction false} KeepPositiveOfPositive(q: seq<real>)
    requires forall i :: 0 <= i < |q| ==> q[i] > 0.0
    ensures KeepPositive(q) == q
  {
    if |q| > 0 {
      KeepPositiveOfPositive(q[..|q| - 1]);
    }
  }

  /** Cleared (zero) entries all disappear. */
  lemma {:induction false} KeepPositiveOfZeros(q: seq<real>)
    requires forall i :: 0 <= i < |q| ==> q[i] == 0.0
    ensures KeepPositive(q) == []
  {
    if |q| > 0 {
      KeepPositiveOfZeros(q[..|q| - 1]);
    }
  }

  /** Dropping non-positive entries of a non-negative queue keeps its total. */
  lemma {:induction false} KeepPositiveSum(q: seq<real>)
    requires forall i :: 0 <= i < |q| ==> q[i] >= 0.0
    ensures Sum(KeepPositive(q)) == Sum(q)
  {
    if |q| > 0 {
      var last := q[|q| - 1];
      KeepPositiveSum(q[..|q| - 1]);
      SumAppend(KeepPositive(q[..|q| - 1]), if last > 0.0 then [last] else []);
      assert Sum([last]) == last by {
        assert [last][..0] == [];
      }
    }
  }

  /**
   * Each step keeps the queue well formed: at most `k` positive entries. A
   * profit can only shrink or clear entries; a loss appends a positive entry
   * and evicts the oldest once the queue is over length.
   */
  lemma StepPreservesWellFormed(q: seq<real>, k: int, profit: real)
    requires WellFormed(q, k)
    ensures WellFormed(Step(q, k, profit).queue, k)
  {
    if profit >= 0.0 && |q| > 0 {
      var n := SliceEnd(|q|, k);
      var o := OffsetLosses(q[..n], profit);
      assert |KeepPositive(o.losses + q[n..])| <= |o.losses + q[n..]| == |q|;
    }
  }

  /** Every queue the engine builds from an empty start is well formed. */
  lemma {:induction false} CarriedWellFormed(profits: seq<real>, k: int)
    ensures WellFormed(Carried(profits, k), k)
  {
    if |profits| > 0 {
      CarriedWellFormed(profits[..|profits| - 1], k);
      StepPreservesWellFormed(Carried(profits[..|profits| - 1], k), k, profits[|profits| - 1]);
    }
  }

  /**
   * In a profitable year, the losses the queue gives up equal the profit that
   * escapes tax, and the taxable profit lies between zero and the profit.
   */
  lemma ProfitYearConserves(q: seq<real>, k: int, profit: real)
    requires WellFormed(q, k) && profit >= 0.0
    ensures var c := ProfitYear(q, k, profit);
      && 0.0 <= c.taxable <= profit
      && Sum(q) - Sum(c.queue) == profit - c.taxable
  {
    if |q| > 0 {
      WindowCoversQueue(q, k);
      var o := OffsetLosses(q, profit);
      OffsetConserves(q, profit);
      OffsetBounds(q, profit);
      assert o.losses + [] == o.losses;
      KeepPositiveSum(o.losses);
    }
  }

  /**
   * When profit is left over to tax, every queued loss was cleared: the
   * queue is empty.
   */
  lemma ProfitLeftOverClearsQueue(q: seq<real>, k: int, profit: real)
    requires WellFormed(q, k) && profit >= 0.0
    requires ProfitYear(q, k, profit).taxable > 0.0
    ensures ProfitYear(q, k, profit).queue == []
  {
    if |q| > 0 {
      WindowCoversQueue(q, k);
      var o := OffsetLosses(q, profit);
      OffsetBounds(q, profit);
      assert o.losses + [] == o.losses;
      KeepPositiveOfZeros(o.losses);
    }
  }

  /**
   * A well-formed queue never holds more than `k` entries, so the window
   * `q[:k]` is the whole queue.
   */
  lemma WindowCoversQueue(q: seq<real>, k: int)
    requires WellFormed(q, k)
    ensures Window(q, k) == q && SliceEnd(|q|, k) == |q|
  {
    assert q[..|q|] == q;
  }

  /**
   * A break-even year leaves the queue alone: it neither offsets nor ages any
   * loss, so the carry-forward limit counts loss entries, not calendar years.
   */
  lemma BreakEvenYearKeepsQueue(q: seq<real>, k: int)
    requires WellFormed(q, k)
    ensures Step(q, k, 0.0) == Carry(0.0, q)
  {
    if |q| > 0 {
      var n := SliceEnd(|q|, k);
      assert q[..n] + q[n..] == q;
      KeepPositiveOfPositive(q);
    }
  }

  /**
   * A loss year on a full queue forfeits the oldest loss and queues the new
   * one at the back.
   */
  lemma LossYearEvictsOldest(q: seq<real>, k: int, profit: real)
    requires WellFormed(q, k) && k > 0 && |q| == k && profit < 0.0
    ensures Step(q, k, profit).queue == q[1..] + [-profit]
    ensures Step(q, k, profit).taxable == 0.0
  {
  }

  /** A loss of 100 then profits of 30 and 150: 70 is left, then 50 is taxed. */
  lemma SingleLossExample()
    ensures Step([], 5, -100.0) == Carry(0.0, [100.0])
    ensures Step([100.0], 5, 30.0) == Carry(0.0, [70.0])
    ensures Step([100.0], 5, 150.0) == Carry(50.0, [])
  {
    assert [100.0][..1] == [100.0];
    assert [100.0][1..] == [];
    assert KeepPositive([70.0]) == KeepPositive([]) + [70.0];
    assert KeepPositive([0.0]) == KeepPositive([]) + [];
  }

  // ---------------------------------------------------------------------
  // The older engine's offset loop (financial_calculator.py:313-320).
  // ---------------------------------------------------------------------

  /** The older loop's state: the profit after offsetting and the losses. */
  datatype VariantOffset = VariantOffset(profit: real, losses: seq<real>)

  /**
   * The older loop, entry `i` onwards: while the last loss was fully absorbed
   * (`remaining_loss <= 0`) and `i < k`, it offsets the next loss against the
   * profit, which it reduces in place.
   */
  function VariantOffsetLosses(losses: seq<real>, i: nat, k: int, remainingLoss: real, profit: real)
    : (r: VariantOffset)
    ensures |r.losses| == |losses|
    ensures (remainingLoss > 0.0 || i >= k) ==> r == VariantOffset(profit, losses)
    decreases |losses|
  {
    if |losses| == 0 then VariantOffset(profit, [])
    else if remainingLoss <= 0.0 && i < k then
      var left := Max(losses[0] - profit, 0.0);
      var rest := VariantOffsetLosses(losses[1..], i + 1, k, left, Max(profit - losses[0], 0.0));
      VariantOffset(rest.profit, [left] + rest.losses)
    else
      var rest := VariantOffsetLosses(losses[1..], i + 1, k, remainingLoss, profit);
      VariantOffset(rest.profit, [losses[0]] + rest.losses)
  }

  /** The older engine's carry-forward step: (profit after offsetting, queue). */
  function VariantStep(q: seq<real>, k: int, profit: real): Carry {
    if profit >= 0.0 then
      if |q| == 0 then Carry(profit, q)
      else
        var o := VariantOffsetLosses(q, 0, k, 0.0, profit);
        Carry(o.profit, KeepPositive(o.losses))
    else Carry(0.0, LossYear(q, k, -profit))
  }

  /** How many of `q`'s entries, from entry `i` on, the older loop may still offset. */
  function WindowFrom(len: nat, i: nat, k: int): (n: nat)
    ensures n <= len
  {
    if k - i <= 0 then 0 else if k - i < len then k - i else len
  }

  /**
   * The two offset loops agree, from entry `i` on, whenever the older loop is
   * still offsetting: its reduced profit is the live loop's remaining profit
   * and the losses match, the ones beyond the window untouched.
   */
  lemma {:induction false} VariantOffsetAgrees(q: seq<real>, i: nat, k: int, profit: real)
    requires profit >= 0.0
    requires forall j :: 0 <= j < |q| ==> q[j] >= 0.0
    ensures var n := WindowFrom(|q|, i, k);
      var live := OffsetLosses(q[..n], profit);
      VariantOffsetLosses(q, i, k, 0.0, profit) == VariantOffset(live.remaining, live.losses + q[n..])
    decreases |q|
  {
    var n := WindowFrom(|q|, i, k);
    if |q| == 0 || i >= k {
      assert q[..n] == [] && q[n..] == q;
    } else if q[0] <= profit {
      VariantOffsetAgrees(q[1..], i + 1, k, profit - q[0]);
      AgreeOnAbsorbedLoss(q, i, k, profit);
    } else {
      AgreeOnReducedLoss(q, i, k, profit);
    }
  }

  /** The inductive step of `VariantOffsetAgrees` when the profit covers the first loss. */
  lemma AgreeOnAbsorbedLoss(q: seq<real>, i: nat, k: int, profit: real)
    requires |q| > 0 && i < k && 0.0 <= q[0] <= profit
    requires var m := WindowFrom(|q| - 1, i + 1, k);
      var live := OffsetLosses(q[1..][..m], profit - q[0]);
      VariantOffsetLosses(q[1..], i + 1, k, 0.0, profit - q[0]) == VariantOffset(live.remaining, live.losses + q[1..][m..])
    ensures var n := WindowFrom(|q|, i, k);
      var live := OffsetLosses(q[..n], profit);
      VariantOffsetLosses(q, i, k, 0.0, profit) == VariantOffset(live.remaining, live.losses + q[n..])
  {
    var n := WindowFrom(|q|, i, k);
    var m := n - 1;
    var tail := q[1..];
    assert m == WindowFrom(|q| - 1, i + 1, k);
    var rest := OffsetLosses(tail[..m], profit - q[0]);
    LiveAbsorbsPrefix(q, n, profit);
    VariantAbsorbs(q, i, k, profit);
    assert q[n..] == tail[m..];
    GlueAbsorbed(OffsetLosses(q[..n], profit), VariantOffsetLosses(q, i, k, 0.0, profit), rest,
                 VariantOffsetLosses(tail, i + 1, k, 0.0, profit - q[0]), q[n..]);
  }

  /** `LiveAbsorbs` on the first `n` entries of `q`. */
  lemma LiveAbsorbsPrefix(q: seq<real>, n: nat, profit: real)
    requires 0 < n <= |q| && 0.0 <= q[0] <= profit
    ensures var rest := OffsetLosses(q[1..][..n - 1], profit - q[0]);
      OffsetLosses(q[..n], profit) == Offset(rest.remaining, [0.0] + rest.losses)
  {
    assert q[..n][1..] == q[1..][..n - 1];
    LiveAbsorbs(q[..n], profit);
  }

  /** Both loops clear the first loss and then agree on the rest: so they agree on the whole. */
  lemma GlueAbsorbed(live: Offset, older: VariantOffset, rest: Offset, olderRest: VariantOffset, beyond: seq<real>)
    requires olderRest == VariantOffset(rest.remaining, rest.losses + beyond)
    requires live == Offset(rest.remaining, [0.0] + rest.losses)
    requires older == VariantOffset(olderRest.profit, [0.0] + olderRest.losses)
    ensures older == VariantOffset(live.remaining, live.losses + beyond)
  {
    assert [0.0] + (rest.losses + beyond) == ([0.0] + rest.losses) + beyond;
  }

  /** The inductive step of `VariantOffsetAgrees` when the first loss exceeds the profit. */
  lemma AgreeOnReducedLoss(q: seq<real>, i: nat, k: int, profit: real)
    requires |q| > 0 && i < k && 0.0 <= profit < q[0]
    ensures var n := WindowFrom(|q|, i, k);
      var live := OffsetLosses(q[..n], profit);
      VariantOffsetLosses(q, i, k, 0.0, profit) == VariantOffset(live.remaining, live.losses + q[n..])
  {
    var n := WindowFrom(|q|, i, k);
    var tail := q[1..];
    LiveStopsPrefix(q, n, profit);
    VariantStops(q, i, k, profit);
    assert q[n..] == tail[n - 1..];
    GlueReduced(OffsetLosses(q[..n], profit), VariantOffsetLosses(q, i, k, 0.0, profit), q[0] - profit, tail, n - 1);
  }

  /** `LiveStops` on the first `n` entries of `q`. */
  lemma LiveStopsPrefix(q: seq<real>, n: nat, profit: real)
    requires 0 < n <= |q| && 0.0 <= profit < q[0]
    ensures OffsetLosses(q[..n], profit) == Offset(0.0, [q[0] - profit] + q[1..][..n - 1])
  {
    assert q[..n][1..] == q[1..][..n - 1];
    LiveStops(q[..n], profit);
  }

  /** Both loops reduce the first loss and stop: so they agree on the whole. */
  lemma GlueReduced(live: Offset, older: VariantOffset, head: real, tail: seq<real>, m: nat)
    requires m <= |tail|
    requires live == Offset(0.0, [head] + tail[..m])
    requires older == VariantOffset(0.0, [head] + tail)
    ensures older == VariantOffset(live.remaining, live.losses + tail[m..])
  {
    assert [head] + tail == ([head] + tail[..m]) + tail[m..];
  }

  /** The live loop on a first loss the profit covers: cleared, and the rest offset against what is left. */
  lemma LiveAbsorbs(w: seq<real>, profit: real)
    requires |w| > 0 && 0.0 <= w[0] <= profit
    ensures var rest := OffsetLosses(w[1..], profit - w[0]);
      OffsetLosses(w, profit) == Offset(rest.remaining, [0.0] + rest.losses)
  {
  }

  /** The live loop on a first loss larger than the profit: reduced, and nothing after it touched. */
  lemma LiveStops(w: seq<real>, profit: real)
    requires |w| > 0 && 0.0 <= profit < w[0]
    ensures OffsetLosses(w, profit) == Offset(0.0, [w[0] - profit] + w[1..])
  {
    assert OffsetLosses(w[1..], 0.0) == Offset(0.0, w[1..]);
  }

  /** The older loop on a first loss the profit covers. */
  lemma VariantAbsorbs(q: seq<real>, i: nat, k: int, profit: real)
    requires |q| > 0 && i < k && q[0] <= profit
    ensures var rest := VariantOffsetLosses(q[1..], i + 1, k, 0.0, profit - q[0]);
      VariantOffsetLosses(q, i, k, 0.0, profit) == VariantOffset(rest.profit, [0.0] + rest.losses)
  {
    assert Max(q[0] - profit, 0.0) == 0.0 && Max(profit - q[0], 0.0) == profit - q[0];
  }

  /** The older loop on a first loss larger than the profit: it stops after reducing it. */
  lemma VariantStops(q: seq<real>, i: nat, k: int, profit: real)
    requires |q| > 0 && i < k && 0.0 <= profit < q[0]
    ensures VariantOffsetLosses(q, i, k, 0.0, profit) == VariantOffset(0.0, [q[0] - profit] + q[1..])
  {
    assert Max(q[0] - profit, 0.0) == q[0] - profit && Max(profit - q[0], 0.0) == 0.0;
  }

  /**
   * For a well-formed queue, the older
   * engine's carry-forward step is the live one: same taxable profit, same
   * queue.
   */
  lemma VariantStepAgrees(q: seq<real>, k: int, profit: real)
    requires WellFormed(q, k)
    ensures VariantStep(q, k, profit) == Step(q, k, profit)
  {
    if profit >= 0.0 && |q| > 0 {
      VariantOffsetAgrees(q, 0, k, profit);
    }
  }
}
