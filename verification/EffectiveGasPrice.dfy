/** The effective gas price of an L2 tx: the byte that scales the signed price, and the
    execute, compare, execute-again loop of the finalizer that settles on a price. */
module EffectiveGasPrice {
  import opened Basics
  import opened Trackers

  const MAX_EFFECTIVE_PERCENTAGE: nat := 255

  // ------------------------------------------------------------------ percentage

  /** `CalculateEffectiveGasPricePercentage`; `None` is the error for a missing or zero price. */
  function Percentage(gasPrice: Option<nat>, effectiveGasPrice: Option<nat>): Option<nat> {
    if effectiveGasPrice.None? || gasPrice.None? || gasPrice.value == 0 || effectiveGasPrice.value == 0 then None
    else if gasPrice.value <= effectiveGasPrice.value then Some(MAX_EFFECTIVE_PERCENTAGE)
    else
      var b := (effectiveGasPrice.value * 256 + gasPrice.value - 1) / gasPrice.value - 1;
      Some(b % 0x1_0000_0000_0000_0000 % 0x100) // uint8(b.Uint64())
  }

  /** The price charged for a percentage byte: (p + 1) / 256 of the signed price. */
  function Applied(gasPrice: nat, p: nat): nat {
    gasPrice * (p + 1) / 256
  }

  /** Byte `p` charges at least `egp`. */
  predicate Covers(gasPrice: nat, p: nat, egp: nat) {
    gasPrice * (p + 1) >= 256 * egp
  }

  lemma CeilingDivision(x: nat, d: nat)
    requires d > 0
    ensures var q := (x + d - 1) / d; (q - 1) * d < x <= q * d
  {
    var q := (x + d - 1) / d;
    assert x + d - 1 == q * d + (x + d - 1) % d;
    assert (q - 1) * d == q * d - d;
  }

  lemma MulStrict(a: int, b: int, d: nat)
    requires a * d < b * d
    ensures a < b
  {
    assert a >= b ==> a * d >= b * d;
  }

  lemma MulMonotone(a: int, b: int, d: nat)
    requires a <= b
    ensures d * a <= d * b
  {
  }

  lemma ShareInRange(gasPrice: nat, egp: nat, q: int)
    requires 0 < egp < gasPrice && q == (egp * 256 + gasPrice - 1) / gasPrice
    ensures 1 <= q <= 256
    ensures gasPrice * (q - 1) < 256 * egp <= gasPrice * q
  {
    CeilingDivision(egp * 256, gasPrice);
    assert q >= 1 by { MulStrict(0, q, gasPrice); }
    assert q <= 256 by { MulStrict(q - 1, 256, gasPrice); }
  }

  /** For an effective price below the signed one the result is the least byte whose
      share of the signed price covers the effective price; no truncation occurs. */
  lemma PercentageIsLeast(gasPrice: nat, egp: nat)
    requires 0 < egp < gasPrice
    ensures var r := Percentage(Some(gasPrice), Some(egp));
      && r.Some? && r.value <= 255
      && Covers(gasPrice, r.value, egp)
      && forall q: nat :: q < r.value ==> !Covers(gasPrice, q, egp)
  {
    var q := (egp * 256 + gasPrice - 1) / gasPrice;
    ShareInRange(gasPrice, egp, q);
    assert (q - 1) % 0x1_0000_0000_0000_0000 % 0x100 == q - 1;
    forall k: nat | k < q - 1 ensures !Covers(gasPrice, k, egp) {
      MulMonotone(k + 1, q - 1, gasPrice);
    }
  }

  /** An error exactly for a missing or zero price; otherwise a byte, and the price it
      applies lies between the effective price (capped) and the signed price. */
  lemma AppliedBetween(gasPrice: Option<nat>, egp: Option<nat>)
    ensures var r := Percentage(gasPrice, egp);
      && (r.None? <==> gasPrice.None? || egp.None? || gasPrice.value == 0 || egp.value == 0)
      && (r.Some? ==> r.value <= 255 && Applied(gasPrice.value, r.value) <= gasPrice.value)
      && (r.Some? ==>
            (if egp.value < gasPrice.value then egp.value else gasPrice.value) <= Applied(gasPrice.value, r.value))
  {
    var r := Percentage(gasPrice, egp);
    if r.Some? {
      var g, e := gasPrice.value, egp.value;
      if e < g {
        PercentageIsLeast(g, e);
        MulMonotone(r.value + 1, 256, g);
        assert 256 * e <= g * (r.value + 1) <= 256 * g;
      }
    }
  }

  function Distance(a: nat, b: nat): nat {
    if a < b then b - a else a - b
  }

  // ----------------------------------------------------------- the finalizer loop

  type Price = n: nat | n > 0 witness 1

  /** Configuration and the parts that are floating point in the source: the price
      calculation from (tx gas price, gas used, L1 price, L2 price), which fails rather
      than return zero, and the price simulated from the L1 price when disabled. */
  datatype Egp = Egp(
    enabled: bool, finalDeviationPct: nat,
    calculate: (nat, nat, nat, nat) -> Option<Price>, simulated: nat -> nat)
  {
    function TxGasPrice(gasPrice: nat, l1: nat): nat {
      if enabled then gasPrice else simulated(l1)
    }

    function L2GasPrice(l1: nat, l2: nat): nat {
      if enabled then l2 else simulated(l1)
    }

    function Calculate(gasPrice: nat, gasUsed: nat, l1: nat, l2: nat): Option<Price> {
      calculate(TxGasPrice(gasPrice, l1), gasUsed, l1, L2GasPrice(l1, l2))
    }

    /** The recalculated price is too far from the one that was used. */
    predicate Deviates(used: nat, recalculated: nat) {
      (if used < recalculated then recalculated - used else used - recalculated) > used * finalDeviationPct / 100
    }
  }

  /** What one call of the executor leads to. `Rejected` stands for every answer that
      ends the attempt without adding the tx: executor or ROM error, no room, halt. */
  datatype Response = Rejected | Executed(gasUsed: nat, hasGasPriceOC: bool, hasBalanceOC: bool)

  datatype Outcome = Accepted | Reprocess | Stopped

  /** `compareTxEffectiveGasPrice`: a reprocess is asked for exactly when the prices
      deviate, and then the tracker holds the new price, capped at the tx price, or the
      tx price itself when the tx can observe its own price. */
  method CompareTxEffectiveGasPrice(egp: Egp, tx: TxTracker, newPrice: nat, hasGasPriceOC: bool, hasBalanceOC: bool)
    returns (reprocess: bool)
    modifies tx`effectiveGasPrice
    ensures reprocess <==> egp.Deviates(old(tx.effectiveGasPrice), newPrice)
    ensures reprocess <==>
      100 * Distance(old(tx.effectiveGasPrice), newPrice) > old(tx.effectiveGasPrice) * egp.finalDeviationPct
    ensures !reprocess ==> tx.effectiveGasPrice == old(tx.effectiveGasPrice)
    ensures reprocess ==>
      var cap := egp.TxGasPrice(tx.gasPrice, tx.l1GasPrice);
      tx.effectiveGasPrice == if newPrice < cap && !hasGasPriceOC && !hasBalanceOC then newPrice else cap
  {
    var txGasPrice := egp.TxGasPrice(tx.gasPrice, tx.l1GasPrice);
    var diff: int := tx.effectiveGasPrice - newPrice;
    if diff < 0 {
      diff := -diff;
    }
    var maxDeviation := tx.effectiveGasPrice * egp.finalDeviationPct / 100;
    if diff > maxDeviation {
      if newPrice < txGasPrice {
        if hasGasPriceOC || hasBalanceOC {
          tx.effectiveGasPrice := txGasPrice;
        } else {
          tx.effectiveGasPrice := newPrice;
        }
      } else {
        tx.effectiveGasPrice := txGasPrice;
      }
      return true;
    }
    return false;
  }

  /** First price of a selection: the calculated one, or the tx price when that is not
      higher, in which case the first execution is the last. */
  method FirstPrice(egp: Egp, tx: TxTracker, l1: nat, l2: nat) returns (ok: bool)
    modifies tx`effectiveGasPrice, tx`egpPercentage, tx`isLastExecution, tx`l1GasPrice, tx`l2GasPrice
    ensures tx.l1GasPrice == l1 && tx.l2GasPrice == l2 && tx.egpPercentage == old(tx.egpPercentage)
    ensures ok <==> !egp.enabled || egp.Calculate(tx.gasPrice, tx.gasUsed, l1, l2).Some?
    ensures var p, cap := egp.Calculate(tx.gasPrice, tx.gasUsed, l1, l2), egp.TxGasPrice(tx.gasPrice, l1);
      if p.None? then tx.effectiveGasPrice == old(tx.effectiveGasPrice) && tx.isLastExecution == old(tx.isLastExecution)
      else
        && tx.effectiveGasPrice == (if p.value < cap then p.value else cap)
        && tx.isLastExecution == (old(tx.isLastExecution) || p.value >= cap)
    ensures egp.enabled ==>
      var p := egp.calculate(tx.gasPrice, tx.gasUsed, l1, l2);
      && (ok <==> p.Some?)
      && (ok ==> tx.effectiveGasPrice == if p.value < tx.gasPrice then p.value else tx.gasPrice)
    ensures !egp.enabled ==>
      var simulated := egp.simulated(l1);
      var p := egp.calculate(simulated, tx.gasUsed, l1, simulated);
      ok && (p.Some? ==> tx.effectiveGasPrice == if p.value < simulated then p.value else simulated)
  {
    tx.l1GasPrice, tx.l2GasPrice := l1, l2;
    var txGasPrice := egp.TxGasPrice(tx.gasPrice, l1);
    var p := egp.Calculate(tx.gasPrice, tx.gasUsed, l1, l2);
    if p.None? {
      return !egp.enabled;
    }
    tx.effectiveGasPrice := p.value;
    if tx.effectiveGasPrice >= txGasPrice {
      tx.effectiveGasPrice := txGasPrice;
      tx.isLastExecution := true;
    }
    return true;
  }

  /** The answer of the executor to an attempt (the part after the batch is processed). */
  method HandleResponse(egp: Egp, tx: TxTracker, response: Response) returns (r: Outcome)
    modifies tx`effectiveGasPrice, tx`isLastExecution
    ensures response.Rejected? ==>
      r == Stopped && tx.isLastExecution == old(tx.isLastExecution) && tx.effectiveGasPrice == old(tx.effectiveGasPrice)
    ensures response.Executed? ==> tx.isLastExecution
    ensures response.Executed? && old(tx.isLastExecution) ==>
      r == Accepted && tx.effectiveGasPrice == old(tx.effectiveGasPrice)
    ensures response.Executed? && !old(tx.isLastExecution) ==>
      var p := egp.Calculate(tx.gasPrice, response.gasUsed, tx.l1GasPrice, tx.l2GasPrice);
      var cap := egp.TxGasPrice(tx.gasPrice, tx.l1GasPrice);
      if p.None? then
        r == (if egp.enabled then Stopped else Accepted) && tx.effectiveGasPrice == old(tx.effectiveGasPrice)
      else if !egp.Deviates(old(tx.effectiveGasPrice), p.value) then
        r == Accepted && tx.effectiveGasPrice == old(tx.effectiveGasPrice)
      else
        && r == (if egp.enabled then Reprocess else Accepted)
        && tx.effectiveGasPrice ==
             if p.value < cap && !response.hasGasPriceOC && !response.hasBalanceOC then p.value else cap
  {
    if response.Rejected? {
      return Stopped;
    }
    if !tx.isLastExecution {
      tx.isLastExecution := true;
      var p := egp.Calculate(tx.gasPrice, response.gasUsed, tx.l1GasPrice, tx.l2GasPrice);
      if p.None? {
        if egp.enabled {
          return Stopped;
        }
      } else {
        var reprocess := CompareTxEffectiveGasPrice(egp, tx, p.value, response.hasGasPriceOC, response.hasBalanceOC);
        if reprocess && egp.enabled {
          return Reprocess;
        }
      }
    }
    return Accepted;
  }

  /** A first attempt gets as far as the executor. */
  predicate Priced(egp: Egp, tx: TxTracker, l1: nat, l2: nat) {
    egp.enabled ==> tx.gasPrice > 0 && egp.Calculate(tx.gasPrice, tx.gasUsed, l1, l2).Some?
  }

  /** The price of a first attempt is compared with a recalculated one. */
  predicate Provisional(egp: Egp, tx: TxTracker, wasLast: bool, l1: nat, l2: nat) {
    egp.enabled && !wasLast &&
    var p := egp.Calculate(tx.gasPrice, tx.gasUsed, l1, l2); p.Some? && p.value < tx.gasPrice
  }

  /** The price recalculated from the first answer deviates from the one that was used. */
  predicate Retried(egp: Egp, tx: TxTracker, wasLast: bool, l1: nat, l2: nat, first: Response) {
    Provisional(egp, tx, wasLast, l1, l2) && first.Executed? &&
    var p := egp.Calculate(tx.gasPrice, first.gasUsed, l1, l2);
    p.Some? && egp.Deviates(egp.Calculate(tx.gasPrice, tx.gasUsed, l1, l2).value, p.value)
  }

  /** Every price that is needed can be calculated, every run is answered as executed. */
  predicate Acceptable(egp: Egp, tx: TxTracker, wasLast: bool, l1: nat, l2: nat, execute: nat -> Response) {
    && Priced(egp, tx, l1, l2)
    && execute(0).Executed?
    && (Provisional(egp, tx, wasLast, l1, l2) ==> egp.Calculate(tx.gasPrice, execute(0).gasUsed, l1, l2).Some?)
    && (Retried(egp, tx, wasLast, l1, l2, execute(0)) ==> execute(1).Executed?)
  }

  /** The same in terms of the prices calculated from the gas estimated before and the gas
      used in the first run. Disabled, only the answer of the executor counts. */
  lemma SelectionMeans(egp: Egp, tx: TxTracker, wasLast: bool, l1: nat, l2: nat, execute: nat -> Response)
    ensures !egp.enabled ==>
      && Priced(egp, tx, l1, l2) && !Retried(egp, tx, wasLast, l1, l2, execute(0))
      && (Acceptable(egp, tx, wasLast, l1, l2, execute) <==> execute(0).Executed?)
    ensures egp.enabled ==>
      var p, first := egp.calculate(tx.gasPrice, tx.gasUsed, l1, l2), execute(0);
      && (Priced(egp, tx, l1, l2) <==> tx.gasPrice > 0 && p.Some?)
      && (Retried(egp, tx, wasLast, l1, l2, first) <==>
            && !wasLast && p.Some? && p.value < tx.gasPrice && first.Executed?
            && var again := egp.calculate(tx.gasPrice, first.gasUsed, l1, l2);
               again.Some? && 100 * Distance(p.value, again.value) > p.value * egp.finalDeviationPct)
      && (Acceptable(egp, tx, wasLast, l1, l2, execute) <==>
            && tx.gasPrice > 0 && p.Some? && first.Executed?
            && (!wasLast && p.value < tx.gasPrice ==>
                  var again := egp.calculate(tx.gasPrice, first.gasUsed, l1, l2);
                  && again.Some?
                  && (100 * Distance(p.value, again.value) > p.value * egp.finalDeviationPct ==>
                        execute(1).Executed?)))
  {
  }

  /** The price of an accepted tx: the first one, or after a retry the recalculated one; never
      more than the gas price, which is also taken when the tx can observe its own price. */
  predicate SettlesAt(egp: Egp, tx: TxTracker, wasLast: bool, l1: nat, l2: nat, first: Response, price: nat) {
    var p := egp.calculate(tx.gasPrice, tx.gasUsed, l1, l2);
    && p.Some?
    && if Retried(egp, tx, wasLast, l1, l2, first) then
         var again := egp.calculate(tx.gasPrice, first.gasUsed, l1, l2);
         && again.Some?
         && price == if again.value < tx.gasPrice && !first.hasGasPriceOC && !first.hasBalanceOC
                     then again.value else tx.gasPrice
       else price == if p.value < tx.gasPrice then p.value else tx.gasPrice
  }

  /** `processTransaction` as far as prices go; `executed` tells whether the executor ran. */
  method ProcessTransaction(egp: Egp, tx: TxTracker, first: bool, l1: nat, l2: nat, response: Response)
    returns (r: Outcome, executed: bool)
    modifies tx`effectiveGasPrice, tx`egpPercentage, tx`isLastExecution, tx`l1GasPrice, tx`l2GasPrice
    ensures !first ==> tx.l1GasPrice == old(tx.l1GasPrice) && tx.l2GasPrice == old(tx.l2GasPrice)
    ensures first ==> tx.l1GasPrice == l1 && tx.l2GasPrice == l2
    ensures first ==> (executed <==> Priced(egp, tx, l1, l2))
    ensures !first ==> (executed <==> (egp.enabled ==> tx.gasPrice > 0 && old(tx.effectiveGasPrice) > 0))
    ensures r != Stopped ==> executed && response.Executed? && tx.isLastExecution
    ensures first && executed && response.Executed? ==>
      (r == Stopped <==>
         && Provisional(egp, tx, old(tx.isLastExecution), l1, l2)
         && egp.Calculate(tx.gasPrice, response.gasUsed, l1, l2).None?)
    ensures first ==> (r == Reprocess <==> executed && Retried(egp, tx, old(tx.isLastExecution), l1, l2, response))
    ensures r == Reprocess ==> tx.effectiveGasPrice > 0
    ensures !first && executed && response.Executed? && old(tx.isLastExecution) ==> r == Accepted
    ensures r == Reprocess ==> egp.enabled && !old(tx.isLastExecution) && (first ==> tx.gasPrice > 0)
    ensures executed && !egp.enabled ==> tx.egpPercentage == MAX_EFFECTIVE_PERCENTAGE
    // first attempt, enabled
    ensures egp.enabled && first && executed ==> egp.Calculate(tx.gasPrice, tx.gasUsed, l1, l2).Some?
    ensures egp.enabled && first && r != Stopped ==>
      var p1 := egp.Calculate(tx.gasPrice, tx.gasUsed, l1, l2).value;
      var used := if p1 < tx.gasPrice then p1 else tx.gasPrice;
      if old(tx.isLastExecution) || p1 >= tx.gasPrice then
        && r == Accepted && tx.effectiveGasPrice == used
        && Some(tx.egpPercentage) == Percentage(Some(tx.gasPrice), Some(used))
      else
        var p2 := egp.Calculate(tx.gasPrice, response.gasUsed, l1, l2);
        && p2.Some?
        && (r == Reprocess <==> egp.Deviates(used, p2.value))
        && (r == Accepted ==>
              tx.effectiveGasPrice == used && Some(tx.egpPercentage) == Percentage(Some(tx.gasPrice), Some(used)))
        && (r == Reprocess ==>
              tx.effectiveGasPrice == if p2.value < tx.gasPrice && !response.hasGasPriceOC && !response.hasBalanceOC
                                      then p2.value else tx.gasPrice)
    // later attempt, enabled
    ensures egp.enabled && !first && old(tx.isLastExecution) && r != Stopped ==>
      && r == Accepted && tx.effectiveGasPrice == old(tx.effectiveGasPrice)
      && Some(tx.egpPercentage) == Percentage(Some(tx.gasPrice), Some(tx.effectiveGasPrice))
  {
    if first {
      var ok := FirstPrice(egp, tx, l1, l2);
      if !ok {
        return Stopped, false;
      }
    }
    var percentage := Percentage(Some(tx.gasPrice), Some(tx.effectiveGasPrice));
    if percentage.None? && egp.enabled {
      return Stopped, false;
    }
    tx.egpPercentage := if egp.enabled then percentage.value else MAX_EFFECTIVE_PERCENTAGE;
    r := HandleResponse(egp, tx, response);
    executed := true;
  }

  /** The retry loop of `finalizeBatches` for one selected tx. `execute(k)` is the
      answer of the executor to the k-th call; the loop ends by itself.

      Disabled, a tx runs once and is accepted exactly when it is executed. Enabled, it
      runs a second time exactly when the recalculated price deviates, and is accepted
      exactly when its prices can be calculated and every run is answered as executed. It
      then pays at most its gas price and at least its effective price through the
      percentage byte; and when the tracker came in without a last execution, the price is
      the gas price, the recalculated price, or deviates from the recalculated price by no
      more than the configured share. */
  method SelectTx(egp: Egp, tx: TxTracker, l1: nat, l2: nat, execute: nat -> Response)
    returns (accepted: bool, executions: nat)
    modifies tx`effectiveGasPrice, tx`egpPercentage, tx`isLastExecution, tx`l1GasPrice, tx`l2GasPrice
    ensures executions ==
      if !Priced(egp, tx, l1, l2) then 0
      else if Retried(egp, tx, old(tx.isLastExecution), l1, l2, execute(0)) then 2 else 1
    ensures accepted <==> Acceptable(egp, tx, old(tx.isLastExecution), l1, l2, execute)
    ensures accepted && !egp.enabled ==> tx.egpPercentage == MAX_EFFECTIVE_PERCENTAGE
    ensures accepted && egp.enabled ==>
      && tx.effectiveGasPrice <= tx.gasPrice
      && tx.egpPercentage <= 255
      && tx.effectiveGasPrice <= Applied(tx.gasPrice, tx.egpPercentage) <= tx.gasPrice
    ensures accepted && egp.enabled ==>
      && SettlesAt(egp, tx, old(tx.isLastExecution), l1, l2, execute(0), tx.effectiveGasPrice)
      && Some(tx.egpPercentage) == Percentage(Some(tx.gasPrice), Some(tx.effectiveGasPrice))
    ensures accepted && egp.enabled && !old(tx.isLastExecution) ==>
      execute(0).Executed? &&
      var again := egp.calculate(tx.gasPrice, execute(0).gasUsed, l1, l2);
      || tx.effectiveGasPrice == tx.gasPrice
      || again == Some(tx.effectiveGasPrice)
      || (&& again.Some? && executions == 1
          && 100 * Distance(tx.effectiveGasPrice, again.value) <= tx.effectiveGasPrice * egp.finalDeviationPct)
  {
    var r, executed := ProcessTransaction(egp, tx, true, l1, l2, execute(0));
    executions := if executed then 1 else 0;
    while r == Reprocess
      invariant r == Reprocess ==> executions == 1 && egp.enabled && !old(tx.isLastExecution) && tx.isLastExecution
      invariant r == Reprocess ==> Retried(egp, tx, old(tx.isLastExecution), l1, l2, execute(0))
      invariant r == Reprocess ==> tx.effectiveGasPrice > 0
      invariant r == Reprocess ==> Priced(egp, tx, l1, l2)
      invariant r != Reprocess ==>
        executions == if !Priced(egp, tx, l1, l2) then 0
                      else if Retried(egp, tx, old(tx.isLastExecution), l1, l2, execute(0)) then 2 else 1
      invariant r != Reprocess ==> (r == Accepted <==> Acceptable(egp, tx, old(tx.isLastExecution), l1, l2, execute))
      invariant r == Accepted && !egp.enabled ==> tx.egpPercentage == MAX_EFFECTIVE_PERCENTAGE
      invariant r != Stopped && egp.enabled ==> tx.effectiveGasPrice <= tx.gasPrice
      invariant r == Accepted && egp.enabled ==>
        Some(tx.egpPercentage) == Percentage(Some(tx.gasPrice), Some(tx.effectiveGasPrice))
      invariant r != Stopped && egp.enabled ==>
        SettlesAt(egp, tx, old(tx.isLastExecution), l1, l2, execute(0), tx.effectiveGasPrice)
      decreases if r == Reprocess then 1 else 0
    {
      r, executed := ProcessTransaction(egp, tx, false, l1, l2, execute(executions));
      executions := executions + if executed then 1 else 0;
    }
    accepted := r == Accepted;
    if accepted && egp.enabled {
      SelectionMeans(egp, tx, old(tx.isLastExecution), l1, l2, execute);
      AppliedBetween(Some(tx.gasPrice), Some(tx.effectiveGasPrice));
    }
  }
}
