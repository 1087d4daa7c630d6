/** `monitorTx` as it is written, one pass from top to bottom, while L1 and the other
    writers of the row go on between any two of its steps. It is proved to be a run of the
    state machine of `EthTxManager`: what holds of every run holds of the code. */
module EthTxClient {
  import opened Basics
  import opened EthTxManager
  import opened EthTxRuns

  /** How a storage write goes: applied or not, reported as done or as failed. */
  datatype Write = Write(applied: bool, acked: bool)
  {
    predicate Possible() {
      acked ==> applied
    }
  }

  /** What L1 and the other writers of the row do. */
  predicate IsOther(e: Event) {
    e.Writes() || e.Mine? || e.MineForeign? || e.DropBlocks?
  }

  lemma OthersLeaveMonitor(cfg: Config, s: State, pc: Monitor, e: Event)
    requires IsOther(e) && Next(cfg, s, e).Some?
    ensures Next(cfg, s.(monitor := pc), e) == Some(Next(cfg, s, e).value.(monitor := pc))
  {
  }

  /** Everything the pass does not decide itself. `others(k)` is what happens elsewhere
      after its k-th step. */
  datatype World = World(
    failedLookups: set<Tx>, nonceFails: bool, nonceWrite: Write,
    feesFail: bool, gas: nat, gasPrice: nat, reviewWrite: Write,
    signFails: bool, historyWrite: Write,
    found: bool, send: Write, sentWrite: Write,
    waitEnds: bool, receiptFails: bool,
    giveUp: bool, finalWrite: Write,
    others: nat -> seq<Event>)
  {
    predicate Possible(cfg: Config) {
      && (failedLookups != {} ==> cfg.lookupErrors)
      && nonceWrite.Possible() && reviewWrite.Possible() && historyWrite.Possible()
      && send.Possible() && sentWrite.Possible() && finalWrite.Possible()
    }

    /** Nothing happens elsewhere during the pass. */
    ghost predicate Quiet() {
      forall k :: others(k) == []
    }

    /** Nor does any call or write of the pass fail, and a final receipt is acted upon. */
    ghost predicate Smooth() {
      && Quiet()
      && failedLookups == {} && !nonceFails && nonceWrite.acked && !feesFail && reviewWrite.acked
      && !signFails && historyWrite.acked && send.acked && sentWrite.acked
      && !receiptFails && !giveUp && finalWrite.acked
    }
  }

  // ------------------------------------------------- what an undisturbed pass comes to

  ghost predicate SuccessIn(l1: L1, txs: set<Tx>) {
    exists tx :: tx in txs && l1.Succeeded(tx)
  }

  ghost predicate FailureIn(l1: L1, txs: set<Tx>) {
    exists tx :: tx in txs && l1.MinedFailed(tx)
  }

  /** One more lookup: `all` without `todo` grows by `tx`. */
  lemma LookedUp(l1: L1, all: set<Tx>, todo: set<Tx>, tx: Tx)
    requires tx in todo
    ensures tx in all ==>
      && (SuccessIn(l1, all - (todo - {tx})) <==> SuccessIn(l1, all - todo) || l1.Succeeded(tx))
      && (FailureIn(l1, all - (todo - {tx})) <==> FailureIn(l1, all - todo) || l1.MinedFailed(tx))
      && (AllFailed(l1, all - (todo - {tx})) <==> AllFailed(l1, all - todo) && l1.MinedFailed(tx))
    ensures tx !in all ==> all - (todo - {tx}) == all - todo
  {
    if tx in all {
      assert all - (todo - {tx}) == (all - todo) + {tx};
    }
  }

  /** What the scan has found out about the txs looked up so far, none of them a success. */
  ghost predicate ScanSoFar(l1: L1, txs: set<Tx>, hasFailed: bool, allMined: bool) {
    && !SuccessIn(l1, txs)
    && (hasFailed <==> FailureIn(l1, txs))
    && (allMined <==> AllFailed(l1, txs))
  }

  /** What the scan decides from the txs looked up: confirmed exactly when one of them is a
      success, a nonce review exactly when all are failures and there is one. */
  ghost predicate ScanShows(l1: L1, txs: set<Tx>, confirmed: bool, block: nat, review: bool) {
    && (confirmed <==> SuccessIn(l1, txs))
    && (confirmed ==> exists tx :: tx in txs && l1.Succeeded(tx) && l1.mined[tx.nonce].block == block)
    && (!confirmed ==> (review <==> FailureIn(l1, txs) && AllFailed(l1, txs)))
  }

  /** The nonce is reviewed exactly when there is a history and all of it was mined and
      failed. */
  ghost function Renumbered(r: Row, l1: L1): Row {
    if r.history != {} && AllFailed(l1, r.history) then r.(nonce := Max(r.nonce, |l1.mined|)) else r
  }

  lemma ScanMeans(l1: L1, r: Row, confirmed: bool, block: nat, review: bool)
    ensures ScanShows(l1, r.history - {}, confirmed, block, review) && !confirmed ==>
      Renumbered(r, l1) == if review then r.(nonce := Max(r.nonce, |l1.mined|)) else r
    ensures r.history - {} == r.history
  {
    assert r.history - {} == r.history;
  }

  /** Gas and gas price are raised, never lowered, and only once the row was sent. */
  function Repriced(r: Row, w: World): Row {
    if r.status == Sent then r.(gas := Max(r.gas, w.gas), gasPrice := Max(r.gasPrice, w.gasPrice)) else r
  }

  /** The row once its tx is in the history and in the network, and L1 then. */
  function Delivered(r: Row, w: World): Row {
    r.(history := r.history + {r.BuildTx()}, status := if w.found then r.status else Sent)
  }

  function Reached(r: Row, l1: L1, w: World): L1 {
    if w.found then l1 else l1.(sent := l1.sent + {r.BuildTx()})
  }

  function Final(r: Row, ok: bool, block: nat): Row {
    r.(status := if ok then Confirmed else Failed, blockNumber := Some(block))
  }

  /** Row and L1 after an undisturbed pass: a success found in the history confirms the row
      and sends nothing; otherwise a reorged row only has its nonce reviewed, and any other
      is renumbered, repriced and delivered, then confirmed if that tx succeeds in time. */
  ghost predicate Undisturbed(r: Row, l1: L1, w: World, r': Row, l1': L1) {
    if SuccessIn(l1, r.history) then
      l1' == l1 && exists tx :: tx in r.history && l1.Succeeded(tx) && r' == Final(r, true, l1.mined[tx.nonce].block)
    else
      var m := Repriced(Renumbered(r, l1), w);
      if r.status == Reorged then l1' == l1 && r' == m
      else
        && l1' == Reached(m, l1, w)
        && r' == if w.waitEnds && l1.Succeeded(m.BuildTx())
                 then Final(Delivered(m, w), true, l1.mined[m.nonce].block) else Delivered(m, w)
  }

  /** The same, field by field. The tx carries the nonce, the gas limit with the offset and
      the gas price that are stored. */
  ghost predicate UndisturbedFields(r: Row, l1: L1, w: World, r': Row, l1': L1) {
    var nonce := if r.history != {} && AllFailed(l1, r.history) && |l1.mined| > r.nonce then |l1.mined| else r.nonce;
    var gas := if r.status == Sent && w.gas > r.gas then w.gas else r.gas;
    var gasPrice := if r.status == Sent && w.gasPrice > r.gasPrice then w.gasPrice else r.gasPrice;
    var tx := Tx(nonce, gas + r.gasOffset, gasPrice);
    if SuccessIn(l1, r.history) then
      && l1' == l1 && r' == Row(r.nonce, r.gas, r.gasOffset, r.gasPrice, Confirmed, r'.blockNumber, r.history)
      && r'.blockNumber.Some?
      && exists h :: h in r.history && l1.Succeeded(h) && l1.mined[h.nonce].block == r'.blockNumber.value
    else if r.status == Reorged then
      l1' == l1 && r' == Row(nonce, r.gas, r.gasOffset, r.gasPrice, Reorged, r.blockNumber, r.history)
    else
      && l1'.mined == l1.mined && l1'.sent == l1.sent + (if w.found then {} else {tx})
      && if w.waitEnds && l1.Succeeded(tx)
         then r' == Row(nonce, gas, r.gasOffset, gasPrice, Confirmed, Some(l1.mined[nonce].block), r.history + {tx})
         else r' == Row(nonce, gas, r.gasOffset, gasPrice,
                        if w.found then r.status else Sent, r.blockNumber, r.history + {tx})
  }

  lemma FieldsOfUndisturbed(r: Row, l1: L1, w: World, r': Row, l1': L1)
    requires Undisturbed(r, l1, w, r', l1') && r.status in {Created, Sent, Reorged}
    ensures UndisturbedFields(r, l1, w, r', l1')
  {
    if SuccessIn(l1, r.history) {
      var h :| h in r.history && l1.Succeeded(h) && r' == Final(r, true, l1.mined[h.nonce].block);
    }
  }

  class Client {
    const cfg: Config
    /** The stored row, the other writers of it, and L1. */
    var row: Row
    var owner: Writer
    var reorg: Writer
    var l1: L1
    /** The number of steps taken, and the steps themselves since the pass began. */
    var clock: nat
    ghost var path: Path

    ghost function Now(pc: Monitor): State
      reads this
    {
      State(row, pc, owner, reorg, l1)
    }

    constructor (cfg: Config, row: Row, owner: Writer, reorg: Writer, l1: L1)
      ensures this.cfg == cfg && Now(Idle) == State(row, Idle, owner, reorg, l1)
    {
      this.cfg, this.row, this.owner, this.reorg, this.l1, clock := cfg, row, owner, reorg, l1, 0;
      path := Path(cfg, [State(row, Idle, owner, reorg, l1)], []);
    }

    /** The steps so far are a run from `start` and have brought the machine here. */
    ghost predicate At(start: State, pc: Monitor)
      reads this
    {
      path.Valid() && path.cfg == cfg && path.First() == start && path.Last() == Now(pc)
    }

    /** One event elsewhere, if it can happen. */
    method Other(e: Event, ghost start: State, ghost pc: Monitor)
      requires At(start, pc)
      modifies this
      ensures At(start, pc)
    {
      if IsOther(e) {
        var next := Next(cfg, State(row, Idle, owner, reorg, l1), e);
        if next.Some? {
          OthersLeaveMonitor(cfg, Now(Idle), pc, e);
          path := GoTo(path, e, next.value.(monitor := pc));
          row, owner, reorg, l1 := next.value.row, next.value.owner, next.value.reorg, next.value.l1;
        }
      }
    }

    /** What happens elsewhere before the pass goes on. */
    method Meanwhile(w: World, ghost start: State, ghost pc: Monitor)
      requires At(start, pc)
      modifies this
      ensures At(start, pc)
      ensures w.Quiet() ==> row == old(row) && l1 == old(l1)
    {
      var es := w.others(clock);
      clock := clock + 1;
      for k := 0 to |es|
        invariant At(start, pc)
        invariant w.Quiet() ==> row == old(row) && l1 == old(l1)
      {
        Other(es[k], start, pc);
      }
    }

    /** `storage.Update`. */
    method Update(mTx: Row, write: Write, w: World, ghost start: State, ghost pc: Monitor) returns (ok: bool)
      requires At(start, pc) && AfterStore(pc).Some? && pc.m == mTx && write.Possible()
      modifies this
      ensures ok == write.acked && At(start, if ok then AfterStore(pc).value else Idle)
      ensures w.Quiet() ==> (ok ==> row == mTx) && l1 == old(l1)
    {
      path := Go(path, Store(write.applied, write.acked));
      if write.applied {
        row := mTx;
      }
      ok := write.acked;
      Meanwhile(w, start, if ok then AfterStore(pc).value else Idle);
    }

    /** The pass ends here. */
    method GiveUp(w: World, ghost start: State, ghost pc: Monitor)
      requires At(start, pc)
      modifies this
      ensures At(start, Idle)
      ensures w.Quiet() ==> row == old(row) && l1 == old(l1)
    {
      path := Go(path, Return);
      Meanwhile(w, start, Idle);
    }

    /** One turn of the scan; a lookup that fails is skipped. */
    method Lookup(mTx: Row, tx: Tx, ghost todo: set<Tx>, hasFailed: bool, allMined: bool, w: World, ghost start: State)
      returns (confirmed: bool, block: nat, hasFailed': bool, allMined': bool)
      requires At(start, Scanning(mTx, todo, hasFailed, allMined)) && tx in todo && w.Possible(cfg)
      modifies this
      ensures At(start, if confirmed then Deciding(mTx, true, block)
                        else Scanning(mTx, todo - {tx}, hasFailed', allMined'))
      ensures w.Quiet() ==> row == old(row) && l1 == old(l1)
      ensures tx in w.failedLookups ==> !confirmed && hasFailed' == hasFailed && allMined' == allMined
      ensures tx !in w.failedLookups ==>
        && (confirmed <==> old(l1).Succeeded(tx))
        && (confirmed ==> block == old(l1).mined[tx.nonce].block)
        && hasFailed' == (hasFailed || old(l1).MinedFailed(tx))
        && allMined' == (allMined && old(l1).Mined(tx))
    {
      confirmed, block, hasFailed', allMined' := false, 0, hasFailed, allMined;
      if tx in w.failedLookups {
        path := Go(path, CheckError(tx));
      } else {
        path := Go(path, CheckReceipt(tx));
        if !l1.Mined(tx) {
          allMined' := false;
        } else if l1.mined[tx.nonce].ok {
          confirmed, block := true, l1.mined[tx.nonce].block;
        } else {
          hasFailed' := true;
        }
      }
      Meanwhile(w, start, if confirmed then Deciding(mTx, true, block)
                          else Scanning(mTx, todo - {tx}, hasFailed', allMined'));
    }

    /** The scan over the history, in whatever order the map is visited. */
    method Scan(mTx: Row, w: World, ghost start: State) returns (confirmed: bool, block: nat, review: bool)
      requires At(start, Scanning(mTx, mTx.history, false, true)) && w.Possible(cfg)
      modifies this
      ensures At(start, if confirmed then Deciding(mTx, true, block)
                        else if review then ReviewNonce(mTx) else Unconfirmed(mTx))
      ensures w.Quiet() ==> row == old(row) && l1 == old(l1)
      ensures w.Quiet() ==> ScanShows(l1, mTx.history - w.failedLookups, confirmed, block, review)
    {
      var hasFailedReceipts, allHistoryTxsWereMined := false, true;
      confirmed, block, review := false, 0, false;
      var todo := mTx.history;
      ghost var looked := mTx.history - w.failedLookups;
      while todo != {}
        invariant At(start, Scanning(mTx, todo, hasFailedReceipts, allHistoryTxsWereMined))
        invariant todo <= mTx.history
        invariant w.Quiet() ==> row == old(row) && l1 == old(l1)
        invariant w.Quiet() ==> ScanSoFar(l1, looked - todo, hasFailedReceipts, allHistoryTxsWereMined)
      {
        var tx :| tx in todo;
        LookedUp(l1, looked, todo, tx);
        confirmed, block, hasFailedReceipts, allHistoryTxsWereMined :=
          Lookup(mTx, tx, todo, hasFailedReceipts, allHistoryTxsWereMined, w, start);
        if confirmed {
          return true, block, false;
        }
        todo := todo - {tx};
      }
      assert looked - todo == looked;
      review := hasFailedReceipts && allHistoryTxsWereMined;
      path := Go(path, EndScan);
      Meanwhile(w, start, if review then ReviewNonce(mTx) else Unconfirmed(mTx));
    }

    /** Nonce review, up to the row as it goes on; `None` when the pass ends. */
    method Review(mTx: Row, w: World, ghost start: State) returns (next: Option<Row>)
      requires At(start, ReviewNonce(mTx)) && w.Possible(cfg)
      modifies this
      ensures At(start, if next.Some? then Unconfirmed(next.value) else Idle)
      ensures next.Some? <==> !w.nonceFails && w.nonceWrite.acked
      ensures next.Some? ==> next.value == mTx.(nonce := Max(mTx.nonce, |old(l1).mined|))
      ensures w.Quiet() ==> (next.Some? ==> row == next.value) && l1 == old(l1)
    {
      if w.nonceFails {
        GiveUp(w, start, ReviewNonce(mTx));
        return None;
      }
      var nonce, reviewed := |l1.mined|, mTx;
      if nonce > mTx.nonce {
        reviewed := mTx.(nonce := nonce);
      }
      path := Go(path, ReadNonce);
      Meanwhile(w, start, StoreNonce(reviewed));
      var ok := Update(reviewed, w.nonceWrite, w, start, StoreNonce(reviewed));
      return if ok then Some(reviewed) else None;
    }

    /** Fee review of a row that was sent before; `None` when the pass ends. */
    method ReviewFee(mTx: Row, w: World, ghost start: State) returns (next: Option<Row>)
      requires At(start, Unconfirmed(mTx)) && w.Possible(cfg) && mTx.status in {Created, Sent, Reorged}
      modifies this
      ensures At(start, if next.Some? then Building(next.value) else Idle)
      ensures next.Some? <==> mTx.status == Created || (mTx.status == Sent && !w.feesFail && w.reviewWrite.acked)
      ensures next.Some? ==> next.value == Repriced(mTx, w)
      ensures w.Quiet() && old(row) == mTx ==>
        (next.Some? ==> row == next.value) && (mTx.status == Reorged ==> row == mTx)
      ensures w.Quiet() ==> l1 == old(l1)
    {
      if mTx.status == Reorged || (mTx.status == Sent && w.feesFail) {
        GiveUp(w, start, Unconfirmed(mTx));
        return None;
      }
      if mTx.status == Created {
        path := Go(path, SkipReview);
        Meanwhile(w, start, Building(mTx));
        return Some(mTx);
      }
      var reviewed := mTx;
      if w.gas > reviewed.gas {
        reviewed := reviewed.(gas := w.gas);
      }
      if w.gasPrice > reviewed.gasPrice {
        reviewed := reviewed.(gasPrice := w.gasPrice);
      }
      path := Go(path, ReviewFees(w.gas, w.gasPrice));
      Meanwhile(w, start, StoreReview(reviewed));
      var ok := Update(reviewed, w.reviewWrite, w, start, StoreReview(reviewed));
      return if ok then Some(reviewed) else None;
    }

    /** Sign and store in the history; the row and the tx to send, `None` when the pass ends. */
    method Record(mTx: Row, w: World, ghost start: State) returns (next: Option<Row>)
      requires At(start, Building(mTx)) && w.Possible(cfg)
      modifies this
      ensures At(start, if next.Some? then AtNetwork(next.value, mTx.BuildTx()) else Idle)
      ensures next.Some? <==> !w.signFails && (mTx.BuildTx() in mTx.history || w.historyWrite.acked)
      ensures next.Some? ==> next.value == mTx.(history := mTx.history + {mTx.BuildTx()})
      ensures w.Quiet() && old(row) == mTx ==> (next.Some? ==> row == next.value)
      ensures w.Quiet() ==> l1 == old(l1)
    {
      if w.signFails {
        GiveUp(w, start, Building(mTx));
        return None;
      }
      var tx := mTx.BuildTx();
      path := Go(path, Build);
      if tx in mTx.history {
        assert mTx.history + {tx} == mTx.history;
        Meanwhile(w, start, AtNetwork(mTx, tx));
        return Some(mTx);
      }
      var m := mTx.(history := mTx.history + {tx});
      Meanwhile(w, start, StoreHistory(m, tx));
      var ok := Update(m, w.historyWrite, w, start, StoreHistory(m, tx));
      return if ok then Some(m) else None;
    }

    /** Send unless the network has it; `None` when the pass ends. */
    method Send(m: Row, tx: Tx, w: World, ghost start: State) returns (next: Option<Row>)
      requires At(start, AtNetwork(m, tx)) && w.Possible(cfg) && m.status in {Created, Sent}
      modifies this
      ensures At(start, if next.Some? then Waiting(next.value, tx) else Idle)
      ensures next.Some? <==> w.found || (w.send.acked && (m.status == Created ==> w.sentWrite.acked))
      ensures next.Some? ==> next.value == if w.found then m else m.(status := Sent)
      ensures w.Quiet() && old(row) == m ==> (next.Some? ==> row == next.value)
      ensures w.Quiet() && next.Some? ==> l1 == if w.found then old(l1) else old(l1).(sent := old(l1).sent + {tx})
    {
      if w.found {
        path := Go(path, FoundInNetwork);
        Meanwhile(w, start, Waiting(m, tx));
        return Some(m);
      }
      path := Go(path, SendTx(w.send.applied, w.send.acked));
      if w.send.applied {
        l1 := l1.(sent := l1.sent + {tx});
      }
      if !w.send.acked {
        Meanwhile(w, start, Idle);
        return None;
      }
      if m.status == Sent {
        Meanwhile(w, start, Waiting(m, tx));
        return Some(m);
      }
      var sent := m.(status := Sent);
      Meanwhile(w, start, StoreSent(sent, tx));
      var ok := Update(sent, w.sentWrite, w, start, StoreSent(sent, tx));
      return if ok then Some(sent) else None;
    }

    /** Wait and fetch the receipt; `None` when the pass ends. */
    method Await(m: Row, tx: Tx, w: World, ghost start: State) returns (receipt: Option<(bool, nat)>)
      requires At(start, Waiting(m, tx))
      modifies this
      ensures At(start, if receipt.Some? then Deciding(m, receipt.value.0, receipt.value.1) else Idle)
      ensures receipt.Some? ==> w.waitEnds && old(l1).Succeeded(tx) && !w.receiptFails
      ensures w.Quiet() ==> row == old(row) && l1 == old(l1)
      ensures w.Quiet() ==> (receipt.Some? <==> w.waitEnds && l1.Succeeded(tx) && !w.receiptFails)
      ensures w.Quiet() && receipt.Some? ==> receipt.value == (true, l1.mined[tx.nonce].block)
    {
      if !w.waitEnds || !l1.Succeeded(tx) {
        GiveUp(w, start, Waiting(m, tx));
        return None;
      }
      path := Go(path, WaitMined);
      Meanwhile(w, start, Fetching(m, tx));
      if w.receiptFails || !l1.Mined(tx) {
        GiveUp(w, start, Fetching(m, tx));
        return None;
      }
      path := Go(path, FetchReceipt);
      receipt := Some((l1.mined[tx.nonce].ok, l1.mined[tx.nonce].block));
      Meanwhile(w, start, Deciding(m, receipt.value.0, receipt.value.1));
    }

    /** Reviews of a row not confirmed yet; `None` when the pass ends. */
    method Prepare(mTx: Row, review: bool, w: World, ghost start: State) returns (next: Option<Row>)
      requires At(start, if review then ReviewNonce(mTx) else Unconfirmed(mTx)) && w.Possible(cfg)
      requires mTx.status in {Created, Sent, Reorged}
      modifies this
      ensures At(start, if next.Some? then Building(next.value) else Idle)
      ensures next.Some? ==> next.value.status == mTx.status && mTx.status in {Created, Sent}
      ensures w.Smooth() && old(row) == mTx ==>
        && l1 == old(l1)
        && row == Repriced(if review then mTx.(nonce := Max(mTx.nonce, |l1.mined|)) else mTx, w)
        && next == if mTx.status == Reorged then None else Some(row)
    {
      var m := mTx;
      if review {
        var reviewed := Review(m, w, start);
        if reviewed.None? {
          return None;
        }
        m := reviewed.value;
      }
      next := ReviewFee(m, w, start);
    }

    /** Everything from building the tx to its receipt. */
    method Deliver(mTx: Row, w: World, ghost start: State) returns (m: Row, receipt: Option<(bool, nat)>)
      requires At(start, Building(mTx)) && w.Possible(cfg) && mTx.status in {Created, Sent}
      modifies this
      ensures At(start, if receipt.Some? then Deciding(m, receipt.value.0, receipt.value.1) else Idle)
      ensures w.Smooth() && old(row) == mTx ==>
        && row == Delivered(mTx, w) && l1 == Reached(mTx, old(l1), w)
        && (receipt.Some? <==> w.waitEnds && l1.Succeeded(mTx.BuildTx()))
        && (receipt.Some? ==> m == row && receipt.value == (true, l1.mined[mTx.nonce].block))
    {
      m := mTx;
      var recorded := Record(mTx, w, start);
      if recorded.None? {
        return m, None;
      }
      var sent := Send(recorded.value, mTx.BuildTx(), w, start);
      if sent.None? {
        return m, None;
      }
      m := sent.value;
      receipt := Await(m, mTx.BuildTx(), w, start);
    }

    /** Confirm or fail on the receipt found, unless the block is not synchronized yet or
        the failure is worth another cycle. */
    method Finish(mTx: Row, ok: bool, block: nat, w: World, ghost start: State)
      requires At(start, Deciding(mTx, ok, block)) && w.Possible(cfg)
      modifies this
      ensures At(start, Idle)
      ensures w.Smooth() ==> row == Final(mTx, ok, block) && l1 == old(l1)
    {
      if w.giveUp {
        GiveUp(w, start, Deciding(mTx, ok, block));
        return;
      }
      path := Go(path, Decide);
      var m := mTx.(status := if ok then Confirmed else Failed, blockNumber := Some(block));
      Meanwhile(w, start, StoreFinal(m));
      var _ := Update(m, w.finalWrite, w, start, StoreFinal(m));
    }

    method Pass(mTx: Row, w: World, ghost start: State)
      requires mTx.status in {Created, Sent, Reorged} && w.Possible(cfg)
      requires At(start, Scanning(mTx, mTx.history, false, true))
      modifies this
      ensures At(start, Idle)
      ensures w.Smooth() && old(row) == mTx ==> Undisturbed(old(row), old(l1), w, row, l1)
    {
      var confirmed, block, review := Scan(mTx, w, start);
      ScanMeans(l1, mTx, confirmed, block, review);
      if confirmed {
        Finish(mTx, true, block, w, start);
        return;
      }
      var prepared := Prepare(mTx, review, w, start);
      if prepared.None? {
        return;
      }
      var m, receipt := Deliver(prepared.value, w, start);
      if receipt.Some? {
        Finish(m, receipt.value.0, receipt.value.1, w, start);
      }
    }

    /** One pass of `monitorTx` over a row that is to be monitored: whatever fails and
        whatever happens elsewhere meanwhile, its effect on the stored row and on the
        network is that of a run of the state machine; and when nothing fails and nothing
        happens elsewhere it is exactly the one of `UndisturbedFields`. */
    method MonitorTx(w: World)
      requires row.status in {Created, Sent, Reorged} && w.Possible(cfg)
      modifies this
      ensures Run(cfg, old(Now(Idle)), path.events) == Some(Now(Idle))
      ensures w.Smooth() ==> UndisturbedFields(old(row), old(l1), w, row, l1)
    {
      ghost var start := Now(Idle);
      var mTx := row;
      path := Path(cfg, [start], []);
      path := Go(path, Load);
      Meanwhile(w, start, Scanning(mTx, mTx.history, false, true));
      Pass(mTx, w, start);
      PathIsRun(path);
      if w.Smooth() {
        FieldsOfUndisturbed(old(row), old(l1), w, row, l1);
      }
    }
  }
}
