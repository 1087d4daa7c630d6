/** The sequencer's queue of one sender: at most one tx that can be executed now and
    the txs that wait for their nonce or for balance. */
module AddrQueue {
  import opened Basics
  import opened Trackers

  // ------------------------------------------------------------- the abstract queue

  datatype Queue = Queue(nonce: nat, balance: int, ready: TxTracker?, waiting: map<nat, TxTracker>)
  {
    /** Every tx in the queue. */
    ghost function Held(): set<TxTracker> {
      waiting.Values + if ready == null then {} else {ready}
    }

    /** A ready tx is next and payable; a waiting tx sits under its own nonce, which is
        not in the past; no tracker is held twice. */
    ghost predicate Inv() {
      && (ready != null ==> ready.nonce == nonce && ready.cost <= balance)
      && (forall n :: n in waiting ==> waiting[n].nonce == n && nonce <= n)
      && (ready != null ==> ready !in waiting.Values)
    }

    /** A tx that could be executed now waits although nothing is ready. */
    ghost predicate Stalled() {
      ready == null && nonce in waiting && waiting[nonce].cost <= balance
    }
  }

  datatype Added = Added(newReady: TxTracker?, prevReady: TxTracker?, replaced: TxTracker?, drop: Option<DropReason>)

  function NoneIfSameHash(was: TxTracker?, tx: TxTracker): TxTracker? {
    if was != null && was.hash != tx.hash then was else null
  }

  function AfterAdd(q: Queue, tx: TxTracker): (Queue, Added) {
    if tx.nonce == q.nonce then
      if q.ready == null || q.ready.gasPrice <= tx.gasPrice then
        var replaced := NoneIfSameHash(q.ready, tx);
        if tx.cost <= q.balance then (q.(ready := tx), Added(tx, q.ready, replaced, None))
        else (q.(ready := null, waiting := q.waiting[tx.nonce := tx]), Added(null, q.ready, replaced, None))
      else (q, Added(null, null, null, Some(ErrDuplicatedNonce)))
    else if tx.nonce < q.nonce then (q, Added(null, null, null, Some(ErrIntrinsicInvalidNonce)))
    else
      var found := if tx.nonce in q.waiting then q.waiting[tx.nonce] else null;
      if found == null || found.gasPrice <= tx.gasPrice then
        (q.(waiting := q.waiting[tx.nonce := tx]), Added(null, null, NoneIfSameHash(found, tx), None))
      else (q, Added(null, null, null, Some(ErrDuplicatedNonce)))
  }

  /** The waiting txs whose nonce has been used up. */
  function Outdated(q: Queue, nonce: nat): map<nat, TxTracker> {
    map n | n in q.waiting && n < nonce :: q.waiting[n]
  }

  /** First half of the update: the new nonce and balance, without outdated txs. */
  function Refreshed(q: Queue, nonce: Option<nat>, balance: Option<int>): Queue {
    var b := if balance.Some? then balance.value else q.balance;
    if nonce.None? || nonce.value == q.nonce then q.(balance := b)
    else q.(nonce := nonce.value, balance := b, waiting := q.waiting - Outdated(q, nonce.value).Keys)
  }

  /** Second half: demote a ready tx that no longer is, promote a waiting one, and keep
      the demoted one only if its nonce is still to come. */
  function Settled(q: Queue): (Queue, TxTracker?) {
    var demote := q.ready != null && (q.ready.nonce != q.nonce || q.balance < q.ready.cost);
    var prev := if demote then q.ready else null;
    var idle := if demote then q.(ready := null) else q;
    var next :=
      if idle.ready == null && idle.nonce in idle.waiting && idle.waiting[idle.nonce].cost <= idle.balance
      then idle.(ready := idle.waiting[idle.nonce], waiting := idle.waiting - {idle.nonce}) else idle;
    if prev != null && prev.nonce > next.nonce
    then (next.(waiting := next.waiting[prev.nonce := prev]), prev) else (next, prev)
  }

  function AfterUpdate(q: Queue, nonce: Option<nat>, balance: Option<int>): (Queue, TxTracker?) {
    Settled(Refreshed(q, nonce, balance))
  }

  /** The trackers an update returns as to be deleted. */
  ghost function ToDelete(q: Queue, nonce: Option<nat>): set<TxTracker> {
    if nonce.None? then {} else Outdated(q, nonce.value).Values
  }

  function AfterDelete(q: Queue, hash: string): Queue {
    if q.ready != null && q.ready.hash == hash then q.(ready := null)
    else q.(waiting := map n | n in q.waiting && q.waiting[n].hash != hash :: q.waiting[n])
  }

  predicate Expired(tx: TxTracker, maxTime: int, now: int) {
    tx.receivedAt + maxTime < now
  }

  function AfterExpire(q: Queue, maxTime: int, now: int): Queue {
    q.(waiting := map n | n in q.waiting && !Expired(q.waiting[n], maxTime, now) :: q.waiting[n],
       ready := if q.ready != null && Expired(q.ready, maxTime, now) then null else q.ready)
  }

  // ------------------------------------------------------------ whole-run invariant

  datatype Op =
    | OpAdd(tx: TxTracker)
    | OpUpdate(nonce: Option<nat>, balance: Option<int>)
    | OpDelete(hash: string)
    | OpExpire(maxTime: int, now: int)

  function Apply(q: Queue, op: Op): Queue {
    match op
    case OpAdd(tx) => AfterAdd(q, tx).0
    case OpUpdate(nonce, balance) => AfterUpdate(q, nonce, balance).0
    case OpDelete(hash) => AfterDelete(q, hash)
    case OpExpire(maxTime, now) => AfterExpire(q, maxTime, now)
  }

  function Run(q: Queue, ops: seq<Op>): Queue
    decreases |ops|
  {
    if ops == [] then q else Run(Apply(q, ops[0]), ops[1..])
  }

  /** Every tracker is new to the queue when it is added. */
  ghost predicate FreshAdds(q: Queue, ops: seq<Op>)
    decreases |ops|
  {
    ops == [] ||
    ((ops[0].OpAdd? ==> ops[0].tx !in q.Held()) && FreshAdds(Apply(q, ops[0]), ops[1..]))
  }

  lemma RefreshedKeepsKeys(q: Queue, nonce: Option<nat>, balance: Option<int>)
    requires q.Inv()
    ensures var r := Refreshed(q, nonce, balance);
      && (forall n :: n in r.waiting ==> n in q.waiting && r.waiting[n] == q.waiting[n] && r.nonce <= n)
      && (forall n :: n in q.waiting && r.nonce <= n ==> n in r.waiting)
  {
  }

  lemma UpdateKeepsInv(q: Queue, nonce: Option<nat>, balance: Option<int>)
    requires q.Inv()
    ensures AfterUpdate(q, nonce, balance).0.Inv()
  {
    RefreshedKeepsKeys(q, nonce, balance);
  }

  lemma ApplyKeepsInv(q: Queue, op: Op)
    requires q.Inv() && (op.OpAdd? ==> op.tx !in q.Held())
    ensures Apply(q, op).Inv()
  {
    if op.OpUpdate? { UpdateKeepsInv(q, op.nonce, op.balance); }
  }

  /** Over every sequence of operations, in any order, from a queue in order, such as the
      empty one. */
  lemma {:induction false} RunKeepsInv(q: Queue, ops: seq<Op>)
    requires q.Inv() && FreshAdds(q, ops)
    ensures Run(q, ops).Inv()
    decreases |ops|
  {
    if ops != [] {
      ApplyKeepsInv(q, ops[0]);
      RunKeepsInv(Apply(q, ops[0]), ops[1..]);
    }
  }

  /** Right after an update the queue is not stalled, wherever it came from. */
  lemma UpdateUnstalls(q: Queue, nonce: Option<nat>, balance: Option<int>)
    requires q.Inv()
    ensures !AfterUpdate(q, nonce, balance).0.Stalled()
  {
    RefreshedKeepsKeys(q, nonce, balance);
  }

  /** What an update comes to, in terms of the queue before it. With the nonce `n` and the
      balance `c` from now on: the ready tx stays ready if it still fits, and is returned as
      the previous one if not; then the waiting tx of nonce `n` takes its place if it can be
      paid for. Waiting txs stay from nonce `n` on, and a demoted tx joins them only if its
      nonce is still to come. */
  lemma UpdateDecides(q: Queue, nonce: Option<nat>, balance: Option<int>)
    requires q.Inv()
    ensures var n := if nonce.Some? then nonce.value else q.nonce;
      var c := if balance.Some? then balance.value else q.balance;
      var (q', prev) := AfterUpdate(q, nonce, balance);
      var stays := q.ready != null && q.ready.nonce == n && q.ready.cost <= c;
      var back := q.ready != null && !stays && n < q.ready.nonce;
      var next := if n in q.waiting && q.waiting[n].cost <= c then q.waiting[n] else null;
      && q'.nonce == n && q'.balance == c
      && prev == (if stays then null else q.ready)
      && q'.ready == (if stays then q.ready else next)
      && (forall k :: k in q'.waiting <==>
            (back && k == q.ready.nonce) || (k in q.waiting && n <= k && q.waiting[k] != q'.ready))
      && (forall k :: k in q'.waiting ==>
            q'.waiting[k] == if back && k == q.ready.nonce then q.ready else q.waiting[k])
      && (forall tx :: tx in ToDelete(q, nonce) <==>
            nonce.Some? && tx.nonce < nonce.value && tx.nonce in q.waiting && q.waiting[tx.nonce] == tx)
  {
    RefreshedKeepsKeys(q, nonce, balance);
    if nonce.Some? {
      forall tx: TxTracker | tx.nonce in q.waiting && q.waiting[tx.nonce] == tx && tx.nonce < nonce.value
        ensures tx in ToDelete(q, nonce)
      {
        assert Outdated(q, nonce.value)[tx.nonce] == tx;
      }
    }
  }

  // ------------------------------------------------------------------ conservation

  /** An update moves the nonce back while an unpayable tx waits beside the ready one. */
  predicate Clobbers(q: Queue, nonce: Option<nat>) {
    nonce.Some? && nonce.value < q.nonce && q.ready != null && q.nonce in q.waiting
  }

  /** An update never invents a tx, deletes only outdated ones and never keeps what it
      deletes; the demoted tx leaves the queue unless the nonce moved back. */
  lemma UpdateAddsNothing(q: Queue, nonce: Option<nat>, balance: Option<int>)
    requires q.Inv()
    ensures var (q', prev) := AfterUpdate(q, nonce, balance);
      && q'.Held() <= q.Held()
      && ToDelete(q, nonce) <= q.Held()
      && q'.Held() !! ToDelete(q, nonce)
      && (prev != null ==> prev == q.ready && (prev in q'.Held() <==> q'.nonce < q.nonce))
  {
    RefreshedKeepsKeys(q, nonce, balance);
    var (q', prev) := AfterUpdate(q, nonce, balance);
    forall tx | tx in q'.Held() ensures tx in q.Held() && tx !in ToDelete(q, nonce) {
      if tx != q.ready {
        assert tx.nonce in q.waiting && q.waiting[tx.nonce] == tx;
      }
    }
    if prev != null && q'.nonce < q.nonce {
      assert q'.waiting[prev.nonce] == prev;
    }
  }

  lemma ClobberLoses(q: Queue, nonce: Option<nat>, balance: Option<int>)
    requires q.Inv() && Clobbers(q, nonce)
    ensures var (q', prev) := AfterUpdate(q, nonce, balance);
      var lost := q.waiting[q.nonce];
      lost in q.Held() && lost !in q'.Held() && lost !in ToDelete(q, nonce) && lost != prev
  {
    RefreshedKeepsKeys(q, nonce, balance);
    var (q', prev) := AfterUpdate(q, nonce, balance);
    assert q'.waiting[q.nonce] == q.ready;
  }

  /** Every tx queued before an update is afterwards queued, deleted or returned as the
      previous ready tx, if and only if the update does not clobber. */
  lemma UpdateConserves(q: Queue, nonce: Option<nat>, balance: Option<int>)
    requires q.Inv()
    ensures var (q', prev) := AfterUpdate(q, nonce, balance);
      q.Held() <= q'.Held() + ToDelete(q, nonce) + (if prev == null then {} else {prev})
      <==> !Clobbers(q, nonce)
  {
    RefreshedKeepsKeys(q, nonce, balance);
    var (q', prev) := AfterUpdate(q, nonce, balance);
    var r := Refreshed(q, nonce, balance);
    if Clobbers(q, nonce) {
      ClobberLoses(q, nonce, balance);
    } else {
      forall tx | tx in q.Held() && tx !in ToDelete(q, nonce) && tx != prev
        ensures tx in q'.Held()
      {
        if tx == q.ready {
        } else {
          assert tx.nonce in q.waiting && q.waiting[tx.nonce] == tx;
          assert tx.nonce in r.waiting;
          assert q'.ready == tx || (tx.nonce in q'.waiting && q'.waiting[tx.nonce] == tx);
        }
      }
    }
  }

  /** Adding an unpayable tx on top of another waiting tx with the current nonce. */
  predicate Overwrites(q: Queue, tx: TxTracker) {
    && tx.nonce == q.nonce && q.balance < tx.cost
    && (q.ready == null || q.ready.gasPrice <= tx.gasPrice)
    && q.nonce in q.waiting && q.waiting[q.nonce].hash != tx.hash
  }

  /** After adding, every tx queued before is still queued, is returned, or was a copy
      of the added tx, if and only if the add does not silently overwrite. */
  lemma AddConserves(q: Queue, tx: TxTracker)
    requires q.Inv() && tx !in q.Held()
    ensures var (q', r) := AfterAdd(q, tx);
      (forall o :: o in q.Held() ==> o in q'.Held() || o == r.prevReady || o == r.replaced || o.hash == tx.hash)
      <==> !Overwrites(q, tx)
  {
    var (q', r) := AfterAdd(q, tx);
    if Overwrites(q, tx) {
      var lost := q.waiting[q.nonce];
      assert lost in q.Held() && lost !in q'.Held();
    } else {
      forall o | o in q.Held()
        ensures o in q'.Held() || o == r.prevReady || o == r.replaced || o.hash == tx.hash
      {
        if o != q.ready {
          assert o.nonce in q.waiting && q.waiting[o.nonce] == o;
          assert o.nonce != tx.nonce && q'.waiting != q.waiting ==> q'.waiting[o.nonce] == o;
        }
      }
    }
  }

  const FRESH := Queue(5, 10, null, map[])

  lemma TwoOps(q: Queue, first: Op, second: Op)
    ensures Run(q, [first, second]) == Apply(Apply(q, first), second)
    ensures FreshAdds(q, [first, second]) <==>
      (first.OpAdd? ==> first.tx !in q.Held()) && (second.OpAdd? ==> second.tx !in Apply(q, first).Held())
  {
    var ops, r := [first, second], Apply(q, first);
    assert ops[1..] == [second] && [second][1..] == [];
    assert Run(q, ops) == Run(r, [second]) == Apply(r, second);
    assert FreshAdds(r, [second]) <==> (second.OpAdd? ==> second.tx !in r.Held());
  }

  /** Adds lead to a clobber: a cannot be paid for and waits, b is ready beside it, and
      when the nonce moves back a is gone without a trace. */
  lemma ClobberReached(a: TxTracker, b: TxTracker)
    requires a.nonce == b.nonce == 5 && a.cost == 20 && b.cost == 5
    ensures var ops := [OpAdd(a), OpAdd(b)];
      var q := Run(FRESH, ops);
      var (q', prev) := AfterUpdate(q, Some(4), None);
      && FreshAdds(FRESH, ops) && Clobbers(q, Some(4))
      && a in q.Held() && a !in q'.Held() && a !in ToDelete(q, Some(4)) && a != prev
  {
    TwoOps(FRESH, OpAdd(a), OpAdd(b));
    var q := Apply(Apply(FRESH, OpAdd(a)), OpAdd(b));
    assert q == Queue(5, 10, b, map[5 := a]);
    ClobberLoses(q, Some(4), None);
  }

  /** Adds lead to an overwrite: neither a nor b can be paid for, and a is gone. */
  lemma OverwriteReached(a: TxTracker, b: TxTracker)
    requires a.nonce == b.nonce == 5 && a.cost == b.cost == 20 && a.hash != b.hash
    ensures var q := Run(FRESH, [OpAdd(a)]);
      var (q', r) := AfterAdd(q, b);
      && FreshAdds(FRESH, [OpAdd(a)]) && Overwrites(q, b)
      && a in q.Held() && a !in q'.Held() && r == Added(null, null, null, None)
  {
    assert [OpAdd(a)][1..] == [];
    var q := AfterAdd(FRESH, a).0;
    assert q == Queue(5, 10, null, map[5 := a]) && q.waiting[5] == a;
    assert AfterAdd(q, b).0 == Queue(5, 10, null, map[5 := b]);
  }

  /** Which tx an address keeps for a nonce: an add is refused exactly when its nonce
      is in the past or a better-paying tx already competes for it; a refused add
      changes nothing, an accepted one is in the queue. The tx reported as replaced is a
      different one of the same nonce that paid no more and is gone. */
  lemma AddPrefersPrice(q: Queue, tx: TxTracker)
    requires q.Inv() && tx !in q.Held()
    ensures var (q', r) := AfterAdd(q, tx);
      && (r.drop == Some(ErrIntrinsicInvalidNonce) <==> tx.nonce < q.nonce)
      && (r.drop == Some(ErrDuplicatedNonce) <==>
            || (tx.nonce == q.nonce && q.ready != null && tx.gasPrice < q.ready.gasPrice)
            || (tx.nonce > q.nonce && tx.nonce in q.waiting && tx.gasPrice < q.waiting[tx.nonce].gasPrice))
      && (r.drop.Some? ==> q' == q)
      && (r.drop.None? ==> tx in q'.Held() && (tx == r.newReady <==> q'.ready == tx))
      && r.prevReady == (if r.drop.None? && tx.nonce == q.nonce then q.ready else null)
      && (r.replaced != null ==>
            && r.replaced in q.Held() && r.replaced !in q'.Held() && r.replaced.nonce == tx.nonce
            && r.replaced.hash != tx.hash && r.replaced.gasPrice <= tx.gasPrice)
  {
    var (q', r) := AfterAdd(q, tx);
    if r.drop.None? && q'.ready != tx {
      assert q'.waiting[tx.nonce] == tx;
    }
  }

  /** What an add that is not refused comes to, in terms of the queue before it. The tx is
      ready exactly when its turn has come and it can be paid for, and waits under its nonce
      otherwise; the tx it competes with is displaced, and reported as replaced unless it is
      the same tx again. Nothing else changes. */
  lemma AddDecides(q: Queue, tx: TxTracker)
    requires q.Inv() && tx !in q.Held()
    ensures var (q', r) := AfterAdd(q, tx);
      var now := r.drop.None? && tx.nonce == q.nonce;
      var rival := if tx.nonce == q.nonce then q.ready else if tx.nonce in q.waiting then q.waiting[tx.nonce] else null;
      && q'.nonce == q.nonce && q'.balance == q.balance
      && (r.newReady == tx && q'.ready == tx <==> now && tx.cost <= q.balance)
      && (r.newReady == null || r.newReady == tx)
      && q'.ready == (if !now then q.ready else if tx.cost <= q.balance then tx else null)
      && (r.drop.None? && q'.ready != tx ==> tx.nonce in q'.waiting && q'.waiting[tx.nonce] == tx)
      && (r.drop.Some? || q'.ready == tx ==> q'.waiting == q.waiting)
      && q'.waiting - {tx.nonce} == q.waiting - {tx.nonce}
      && r.replaced == (if r.drop.None? && rival != null && rival.hash != tx.hash then rival else null)
  {
  }

  /** Expiry removes exactly the txs received too long ago. Deletion takes the ready tx if it
      has the hash, and only if not all waiting ones that have it. */
  lemma ExpireAndDelete(q: Queue, maxTime: int, now: int, hash: string)
    requires q.Inv()
    ensures forall tx :: tx in AfterExpire(q, maxTime, now).Held() <==> tx in q.Held() && tx.receivedAt + maxTime >= now
    ensures var d := AfterDelete(q, hash);
      if q.ready != null && q.ready.hash == hash then d == q.(ready := null) && d.Held() == q.Held() - {q.ready}
      else d.ready == q.ready && forall tx :: tx in d.Held() <==> tx in q.Held() && tx.hash != hash
  {
    var e, d := AfterExpire(q, maxTime, now), AfterDelete(q, hash);
    forall tx | tx in q.Held() && tx != q.ready
      ensures !Expired(tx, maxTime, now) ==> tx in e.Held()
      ensures tx.hash != hash ==> tx in d.Held()
    {
      assert q.waiting[tx.nonce] == tx;
      if !Expired(tx, maxTime, now) { assert e.waiting[tx.nonce] == tx; }
      if tx.hash != hash { assert d.waiting[tx.nonce] == tx; }
    }
  }

  ghost function NoncesOf(txs: seq<TxTracker>): set<nat> {
    set tx | tx in txs :: tx.nonce
  }

  /** A list of exactly the outdated trackers names exactly the outdated nonces. */
  lemma AllOutdated(q: Queue, nonce: nat, txs: seq<TxTracker>)
    requires q.Inv()
    requires forall tx :: tx in txs ==> tx.nonce in q.waiting && tx.nonce < nonce && q.waiting[tx.nonce] == tx
    requires forall n :: n in q.waiting && n < nonce ==> q.waiting[n] in txs
    ensures NoncesOf(txs) == Outdated(q, nonce).Keys
    ensures (set tx | tx in txs) == Outdated(q, nonce).Values
  {
    forall n | n in Outdated(q, nonce).Keys ensures n in NoncesOf(txs) {
      assert q.waiting[n] in txs;
    }
    forall tx | tx in txs ensures tx in Outdated(q, nonce).Values {
      assert Outdated(q, nonce)[tx.nonce] == tx;
    }
  }

  // -------------------------------------------------------------- the source's class

  class AddrQueueState {
    var currentNonce: nat
    var currentBalance: int
    var readyTx: TxTracker?
    var notReadyTxs: map<nat, TxTracker>

    ghost function View(): Queue
      reads this
    {
      Queue(currentNonce, currentBalance, readyTx, notReadyTxs)
    }

    constructor (nonce: nat, balance: int)
      ensures View() == Queue(nonce, balance, null, map[]) && View().Inv()
    {
      currentNonce, currentBalance, readyTx, notReadyTxs := nonce, balance, null, map[];
    }

    method AddTx(tx: TxTracker)
      returns (newReadyTx: TxTracker?, prevReadyTx: TxTracker?, replacedTx: TxTracker?, dropReason: Option<DropReason>)
      modifies this
      ensures View() == AfterAdd(old(View()), tx).0
      ensures old(View().Inv() && tx !in View().Held()) ==> View().Inv()
      ensures Added(newReadyTx, prevReadyTx, replacedTx, dropReason) == AfterAdd(old(View()), tx).1
    {
      if View().Inv() && tx !in View().Held() {
        ApplyKeepsInv(View(), OpAdd(tx));
      }
      var repTx: TxTracker? := null;
      if currentNonce == tx.nonce {
        if readyTx == null || tx.gasPrice >= readyTx.gasPrice {
          var oldReadyTx := readyTx;
          if oldReadyTx != null && oldReadyTx.hash != tx.hash {
            repTx := oldReadyTx;
          }
          if currentBalance >= tx.cost {
            readyTx := tx;
            return tx, oldReadyTx, repTx, None;
          } else {
            readyTx := null;
            notReadyTxs := notReadyTxs[tx.nonce := tx];
            return null, oldReadyTx, repTx, None;
          }
        } else {
          return null, null, null, Some(ErrDuplicatedNonce);
        }
      } else if currentNonce > tx.nonce {
        return null, null, null, Some(ErrIntrinsicInvalidNonce);
      }
      var found := tx.nonce in notReadyTxs;
      if !found || tx.gasPrice >= notReadyTxs[tx.nonce].gasPrice {
        var nrTx: TxTracker? := if found then notReadyTxs[tx.nonce] else null;
        notReadyTxs := notReadyTxs[tx.nonce := tx];
        if nrTx != null && nrTx.hash != tx.hash {
          repTx := nrTx;
        }
        return null, null, repTx, None;
      } else {
        return null, null, null, Some(ErrDuplicatedNonce);
      }
    }

    /** Collects the outdated txs and marks them failed, in whatever order the map is visited. */
    method MarkOutdated(nonce: nat) returns (txsToDelete: seq<TxTracker>)
      requires forall n :: n in notReadyTxs ==> notReadyTxs[n].nonce == n
      modifies notReadyTxs.Values`failedReason
      ensures forall i :: 0 <= i < |txsToDelete| ==>
        var n := txsToDelete[i].nonce;
        && n in notReadyTxs && n < nonce && notReadyTxs[n] == txsToDelete[i]
        && txsToDelete[i].failedReason == Some(ErrIntrinsicInvalidNonce)
      ensures forall n :: n in notReadyTxs && n < nonce ==> notReadyTxs[n] in txsToDelete
      ensures forall i, j :: 0 <= i < j < |txsToDelete| ==> txsToDelete[i] != txsToDelete[j]
      ensures forall n :: n in notReadyTxs && n >= nonce ==>
        notReadyTxs[n].failedReason == old(notReadyTxs[n].failedReason)
    {
      txsToDelete := [];
      var todo := notReadyTxs.Keys;
      while todo != {}
        invariant todo <= notReadyTxs.Keys
        invariant forall i :: 0 <= i < |txsToDelete| ==>
          var n := txsToDelete[i].nonce;
          && n in notReadyTxs && n !in todo && n < nonce && notReadyTxs[n] == txsToDelete[i]
          && txsToDelete[i].failedReason == Some(ErrIntrinsicInvalidNonce)
        invariant forall n :: n in notReadyTxs && n !in todo && n < nonce ==> notReadyTxs[n] in txsToDelete
        invariant forall i, j :: 0 <= i < j < |txsToDelete| ==> txsToDelete[i] != txsToDelete[j]
        invariant forall n :: n in notReadyTxs && n >= nonce ==>
          notReadyTxs[n].failedReason == old(notReadyTxs[n].failedReason)
      {
        var n :| n in todo;
        todo := todo - {n};
        var txTracker := notReadyTxs[n];
        if txTracker.nonce < nonce {
          txTracker.failedReason := Some(ErrIntrinsicInvalidNonce);
          txsToDelete := txsToDelete + [txTracker];
        }
      }
    }

    method RemoveNonces(txs: seq<TxTracker>)
      modifies this`notReadyTxs
      ensures notReadyTxs == old(notReadyTxs) - NoncesOf(txs)
    {
      var i := 0;
      while i < |txs|
        invariant 0 <= i <= |txs|
        invariant notReadyTxs == old(notReadyTxs) - NoncesOf(txs[..i])
      {
        assert NoncesOf(txs[..i + 1]) == NoncesOf(txs[..i]) + {txs[i].nonce} by {
          assert txs[..i + 1] == txs[..i] + [txs[i]];
        }
        notReadyTxs := notReadyTxs - {txs[i].nonce};
        i := i + 1;
      }
      assert txs[..|txs|] == txs;
    }

    method Refresh(nonce: Option<nat>, balance: Option<int>) returns (txsToDelete: seq<TxTracker>)
      requires View().Inv()
      modifies this, notReadyTxs.Values`failedReason
      ensures View() == Refreshed(old(View()), nonce, balance)
      ensures (set tx | tx in txsToDelete) == ToDelete(old(View()), nonce)
      ensures forall i, j :: 0 <= i < j < |txsToDelete| ==> txsToDelete[i] != txsToDelete[j]
      ensures forall tx :: tx in txsToDelete ==> tx.failedReason == Some(ErrIntrinsicInvalidNonce)
      ensures forall tx :: tx in old(notReadyTxs).Values && tx !in txsToDelete ==>
        tx.failedReason == old(tx.failedReason)
    {
      ghost var was := View();
      txsToDelete := [];
      if balance.Some? {
        currentBalance := balance.value;
      }
      if nonce.Some? && currentNonce != nonce.value {
        txsToDelete := MarkOutdated(nonce.value);
        AllOutdated(was, nonce.value, txsToDelete);
        currentNonce := nonce.value;
        RemoveNonces(txsToDelete);
      } else if nonce.Some? {
        AllOutdated(was, nonce.value, []);
      }
    }

    method Settle() returns (oldReadyTx: TxTracker?)
      modifies this
      ensures View() == Settled(old(View())).0 && oldReadyTx == Settled(old(View())).1
    {
      oldReadyTx := null;
      if readyTx != null {
        if readyTx.nonce != currentNonce || currentBalance < readyTx.cost {
          oldReadyTx := readyTx;
          readyTx := null;
        }
      }
      if readyTx == null {
        if currentNonce in notReadyTxs {
          var nrTx := notReadyTxs[currentNonce];
          if currentBalance >= nrTx.cost {
            readyTx := nrTx;
            notReadyTxs := notReadyTxs - {currentNonce};
          }
        }
      }
      if oldReadyTx != null && oldReadyTx.nonce > currentNonce {
        notReadyTxs := notReadyTxs[oldReadyTx.nonce := oldReadyTx];
      }
    }

    method UpdateCurrentNonceBalance(nonce: Option<nat>, balance: Option<int>)
      returns (newReadyTx: TxTracker?, prevReadyTx: TxTracker?, toDelete: seq<TxTracker>)
      requires View().Inv()
      modifies this, notReadyTxs.Values`failedReason
      ensures View() == AfterUpdate(old(View()), nonce, balance).0 && View().Inv()
      ensures newReadyTx == readyTx && prevReadyTx == AfterUpdate(old(View()), nonce, balance).1
      ensures (set tx | tx in toDelete) == ToDelete(old(View()), nonce)
      ensures forall i, j :: 0 <= i < j < |toDelete| ==> toDelete[i] != toDelete[j]
      ensures forall tx :: tx in toDelete ==> tx.failedReason == Some(ErrIntrinsicInvalidNonce)
      ensures forall tx :: tx in old(notReadyTxs).Values && tx !in toDelete ==> tx.failedReason == old(tx.failedReason)
    {
      ghost var was := View();
      UpdateKeepsInv(was, nonce, balance);
      toDelete := Refresh(nonce, balance);
      prevReadyTx := Settle();
      newReadyTx := readyTx;
    }

    method DeleteTx(txHash: string) returns (deletedReadyTx: TxTracker?)
      requires View().Inv()
      modifies this
      ensures View() == AfterDelete(old(View()), txHash) && View().Inv()
      ensures deletedReadyTx == if old(readyTx) != null && old(readyTx).hash == txHash then old(readyTx) else null
    {
      if readyTx != null && readyTx.hash == txHash {
        var prevReadyTx := readyTx;
        readyTx := null;
        return prevReadyTx;
      }
      var todo, all := notReadyTxs.Keys, notReadyTxs;
      while todo != {}
        invariant todo <= all.Keys
        invariant currentNonce == old(currentNonce) && currentBalance == old(currentBalance) && readyTx == old(readyTx)
        invariant notReadyTxs == map n | n in all && (n in todo || all[n].hash != txHash) :: all[n]
      {
        var n :| n in todo;
        todo := todo - {n};
        if all[n].hash == txHash {
          notReadyTxs := notReadyTxs - {all[n].nonce};
        }
      }
      return null;
    }

    method ExpireTransactions(maxTime: int, now: int) returns (txs: seq<TxTracker>, prevReadyTx: TxTracker?)
      requires View().Inv()
      modifies this
      ensures View() == AfterExpire(old(View()), maxTime, now) && View().Inv()
      ensures forall tx :: tx in txs <==> tx in old(View()).Held() && tx.receivedAt + maxTime < now
      ensures prevReadyTx ==
        if old(readyTx) != null && old(readyTx).receivedAt + maxTime < now then old(readyTx) else null
    {
      txs, prevReadyTx := [], null;
      var todo, all := notReadyTxs.Keys, notReadyTxs;
      while todo != {}
        invariant todo <= all.Keys
        invariant currentNonce == old(currentNonce) && currentBalance == old(currentBalance) && readyTx == old(readyTx)
        invariant notReadyTxs == map n | n in all && (n in todo || !Expired(all[n], maxTime, now)) :: all[n]
        invariant forall tx :: tx in txs <==>
          exists n :: n in all && n !in todo && all[n] == tx && Expired(tx, maxTime, now)
      {
        var n :| n in todo;
        todo := todo - {n};
        if Expired(all[n], maxTime, now) {
          txs := txs + [all[n]];
          notReadyTxs := notReadyTxs - {all[n].nonce};
        }
      }
      if readyTx != null && Expired(readyTx, maxTime, now) {
        prevReadyTx := readyTx;
        txs := txs + [readyTx];
        readyTx := null;
      }
    }
  }
}
