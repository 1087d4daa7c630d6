/** Forced batches of the finalizer: kept sorted as they arrive, then processed in
    number order, with missing ones fetched from the state. */
module ForcedBatches {
  datatype ForcedBatch = ForcedBatch(number: nat, rawTxsData: seq<bv8>)

  // ------------------------------------------------------------------- sorting

  ghost predicate SortedByNumber(q: seq<ForcedBatch>) {
    forall i, j :: 0 <= i < j < |q| ==> q[i].number <= q[j].number
  }

  /** Everything before position `i` is in place: sorted, and no larger than what follows. */
  ghost predicate InPlace(q: seq<ForcedBatch>, i: nat) {
    forall k, l :: 0 <= k < i && k < l < |q| ==> q[k].number <= q[l].number
  }

  lemma SwapKeeps(q: seq<ForcedBatch>, i: nat, j: nat)
    requires i < j < |q| && InPlace(q, i)
    ensures var r := q[i := q[j]][j := q[i]]; InPlace(r, i) && multiset(r) == multiset(q)
  {
  }

  /** The compare and swap of the two loops. */
  method CompareAndSwap(fb: array<ForcedBatch>, i: nat, j: nat)
    requires i < j < fb.Length && InPlace(fb[..], i)
    modifies fb
    ensures multiset(fb[..]) == old(multiset(fb[..])) && InPlace(fb[..], i)
    ensures fb[i].number <= fb[j].number && fb[i].number <= old(fb[i].number)
    ensures forall l :: 0 <= l < fb.Length && l != i && l != j ==> fb[l] == old(fb[l])
  {
    if fb[i].number > fb[j].number {
      SwapKeeps(fb[..], i, j);
      fb[i], fb[j] := fb[j], fb[i];
      assert fb[..] == old(fb[..][i := fb[j]][j := fb[i]]);
    }
  }

  /** `sortForcedBatches`: in place, sorted by number, nothing lost or duplicated. */
  method SortForcedBatches(fb: array<ForcedBatch>)
    modifies fb
    ensures SortedByNumber(fb[..])
    ensures multiset(fb[..]) == old(multiset(fb[..]))
  {
    var i := 0;
    while i < fb.Length - 1
      invariant 0 <= i && (fb.Length > 0 ==> i < fb.Length)
      invariant InPlace(fb[..], i) && multiset(fb[..]) == old(multiset(fb[..]))
    {
      var j := i + 1;
      while j < fb.Length
        invariant i < j <= fb.Length
        invariant InPlace(fb[..], i) && multiset(fb[..]) == old(multiset(fb[..]))
        invariant forall l :: i < l < j ==> fb[i].number <= fb[l].number
      {
        CompareAndSwap(fb, i, j);
        j := j + 1;
      }
      i := i + 1;
    }
  }

  // ---------------------------------------------------------------------- plan

  /** Where the next forced batch comes from. */
  datatype Item = FromQueue(fb: ForcedBatch) | FromState(n: nat)
  {
    function Number(): nat {
      if FromQueue? then fb.number else n
    }
  }

  /** What the loop hands to processing, as long as nothing fails: one item for every
      queued batch that is not already processed. */
  function Plan(q: seq<ForcedBatch>, next: nat): seq<Item>
    decreases |q|
  {
    if q == [] then []
    else if q[0].number < next then Plan(q[1..], next)
    else
      var item := if q[0].number == next then FromQueue(q[0]) else FromState(next);
      [item] + Plan(q[1..], next + 1)
  }

  ghost function Numbers(q: seq<ForcedBatch>): set<nat> {
    set i | 0 <= i < |q| :: q[i].number
  }

  /** The queue holds every number from `next` up to its largest one. */
  ghost predicate NoGap(q: seq<ForcedBatch>, next: nat) {
    forall n, m :: n in Numbers(q) && next <= m < n ==> m in Numbers(q)
  }

  predicate AllQueued(items: seq<Item>) {
    forall i :: 0 <= i < |items| ==> items[i].FromQueue?
  }

  /** Whatever the queue holds, the plan counts up from `next` without gap or repeat. */
  lemma {:induction false} PlanIsConsecutive(q: seq<ForcedBatch>, next: nat)
    ensures forall i :: 0 <= i < |Plan(q, next)| ==> Plan(q, next)[i].Number() == next + i
    decreases |q|
  {
    if q != [] {
      if q[0].number < next {
        PlanIsConsecutive(q[1..], next);
      } else {
        PlanIsConsecutive(q[1..], next + 1);
      }
    }
  }

  lemma NumbersSplit(q: seq<ForcedBatch>)
    requires q != []
    ensures Numbers(q) == {q[0].number} + Numbers(q[1..])
  {
    forall n | n in Numbers(q) ensures n in {q[0].number} + Numbers(q[1..]) {
      var i :| 0 <= i < |q| && q[i].number == n;
      if i > 0 { assert q[1..][i - 1].number == n; }
    }
    forall n | n in Numbers(q[1..]) ensures n in Numbers(q) {
      var i :| 0 <= i < |q[1..]| && q[1..][i].number == n;
      assert q[i + 1].number == n;
    }
  }

  lemma SortedTail(q: seq<ForcedBatch>)
    requires q != [] && SortedByNumber(q)
    ensures SortedByNumber(q[1..])
    ensures forall n :: n in Numbers(q) ==> q[0].number <= n
  {
  }

  /** Taking the first batch off a sorted queue, already processed or next in line. */
  lemma NoGapTail(q: seq<ForcedBatch>, next: nat)
    requires q != [] && SortedByNumber(q) && q[0].number <= next
    ensures NoGap(q, next) <==> NoGap(q[1..], if q[0].number == next then next + 1 else next)
  {
    NumbersSplit(q);
    var rest, next' := q[1..], if q[0].number == next then next + 1 else next;
    if NoGap(q, next) {
      forall n, m | n in Numbers(rest) && next' <= m < n ensures m in Numbers(rest) {
        assert n in Numbers(q) && m in Numbers(q);
      }
    }
    if NoGap(rest, next') {
      forall n, m | n in Numbers(q) && next <= m < n ensures m in Numbers(q) {
        assert n in Numbers(rest);
        assert m in Numbers(rest) || m == q[0].number;
      }
    }
  }

  /** For a sorted queue the state is not consulted if and only if the queue has no gap. */
  lemma {:induction false} PlanQueuedIffNoGap(q: seq<ForcedBatch>, next: nat)
    requires SortedByNumber(q)
    ensures AllQueued(Plan(q, next)) <==> NoGap(q, next)
    decreases |q|
  {
    if q != [] {
      SortedTail(q);
      var rest := q[1..];
      if q[0].number < next {
        NoGapTail(q, next);
        PlanQueuedIffNoGap(rest, next);
      } else if q[0].number == next {
        NoGapTail(q, next);
        PlanQueuedIffNoGap(rest, next + 1);
        var tail := Plan(rest, next + 1);
        assert AllQueued(Plan(q, next)) <==> AllQueued(tail) by {
          forall i | 0 <= i < |tail| ensures Plan(q, next)[i + 1] == tail[i] {}
        }
      } else {
        assert Plan(q, next)[0] == FromState(next);
        assert q[0].number in Numbers(q) && next !in Numbers(q);
      }
    }
  }

  /** Without a gap the plan is exactly the pending part of the queue. */
  lemma {:induction false} PlanCoversPending(q: seq<ForcedBatch>, next: nat)
    requires SortedByNumber(q) && NoGap(q, next)
    ensures forall n :: n in Numbers(q) && n >= next ==> n < next + |Plan(q, next)|
    ensures forall i :: 0 <= i < |Plan(q, next)| ==> Plan(q, next)[i].FromQueue? && Plan(q, next)[i].fb in q
    decreases |q|
  {
    if q != [] {
      NumbersSplit(q);
      SortedTail(q);
      assert q[0].number in Numbers(q);
      assert q[0].number > next ==> next in Numbers(q);
      NoGapTail(q, next);
      PlanCoversPending(q[1..], if q[0].number == next then next + 1 else next);
    }
  }

  ghost predicate StrictlySorted(q: seq<ForcedBatch>) {
    forall i, j :: 0 <= i < j < |q| ==> q[i].number < q[j].number
  }

  /** Every pending batch is in the plan. */
  ghost predicate Covers(q: seq<ForcedBatch>, next: nat) {
    forall n :: n in Numbers(q) && n >= next ==> n < next + |Plan(q, next)|
  }

  lemma {:induction false} PlanIsShort(q: seq<ForcedBatch>, next: nat)
    ensures |Plan(q, next)| <= |q|
    decreases |q|
  {
    if q != [] {
      PlanIsShort(q[1..], if q[0].number < next then next else next + 1);
    }
  }

  lemma {:induction false} NumbersSpread(q: seq<ForcedBatch>, i: nat)
    requires StrictlySorted(q) && i < |q|
    ensures q[0].number + i <= q[i].number
  {
    if i > 0 { NumbersSpread(q, i - 1); }
  }

  /** With a gap, some pending batch is left out of the plan. */
  lemma {:induction false} GapLosesPending(q: seq<ForcedBatch>, next: nat) returns (n: nat)
    requires StrictlySorted(q) && !NoGap(q, next)
    ensures n in Numbers(q) && n >= next + |Plan(q, next)|
    decreases |q|
  {
    if q[0].number <= next {
      NoGapTail(q, next);
      NumbersSplit(q);
      n := GapLosesPending(q[1..], if q[0].number == next then next + 1 else next);
    } else {
      n := q[|q| - 1].number;
      NumbersSpread(q, |q| - 1);
      PlanIsShort(q, next);
    }
  }

  /** When no number is queued twice, the plan reaches every pending batch if and only if
      the queue has no gap. */
  lemma DistinctCoveredIff(q: seq<ForcedBatch>, next: nat)
    requires StrictlySorted(q)
    ensures Covers(q, next) <==> NoGap(q, next)
  {
    if NoGap(q, next) {
      PlanCoversPending(q, next);
    } else {
      var n := GapLosesPending(q, next);
    }
  }

  /** Going down from the largest number, the queue keeps up with the numbers to process:
      every missing number is made up for by a repeated larger one. */
  ghost predicate Enough(q: seq<ForcedBatch>, next: nat) {
    q != [] && q[|q| - 1].number >= next ==>
      var n, last := |q|, q[|q| - 1].number;
      && last - next < n
      && forall i :: n - 1 - (last - next) <= i < n ==> last - q[i].number <= n - 1 - i
  }

  lemma EnoughOfTail(q: seq<ForcedBatch>, next: nat)
    requires |q| > 1 && SortedByNumber(q)
    ensures Enough(q, next) <==> Enough(q[1..], if q[0].number < next then next else next + 1)
  {
    var rest, n, last, next' := q[1..], |q|, q[|q| - 1].number, if q[0].number < next then next else next + 1;
    if Enough(q, next) && last >= next' {
      assert q[0].number < next ==> last - next < n - 1;
      forall i | n - 2 - (last - next') <= i < n - 1 ensures last - rest[i].number <= n - 2 - i {
        assert rest[i] == q[i + 1];
      }
    }
    if Enough(rest, next') && last >= next {
      forall i | n - 1 - (last - next) <= i < n ensures last - q[i].number <= n - 1 - i {
        if i > 0 { assert q[i] == rest[i - 1]; }
      }
    }
  }

  lemma {:induction false} LastCoveredIff(q: seq<ForcedBatch>, next: nat)
    requires q != [] && SortedByNumber(q)
    ensures q[|q| - 1].number < next + |Plan(q, next)| <==> Enough(q, next)
    decreases |q|
  {
    if |q| == 1 {
      assert q[1..] == [];
    } else {
      EnoughOfTail(q, next);
      LastCoveredIff(q[1..], if q[0].number < next then next else next + 1);
    }
  }

  /** For every sorted queue: the plan reaches every pending batch if and only if repeated
      numbers make up for the gaps. */
  lemma PendingCoveredIff(q: seq<ForcedBatch>, next: nat)
    requires SortedByNumber(q)
    ensures Covers(q, next) <==> Enough(q, next)
  {
    if q != [] {
      LastCoveredIff(q, next);
      assert q[|q| - 1].number in Numbers(q);
    }
  }

  /** For example, number 8 here. */
  lemma GapLeavesPending()
    ensures var q := [ForcedBatch(5, []), ForcedBatch(8, [])];
      SortedByNumber(q) && Plan(q, 5) == [FromQueue(q[0]), FromState(6)]
  {
    var q := [ForcedBatch(5, []), ForcedBatch(8, [])];
    assert q[1..] == [q[1]];
    assert q[1..][1..] == [];
  }

  // ----------------------------------------------------------------- processing

  /** What processing one forced batch comes to. It either fails before the database
      commit or commits; a commit whose execution produced L2 blocks (and no
      out-of-counters error) still returns an error to the loop. */
  datatype Step = FailsBeforeCommit | Commits(producedBlocks: bool, stateRoot: int, accInputHash: int)

  /** A batch in the trusted state opened for a forced batch. */
  datatype Commit = Commit(forcedNumber: nat, batchNumber: nat, stateRoot: int, accInputHash: int)

  /** Caller's view of the tip of the trusted chain. */
  datatype Tip = Tip(batchNumber: nat, stateRoot: int, accInputHash: int)

  /** The loop sees an error. */
  predicate Fails(step: Step) {
    step.FailsBeforeCommit? || step.producedBlocks
  }

  /** The batch handed over for a planned item. */
  predicate Fits(fb: ForcedBatch, item: Item, store: map<nat, ForcedBatch>, n: nat) {
    && fb.number == n
    && (item.FromQueue? ==> fb == item.fb)
    && (item.FromState? ==> item.n in store && fb == store[item.n])
  }

  ghost predicate Follows(handed: seq<ForcedBatch>, plan: seq<Item>, store: map<nat, ForcedBatch>, start: nat) {
    && |handed| <= |plan|
    && forall i :: 0 <= i < |handed| ==> Fits(handed[i], plan[i], store, start + i)
  }

  /** The tip of the database after further commits. */
  function DbTip(tip: Tip, news: seq<Commit>): Tip {
    if news == [] then tip
    else
      var last := news[|news| - 1];
      Tip(last.batchNumber, last.stateRoot, last.accInputHash)
  }

  /** Result of one call: the tip reported, the batches handed over, whether the loop
      reached its end, and the batches committed. */
  datatype Call = Call(tip: Tip, handed: seq<ForcedBatch>, complete: bool, news: seq<Commit>)

  function Opened(tip: Tip, step: Step): Tip
    requires step.Commits?
  {
    Tip(tip.batchNumber + 1, step.stateRoot, step.accInputHash)
  }

  function CommitsOf(number: nat, tip: Tip, step: Step): seq<Commit> {
    if step.FailsBeforeCommit? then [] else [Commit(number, tip.batchNumber + 1, step.stateRoot, step.accInputHash)]
  }

  /** The loop over what is left of the queue, `k` batches having been handed over. */
  function Process(q: seq<ForcedBatch>, next: nat, tip: Tip,
                   store: map<nat, ForcedBatch>, steps: nat -> Step, k: nat): Call
    decreases |q|
  {
    if q == [] then Call(tip, [], true, [])
    else if q[0].number < next then Process(q[1..], next, tip, store, steps, k)
    else if q[0].number > next && next !in store then Call(tip, [], false, [])
    else
      var fb := if q[0].number > next then store[next] else q[0];
      var commits := CommitsOf(next, tip, steps(k));
      if Fails(steps(k)) then Call(tip, [fb], false, commits)
      else
        var rest := Process(q[1..], next + 1, Opened(tip, steps(k)), store, steps, k + 1);
        Call(rest.tip, [fb] + rest.handed, rest.complete, commits + rest.news)
  }

  ghost predicate StoreFits(store: map<nat, ForcedBatch>) {
    forall n :: n in store ==> store[n].number == n
  }

  predicate Available(item: Item, store: map<nat, ForcedBatch>) {
    item.FromState? ==> item.n in store
  }

  /** The items before `i` are available and go through. */
  ghost predicate GoesThrough(plan: seq<Item>, store: map<nat, ForcedBatch>, steps: nat -> Step, k: nat, i: nat)
    requires i <= |plan|
  {
    forall j: nat :: j < i ==> Available(plan[j], store) && !Fails(steps(k + j))
  }

  lemma GoesThroughStep(plan: seq<Item>, store: map<nat, ForcedBatch>, steps: nat -> Step, k: nat, i: nat)
    requires 0 < i <= |plan|
    ensures GoesThrough(plan, store, steps, k, i) <==>
      Available(plan[0], store) && !Fails(steps(k)) && GoesThrough(plan[1..], store, steps, k + 1, i - 1)
  {
    if GoesThrough(plan, store, steps, k, i) {
      assert Available(plan[0], store) && !Fails(steps(k + 0));
      forall j: nat | j < i - 1 ensures Available(plan[1..][j], store) && !Fails(steps(k + 1 + j)) {
        assert Available(plan[j + 1], store) && !Fails(steps(k + (j + 1)));
        assert plan[1..][j] == plan[j + 1] && k + (j + 1) == k + 1 + j;
      }
      assert GoesThrough(plan[1..], store, steps, k + 1, i - 1);
    }
    if Available(plan[0], store) && !Fails(steps(k)) && GoesThrough(plan[1..], store, steps, k + 1, i - 1) {
      forall j: nat | j < i ensures Available(plan[j], store) && !Fails(steps(k + j)) {
        if j > 0 {
          assert Available(plan[1..][j - 1], store) && !Fails(steps(k + 1 + (j - 1)));
          assert plan[1..][j - 1] == plan[j] && k + 1 + (j - 1) == k + j;
        }
      }
      assert GoesThrough(plan, store, steps, k, i);
    }
  }

  lemma FollowsCons(fb: ForcedBatch, item: Item, handed: seq<ForcedBatch>, plan: seq<Item>,
                    store: map<nat, ForcedBatch>, start: nat)
    requires Fits(fb, item, store, start) && Follows(handed, plan, store, start + 1)
    ensures Follows([fb] + handed, [item] + plan, store, start)
  {
    var h, p := [fb] + handed, [item] + plan;
    forall i | 0 <= i < |h| ensures Fits(h[i], p[i], store, start + i) {
      if i > 0 {
        assert Fits(handed[i - 1], plan[i - 1], store, start + 1 + (i - 1));
      }
    }
  }

  /** Processing comes to an end after handing over `n` items: the last of them fails, or
      the next one is missing from the state. */
  ghost predicate StopsAfter(plan: seq<Item>, store: map<nat, ForcedBatch>, steps: nat -> Step, k: nat, n: nat) {
    || (0 < n <= |plan| && GoesThrough(plan, store, steps, k, n - 1)
        && Available(plan[n - 1], store) && Fails(steps(k + n - 1)))
    || (n < |plan| && GoesThrough(plan, store, steps, k, n) && !Available(plan[n], store))
  }

  lemma StopsLater(plan: seq<Item>, store: map<nat, ForcedBatch>, steps: nat -> Step, k: nat, n: nat)
    requires plan != [] && Available(plan[0], store) && !Fails(steps(k))
    requires StopsAfter(plan[1..], store, steps, k + 1, n)
    ensures StopsAfter(plan, store, steps, k, n + 1)
  {
    var rest := plan[1..];
    if n < |rest| && GoesThrough(rest, store, steps, k + 1, n) && !Available(rest[n], store) {
      GoesThroughStep(plan, store, steps, k, n + 1);
    } else {
      if n > 1 { GoesThroughStep(plan, store, steps, k, n); }
      assert GoesThrough(plan, store, steps, k, n);
      assert rest[n - 1] == plan[n] && k + 1 + n - 1 == k + (n + 1) - 1;
    }
  }

  /** The batches handed over are a prefix of the plan, so they count up from `next`. The
      call reaches its end exactly when the whole plan is available and goes through, and
      otherwise stops at the first step that fails or batch that is missing. */
  ghost predicate CallFits(call: Call, plan: seq<Item>, next: nat,
                           store: map<nat, ForcedBatch>, steps: nat -> Step, k: nat) {
    && Follows(call.handed, plan, store, next)
    && (call.complete ==> |call.handed| == |plan| && GoesThrough(plan, store, steps, k, |plan|))
    && (!call.complete ==> StopsAfter(plan, store, steps, k, |call.handed|))
  }

  lemma CallFitsCons(fb: ForcedBatch, item: Item, rest: Call, plan: seq<Item>, next: nat,
                     store: map<nat, ForcedBatch>, steps: nat -> Step, k: nat)
    requires CallFits(rest, plan, next + 1, store, steps, k + 1)
    requires Fits(fb, item, store, next) && !Fails(steps(k))
    ensures forall tip, news ::
      CallFits(Call(tip, [fb] + rest.handed, rest.complete, news), [item] + plan, next, store, steps, k)
  {
    FollowsCons(fb, item, rest.handed, plan, store, next);
    var all := [item] + plan;
    assert all[1..] == plan;
    if rest.complete {
      GoesThroughStep(all, store, steps, k, |all|);
    } else {
      StopsLater(all, store, steps, k, |rest.handed|);
    }
  }

  lemma {:induction false} ProcessFollowsPlan(q: seq<ForcedBatch>, next: nat, tip: Tip,
                                              store: map<nat, ForcedBatch>, steps: nat -> Step, k: nat)
    requires StoreFits(store)
    ensures CallFits(Process(q, next, tip, store, steps, k), Plan(q, next), next, store, steps, k)
    decreases |q|
  {
    if q != [] {
      if q[0].number < next {
        ProcessFollowsPlan(q[1..], next, tip, store, steps, k);
      } else if (q[0].number > next ==> next in store) && !Fails(steps(k)) {
        ProcessFollowsPlan(q[1..], next + 1, Opened(tip, steps(k)), store, steps, k + 1);
        var fb := if q[0].number > next then store[next] else q[0];
        var item := if q[0].number == next then FromQueue(q[0]) else FromState(next);
        CallFitsCons(fb, item, Process(q[1..], next + 1, Opened(tip, steps(k)), store, steps, k + 1),
                     Plan(q[1..], next + 1), next, store, steps, k);
      }
    }
  }

  /** One commit in full, with the state root and accumulated input hash of its own step. */
  predicate CommitFits(commit: Commit, number: nat, batchNumber: nat, step: Step) {
    && step.Commits?
    && commit.forcedNumber == number && commit.batchNumber == batchNumber
    && commit.stateRoot == step.stateRoot && commit.accInputHash == step.accInputHash
  }

  /** Consecutive forced batches, each in the batch after the one before. */
  ghost predicate CommitsFit(news: seq<Commit>, next: nat, tip: Tip, steps: nat -> Step, k: nat) {
    forall i :: 0 <= i < |news| ==> CommitFits(news[i], next + i, tip.batchNumber + 1 + i, steps(k + i))
  }

  lemma CommitsFitCons(news: seq<Commit>, next: nat, tip: Tip, steps: nat -> Step, k: nat)
    requires steps(k).Commits? && CommitsFit(news, next + 1, Opened(tip, steps(k)), steps, k + 1)
    ensures CommitsFit(CommitsOf(next, tip, steps(k)) + news, next, tip, steps, k)
  {
    var all := CommitsOf(next, tip, steps(k)) + news;
    forall i | 0 <= i < |all| ensures CommitFits(all[i], next + i, tip.batchNumber + 1 + i, steps(k + i)) {
      if i > 0 { assert all[i] == news[i - 1] && k + 1 + (i - 1) == k + i; }
    }
    assert CommitsFit(all, next, tip, steps, k);
  }

  /** What a call commits: all that was handed over, save a last step that failed before
      its commit. */
  lemma {:induction false} ProcessCommits(q: seq<ForcedBatch>, next: nat, tip: Tip,
                                          store: map<nat, ForcedBatch>, steps: nat -> Step, k: nat)
    ensures var call := Process(q, next, tip, store, steps, k);
      && |call.news| == |call.handed| -
           (if call.handed != [] && steps(k + |call.handed| - 1).FailsBeforeCommit? then 1 else 0)
      && CommitsFit(call.news, next, tip, steps, k)
    decreases |q|
  {
    if q != [] {
      if q[0].number < next {
        ProcessCommits(q[1..], next, tip, store, steps, k);
      } else if (q[0].number > next ==> next in store) && !Fails(steps(k)) {
        var newTip := Opened(tip, steps(k));
        ProcessCommits(q[1..], next + 1, newTip, store, steps, k + 1);
        var rest := Process(q[1..], next + 1, newTip, store, steps, k + 1);
        CommitsFitCons(rest.news, next, tip, steps, k);
      }
    }
  }

  /** Processing comes to a step of the plan that is committed and fails all the same. */
  predicate LateFailure(plan: seq<Item>, store: map<nat, ForcedBatch>, steps: nat -> Step, k: nat)
    decreases |plan|
  {
    plan != [] && Available(plan[0], store) &&
    if Fails(steps(k)) then steps(k).Commits? else LateFailure(plan[1..], store, steps, k + 1)
  }

  ghost predicate LateFailureAt(plan: seq<Item>, store: map<nat, ForcedBatch>, steps: nat -> Step, k: nat, i: nat) {
    && i < |plan| && GoesThrough(plan, store, steps, k, i)
    && Available(plan[i], store) && Fails(steps(k + i)) && steps(k + i).Commits?
  }

  /** That is: some item is available, committed and fails, after items that all went through. */
  lemma {:induction false} LateFailureMeans(plan: seq<Item>, store: map<nat, ForcedBatch>, steps: nat -> Step, k: nat)
    ensures LateFailure(plan, store, steps, k) <==> exists i: nat :: LateFailureAt(plan, store, steps, k, i)
    decreases |plan|
  {
    if plan != [] {
      LateFailureMeans(plan[1..], store, steps, k + 1);
      if LateFailure(plan, store, steps, k) {
        if Fails(steps(k)) {
          assert LateFailureAt(plan, store, steps, k, 0);
        } else {
          var i: nat :| LateFailureAt(plan[1..], store, steps, k + 1, i);
          GoesThroughStep(plan, store, steps, k, i + 1);
          assert k + (i + 1) == k + 1 + i;
          assert LateFailureAt(plan, store, steps, k, i + 1);
        }
      }
      if exists i: nat :: LateFailureAt(plan, store, steps, k, i) {
        var i: nat :| LateFailureAt(plan, store, steps, k, i);
        if i > 0 {
          GoesThroughStep(plan, store, steps, k, i);
          assert k + 1 + (i - 1) == k + i;
          assert LateFailureAt(plan[1..], store, steps, k + 1, i - 1);
        }
      }
    }
  }

  lemma DbTipCons(tip: Tip, newTip: Tip, commit: Commit, news: seq<Commit>)
    requires newTip == Tip(commit.batchNumber, commit.stateRoot, commit.accInputHash)
    ensures DbTip(tip, [commit] + news) == DbTip(newTip, news)
  {
  }

  /** The tip that is reported is the tip of the database if and only if processing does not
      come to a step that is committed and still fails. After such a step it is the one
      before it. */
  ghost predicate TipFits(call: Call, late: bool, tip: Tip, steps: nat -> Step, k: nat) {
    && (call.tip == DbTip(tip, call.news) <==> !late)
    && (late ==>
          && !call.complete && call.handed != [] && steps(k + |call.handed| - 1).Commits?
          && DbTip(tip, call.news) == Opened(call.tip, steps(k + |call.handed| - 1)))
  }

  lemma TipFitsCons(fb: ForcedBatch, next: nat, rest: Call, late: bool, tip: Tip, steps: nat -> Step, k: nat)
    requires steps(k).Commits? && TipFits(rest, late, Opened(tip, steps(k)), steps, k + 1)
    ensures TipFits(Call(rest.tip, [fb] + rest.handed, rest.complete, CommitsOf(next, tip, steps(k)) + rest.news),
                    late, tip, steps, k)
  {
    DbTipCons(tip, Opened(tip, steps(k)), CommitsOf(next, tip, steps(k))[0], rest.news);
    assert k + |[fb] + rest.handed| - 1 == k + 1 + |rest.handed| - 1;
  }

  lemma LateFailureCons(item: Item, rest: seq<Item>, store: map<nat, ForcedBatch>, steps: nat -> Step, k: nat)
    ensures LateFailure([item] + rest, store, steps, k) <==>
      && Available(item, store)
      && if Fails(steps(k)) then steps(k).Commits? else LateFailure(rest, store, steps, k + 1)
  {
    assert ([item] + rest)[1..] == rest;
  }

  lemma {:induction false} ProcessReportsTip(q: seq<ForcedBatch>, next: nat, tip: Tip,
                                             store: map<nat, ForcedBatch>, steps: nat -> Step, k: nat)
    ensures TipFits(Process(q, next, tip, store, steps, k), LateFailure(Plan(q, next), store, steps, k), tip, steps, k)
    decreases |q|
  {
    if q == [] {
    } else if q[0].number < next {
      ProcessReportsTip(q[1..], next, tip, store, steps, k);
    } else {
      var item := if q[0].number == next then FromQueue(q[0]) else FromState(next);
      LateFailureCons(item, Plan(q[1..], next + 1), store, steps, k);
      if Available(item, store) && !Fails(steps(k)) {
        var newTip := Opened(tip, steps(k));
        ProcessReportsTip(q[1..], next + 1, newTip, store, steps, k + 1);
        var rest := Process(q[1..], next + 1, newTip, store, steps, k + 1);
        TipFitsCons(if q[0].number > next then store[next] else q[0], next, rest,
                    LateFailure(Plan(q[1..], next + 1), store, steps, k + 1), tip, steps, k);
      }
    }
  }

  /** One forced batch whose execution produces blocks: it is committed, and the tip that
      is reported is the one before it. */
  lemma StaleTip(fb: ForcedBatch, store: map<nat, ForcedBatch>)
    requires fb.number == 1
    ensures var tip := Tip(3, 0, 0);
      var call := Process([fb], 1, tip, store, _ => Commits(true, 7, 8), 0);
      call.tip == tip && DbTip(tip, call.news) == Tip(4, 7, 8)
  {
  }

  /** A call that has already handed over and committed something. */
  ghost function After(handed: seq<ForcedBatch>, news: seq<Commit>, rest: Call): Call {
    Call(rest.tip, handed + rest.handed, rest.complete, news + rest.news)
  }

  lemma AfterStep(handed: seq<ForcedBatch>, news: seq<Commit>, fb: ForcedBatch, commits: seq<Commit>, rest: Call)
    ensures After(handed + [fb], news + commits, rest)
         == After(handed, news, Call(rest.tip, [fb] + rest.handed, rest.complete, commits + rest.news))
  {
    assert handed + [fb] + rest.handed == handed + ([fb] + rest.handed);
    assert news + commits + rest.news == news + (commits + rest.news);
  }

  /** Handing over one more batch of what is left. */
  lemma ProcessStep(handed: seq<ForcedBatch>, news: seq<Commit>, q: seq<ForcedBatch>, next: nat, tip: Tip,
                    store: map<nat, ForcedBatch>, steps: nat -> Step, fb: ForcedBatch)
    requires q != [] && q[0].number >= next && (q[0].number > next ==> next in store)
    requires fb == if q[0].number > next then store[next] else q[0]
    ensures var step, k := steps(|handed|), |handed|;
      var commits := CommitsOf(next, tip, step);
      After(handed, news, Process(q, next, tip, store, steps, k)) ==
        if Fails(step) then Call(tip, handed + [fb], false, news + commits)
        else After(handed + [fb], news + commits, Process(q[1..], next + 1, Opened(tip, step), store, steps, k + 1))
  {
    var step := steps(|handed|);
    if !Fails(step) {
      AfterStep(handed, news, fb, CommitsOf(next, tip, step),
                Process(q[1..], next + 1, Opened(tip, step), store, steps, |handed| + 1));
    }
  }

  class Finalizer {
    var nextForcedBatches: seq<ForcedBatch>
    /** Forced batch number already trusted when this process started. */
    const base: nat
    /** Batches committed for forced batches since then, in order. */
    var ledger: seq<Commit>

    predicate Valid()
      reads this
    {
      forall i :: 0 <= i < |ledger| ==> ledger[i].forcedNumber == base + 1 + i
    }

    function LastTrusted(): nat
      reads this
    {
      base + |ledger|
    }

    constructor (base: nat)
      ensures Valid() && nextForcedBatches == [] && ledger == [] && this.base == base
    {
      this.base := base;
      nextForcedBatches, ledger := [], [];
    }

    /** A forced batch arrives: append and sort. */
    method ReceiveForcedBatch(fb: ForcedBatch)
      modifies this`nextForcedBatches
      ensures SortedByNumber(nextForcedBatches)
      ensures multiset(nextForcedBatches) == multiset(old(nextForcedBatches)) + multiset{fb}
    {
      var all := nextForcedBatches + [fb];
      var a := new ForcedBatch[|all|](i requires 0 <= i < |all| => all[i]);
      assert a[..] == all;
      SortForcedBatches(a);
      nextForcedBatches := a[..];
    }

    /** `processForcedBatch`: opens batch `tip.batchNumber + 1`. The result says whether
        the loop sees an error; on any error the tip returned is the old one. */
    method ProcessForcedBatch(number: nat, tip: Tip, step: Step) returns (newTip: Tip, failed: bool)
      requires Valid() && number == LastTrusted() + 1
      modifies this`ledger
      ensures Valid() && ledger == old(ledger) +
        if step.FailsBeforeCommit? then []
        else [Commit(number, tip.batchNumber + 1, step.stateRoot, step.accInputHash)]
      ensures failed <==> step.FailsBeforeCommit? || step.producedBlocks
      ensures newTip == if failed then tip else Tip(tip.batchNumber + 1, step.stateRoot, step.accInputHash)
    {
      if step.FailsBeforeCommit? {
        return tip, true;
      }
      ledger := ledger + [Commit(number, tip.batchNumber + 1, step.stateRoot, step.accInputHash)];
      if step.producedBlocks {
        return tip, true;
      }
      return Tip(tip.batchNumber + 1, step.stateRoot, step.accInputHash), false;
    }

    /** The loop itself. */
    method ProcessQueue(queue: seq<ForcedBatch>, tip: Tip, store: map<nat, ForcedBatch>, steps: nat -> Step)
      returns (newTip: Tip, handed: seq<ForcedBatch>, complete: bool)
      requires Valid()
      modifies this`ledger
      ensures Valid()
      ensures var call := Process(queue, old(LastTrusted()) + 1, tip, store, steps, 0);
        newTip == call.tip && handed == call.handed && complete == call.complete && ledger == old(ledger) + call.news
    {
      newTip, handed, complete := tip, [], false;
      var next := LastTrusted() + 1;
      ghost var call := After([], ledger, Process(queue, next, tip, store, steps, 0));
      assert queue[0..] == queue;
      for k := 0 to |queue|
        invariant Valid() && next == LastTrusted() + 1
        invariant After(handed, ledger, Process(queue[k..], next, newTip, store, steps, |handed|)) == call
      {
        var forcedBatch := queue[k];
        assert queue[k..][0] == forcedBatch && queue[k..][1..] == queue[k + 1..];
        if forcedBatch.number < next {
          continue;
        }
        if forcedBatch.number > next {
          if next !in store {
            assert ledger + [] == ledger && handed + [] == handed;
            return;
          }
          forcedBatch := store[next];
        }
        var step := steps(|handed|);
        ProcessStep(handed, ledger, queue[k..], next, newTip, store, steps, forcedBatch);
        handed := handed + [forcedBatch];
        var failed;
        newTip, failed := ProcessForcedBatch(next, newTip, step);
        if failed {
          return;
        }
        next := next + 1;
      }
      assert ledger + [] == ledger && handed + [] == handed;
      complete := true;
    }

    /** `processForcedBatches`. `store` holds the forced batches known to the state,
        `steps(k)` is how the k-th processing goes; `lookupFails` is an error when
        asking for the last trusted forced batch. */
    method ProcessForcedBatches(tip: Tip, lookupFails: bool, store: map<nat, ForcedBatch>, steps: nat -> Step)
      returns (newTip: Tip, handed: seq<ForcedBatch>, complete: bool)
      requires Valid()
      modifies this
      ensures Valid()
      ensures lookupFails ==>
        && newTip == tip && handed == [] && !complete
        && ledger == old(ledger) && nextForcedBatches == old(nextForcedBatches)
      ensures !lookupFails ==>
        var call := Process(old(nextForcedBatches), old(LastTrusted()) + 1, tip, store, steps, 0);
        && newTip == call.tip && handed == call.handed && complete == call.complete
        && ledger == old(ledger) + call.news
        && nextForcedBatches == if complete then [] else old(nextForcedBatches)
    {
      if lookupFails {
        return tip, [], false;
      }
      newTip, handed, complete := ProcessQueue(nextForcedBatches, tip, store, steps);
      if complete {
        nextForcedBatches := [];
      }
    }
  }

  /** A queue without gap, all steps good: every pending batch is processed, from the
      queue itself, and the queue is empty afterwards. */
  method ProcessAllPending(f: Finalizer, tip: Tip, store: map<nat, ForcedBatch>, steps: nat -> Step)
    returns (newTip: Tip, handed: seq<ForcedBatch>)
    requires f.Valid() && SortedByNumber(f.nextForcedBatches) && NoGap(f.nextForcedBatches, f.LastTrusted() + 1)
    requires StoreFits(store)
    requires forall k :: !Fails(steps(k))
    modifies f
    ensures f.Valid() && f.nextForcedBatches == []
    ensures forall i :: 0 <= i < |handed| ==>
      handed[i] in old(f.nextForcedBatches) && handed[i].number == old(f.LastTrusted()) + 1 + i
    ensures forall fb :: fb in old(f.nextForcedBatches) && fb.number > old(f.LastTrusted()) ==>
      fb.number <= old(f.LastTrusted()) + |handed|
    ensures f.LastTrusted() == old(f.LastTrusted()) + |handed|
  {
    ghost var queue, start := f.nextForcedBatches, f.LastTrusted() + 1;
    PlanCoversPending(queue, start);
    ProcessFollowsPlan(queue, start, tip, store, steps, 0);
    ProcessCommits(queue, start, tip, store, steps, 0);
    var complete;
    newTip, handed, complete := f.ProcessForcedBatches(tip, false, store, steps);
    forall fb | fb in queue && fb.number >= start ensures fb.number < start + |handed| {
      assert fb.number in Numbers(queue);
    }
  }
}
