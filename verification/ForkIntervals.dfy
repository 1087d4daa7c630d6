/** Fork id intervals: the L1 logs are queried in chunks of blocks, and every version
    event closes the interval of batch numbers before it and opens the next one. */
module ForkIntervals {
  import opened Basics

  const MAX_UINT64: nat := 0xFFFF_FFFF_FFFF_FFFF
  const UINT64: nat := 0x1_0000_0000_0000_0000

  /** The four events that set a fork id, decoded; `Garbled` is a parse error. */
  datatype Payload =
    | UpdateZkEVMVersion(numBatch: nat, forkID: nat, version: string)
    | UpdateRollup(rollupID: nat, newTypeID: nat, lastVerified: nat)
    | AddExistingRollup(rollupID: nat, forkID: nat, lastVerified: nat)
    | CreateNewRollup(rollupID: nat, typeID: nat)
    | Garbled

  datatype Log = Log(blockNumber: nat, payload: Payload)

  // -------------------------------------------------------------------- queries

  ghost predicate SortedByBlock(chain: seq<Log>) {
    forall i, j :: 0 <= i < j < |chain| ==> chain[i].blockNumber <= chain[j].blockNumber
  }

  /** `FilterLogs` on a block range. */
  function Filter(chain: seq<Log>, from: nat, to: int): seq<Log> {
    if chain == [] then []
    else (if from <= chain[0].blockNumber <= to then [chain[0]] else []) + Filter(chain[1..], from, to)
  }

  /** A range over all blocks of a chain gives the chain, and a log outside it is left out. */
  lemma {:induction false} FilterMeans(chain: seq<Log>, from: nat, to: int)
    ensures (forall i :: 0 <= i < |chain| ==> from <= chain[i].blockNumber <= to) ==> Filter(chain, from, to) == chain
    ensures forall log :: log in Filter(chain, from, to) <==> log in chain && from <= log.blockNumber <= to
  {
    if chain != [] {
      FilterMeans(chain[1..], from, to);
      assert chain == [chain[0]] + chain[1..];
    }
  }

  lemma {:induction false} FilterEmpty(chain: seq<Log>, from: nat, to: int)
    requires forall i :: 0 <= i < |chain| ==> !(from <= chain[i].blockNumber <= to)
    ensures Filter(chain, from, to) == []
  {
    if chain != [] {
      assert chain[0].blockNumber < from || to < chain[0].blockNumber;
      FilterEmpty(chain[1..], from, to);
    }
  }

  /** Adjacent ranges of a chain concatenate to the range they tile. */
  lemma {:induction false} FilterJoins(chain: seq<Log>, from: nat, mid: int, to: int)
    requires SortedByBlock(chain) && from <= mid + 1 && mid <= to
    ensures Filter(chain, from, mid) + Filter(chain, mid + 1, to) == Filter(chain, from, to)
  {
    if chain != [] {
      FilterJoins(chain[1..], from, mid, to);
      if chain[0].blockNumber > mid {
        FilterEmpty(chain[1..], from, mid);
      }
    }
  }

  /** A query for the logs of blocks `from` to `to`. */
  datatype Query = Query(from: nat, to: nat)

  /** First block not asked for yet. */
  function NextBlock(queries: seq<Query>, genBlock: nat): nat {
    if queries == [] then genBlock else queries[|queries| - 1].to + 1
  }

  /** A query asks for a whole chunk, or up to the end of the range. */
  predicate FillsChunk(q: Query, lastBlock: nat, chunk: nat) {
    q.from <= lastBlock && q.to == if q.from + chunk > lastBlock then lastBlock else q.from + chunk
  }

  /** Queries that follow each other without gap or overlap from `genBlock` on. */
  ghost predicate Tiles(queries: seq<Query>, genBlock: nat, lastBlock: nat, chunk: nat) {
    queries == [] ||
    var init, last := queries[..|queries| - 1], queries[|queries| - 1];
    && Tiles(init, genBlock, lastBlock, chunk)
    && FillsChunk(last, lastBlock, chunk) && last.from == NextBlock(init, genBlock)
  }

  /** Where the last query of a range starts. */
  function LastStart(from: nat, lastBlock: nat, chunk: nat): nat
    requires from <= lastBlock
    decreases lastBlock - from
  {
    if from + chunk + 1 > lastBlock then from else LastStart(from + chunk + 1, lastBlock, chunk)
  }

  /** The loop variable exceeds 64 bits after the last query of the range. */
  predicate Wraps(genBlock: nat, lastBlock: nat, chunk: nat) {
    genBlock <= lastBlock && LastStart(genBlock, lastBlock, chunk) + chunk + 1 >= UINT64
  }

  /** The loop with its variable at `i`: the queries so far tile the range up to there. */
  ghost predicate Asked(queries: seq<Query>, genBlock: nat, lastBlock: nat, chunk: nat, i: nat) {
    var next := NextBlock(queries, genBlock);
    && Tiles(queries, genBlock, lastBlock, chunk)
    && genBlock <= next
    && (if genBlock > lastBlock then queries == [] && i == genBlock
        else if i <= lastBlock then
          i == next && LastStart(i, lastBlock, chunk) == LastStart(genBlock, lastBlock, chunk)
        else
          next == lastBlock + 1 && i == LastStart(genBlock, lastBlock, chunk) + chunk + 1)
  }

  /** All logs of the blocks asked for. */
  ghost predicate Collected(chain: seq<Log>, queries: seq<Query>, genBlock: nat, all: seq<Log>) {
    all == Filter(chain, genBlock, NextBlock(queries, genBlock) - 1)
  }

  lemma AskedMore(queries: seq<Query>, genBlock: nat, lastBlock: nat, chunk: nat, i: nat, final: nat, next: nat)
    requires Asked(queries, genBlock, lastBlock, chunk, i) && i <= lastBlock
    requires final == (if i + chunk > lastBlock then lastBlock else i + chunk) && next == i + chunk + 1
    ensures Asked(queries + [Query(i, final)], genBlock, lastBlock, chunk, next)
    ensures NextBlock(queries, genBlock) == i && NextBlock(queries + [Query(i, final)], genBlock) == final + 1
  {
    assert (queries + [Query(i, final)])[..|queries|] == queries;
  }

  lemma NoneCollected(chain: seq<Log>, genBlock: nat)
    ensures Collected(chain, [], genBlock, [])
  {
    FilterEmpty(chain, genBlock, genBlock - 1);
  }

  /** One more query, answered: the logs of one more chunk. */
  lemma ChunkCollected(chain: seq<Log>, queries: seq<Query>, genBlock: nat, all: seq<Log>, q: Query)
    requires SortedByBlock(chain) && Collected(chain, queries, genBlock, all)
    requires genBlock <= NextBlock(queries, genBlock) == q.from <= q.to
    ensures Collected(chain, queries + [q], genBlock, all + Filter(chain, q.from, q.to))
  {
    FilterJoins(chain, genBlock, q.from - 1, q.to);
  }

  lemma AllCollected(chain: seq<Log>, queries: seq<Query>, genBlock: nat, lastBlock: nat, chunk: nat, i: nat,
                     all: seq<Log>)
    requires Asked(queries, genBlock, lastBlock, chunk, i) && i > lastBlock && Collected(chain, queries, genBlock, all)
    ensures all == Filter(chain, genBlock, lastBlock)
  {
    if genBlock > lastBlock {
      NoneCollected(chain, genBlock);
      FilterEmpty(chain, genBlock, lastBlock);
    }
  }

  /** End of the query that starts at block `i`, and start of the next one, in 64-bit
      arithmetic; `wraps` when the loop variable overflows in this turn. */
  method NextChunk(i: nat, chunk: nat, lastBlock: nat) returns (final: nat, next: nat, wraps: bool)
    requires i <= lastBlock < UINT64 && chunk < UINT64
    ensures wraps <==> i + chunk + 1 >= UINT64
    ensures !wraps ==> final == (if i + chunk > lastBlock then lastBlock else i + chunk) && next == i + chunk + 1
  {
    final := (i + chunk) % UINT64;
    if final > lastBlock {
      final := lastBlock;
    }
    next := (i + chunk + 1) % UINT64;
    wraps := next <= i;
  }

  ghost predicate NoneFailed(queries: seq<Query>, failed: nat -> bool) {
    queries == [] || (!failed(queries[|queries| - 1].from) && NoneFailed(queries[..|queries| - 1], failed))
  }

  /** What the query loop comes to: the logs, a query that failed, or a loop variable that
      wraps around, from where the loop is not followed. */
  datatype Queried = Logs(logs: seq<Log>) | QueryFailed | Wrapped

  /** The query loop. `failed(i)` says whether the query that starts at block i fails.
      A loop that succeeds has asked for exactly the logs of the whole range, each once
      and in order, whatever the chunk size. */
  method QueryLogs(chain: seq<Log>, genBlock: nat, lastBlock: nat, chunk: nat, failed: nat -> bool)
    returns (r: Queried, queries: seq<Query>)
    requires SortedByBlock(chain)
    requires genBlock < UINT64 && lastBlock < UINT64 && chunk < UINT64
    ensures Tiles(queries, genBlock, lastBlock, chunk)
    ensures r.Logs? ==> r.logs == Filter(chain, genBlock, lastBlock)
    ensures r.Logs? ==> NextBlock(queries, genBlock) == if genBlock <= lastBlock then lastBlock + 1 else genBlock
    ensures if r.QueryFailed? then queries != [] && failed(queries[|queries| - 1].from) else NoneFailed(queries, failed)
    ensures r.QueryFailed? ==> NoneFailed(queries[..|queries| - 1], failed)
    ensures r.Logs? ==> !Wraps(genBlock, lastBlock, chunk)
    ensures r.Wrapped? ==>
      Wraps(genBlock, lastBlock, chunk) && NextBlock(queries, genBlock) == LastStart(genBlock, lastBlock, chunk)
  {
    queries := [];
    NoneCollected(chain, genBlock);
    var all: seq<Log> := [];
    var i: nat := genBlock;
    while i <= lastBlock
      invariant Asked(queries, genBlock, lastBlock, chunk, i)
      invariant Collected(chain, queries, genBlock, all)
      invariant NoneFailed(queries, failed)
      invariant i < UINT64
      decreases lastBlock + 1 - NextBlock(queries, genBlock)
    {
      var final, next, wraps := NextChunk(i, chunk, lastBlock);
      if wraps {
        return Wrapped, queries;
      }
      AskedMore(queries, genBlock, lastBlock, chunk, i, final, next);
      ChunkCollected(chain, queries, genBlock, all, Query(i, final));
      assert (queries + [Query(i, final)])[..|queries|] == queries;
      queries := queries + [Query(i, final)];
      if failed(i) {
        return QueryFailed, queries;
      }
      all := all + Filter(chain, i, final);
      i := next;
    }
    AllCollected(chain, queries, genBlock, lastBlock, chunk, i, all);
    return Logs(all), queries;
  }

  // ------------------------------------------------------------------ intervals

  datatype Version = Version(numBatch: nat, forkID: nat, version: string, blockNumber: nat)

  datatype Interval = Interval(fromBatch: nat, toBatch: nat, forkID: nat, version: string, blockNumber: nat)

  datatype Decoded = Skip | Fail | Is(v: Version)

  /** What one log says about this rollup; `types` looks up the fork id of a rollup type. */
  function Decode(rollupID: nat, types: nat -> Option<nat>, log: Log): Decoded {
    match log.payload
    case Garbled => Fail
    case UpdateZkEVMVersion(numBatch, forkID, version) => Is(Version(numBatch, forkID, version, log.blockNumber))
    case UpdateRollup(id, typeID, lastVerified) =>
      if id != rollupID then Skip
      else if types(typeID).None? then Fail
      else Is(Version(lastVerified, types(typeID).value, "", log.blockNumber))
    case AddExistingRollup(id, forkID, lastVerified) =>
      if id != rollupID then Skip else Is(Version(lastVerified, forkID, "", log.blockNumber))
    case CreateNewRollup(id, typeID) =>
      if id != rollupID then Skip
      else if types(typeID).None? then Fail
      else Is(Version(0, types(typeID).value, "", log.blockNumber))
  }

  /** The result, an error, a read before the first interval (a run-time panic), or a query
      loop that wraps around. */
  datatype Outcome = Forks(forks: seq<Interval>) | Error | Panic | WrapsAround

  function OpenInterval(v: Version): Interval {
    Interval((v.numBatch + 1) % UINT64, MAX_UINT64, v.forkID, v.version, v.blockNumber)
  }

  /** The versions among decoded logs. */
  function Versions(ds: seq<Decoded>): seq<Version> {
    if ds == [] then []
    else Versions(ds[..|ds| - 1]) + if ds[|ds| - 1].Is? then [ds[|ds| - 1].v] else []
  }

  /** Interval j reaches from its own batch number to that of the next version. */
  function IntervalsOf(vs: seq<Version>): (forks: seq<Interval>)
    ensures |forks| == |vs|
  {
    seq(|vs|, j requires 0 <= j < |vs| =>
      OpenInterval(vs[j]).(toBatch := if j + 1 < |vs| then vs[j + 1].numBatch else MAX_UINT64))
  }

  /** The first log of this rollup is not the first log. */
  ghost predicate StartsLate(ds: seq<Decoded>) {
    exists k :: 0 < k < |ds| && ds[k].Is? && forall i :: 0 <= i < k ==> ds[i].Skip?
  }

  ghost predicate HasFail(ds: seq<Decoded>) {
    exists k :: 0 <= k < |ds| && ds[k].Fail?
  }

  /** What the loop over decoded logs comes to, without running it. */
  ghost function Expected(ds: seq<Decoded>): Outcome {
    if StartsLate(ds) then Panic else if HasFail(ds) then Error else Forks(IntervalsOf(Versions(ds)))
  }

  lemma VersionsStep(ds: seq<Decoded>, d: Decoded)
    ensures Versions(ds + [d]) == if d.Is? then Versions(ds) + [d.v] else Versions(ds)
  {
    assert (ds + [d])[..|ds|] == ds;
  }

  lemma IntervalsExtend(vs: seq<Version>, v: Version)
    ensures var forks, last := IntervalsOf(vs), |vs| - 1;
      IntervalsOf(vs + [v]) ==
        (if vs == [] then [] else forks[last := forks[last].(toBatch := v.numBatch)]) + [OpenInterval(v)]
  {
  }

  lemma StartsLateStep(ds: seq<Decoded>, d: Decoded)
    ensures StartsLate(ds + [d]) <==>
      StartsLate(ds) || (ds != [] && d.Is? && forall i :: 0 <= i < |ds| ==> ds[i].Skip?)
  {
    var more := ds + [d];
    if StartsLate(ds) {
      var k :| 0 < k < |ds| && ds[k].Is? && forall i :: 0 <= i < k ==> ds[i].Skip?;
      assert more[k] == ds[k] && forall i :: 0 <= i < k ==> more[i] == ds[i];
    }
    if ds != [] && d.Is? && (forall i :: 0 <= i < |ds| ==> ds[i].Skip?) {
      assert more[|ds|].Is? && forall i :: 0 <= i < |ds| ==> more[i].Skip?;
    }
    if StartsLate(more) {
      var k :| 0 < k < |more| && more[k].Is? && forall i :: 0 <= i < k ==> more[i].Skip?;
      assert forall i :: 0 <= i < k ==> ds[i] == more[i];
      assert k < |ds| ==> ds[k].Is?;
    }
  }

  lemma HasFailStep(ds: seq<Decoded>, d: Decoded)
    ensures HasFail(ds + [d]) <==> HasFail(ds) || d.Fail?
  {
    var more := ds + [d];
    if HasFail(ds) {
      var k :| 0 <= k < |ds| && ds[k].Fail?;
      assert more[k].Fail?;
    }
    if d.Fail? { assert more[|ds|].Fail?; }
    if HasFail(more) {
      var k :| 0 <= k < |more| && more[k].Fail?;
      assert k < |ds| ==> ds[k].Fail?;
    }
  }

  lemma {:induction false} NoVersionsIffSkipped(ds: seq<Decoded>)
    requires !HasFail(ds)
    ensures Versions(ds) == [] <==> forall i :: 0 <= i < |ds| ==> ds[i].Skip?
  {
    if ds != [] {
      var init, d := ds[..|ds| - 1], ds[|ds| - 1];
      assert ds == init + [d];
      HasFailStep(init, d);
      NoVersionsIffSkipped(init);
      if forall i :: 0 <= i < |ds| ==> ds[i].Skip? {
        assert forall i :: 0 <= i < |init| ==> init[i] == ds[i];
      } else {
        assert !d.Is? ==> !forall i :: 0 <= i < |init| ==> init[i].Skip?;
      }
    }
  }

  /** One turn of the interval loop, at log `i`. */
  function Step(i: nat, forks: seq<Interval>, d: Decoded): Outcome {
    match d
    case Skip => Forks(forks)
    case Fail => Error
    case Is(v) =>
      if i == 0 then Forks(forks + [OpenInterval(v)])
      else if forks == [] then Panic
      else
        var last := |forks| - 1;
        Forks(forks[last := forks[last].(toBatch := v.numBatch)] + [OpenInterval(v)])
  }

  lemma StepIsExpected(ds: seq<Decoded>, forks: seq<Interval>, d: Decoded)
    requires Expected(ds) == Forks(forks)
    ensures Expected(ds + [d]) == Step(|ds|, forks, d)
  {
    StartsLateStep(ds, d);
    HasFailStep(ds, d);
    NoVersionsIffSkipped(ds);
    VersionsStep(ds, d);
    if d.Is? {
      IntervalsExtend(Versions(ds), d.v);
    }
  }

  /** After an error or panic nothing that follows changes what is expected. */
  lemma StoppedIsExpected(ds: seq<Decoded>, d: Decoded)
    requires !Expected(ds).Forks?
    ensures Expected(ds + [d]) == Expected(ds)
  {
    StartsLateStep(ds, d);
    HasFailStep(ds, d);
    if HasFail(ds) {
      var i :| 0 <= i < |ds| && ds[i].Fail?;
      assert !ds[i].Skip?;
    }
  }

  /** The loop stops at the first error or panic. */
  function Build(ds: seq<Decoded>): Outcome {
    if ds == [] then Forks([])
    else
      var before := Build(ds[..|ds| - 1]);
      if before.Forks? then Step(|ds| - 1, before.forks, ds[|ds| - 1]) else before
  }

  /** It panics if and only if the first log of this rollup is not the very first log,
      fails if and only if some log fails and it did not panic, and otherwise links each
      version to the next. */
  lemma {:induction false} BuildIsExpected(ds: seq<Decoded>)
    ensures Build(ds) == Expected(ds)
  {
    if ds == [] {
      assert IntervalsOf(Versions(ds)) == [];
    } else {
      var init, d := ds[..|ds| - 1], ds[|ds| - 1];
      assert ds == init + [d];
      BuildIsExpected(init);
      if Build(init).Forks? {
        StepIsExpected(init, Build(init).forks, d);
      } else {
        StoppedIsExpected(init, d);
      }
    }
  }

  /** The first log is that of another rollup, the second our own. */
  lemma LateStartPanics(rollupID: nat, other: nat, types: nat -> Option<nat>)
    requires other != rollupID
    ensures var first, second := Log(1, AddExistingRollup(other, 9, 0)), Log(2, AddExistingRollup(rollupID, 9, 0));
      Build([Decode(rollupID, types, first), Decode(rollupID, types, second)]) == Panic
  {
    var ds := [Skip, Is(Version(0, 9, "", 2))];
    assert ds[..1] == [Skip] && ds[..1][..0] == [];
    assert Build([Skip]) == Forks([]);
  }

  lemma {:induction false} BuildStops(ds: seq<Decoded>, k: nat)
    requires k <= |ds| && !Build(ds[..k]).Forks?
    ensures Build(ds) == Build(ds[..k])
    decreases |ds| - k
  {
    if k == |ds| {
      assert ds[..k] == ds;
    } else {
      assert ds[..k + 1][..k] == ds[..k];
      BuildStops(ds, k + 1);
    }
  }

  method LinkVersions(ds: seq<Decoded>) returns (r: Outcome)
    ensures r == Build(ds)
  {
    var forks: seq<Interval> := [];
    for i := 0 to |ds|
      invariant Build(ds[..i]) == Forks(forks)
    {
      assert ds[..i + 1][..i] == ds[..i];
      match ds[i]
      case Skip =>
        continue;
      case Fail =>
        BuildStops(ds, i + 1);
        return Error;
      case Is(v) =>
        if i == 0 {
          forks := forks + [OpenInterval(v)];
        } else if |forks| == 0 {
          BuildStops(ds, i + 1);
          return Panic;
        } else {
          var last := |forks| - 1;
          forks := forks[last := forks[last].(toBatch := v.numBatch)];
          forks := forks + [OpenInterval(v)];
        }
    }
    assert ds[..|ds|] == ds;
    return Forks(forks);
  }

  /** The interval loop of `GetForks`. */
  method BuildForks(ds: seq<Decoded>) returns (r: Outcome)
    ensures r == Expected(ds)
  {
    BuildIsExpected(ds);
    r := LinkVersions(ds);
  }

  // ------------------------------------------------------------------ partition

  predicate In(f: Interval, b: nat) {
    f.fromBatch <= b <= f.toBatch
  }

  ghost predicate ExactlyOne(forks: seq<Interval>, b: nat) {
    exists j :: 0 <= j < |forks| && In(forks[j], b) && forall i :: 0 <= i < |forks| && In(forks[i], b) ==> i == j
  }

  /** Batch numbers are 64-bit. */
  ghost predicate InRange(vs: seq<Version>) {
    forall j :: 0 <= j < |vs| ==> vs[j].numBatch <= MAX_UINT64
  }

  /** No version after the first is set at the last 64-bit number, whose successor wraps
      to zero, unless the first one is. */
  ghost predicate NeverWraps(vs: seq<Version>)
    requires vs != []
  {
    vs[0].numBatch == MAX_UINT64 || forall j :: 0 <= j < |vs| ==> vs[j].numBatch != MAX_UINT64
  }

  /** From the first version that rises above the first one on, numbers do not fall. */
  ghost predicate NeverFallsBack(vs: seq<Version>) {
    forall j :: 0 <= j < |vs| - 1 && vs[j].numBatch > vs[0].numBatch ==> vs[j].numBatch <= vs[j + 1].numBatch
  }

  lemma InMeans(vs: seq<Version>, j: nat, b: nat)
    requires j < |vs| && vs[j].numBatch < MAX_UINT64 && b <= MAX_UINT64
    ensures In(IntervalsOf(vs)[j], b) <==> vs[j].numBatch < b && (j + 1 < |vs| ==> b <= vs[j + 1].numBatch)
  {
  }

  /** From a version below `b` on, some interval up to `hi` contains `b`, if the numbers
      reach `b` there or end. */
  lemma {:induction false} Crossing(vs: seq<Version>, lo: nat, hi: nat, b: nat) returns (j: nat)
    requires lo < hi <= |vs| && b <= MAX_UINT64
    requires vs[lo].numBatch < b && (hi < |vs| ==> b <= vs[hi].numBatch)
    ensures lo <= j < hi && In(IntervalsOf(vs)[j], b)
    decreases hi - lo
  {
    InMeans(vs, lo, b);
    if In(IntervalsOf(vs)[lo], b) {
      j := lo;
    } else {
      j := Crossing(vs, lo + 1, hi, b);
    }
  }

  /** Between a version at or above `b` and a later one below `b` the numbers fall. */
  lemma {:induction false} Fall(vs: seq<Version>, lo: nat, hi: nat, b: nat) returns (m: nat)
    requires lo < hi < |vs| && vs[lo].numBatch >= b > vs[hi].numBatch
    ensures lo <= m < hi && vs[m].numBatch >= b > vs[m + 1].numBatch
    decreases hi - lo
  {
    if vs[lo + 1].numBatch < b {
      m := lo;
    } else {
      m := Fall(vs, lo + 1, hi, b);
    }
  }

  /** Every batch number after the first version is in some interval, whatever the
      order of the versions. */
  lemma Covered(vs: seq<Version>, b: nat)
    requires vs != [] && vs[0].numBatch < b <= MAX_UINT64
    ensures exists j :: 0 <= j < |vs| && In(IntervalsOf(vs)[j], b)
  {
    var j := Crossing(vs, 0, |vs|, b);
  }

  lemma UniqueIfNeverFallsBack(vs: seq<Version>, b: nat, i: nat, j: nat)
    requires InRange(vs) && NeverFallsBack(vs) && i < j < |vs| && vs[0].numBatch < b <= MAX_UINT64
    requires NeverWraps(vs) && In(IntervalsOf(vs)[i], b)
    ensures !In(IntervalsOf(vs)[j], b)
  {
    InMeans(vs, i, b);
    InMeans(vs, j, b);
    if In(IntervalsOf(vs)[j], b) {
      var m := Fall(vs, i + 1, j, b);
    }
  }

  lemma TwiceIfFallsBack(vs: seq<Version>, m: nat)
    requires InRange(vs) && m + 1 < |vs| && vs[0].numBatch < vs[m].numBatch && vs[m + 1].numBatch < vs[m].numBatch
    ensures !ExactlyOne(IntervalsOf(vs), vs[m].numBatch)
  {
    var b := vs[m].numBatch;
    var i := Crossing(vs, 0, m, b);
    var j := Crossing(vs, m + 1, |vs|, b);
    assert In(IntervalsOf(vs)[i], b) && In(IntervalsOf(vs)[j], b) && i != j;
  }

  /** Versions at batches 0, 10 and 5: batch 10 is in the first interval and in the third. */
  lemma FallBackOverlaps()
    ensures var vs := [Version(0, 1, "", 1), Version(10, 2, "", 2), Version(5, 3, "", 3)];
      In(IntervalsOf(vs)[0], 10) && In(IntervalsOf(vs)[2], 10) && !ExactlyOne(IntervalsOf(vs), 10)
  {
    var vs := [Version(0, 1, "", 1), Version(10, 2, "", 2), Version(5, 3, "", 3)];
    InMeans(vs, 0, 10);
    InMeans(vs, 2, 10);
    TwiceIfFallsBack(vs, 1);
  }

  /** A version at the last 64-bit number opens an interval from zero on. */
  lemma WrappedMeans(vs: seq<Version>, j: nat, b: nat)
    requires j < |vs| && vs[j].numBatch == MAX_UINT64 && b <= MAX_UINT64
    ensures In(IntervalsOf(vs)[j], b) <==> (j + 1 < |vs| ==> b <= vs[j + 1].numBatch)
  {
    assert (MAX_UINT64 + 1) % UINT64 == 0;
  }

  lemma TwiceIfWraps(vs: seq<Version>, m: nat)
    requires InRange(vs) && m < |vs| && vs[0].numBatch < vs[m].numBatch == MAX_UINT64
    ensures !ExactlyOne(IntervalsOf(vs), vs[0].numBatch + 1)
  {
    var b := vs[0].numBatch + 1;
    var j := m;
    var i := Crossing(vs, 0, m, b);
    if m + 1 < |vs| && vs[m + 1].numBatch < b {
      j := Crossing(vs, m + 1, |vs|, b);
    } else {
      WrappedMeans(vs, m, b);
    }
    assert In(IntervalsOf(vs)[i], b) && In(IntervalsOf(vs)[j], b) && i != j;
  }

  /** The intervals place every batch number from the first one to the largest in exactly
      one interval, if and only if the versions never fall back and never wrap. */
  lemma PartitionIff(vs: seq<Version>)
    requires InRange(vs) && vs != []
    ensures (forall b :: vs[0].numBatch < b <= MAX_UINT64 ==> ExactlyOne(IntervalsOf(vs), b))
       <==> NeverFallsBack(vs) && NeverWraps(vs)
  {
    var forks := IntervalsOf(vs);
    if !NeverWraps(vs) {
      var m :| 0 <= m < |vs| && vs[m].numBatch == MAX_UINT64;
      TwiceIfWraps(vs, m);
    } else if !NeverFallsBack(vs) {
      var m :| 0 <= m < |vs| - 1 && vs[m].numBatch > vs[0].numBatch && vs[m].numBatch > vs[m + 1].numBatch;
      TwiceIfFallsBack(vs, m);
    } else {
      forall b | vs[0].numBatch < b <= MAX_UINT64 ensures ExactlyOne(forks, b) {
        var j := Crossing(vs, 0, |vs|, b);
        forall i | 0 <= i < |forks| && In(forks[i], b) ensures i == j {
          if i < j { UniqueIfNeverFallsBack(vs, b, i, j); }
          if j < i { UniqueIfNeverFallsBack(vs, b, j, i); }
        }
      }
    }
  }

  function DecodeAll(rollupID: nat, types: nat -> Option<nat>, logs: seq<Log>): (ds: seq<Decoded>)
    ensures |ds| == |logs|
  {
    seq(|logs|, i requires 0 <= i < |logs| => Decode(rollupID, types, logs[i]))
  }

  // ----------------------------------------------------- in terms of the logs

  /** The log is about this rollup. */
  predicate Concerns(rollupID: nat, log: Log) {
    match log.payload
    case UpdateZkEVMVersion(_, _, _) => true
    case UpdateRollup(id, _, _) => id == rollupID
    case AddExistingRollup(id, _, _) => id == rollupID
    case CreateNewRollup(id, _) => id == rollupID
    case Garbled => false
  }

  /** The log cannot be parsed, or names a rollup type that cannot be looked up. */
  predicate Unreadable(rollupID: nat, types: nat -> Option<nat>, log: Log) {
    || log.payload.Garbled?
    || (log.payload.UpdateRollup? && log.payload.rollupID == rollupID && types(log.payload.newTypeID).None?)
    || (log.payload.CreateNewRollup? && log.payload.rollupID == rollupID && types(log.payload.typeID).None?)
  }

  /** The last batch before the one the log sets a fork id for. */
  function Batch(log: Log): nat {
    match log.payload
    case UpdateZkEVMVersion(numBatch, _, _) => numBatch
    case UpdateRollup(_, _, lastVerified) => lastVerified
    case AddExistingRollup(_, _, lastVerified) => lastVerified
    case CreateNewRollup(_, _) => 0
    case Garbled => 0
  }

  /** The logs about this rollup, in order. */
  function Own(rollupID: nat, logs: seq<Log>): seq<Log> {
    if logs == [] then []
    else
      var log := logs[|logs| - 1];
      Own(rollupID, logs[..|logs| - 1]) + if Concerns(rollupID, log) then [log] else []
  }

  /** An interval is that of a log: it begins after the log's batch, and its fork id is the
      one the event carries, or that of the rollup type the event names. */
  predicate SaysFork(types: nat -> Option<nat>, log: Log, f: Interval) {
    && f.blockNumber == log.blockNumber
    && f.fromBatch == (Batch(log) + 1) % UINT64
    && match log.payload
       case UpdateZkEVMVersion(_, forkID, version) => f.forkID == forkID && f.version == version
       case UpdateRollup(_, newTypeID, _) => types(newTypeID) == Some(f.forkID) && f.version == ""
       case AddExistingRollup(_, forkID, _) => f.forkID == forkID && f.version == ""
       case CreateNewRollup(_, typeID) => types(typeID) == Some(f.forkID) && f.version == ""
       case Garbled => false
  }

  predicate DescribesAt(types: nat -> Option<nat>, own: seq<Log>, f: Interval, j: nat)
    requires j < |own|
  {
    SaysFork(types, own[j], f) && f.toBatch == if j + 1 < |own| then Batch(own[j + 1]) else MAX_UINT64
  }

  /** One interval for every log of this rollup, each up to the batch of the next one. */
  ghost predicate Describes(rollupID: nat, types: nat -> Option<nat>, logs: seq<Log>, forks: seq<Interval>) {
    var own := Own(rollupID, logs);
    |forks| == |own| && forall j :: 0 <= j < |own| ==> DescribesAt(types, own, forks[j], j)
  }

  /** The first log about this rollup is not the very first log, and all before it can be read. */
  ghost predicate LateStart(rollupID: nat, types: nat -> Option<nat>, logs: seq<Log>) {
    exists k :: 0 < k < |logs|
      && Concerns(rollupID, logs[k]) && !Unreadable(rollupID, types, logs[k])
      && forall i :: 0 <= i < k ==> !Concerns(rollupID, logs[i]) && !Unreadable(rollupID, types, logs[i])
  }

  /** What to answer for the logs of a range. */
  ghost predicate Answers(rollupID: nat, types: nat -> Option<nat>, logs: seq<Log>, r: Outcome) {
    if LateStart(rollupID, types, logs) then r == Panic
    else if exists k :: 0 <= k < |logs| && Unreadable(rollupID, types, logs[k]) then r == Error
    else r.Forks? && Describes(rollupID, types, logs, r.forks)
  }

  /** A version is that of a log. */
  predicate SaysVersion(types: nat -> Option<nat>, log: Log, v: Version) {
    v.numBatch == Batch(log) && SaysFork(types, log, OpenInterval(v))
  }

  lemma DecodeMeans(rollupID: nat, types: nat -> Option<nat>, log: Log)
    ensures var d := Decode(rollupID, types, log);
      && (d.Fail? <==> Unreadable(rollupID, types, log))
      && (d.Is? <==> Concerns(rollupID, log) && !Unreadable(rollupID, types, log))
      && (d.Is? ==> SaysVersion(types, log, d.v))
  {
  }

  lemma DecodeAllStep(rollupID: nat, types: nat -> Option<nat>, logs: seq<Log>)
    requires logs != []
    ensures var init, log := logs[..|logs| - 1], logs[|logs| - 1];
      DecodeAll(rollupID, types, logs) == DecodeAll(rollupID, types, init) + [Decode(rollupID, types, log)]
  {
  }

  ghost predicate SayVersions(types: nat -> Option<nat>, own: seq<Log>, vs: seq<Version>) {
    |vs| == |own| && forall j :: 0 <= j < |vs| ==> SaysVersion(types, own[j], vs[j])
  }

  lemma {:induction false} OwnVersions(rollupID: nat, types: nat -> Option<nat>, logs: seq<Log>)
    requires forall k :: 0 <= k < |logs| ==> !Unreadable(rollupID, types, logs[k])
    ensures SayVersions(types, Own(rollupID, logs), Versions(DecodeAll(rollupID, types, logs)))
  {
    if logs != [] {
      var init, log := logs[..|logs| - 1], logs[|logs| - 1];
      assert forall k :: 0 <= k < |init| ==> init[k] == logs[k];
      OwnVersions(rollupID, types, init);
      DecodeMeans(rollupID, types, log);
      DecodeAllStep(rollupID, types, logs);
      VersionsStep(DecodeAll(rollupID, types, init), Decode(rollupID, types, log));
    }
  }

  lemma VersionDescribes(types: nat -> Option<nat>, own: seq<Log>, vs: seq<Version>, j: nat)
    requires j < |own| == |vs| && SaysVersion(types, own[j], vs[j])
    requires j + 1 < |own| ==> vs[j + 1].numBatch == Batch(own[j + 1])
    ensures DescribesAt(types, own, IntervalsOf(vs)[j], j)
  {
  }

  lemma VersionsDescribe(rollupID: nat, types: nat -> Option<nat>, logs: seq<Log>, vs: seq<Version>)
    requires SayVersions(types, Own(rollupID, logs), vs)
    ensures Describes(rollupID, types, logs, IntervalsOf(vs))
  {
    var own := Own(rollupID, logs);
    forall j | 0 <= j < |own| ensures DescribesAt(types, own, IntervalsOf(vs)[j], j) {
      assert j + 1 < |own| ==> SaysVersion(types, own[j + 1], vs[j + 1]);
      VersionDescribes(types, own, vs, j);
    }
  }

  lemma LateStartMeans(rollupID: nat, types: nat -> Option<nat>, logs: seq<Log>, ds: seq<Decoded>)
    requires |ds| == |logs|
    requires forall k :: 0 <= k < |logs| ==>
      && (ds[k].Fail? <==> Unreadable(rollupID, types, logs[k]))
      && (ds[k].Is? <==> Concerns(rollupID, logs[k]) && !Unreadable(rollupID, types, logs[k]))
    ensures LateStart(rollupID, types, logs) <==> StartsLate(ds)
  {
    if StartsLate(ds) {
      var k :| 0 < k < |ds| && ds[k].Is? && forall i :: 0 <= i < k ==> ds[i].Skip?;
      assert forall i :: 0 <= i < k ==>
        ds[i].Skip? && !Concerns(rollupID, logs[i]) && !Unreadable(rollupID, types, logs[i]);
    }
    if LateStart(rollupID, types, logs) {
      var k :| 0 < k < |logs|
        && Concerns(rollupID, logs[k]) && !Unreadable(rollupID, types, logs[k])
        && forall i :: 0 <= i < k ==> !Concerns(rollupID, logs[i]) && !Unreadable(rollupID, types, logs[i]);
      assert ds[k].Is? && forall i :: 0 <= i < k ==> ds[i].Skip?;
    }
  }

  /** What is expected of the decoded logs is the answer for the logs. */
  lemma ExpectedAnswers(rollupID: nat, types: nat -> Option<nat>, logs: seq<Log>)
    ensures Answers(rollupID, types, logs, Expected(DecodeAll(rollupID, types, logs)))
  {
    var ds := DecodeAll(rollupID, types, logs);
    forall k | 0 <= k < |logs|
      ensures ds[k].Fail? <==> Unreadable(rollupID, types, logs[k])
      ensures ds[k].Is? <==> Concerns(rollupID, logs[k]) && !Unreadable(rollupID, types, logs[k])
    {
      DecodeMeans(rollupID, types, logs[k]);
    }
    LateStartMeans(rollupID, types, logs, ds);
    if !LateStart(rollupID, types, logs) {
      if exists k :: 0 <= k < |logs| && Unreadable(rollupID, types, logs[k]) {
        var k :| 0 <= k < |logs| && Unreadable(rollupID, types, logs[k]);
        assert ds[k].Fail?;
      } else {
        OwnVersions(rollupID, types, logs);
        VersionsDescribe(rollupID, types, logs, Versions(ds));
      }
    }
  }

  /** The batch numbers of the logs about this rollup never fall back or wrap. */
  ghost predicate Orderly(own: seq<Log>)
    requires own != []
  {
    && (forall j :: 0 <= j < |own| ==> Batch(own[j]) <= MAX_UINT64)
    && (forall j :: 0 <= j < |own| - 1 && Batch(own[j]) > Batch(own[0]) ==> Batch(own[j]) <= Batch(own[j + 1]))
    && (Batch(own[0]) == MAX_UINT64 || forall j :: 0 <= j < |own| ==> Batch(own[j]) != MAX_UINT64)
  }

  lemma {:induction false} StaysAbove(own: seq<Log>, lo: nat, hi: nat, b: nat)
    requires lo <= hi < |own| && Orderly(own) && Batch(own[0]) < b <= Batch(own[lo])
    ensures b <= Batch(own[hi])
    decreases hi
  {
    if lo < hi { StaysAbove(own, lo, hi - 1, b); }
  }

  /** Then a batch has the fork id of the last log about this rollup that is set below it. */
  lemma ForkOfBatch(rollupID: nat, types: nat -> Option<nat>, logs: seq<Log>, forks: seq<Interval>, b: nat, j: nat)
    requires Describes(rollupID, types, logs, forks) && j < |forks|
    requires Orderly(Own(rollupID, logs)) && Batch(Own(rollupID, logs)[0]) < b <= MAX_UINT64
    ensures var own := Own(rollupID, logs);
      In(forks[j], b) <==> Batch(own[j]) < b && forall i :: j < i < |own| ==> b <= Batch(own[i])
  {
    var own := Own(rollupID, logs);
    assert DescribesAt(types, own, forks[j], j);
    assert Batch(own[j]) < MAX_UINT64 && forks[j].fromBatch == Batch(own[j]) + 1;
    if In(forks[j], b) {
      forall i | j < i < |own| ensures b <= Batch(own[i]) {
        StaysAbove(own, j + 1, i, b);
      }
    } else if Batch(own[j]) < b && j + 1 < |own| {
      assert !(b <= Batch(own[j + 1]));
    }
  }

  /** `GetForks`: the chunked query, then the intervals of the decoded logs. Anything but
      the answer for the logs of the range is due to a query that was asked and failed, or
      to a turn whose chunk exceeds 64 bits. */
  method GetForks(chain: seq<Log>, rollupID: nat, types: nat -> Option<nat>,
                  genBlock: nat, lastBlock: nat, chunk: nat, failed: nat -> bool)
    returns (r: Outcome, queries: seq<Query>)
    requires SortedByBlock(chain)
    requires genBlock < UINT64 && lastBlock < UINT64 && chunk < UINT64
    ensures Tiles(queries, genBlock, lastBlock, chunk)
    ensures
      if !NoneFailed(queries, failed) then
        && r == Error && queries != [] && failed(queries[|queries| - 1].from)
        && NoneFailed(queries[..|queries| - 1], failed)
      else if Wraps(genBlock, lastBlock, chunk) then r == WrapsAround
      else Answers(rollupID, types, Filter(chain, genBlock, lastBlock), r)
  {
    var queried;
    queried, queries := QueryLogs(chain, genBlock, lastBlock, chunk, failed);
    match queried
    case QueryFailed => r := Error;
    case Wrapped => r := WrapsAround;
    case Logs(logs) =>
      ExpectedAnswers(rollupID, types, logs);
      r := BuildForks(DecodeAll(rollupID, types, logs));
  }
}
