/** Reading L1 events: logs are sorted into one array per kind inside their block, and
    a list of (kind, position) pairs per block hash keeps their order for replay. */
module EventOrder {
  import opened Basics

  type Hash = nat

  datatype EventName =
    | GlobalExitRootsOrder
    | L1InfoTreeOrder
    | SequenceBatchesOrder
    | ForcedBatchesOrder
    | TrustedVerifyBatchOrder
    | VerifyBatchOrder
    | SequenceForceBatchesOrder
    | ForkIDsOrder

  datatype Order = Order(name: EventName, pos: nat)

  /** The part of an L1 block that the handlers need. */
  datatype Header = Header(parentHash: Hash, time: int)

  /** A decoded event as stored in its array; only L1 info tree entries also copy the
      header of the block they sit in. */
  datatype Entry = Entry(body: nat, header: Option<Header>)

  /** A log: its block and what its topic and decoding come to. */
  datatype Parsed = Ignored | DecodeError | Handled(name: EventName, body: nat)
  datatype Log = Log(blockNumber: nat, blockHash: Hash, parsed: Parsed)

  /** The slices of a block. */
  datatype ArrayName =
    | ForcedBatches | SequencedBatches | VerifiedBatches | SequencedForceBatches
    | ForkIDs | GlobalExitRoots | L1InfoTree

  /** The slice an event kind goes to; both kinds of verification share one. */
  function ArrayOf(name: EventName): ArrayName {
    match name
    case GlobalExitRootsOrder => GlobalExitRoots
    case L1InfoTreeOrder => L1InfoTree
    case SequenceBatchesOrder => SequencedBatches
    case ForcedBatchesOrder => ForcedBatches
    case TrustedVerifyBatchOrder => VerifiedBatches
    case VerifyBatchOrder => VerifiedBatches
    case SequenceForceBatchesOrder => SequencedForceBatches
    case ForkIDsOrder => ForkIDs
  }

  /** A block with its slices; a slice that was never written is empty. */
  datatype Block = Block(
    blockNumber: nat, blockHash: Hash, parentHash: Hash, receivedAt: int, arrays: map<ArrayName, seq<Entry>>)
  {
    function Entries(name: EventName): seq<Entry> {
      if ArrayOf(name) in arrays then arrays[ArrayOf(name)] else []
    }

    function Append(name: EventName, e: Entry): Block {
      this.(arrays := arrays[ArrayOf(name) := Entries(name) + [e]])
    }
  }

  function PrepareBlock(log: Log, h: Header): Block {
    Block(log.blockNumber, log.blockHash, h.parentHash, h.time, map[])
  }

  type Headers = Hash -> Option<Header>

  function OrdersIn(orders: map<Hash, seq<Order>>, h: Hash): seq<Order> {
    if h in orders then orders[h] else []
  }

  datatype Read = Read(blocks: seq<Block>, orders: map<Hash, seq<Order>>)
  {
    function OrdersOf(h: Hash): seq<Order> {
      OrdersIn(orders, h)
    }

    /** The last block is the one of this log. */
    predicate AtHead(log: Log) {
      && blocks != []
      && blocks[|blocks| - 1].blockHash == log.blockHash && blocks[|blocks| - 1].blockNumber == log.blockNumber
    }
  }

  // ------------------------------------------------------------------ one event

  /** The entry of an event in the block it is filed in. */
  function EntryFor(head: Block, name: EventName, body: nat): Entry {
    Entry(body, if name == L1InfoTreeOrder then Some(Header(head.parentHash, head.receivedAt)) else None)
  }

  /** Files a handled event in the block at the head. */
  function File(r: Read, name: EventName, body: nat): Read
    requires r.blocks != []
  {
    var last := |r.blocks| - 1;
    var head := r.blocks[last];
    var filed := head.Append(name, EntryFor(head, name, body));
    var order := Order(name, |filed.Entries(name)| - 1);
    Read(r.blocks[last := filed], r.orders[head.blockHash := r.OrdersOf(head.blockHash) + [order]])
  }

  /** The reading with the block of the log at its head; `None` if that block has to be
      fetched and cannot be. */
  function Open(headers: Headers, r: Read, log: Log): Option<Read> {
    if r.AtHead(log) then Some(r)
    else
      var h := headers(log.blockHash);
      if h.None? then None else Some(Read(r.blocks + [PrepareBlock(log, h.value)], r.orders))
  }

  /** `processEvent`; `None` is an error. */
  function Process(headers: Headers, r: Read, log: Log): Option<Read> {
    match log.parsed
    case Ignored => Some(r)
    case DecodeError => None
    case Handled(name, body) =>
      var at := Open(headers, r, log);
      if at.None? || at.value.blocks == [] then None else Some(File(at.value, name, body))
  }

  function ReadAll(headers: Headers, logs: seq<Log>): Option<Read> {
    if logs == [] then Some(Read([], map[]))
    else
      var before := ReadAll(headers, logs[..|logs| - 1]);
      if before.None? then None else Process(headers, before.value, logs[|logs| - 1])
  }

  // --------------------------------------------------------------------- replay

  /** An event as the synchronizer sees it. */
  datatype Event = Event(blockNumber: nat, blockHash: Hash, name: EventName, entry: Entry)

  function Resolve(b: Block, o: Order): Option<Event> {
    var entries := b.Entries(o.name);
    if o.pos < |entries| then Some(Event(b.blockNumber, b.blockHash, o.name, entries[o.pos])) else None
  }

  function ResolveAll(b: Block, os: seq<Order>): (es: seq<Option<Event>>)
    ensures |es| == |os|
  {
    seq(|os|, i requires 0 <= i < |os| => Resolve(b, os[i]))
  }

  /** Walk the blocks and resolve the orders kept under each block's hash. */
  function Replay(blocks: seq<Block>, orders: map<Hash, seq<Order>>): seq<Option<Event>> {
    if blocks == [] then []
    else
      var b := blocks[|blocks| - 1];
      Replay(blocks[..|blocks| - 1], orders) + ResolveAll(b, OrdersIn(orders, b.blockHash))
  }

  /** The event a handled log carries. */
  function EventOf(headers: Headers, log: Log): Event
    requires log.parsed.Handled?
  {
    Event(log.blockNumber, log.blockHash, log.parsed.name,
          Entry(log.parsed.body, if log.parsed.name == L1InfoTreeOrder then headers(log.blockHash) else None))
  }

  /** The events the logs carry, in log order. */
  function HandledEvents(headers: Headers, logs: seq<Log>): seq<Event> {
    if logs == [] then []
    else
      var log := logs[|logs| - 1];
      HandledEvents(headers, logs[..|logs| - 1]) + if log.parsed.Handled? then [EventOf(headers, log)] else []
  }

  function Somes(es: seq<Event>): (s: seq<Option<Event>>)
    ensures |s| == |es| && forall i :: 0 <= i < |es| ==> s[i] == Some(es[i])
  {
    seq(|es|, i requires 0 <= i < |es| => Some(es[i]))
  }

  predicate SameBlock(a: Event, b: Event) {
    a.blockHash == b.blockHash && a.blockNumber == b.blockNumber
  }

  ghost predicate NewHash(es: seq<Event>, h: Hash) {
    forall j :: 0 <= j < |es| ==> es[j].blockHash != h
  }

  /** Every event continues the block of the one before it or opens a block whose hash
      has not occurred yet. */
  ghost predicate Grouped(es: seq<Event>) {
    forall i :: 1 <= i < |es| ==> SameBlock(es[i - 1], es[i]) || NewHash(es[..i], es[i].blockHash)
  }

  // ------------------------------------------------------------------ invariant

  ghost predicate DistinctHashes(blocks: seq<Block>) {
    forall i, j :: 0 <= i < j < |blocks| ==> blocks[i].blockHash != blocks[j].blockHash
  }

  ghost predicate HasHash(blocks: seq<Block>, h: Hash) {
    exists i :: 0 <= i < |blocks| && blocks[i].blockHash == h
  }

  /** The head block is that of the last event. */
  ghost predicate HeadFits(r: Read, es: seq<Event>) {
    && (r.blocks == [] <==> es == [])
    && (es != [] ==>
          var b, e := r.blocks[|r.blocks| - 1], es[|es| - 1];
          b.blockHash == e.blockHash && b.blockNumber == e.blockNumber)
  }

  /** Every block carries its header and has at least one order. */
  ghost predicate BlocksFit(headers: Headers, r: Read) {
    forall i :: 0 <= i < |r.blocks| ==>
      && headers(r.blocks[i].blockHash) == Some(Header(r.blocks[i].parentHash, r.blocks[i].receivedAt))
      && OrdersIn(r.orders, r.blocks[i].blockHash) != []
  }

  /** The hashes of the orders, of the blocks and of the events are the same. */
  ghost predicate HashesFit(r: Read, es: seq<Event>) {
    && (forall h :: h in r.orders ==> HasHash(r.blocks, h))
    && (forall h :: HasHash(r.blocks, h) <==> !NewHash(es, h))
  }

  /** What reading the events `es` has built, grouped or not. */
  ghost predicate Built(headers: Headers, r: Read, es: seq<Event>) {
    HeadFits(r, es) && BlocksFit(headers, r) && HashesFit(r, es)
  }

  // Block structure of one filing.

  lemma AppendEntries(b: Block, name: EventName, e: Entry, other: EventName)
    ensures var b' := b.Append(name, e);
      && b.Entries(other) <= b'.Entries(other)
      && b'.Entries(name) == b.Entries(name) + [e]
      && b'.blockHash == b.blockHash && b'.blockNumber == b.blockNumber
      && b'.parentHash == b.parentHash && b'.receivedAt == b.receivedAt
  {
  }

  /** Filing keeps what an order resolved to, and the new order resolves to the entry. */
  lemma ResolveAfterAppend(b: Block, name: EventName, e: Entry, os: seq<Order>, es: seq<Event>)
    requires ResolveAll(b, os) == Somes(es)
    ensures var b' := b.Append(name, e);
      var o := Order(name, |b'.Entries(name)| - 1);
      ResolveAll(b', os + [o]) == Somes(es + [Event(b.blockNumber, b.blockHash, name, e)])
  {
    var b' := b.Append(name, e);
    var os', es' := os + [Order(name, |b'.Entries(name)| - 1)], es + [Event(b.blockNumber, b.blockHash, name, e)];
    AppendEntries(b, name, e, name);
    forall i | 0 <= i < |os'| ensures Resolve(b', os'[i]) == Some(es'[i]) {
      if i < |os| {
        AppendEntries(b, name, e, os[i].name);
        assert ResolveAll(b, os)[i] == Somes(es)[i];
      }
    }
  }

  /** Replay does not look at orders of other hashes. */
  lemma {:induction false} ReplayFrame(blocks: seq<Block>, a: map<Hash, seq<Order>>, b: map<Hash, seq<Order>>)
    requires forall i :: 0 <= i < |blocks| ==> OrdersIn(a, blocks[i].blockHash) == OrdersIn(b, blocks[i].blockHash)
    ensures Replay(blocks, a) == Replay(blocks, b)
  {
    if blocks != [] {
      ReplayFrame(blocks[..|blocks| - 1], a, b);
    }
  }

  function CountHash(blocks: seq<Block>, h: Hash): nat {
    if blocks == [] then 0
    else CountHash(blocks[..|blocks| - 1], h) + if blocks[|blocks| - 1].blockHash == h then 1 else 0
  }

  lemma {:induction false} CountPositive(blocks: seq<Block>, h: Hash, i: nat)
    requires i < |blocks| && blocks[i].blockHash == h
    ensures CountHash(blocks, h) > 0
  {
    if i < |blocks| - 1 { CountPositive(blocks[..|blocks| - 1], h, i); }
  }

  /** One more order under a hash is replayed once for every block with that hash. */
  lemma {:induction false} ReplayGrows(blocks: seq<Block>, orders: map<Hash, seq<Order>>, h: Hash, o: Order)
    ensures |Replay(blocks, orders[h := OrdersIn(orders, h) + [o]])| == |Replay(blocks, orders)| + CountHash(blocks, h)
  {
    if blocks != [] {
      ReplayGrows(blocks[..|blocks| - 1], orders, h, o);
    }
  }

  /** The length of a replay depends on the hashes of the blocks only. */
  lemma {:induction false} ReplayLength(a: seq<Block>, b: seq<Block>, orders: map<Hash, seq<Order>>)
    requires |a| == |b| && forall i :: 0 <= i < |a| ==> a[i].blockHash == b[i].blockHash
    ensures |Replay(a, orders)| == |Replay(b, orders)|
  {
    if a != [] {
      ReplayLength(a[..|a| - 1], b[..|b| - 1], orders);
    }
  }

  // ------------------------------------------------------------- one step, cases

  function Filed(r: Read, name: EventName, body: nat): Event
    requires r.blocks != []
  {
    var head := r.blocks[|r.blocks| - 1];
    Event(head.blockNumber, head.blockHash, name, EntryFor(head, name, body))
  }

  lemma SplitSomes(es: seq<Event>, a: seq<Option<Event>>, b: seq<Option<Event>>)
    requires a + b == Somes(es)
    ensures |a| <= |es| && a == Somes(es[..|a|]) && b == Somes(es[|a|..])
  {
    assert a == (a + b)[..|a|] && b == (a + b)[|a|..];
  }

  lemma JoinSomes(es: seq<Event>, n: nat, e: Event)
    requires n <= |es|
    ensures Somes(es[..n]) + Somes(es[n..] + [e]) == Somes(es + [e])
  {
  }

  lemma ReplayLast(init: seq<Block>, b: Block, orders: map<Hash, seq<Order>>)
    ensures Replay(init + [b], orders) == Replay(init, orders) + ResolveAll(b, OrdersIn(orders, b.blockHash))
  {
    assert (init + [b])[..|init|] == init;
  }

  /** One more entry and order for the last block. */
  lemma ReplayWith(init: seq<Block>, head: Block, orders: map<Hash, seq<Order>>,
                   name: EventName, e: Entry, es: seq<Event>)
    requires Replay(init + [head], orders) == Somes(es)
    requires forall i :: 0 <= i < |init| ==> init[i].blockHash != head.blockHash
    ensures var head' := head.Append(name, e);
      var o := Order(name, |head'.Entries(name)| - 1);
      var orders' := orders[head.blockHash := OrdersIn(orders, head.blockHash) + [o]];
      Replay(init + [head'], orders') == Somes(es + [Event(head.blockNumber, head.blockHash, name, e)])
  {
    var head' := head.Append(name, e);
    var os := OrdersIn(orders, head.blockHash);
    var o := Order(name, |head'.Entries(name)| - 1);
    var orders' := orders[head.blockHash := os + [o]];
    ReplayLast(init, head, orders);
    ReplayLast(init, head', orders');
    ReplayFrame(init, orders, orders');
    var before := Replay(init, orders);
    SplitSomes(es, before, ResolveAll(head, os));
    ResolveAfterAppend(head, name, e, os, es[|before|..]);
    JoinSomes(es, |before|, Event(head.blockNumber, head.blockHash, name, e));
  }

  /** Faithful so far, or replaying too much. */
  ghost predicate Faithful(r: Read, es: seq<Event>) {
    DistinctHashes(r.blocks) && Replay(r.blocks, r.orders) == Somes(es)
  }

  ghost predicate Overlong(r: Read, es: seq<Event>) {
    !DistinctHashes(r.blocks) && |Replay(r.blocks, r.orders)| > |es|
  }

  lemma SameHashes(a: seq<Block>, b: seq<Block>)
    requires |a| == |b| && forall i :: 0 <= i < |a| ==> a[i].blockHash == b[i].blockHash
    ensures DistinctHashes(a) <==> DistinctHashes(b)
  {
  }

  /** Filing makes the replay longer by at least one event. */
  lemma FileGrows(r: Read, name: EventName, body: nat)
    requires r.blocks != []
    ensures var r' := File(r, name, body);
      && |Replay(r'.blocks, r'.orders)| > |Replay(r.blocks, r.orders)|
      && (DistinctHashes(r'.blocks) <==> DistinctHashes(r.blocks))
  {
    var r', n := File(r, name, body), |r.blocks| - 1;
    var head := r.blocks[n];
    var o := Order(name, |r'.blocks[n].Entries(name)| - 1);
    assert forall i :: 0 <= i < |r.blocks| ==> r'.blocks[i].blockHash == r.blocks[i].blockHash;
    SameHashes(r'.blocks, r.blocks);
    ReplayLength(r'.blocks, r.blocks, r'.orders);
    ReplayGrows(r.blocks, r.orders, head.blockHash, o);
    CountPositive(r.blocks, head.blockHash, n);
  }

  /** Filing at the head of a faithful reading extends the replay by exactly this event. */
  lemma FileFaithful(r: Read, es: seq<Event>, name: EventName, body: nat)
    requires r.blocks != [] && Faithful(r, es)
    ensures Faithful(File(r, name, body), es + [Filed(r, name, body)])
  {
    var r', n := File(r, name, body), |r.blocks| - 1;
    var init, head := r.blocks[..n], r.blocks[n];
    assert r.blocks == init + [head];
    assert r'.blocks == init + [head.Append(name, EntryFor(head, name, body))];
    ReplayWith(init, head, r.orders, name, EntryFor(head, name, body), es);
    FileGrows(r, name, body);
  }

  /** Opening a block with a fresh hash adds nothing to the replay. */
  lemma OpenFresh(r: Read, b: Block)
    requires b.blockHash !in r.orders
    ensures Replay(r.blocks + [b], r.orders) == Replay(r.blocks, r.orders)
  {
    assert (r.blocks + [b])[..|r.blocks|] == r.blocks;
    assert ResolveAll(b, []) == [];
  }

  lemma DistinctWith(blocks: seq<Block>, b: Block)
    ensures DistinctHashes(blocks + [b]) <==> DistinctHashes(blocks) && !HasHash(blocks, b.blockHash)
  {
    var more := blocks + [b];
    if DistinctHashes(more) {
      forall i | 0 <= i < |blocks| ensures blocks[i].blockHash != b.blockHash {
        assert more[i] == blocks[i] && more[|blocks|] == b;
      }
      forall i, j | 0 <= i < j < |blocks| ensures blocks[i].blockHash != blocks[j].blockHash {
        assert more[i] == blocks[i] && more[j] == blocks[j];
      }
    }
  }

  lemma OpenShape(headers: Headers, r: Read, log: Log)
    requires Open(headers, r, log).Some?
    ensures var r1 := Open(headers, r, log).value;
      && r1.blocks != [] && r1.orders == r.orders && r1.AtHead(log)
      && (r1.blocks == r.blocks || (|r1.blocks| == |r.blocks| + 1 && r1.blocks[..|r.blocks|] == r.blocks))
  {
  }

  lemma OpenKeeps(headers: Headers, r: Read, es: seq<Event>, log: Log)
    requires Built(headers, r, es) && Open(headers, r, log).Some?
    requires Faithful(r, es) || Overlong(r, es)
    ensures var r1 := Open(headers, r, log).value;
      if Faithful(r, es) && (r.AtHead(log) || NewHash(es, log.blockHash)) then Faithful(r1, es) else Overlong(r1, es)
  {
    if !r.AtHead(log) {
      var b, h := PrepareBlock(log, headers(log.blockHash).value), log.blockHash;
      DistinctWith(r.blocks, b);
      ReplayLast(r.blocks, b, r.orders);
      if NewHash(es, h) {
        assert !HasHash(r.blocks, h);
        OpenFresh(r, b);
      } else {
        assert HasHash(r.blocks, h);
        var i :| 0 <= i < |r.blocks| && r.blocks[i].blockHash == h;
        assert OrdersIn(r.orders, r.blocks[i].blockHash) != [];
      }
    }
  }

  /** Filing keeps a faithful reading faithful and an overlong one overlong. */
  lemma FileKeeps(r1: Read, es: seq<Event>, name: EventName, body: nat)
    requires r1.blocks != []
    ensures Faithful(r1, es) ==> Faithful(File(r1, name, body), es + [Filed(r1, name, body)])
    ensures Overlong(r1, es) ==> Overlong(File(r1, name, body), es + [Filed(r1, name, body)])
  {
    if Faithful(r1, es) {
      FileFaithful(r1, es, name, body);
    }
    FileGrows(r1, name, body);
  }

  lemma OpenHeader(headers: Headers, r: Read, log: Log)
    requires BlocksFit(headers, r) && Open(headers, r, log).Some?
    ensures var r1 := Open(headers, r, log).value;
      forall i :: 0 <= i < |r1.blocks| ==>
        headers(r1.blocks[i].blockHash) == Some(Header(r1.blocks[i].parentHash, r1.blocks[i].receivedAt))
  {
  }

  /** The event filed is the one the log carries. */
  lemma FiledIsHandled(headers: Headers, r: Read, es: seq<Event>, log: Log)
    requires Built(headers, r, es) && log.parsed.Handled? && Open(headers, r, log).Some?
    requires Open(headers, r, log).value.blocks != []
    ensures Filed(Open(headers, r, log).value, log.parsed.name, log.parsed.body) == EventOf(headers, log)
  {
    OpenHeader(headers, r, log);
  }

  lemma GroupedStep(es: seq<Event>, e: Event)
    ensures Grouped(es + [e]) <==>
      Grouped(es) && (es == [] || SameBlock(es[|es| - 1], e) || NewHash(es, e.blockHash))
  {
    var more := es + [e];
    assert forall i :: 0 <= i <= |es| ==> more[..i] == es[..i];
    assert es[..|es|] == es;
    if Grouped(more) && es != [] {
      assert SameBlock(more[|es| - 1], more[|es|]) || NewHash(more[..|es|], more[|es|].blockHash);
      forall i | 1 <= i < |es| ensures SameBlock(es[i - 1], es[i]) || NewHash(es[..i], es[i].blockHash) {
        assert SameBlock(more[i - 1], more[i]) || NewHash(more[..i], more[i].blockHash);
      }
    }
  }

  lemma NewHashStep(es: seq<Event>, e: Event, h: Hash)
    ensures NewHash(es + [e], h) <==> NewHash(es, h) && e.blockHash != h
  {
    var more := es + [e];
    if NewHash(more, h) {
      assert more[|es|] == e;
      forall j | 0 <= j < |es| ensures es[j].blockHash != h { assert more[j] == es[j]; }
    }
  }

  lemma HasHashOfHead(blocks: seq<Block>, more: seq<Block>, h: Hash)
    requires |more| == |blocks| || |more| == |blocks| + 1
    requires more != [] && more[|more| - 1].blockHash == h
    requires forall i :: 0 <= i < |blocks| ==> more[i].blockHash == blocks[i].blockHash
    ensures forall g :: HasHash(more, g) <==> HasHash(blocks, g) || g == h
  {
    forall g ensures HasHash(more, g) <==> HasHash(blocks, g) || g == h {
      if HasHash(blocks, g) {
        var i :| 0 <= i < |blocks| && blocks[i].blockHash == g;
        assert more[i].blockHash == g;
      }
      if HasHash(more, g) {
        var i :| 0 <= i < |more| && more[i].blockHash == g;
        assert i < |blocks| ==> blocks[i].blockHash == g;
      }
    }
  }

  /** Shape of a filing: the blocks keep their hashes and headers, the head keeps its
      place, and only its hash gets one more order. */
  lemma FileShape(r: Read, name: EventName, body: nat)
    requires r.blocks != []
    ensures var r', h := File(r, name, body), r.blocks[|r.blocks| - 1].blockHash;
      && |r'.blocks| == |r.blocks|
      && (forall i :: 0 <= i < |r.blocks| ==>
            && r'.blocks[i].blockHash == r.blocks[i].blockHash && r'.blocks[i].blockNumber == r.blocks[i].blockNumber
            && r'.blocks[i].parentHash == r.blocks[i].parentHash && r'.blocks[i].receivedAt == r.blocks[i].receivedAt)
      && r'.orders.Keys == r.orders.Keys + {h}
      && (forall g :: OrdersIn(r.orders, g) <= OrdersIn(r'.orders, g))
      && OrdersIn(r'.orders, h) != []
  {
  }

  lemma StepHashes(r: Read, r1: Read, es: seq<Event>, name: EventName, body: nat)
    requires HashesFit(r, es) && r1.orders == r.orders && r1.blocks != []
    requires r1.blocks == r.blocks || (|r1.blocks| == |r.blocks| + 1 && r1.blocks[..|r.blocks|] == r.blocks)
    ensures HashesFit(File(r1, name, body), es + [Filed(r1, name, body)])
  {
    var r', e := File(r1, name, body), Filed(r1, name, body);
    FileShape(r1, name, body);
    assert forall i :: 0 <= i < |r.blocks| ==>
      r'.blocks[i].blockHash == r1.blocks[i].blockHash == r.blocks[i].blockHash;
    HasHashOfHead(r.blocks, r'.blocks, e.blockHash);
    forall g ensures HasHash(r'.blocks, g) <==> !NewHash(es + [e], g) {
      NewHashStep(es, e, g);
    }
  }

  lemma StepBlocks(headers: Headers, r: Read, r1: Read, log: Log, name: EventName, body: nat)
    requires BlocksFit(headers, r) && Open(headers, r, log) == Some(r1) && r1.blocks != []
    ensures BlocksFit(headers, File(r1, name, body))
  {
    var r' := File(r1, name, body);
    OpenShape(headers, r, log);
    OpenHeader(headers, r, log);
    FileShape(r1, name, body);
    forall i | 0 <= i < |r'.blocks| ensures OrdersIn(r'.orders, r'.blocks[i].blockHash) != [] {
      if i < |r.blocks| {
        assert r1.blocks[i] == r.blocks[i];
        assert OrdersIn(r.orders, r.blocks[i].blockHash) != [];
      }
    }
  }

  lemma StepBuilt(headers: Headers, r: Read, r1: Read, es: seq<Event>, log: Log, name: EventName, body: nat)
    requires Built(headers, r, es) && Open(headers, r, log) == Some(r1) && r1.blocks != []
    ensures Built(headers, File(r1, name, body), es + [Filed(r1, name, body)])
  {
    OpenShape(headers, r, log);
    StepBlocks(headers, r, r1, log, name, body);
    StepHashes(r, r1, es, name, body);
    FileShape(r1, name, body);
  }

  /** The state of a reading against the events it has handled. */
  ghost predicate Tracks(headers: Headers, r: Read, es: seq<Event>) {
    Built(headers, r, es) && if Grouped(es) then Faithful(r, es) else Overlong(r, es)
  }

  /** One log of a reading that is faithful exactly when its events are grouped. */
  lemma StepKeeps(headers: Headers, r: Read, r1: Read, es: seq<Event>, log: Log, name: EventName, body: nat, e: Event)
    requires Tracks(headers, r, es) && Open(headers, r, log) == Some(r1) && r1.blocks != []
    requires e == Filed(r1, name, body) && e.blockHash == log.blockHash && e.blockNumber == log.blockNumber
    ensures Tracks(headers, File(r1, name, body), es + [e])
  {
    OpenKeeps(headers, r, es, log);
    FileKeeps(r1, es, name, body);
    StepBuilt(headers, r, r1, es, log, name, body);
    GroupedStep(es, e);
    assert r.AtHead(log) <==> es != [] && SameBlock(es[|es| - 1], e);
    assert es == [] ==> NewHash(es, log.blockHash);
  }

  // ------------------------------------------------------------- the whole reading

  lemma NothingRead(headers: Headers)
    ensures Tracks(headers, Read([], map[]), [])
  {
    assert Somes([]) == [];
    assert forall h :: NewHash([], h) && !HasHash([], h);
  }

  lemma {:induction false} ReadKeeps(headers: Headers, logs: seq<Log>, r': Read, es': seq<Event>)
    requires ReadAll(headers, logs) == Some(r') && HandledEvents(headers, logs) == es'
    ensures Tracks(headers, r', es')
    decreases |logs|
  {
    if logs == [] {
      NothingRead(headers);
    } else {
      var init, log := logs[..|logs| - 1], logs[|logs| - 1];
      var r, es := ReadAll(headers, init).value, HandledEvents(headers, init);
      ReadKeeps(headers, init, r, es);
      if log.parsed.Handled? {
        var r1, e := Open(headers, r, log).value, EventOf(headers, log);
        assert r' == File(r1, log.parsed.name, log.parsed.body) && es' == es + [e];
        FiledIsHandled(headers, r, es, log);
        StepKeeps(headers, r, r1, es, log, log.parsed.name, log.parsed.body, e);
      } else {
        assert r' == r && es' == es;
      }
    }
  }

  /** Replaying what was read yields exactly the handled events, each once and in log
      order, if and only if the logs come grouped by block. */
  lemma ReplayIffGrouped(headers: Headers, logs: seq<Log>)
    requires ReadAll(headers, logs).Some?
    ensures var r, es := ReadAll(headers, logs).value, HandledEvents(headers, logs);
      Replay(r.blocks, r.orders) == Somes(es) <==> Grouped(es)
  {
    ReadKeeps(headers, logs, ReadAll(headers, logs).value, HandledEvents(headers, logs));
  }

  /** Three logs of two blocks, the first block twice. */
  const UNGROUPED := [
    Log(1, 10, Handled(ForkIDsOrder, 1)), Log(2, 20, Handled(ForkIDsOrder, 2)), Log(1, 10, Handled(ForkIDsOrder, 3))]

  lemma UngroupedEvents(headers: Headers)
    ensures var es := HandledEvents(headers, UNGROUPED); |es| == 3 && !Grouped(es)
  {
    var one, two := UNGROUPED[..1], UNGROUPED[..2];
    assert one[..0] == [] && two[..1] == one;
    assert HandledEvents(headers, one) == [EventOf(headers, UNGROUPED[0])];
    assert HandledEvents(headers, two) == [EventOf(headers, UNGROUPED[0]), EventOf(headers, UNGROUPED[1])];
    var es := HandledEvents(headers, UNGROUPED);
    assert es[..2][0].blockHash == es[2].blockHash;
    assert !SameBlock(es[1], es[2]) && !NewHash(es[..2], es[2].blockHash);
  }

  /** A log that cannot be decoded, or whose block cannot be fetched. */
  predicate Bad(headers: Headers, log: Log) {
    log.parsed.DecodeError? || (log.parsed.Handled? && headers(log.blockHash).None?)
  }

  lemma StepFailsIff(headers: Headers, r: Read, log: Log)
    requires BlocksFit(headers, r)
    ensures Process(headers, r, log).None? <==> Bad(headers, log)
  {
    if log.parsed.Handled? {
      if r.AtHead(log) {
        assert headers(r.blocks[|r.blocks| - 1].blockHash).Some?;
      }
    }
  }

  /** A reading fails if and only if one of its logs is bad; ignored logs never fail. */
  lemma {:induction false} ReadFailsIff(headers: Headers, logs: seq<Log>)
    ensures ReadAll(headers, logs).None? <==> exists i :: 0 <= i < |logs| && Bad(headers, logs[i])
    decreases |logs|
  {
    if logs != [] {
      var init, log := logs[..|logs| - 1], logs[|logs| - 1];
      ReadFailsIff(headers, init);
      var before := ReadAll(headers, init);
      if before.None? {
        var i :| 0 <= i < |init| && Bad(headers, init[i]);
        assert Bad(headers, logs[i]);
      } else {
        ReadKeeps(headers, init, before.value, HandledEvents(headers, init));
        StepFailsIff(headers, before.value, log);
        forall i | 0 <= i < |init| ensures !Bad(headers, logs[i]) {
          assert !Bad(headers, init[i]);
        }
      }
    }
  }

  /** They are read without an error, and more than three events are replayed. */
  lemma UngroupedReplaysMore(headers: Headers)
    requires headers(10).Some? && headers(20).Some?
    ensures var r := ReadAll(headers, UNGROUPED);
      r.Some? && |HandledEvents(headers, UNGROUPED)| == 3 && |Replay(r.value.blocks, r.value.orders)| > 3
  {
    ReadFailsIff(headers, UNGROUPED);
    UngroupedEvents(headers);
    ReadKeeps(headers, UNGROUPED, ReadAll(headers, UNGROUPED).value, HandledEvents(headers, UNGROUPED));
  }

  // ------------------------------------------------------- what a block holds

  function Slice(b: Block, a: ArrayName): seq<Entry> {
    if a in b.arrays then b.arrays[a] else []
  }

  /** What the logs of one block and of certain kinds carry, in log order. */
  function Carried(headers: Headers, logs: seq<Log>, h: Hash, kinds: set<EventName>): seq<Entry> {
    if logs == [] then []
    else
      var log := logs[|logs| - 1];
      Carried(headers, logs[..|logs| - 1], h, kinds) +
      if log.parsed.Handled? && log.blockHash == h && log.parsed.name in kinds
      then [Entry(log.parsed.body, if log.parsed.name == L1InfoTreeOrder then headers(h) else None)] else []
  }

  /** Every slice of a block holds what the logs of its kind carry; both kinds of
      verification go to one slice. */
  ghost predicate Holds(headers: Headers, logs: seq<Log>, b: Block) {
    && Slice(b, GlobalExitRoots) == Carried(headers, logs, b.blockHash, {GlobalExitRootsOrder})
    && Slice(b, L1InfoTree) == Carried(headers, logs, b.blockHash, {L1InfoTreeOrder})
    && Slice(b, SequencedBatches) == Carried(headers, logs, b.blockHash, {SequenceBatchesOrder})
    && Slice(b, ForcedBatches) == Carried(headers, logs, b.blockHash, {ForcedBatchesOrder})
    && Slice(b, VerifiedBatches) == Carried(headers, logs, b.blockHash, {TrustedVerifyBatchOrder, VerifyBatchOrder})
    && Slice(b, SequencedForceBatches) == Carried(headers, logs, b.blockHash, {SequenceForceBatchesOrder})
    && Slice(b, ForkIDs) == Carried(headers, logs, b.blockHash, {ForkIDsOrder})
  }

  lemma CarriedStep(headers: Headers, logs: seq<Log>, log: Log, h: Hash, kinds: set<EventName>)
    ensures Carried(headers, logs + [log], h, kinds) == Carried(headers, logs, h, kinds) +
      if log.parsed.Handled? && log.blockHash == h && log.parsed.name in kinds
      then [Entry(log.parsed.body, if log.parsed.name == L1InfoTreeOrder then headers(h) else None)] else []
  {
    assert (logs + [log])[..|logs|] == logs;
  }

  /** A log of another block, or one that is ignored, does not concern this one. */
  lemma HoldsOther(headers: Headers, logs: seq<Log>, log: Log, b: Block)
    requires Holds(headers, logs, b) && (log.parsed.Handled? ==> log.blockHash != b.blockHash)
    ensures Holds(headers, logs + [log], b)
  {
    forall kinds
      ensures Carried(headers, logs + [log], b.blockHash, kinds) == Carried(headers, logs, b.blockHash, kinds)
    {
      CarriedStep(headers, logs, log, b.blockHash, kinds);
    }
  }

  lemma SliceStep(headers: Headers, logs: seq<Log>, log: Log, b: Block, a: ArrayName, kinds: set<EventName>)
    requires log.parsed.Handled? && log.blockHash == b.blockHash
    requires headers(b.blockHash) == Some(Header(b.parentHash, b.receivedAt))
    requires Slice(b, a) == Carried(headers, logs, b.blockHash, kinds)
    requires log.parsed.name in kinds <==> ArrayOf(log.parsed.name) == a
    ensures Slice(b.Append(log.parsed.name, EntryFor(b, log.parsed.name, log.parsed.body)), a)
         == Carried(headers, logs + [log], b.blockHash, kinds)
  {
    CarriedStep(headers, logs, log, b.blockHash, kinds);
  }

  /** A log of this block goes to the slice of its kind. */
  lemma HoldsFiled(headers: Headers, logs: seq<Log>, log: Log, b: Block)
    requires Holds(headers, logs, b) && log.parsed.Handled? && log.blockHash == b.blockHash
    requires headers(b.blockHash) == Some(Header(b.parentHash, b.receivedAt))
    ensures Holds(headers, logs + [log], b.Append(log.parsed.name, EntryFor(b, log.parsed.name, log.parsed.body)))
  {
    SliceStep(headers, logs, log, b, GlobalExitRoots, {GlobalExitRootsOrder});
    SliceStep(headers, logs, log, b, L1InfoTree, {L1InfoTreeOrder});
    SliceStep(headers, logs, log, b, SequencedBatches, {SequenceBatchesOrder});
    SliceStep(headers, logs, log, b, ForcedBatches, {ForcedBatchesOrder});
    SliceStep(headers, logs, log, b, VerifiedBatches, {TrustedVerifyBatchOrder, VerifyBatchOrder});
    SliceStep(headers, logs, log, b, SequencedForceBatches, {SequenceForceBatchesOrder});
    SliceStep(headers, logs, log, b, ForkIDs, {ForkIDsOrder});
  }

  lemma {:induction false} NothingCarried(headers: Headers, logs: seq<Log>, h: Hash, kinds: set<EventName>)
    requires NewHash(HandledEvents(headers, logs), h)
    ensures Carried(headers, logs, h, kinds) == []
  {
    if logs != [] {
      var init, log := logs[..|logs| - 1], logs[|logs| - 1];
      var es := HandledEvents(headers, init);
      if log.parsed.Handled? {
        NewHashStep(es, EventOf(headers, log), h);
      } else {
        assert es + [] == es;
      }
      NothingCarried(headers, init, h, kinds);
    }
  }

  lemma HoldsFresh(headers: Headers, logs: seq<Log>, b: Block)
    requires NewHash(HandledEvents(headers, logs), b.blockHash) && b.arrays == map[]
    ensures Holds(headers, logs, b)
  {
    forall kinds ensures Carried(headers, logs, b.blockHash, kinds) == [] {
      NothingCarried(headers, logs, b.blockHash, kinds);
    }
  }

  ghost predicate AllHold(headers: Headers, logs: seq<Log>, blocks: seq<Block>) {
    forall i :: 0 <= i < |blocks| ==> Holds(headers, logs, blocks[i])
  }

  lemma OpenHolds(headers: Headers, logs: seq<Log>, r: Read, log: Log)
    requires AllHold(headers, logs, r.blocks) && Open(headers, r, log).Some?
    requires r.AtHead(log) || NewHash(HandledEvents(headers, logs), log.blockHash)
    ensures AllHold(headers, logs, Open(headers, r, log).value.blocks)
  {
    if !r.AtHead(log) {
      HoldsFresh(headers, logs, PrepareBlock(log, headers(log.blockHash).value));
    }
  }

  lemma FileHolds(headers: Headers, logs: seq<Log>, r1: Read, log: Log)
    requires AllHold(headers, logs, r1.blocks) && DistinctHashes(r1.blocks) && log.parsed.Handled? && r1.AtHead(log)
    requires var head := r1.blocks[|r1.blocks| - 1];
      headers(head.blockHash) == Some(Header(head.parentHash, head.receivedAt))
    ensures AllHold(headers, logs + [log], File(r1, log.parsed.name, log.parsed.body).blocks)
  {
    var r', last := File(r1, log.parsed.name, log.parsed.body), |r1.blocks| - 1;
    forall i | 0 <= i < |r'.blocks| ensures Holds(headers, logs + [log], r'.blocks[i]) {
      if i == last {
        HoldsFiled(headers, logs, log, r1.blocks[i]);
      } else {
        HoldsOther(headers, logs, log, r1.blocks[i]);
      }
    }
  }

  lemma StepHolds(headers: Headers, logs: seq<Log>, r: Read, log: Log)
    requires log.parsed.Handled? && Open(headers, r, log).Some? && AllHold(headers, logs, r.blocks)
    requires Tracks(headers, r, HandledEvents(headers, logs))
    requires Grouped(HandledEvents(headers, logs) + [EventOf(headers, log)])
    ensures AllHold(headers, logs + [log], File(Open(headers, r, log).value, log.parsed.name, log.parsed.body).blocks)
  {
    var es, e := HandledEvents(headers, logs), EventOf(headers, log);
    GroupedStep(es, e);
    assert r.AtHead(log) <==> es != [] && SameBlock(es[|es| - 1], e);
    assert es == [] ==> NewHash(es, log.blockHash);
    OpenHolds(headers, logs, r, log);
    OpenKeeps(headers, r, es, log);
    OpenShape(headers, r, log);
    OpenHeader(headers, r, log);
    FileHolds(headers, logs, Open(headers, r, log).value, log);
  }

  /** For logs that come grouped by block: every slice of every block holds exactly what the
      logs of that block and of its kind carry, in log order. */
  lemma {:induction false} BlocksHold(headers: Headers, logs: seq<Log>)
    requires ReadAll(headers, logs).Some? && Grouped(HandledEvents(headers, logs))
    ensures AllHold(headers, logs, ReadAll(headers, logs).value.blocks)
  {
    if logs != [] {
      var init, log := logs[..|logs| - 1], logs[|logs| - 1];
      var r, es := ReadAll(headers, init).value, HandledEvents(headers, init);
      assert logs == init + [log];
      if log.parsed.Handled? {
        GroupedStep(es, EventOf(headers, log));
        BlocksHold(headers, init);
        ReadKeeps(headers, init, r, es);
        StepHolds(headers, init, r, log);
      } else {
        assert es + [] == es;
        BlocksHold(headers, init);
        forall i | 0 <= i < |r.blocks| ensures Holds(headers, logs, r.blocks[i]) {
          HoldsOther(headers, init, log, r.blocks[i]);
        }
      }
    }
  }

  // ---------------------------------------------------------------- the source's loop

  class EventReader {
    const headers: Headers
    var blocks: seq<Block>
    var blocksOrder: map<Hash, seq<Order>>

    ghost function View(): Read
      reads this
    {
      Read(blocks, blocksOrder)
    }

    constructor (headers: Headers)
      ensures this.headers == headers && View() == Read([], map[])
    {
      this.headers := headers;
      blocks, blocksOrder := [], map[];
    }

    /** The block of the log becomes the last one. */
    method OpenBlock(log: Log) returns (ok: bool)
      modifies this`blocks
      ensures ok <==> Open(headers, old(View()), log).Some?
      ensures View() == if ok then Open(headers, old(View()), log).value else old(View())
      ensures ok ==> blocks != []
    {
      var last := |blocks| - 1;
      if !(last >= 0 && blocks[last].blockHash == log.blockHash && blocks[last].blockNumber == log.blockNumber) {
        var fullBlock := headers(log.blockHash);
        if fullBlock.None? {
          return false;
        }
        blocks := blocks + [PrepareBlock(log, fullBlock.value)];
      }
      return true;
    }

    /** The entry goes to its slice of the last block, the order to the list of its hash. */
    method FileEvent(name: EventName, body: nat)
      requires blocks != []
      modifies this
      ensures View() == File(old(View()), name, body)
    {
      var last := |blocks| - 1;
      var block := blocks[last];
      blocks := blocks[last := block.Append(name, EntryFor(block, name, body))];
      var order := Order(name, |blocks[last].Entries(name)| - 1);
      var sofar := if block.blockHash in blocksOrder then blocksOrder[block.blockHash] else [];
      blocksOrder := blocksOrder[block.blockHash := sofar + [order]];
    }

    /** `processEvent` and its handlers. */
    method ProcessEvent(log: Log) returns (ok: bool)
      modifies this
      ensures ok <==> Process(headers, old(View()), log).Some?
      ensures View() == if ok then Process(headers, old(View()), log).value else old(View())
    {
      if log.parsed.Ignored? {
        return true;
      }
      if log.parsed.DecodeError? {
        return false;
      }
      ok := OpenBlock(log);
      if !ok {
        return false;
      }
      FileEvent(log.parsed.name, log.parsed.body);
    }
  }

  lemma {:induction false} ReadStops(headers: Headers, logs: seq<Log>, k: nat)
    requires k <= |logs| && ReadAll(headers, logs[..k]).None?
    ensures ReadAll(headers, logs).None?
    decreases |logs| - k
  {
    if k == |logs| {
      assert logs[..k] == logs;
    } else {
      assert logs[..k + 1][..k] == logs[..k];
      ReadStops(headers, logs, k + 1);
    }
  }

  /** `readEvents`: all logs in order, or an error at the first bad one. What it returns
      replays to the handled events exactly when they are grouped by block, and then every
      slice of every block holds what the logs of its kind carry. */
  method ReadEvents(headers: Headers, logs: seq<Log>) returns (r: Option<Read>)
    ensures r == ReadAll(headers, logs)
    ensures r.None? <==> exists i :: 0 <= i < |logs| && Bad(headers, logs[i])
    ensures r.Some? ==>
      var es := HandledEvents(headers, logs);
      Replay(r.value.blocks, r.value.orders) == Somes(es) <==> Grouped(es)
    ensures r.Some? && Grouped(HandledEvents(headers, logs)) ==> AllHold(headers, logs, r.value.blocks)
  {
    ReadFailsIff(headers, logs);
    var reader := new EventReader(headers);
    for k := 0 to |logs|
      invariant fresh(reader) && reader.headers == headers
      invariant ReadAll(headers, logs[..k]) == Some(reader.View())
    {
      assert logs[..k + 1][..k] == logs[..k] && logs[..k + 1][k] == logs[k];
      var ok := reader.ProcessEvent(logs[k]);
      if !ok {
        ReadStops(headers, logs, k + 1);
        return None;
      }
    }
    assert logs[..|logs|] == logs;
    ReplayIffGrouped(headers, logs);
    if Grouped(HandledEvents(headers, logs)) {
      BlocksHold(headers, logs);
    }
    return Some(Read(reader.blocks, reader.blocksOrder));
  }
}
