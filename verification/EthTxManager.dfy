/** The resend protocol of the eth tx manager for one monitored tx, as a state
    machine. A step is one read of L1, one storage write, one send, one action of
    another writer of the row, one L1 block event, or a crash: so a run covers every
    interleaving and every place where the process can stop. */
module EthTxManager {
  import opened Basics

  datatype Status = Created | Sent | Failed | Confirmed | Reorged | Done

  /** A signed tx of the monitored tx. Receiver, value and data never change, so
      these fields identify it; its hash is modelled by the value itself. */
  datatype Tx = Tx(nonce: nat, gas: nat, gasPrice: nat)

  /** The stored row, and the copy that each writer holds in memory. */
  datatype Row = Row(
    nonce: nat, gas: nat, gasOffset: nat, gasPrice: nat,
    status: Status, blockNumber: Option<nat>, history: set<Tx>)
  {
    function BuildTx(): Tx {
      Tx(nonce, gas + gasOffset, gasPrice)
    }

    /** Confirmed or failed at least once: never sent again. */
    predicate Settled() {
      status != Created && status != Sent
    }
  }

  // ----------------------------------------------------------------------- L1

  /** What the sender's account spent one nonce on: one of our txs, or anything else. */
  datatype Slot = Ours(tx: Tx, ok: bool, block: nat) | Foreign

  /** `mined[n]` is the one tx mined with nonce `n`; the account nonce is the number
      of mined txs. `sent` holds the txs of this monitored tx that reached the network. */
  datatype L1 = L1(mined: seq<Slot>, sent: set<Tx>)
  {
    predicate Mined(tx: Tx) {
      tx.nonce < |mined| && mined[tx.nonce].Ours? && mined[tx.nonce].tx == tx
    }

    predicate Succeeded(tx: Tx) {
      Mined(tx) && mined[tx.nonce].ok
    }

    predicate MinedFailed(tx: Tx) {
      Mined(tx) && !mined[tx.nonce].ok
    }

    ghost predicate SomeSuccess() {
      exists tx :: Succeeded(tx)
    }

    ghost predicate SuccessAt(block: nat) {
      exists tx :: Succeeded(tx) && mined[tx.nonce].block == block
    }
  }

  // -------------------------------------------------------------------- state

  /** Where `monitorTx` is, with its copy of the row. */
  datatype Monitor =
    | Idle
    | Scanning(m: Row, todo: set<Tx>, hasFailed: bool, allMined: bool)
    | ReviewNonce(m: Row)
    | StoreNonce(m: Row)
    | Unconfirmed(m: Row)
    | StoreReview(m: Row)
    | Building(m: Row)
    | StoreHistory(m: Row, tx: Tx)
    | AtNetwork(m: Row, tx: Tx)
    | StoreSent(m: Row, tx: Tx)
    | Waiting(m: Row, tx: Tx)
    | Fetching(m: Row, tx: Tx)
    | Deciding(m: Row, ok: bool, block: nat)
    | StoreFinal(m: Row)

  /** The other writers of the row. `setStatusDone` is called for a result that was
      seen confirmed, then reads the row and writes it back; `Reorg` reads rows that
      have a block number and writes them back. */
  datatype Writer = Away | SawConfirmed | Holds(r: Row)

  datatype State = State(row: Row, monitor: Monitor, owner: Writer, reorg: Writer, l1: L1)

  /** What the surroundings may do beyond failing writes, sends and crashes: fail a
      receipt lookup with an error other than not-found; drop mined L1 blocks. */
  datatype Config = Config(lookupErrors: bool, chainReorgs: bool)

  datatype Event =
    // monitorTx
    | Load
    | CheckReceipt(tx: Tx)
    | CheckError(tx: Tx)
    | EndScan
    | ReadNonce
    | ReviewFees(gas: nat, gasPrice: nat)
    | SkipReview
    | Build
    | Store(applied: bool, acked: bool)
    | FoundInNetwork
    | SendTx(delivered: bool, acked: bool)
    | WaitMined
    | FetchReceipt
    | Decide
    | Return
    // other writers
    | OwnerSees
    | OwnerReads
    | OwnerWrites(applied: bool)
    | ReorgReads
    | ReorgWrites(applied: bool)
    // the world
    | Mine(tx: Tx, ok: bool, block: nat)
    | MineForeign
    | DropBlocks(keep: nat)
    | Crash
  {
    predicate Scans() {
      Load? || CheckReceipt? || CheckError? || EndScan?
    }

    predicate Reviews() {
      ReadNonce? || ReviewFees? || SkipReview?
    }

    predicate Delivers() {
      Build? || FoundInNetwork? || SendTx?
    }

    predicate Decides() {
      WaitMined? || FetchReceipt? || Decide? || Return?
    }

    predicate Writes() {
      OwnerSees? || OwnerReads? || OwnerWrites? || ReorgReads? || ReorgWrites?
    }
  }

  function Max(a: nat, b: nat): nat {
    if a < b then b else a
  }

  /** Where a storage write leads once it is acknowledged; `None` where `monitorTx`
      is not about to write. */
  function AfterStore(pc: Monitor): (next: Option<Monitor>)
    ensures next.Some? ==> !pc.Idle?
  {
    match pc
    case StoreNonce(m) => Some(Unconfirmed(m))
    case StoreReview(m) => Some(Building(m))
    case StoreHistory(m, tx) => Some(AtNetwork(m, tx))
    case StoreSent(m, tx) => Some(Waiting(m, tx))
    case StoreFinal(m) => Some(Idle)
    case _ => None
  }

  /** A storage write of the whole row by `monitorTx`: it may fail, and a failure may
      still have been applied. */
  function StoreStep(s: State, applied: bool, acked: bool): Option<State> {
    var next := AfterStore(s.monitor);
    if next.None? || (acked && !applied) then None
    else Some(s.(row := if applied then s.monitor.m else s.row, monitor := if acked then next.value else Idle))
  }

  /** One receipt lookup of the scan over the history. A success ends the scan. */
  function CheckStep(s: State, tx: Tx): Option<State>
    requires s.monitor.Scanning?
  {
    var pc, mined := s.monitor, s.l1.Mined(tx);
    if tx !in pc.todo then None
    else if s.l1.Succeeded(tx) then
      Some(s.(monitor := Deciding(pc.m, true, s.l1.mined[tx.nonce].block)))
    else
      Some(s.(monitor := Scanning(pc.m, pc.todo - {tx}, pc.hasFailed || mined, pc.allMined && mined)))
  }

  /** The signed tx joins the history before it can be sent. */
  function BuildStep(s: State): Option<State>
    requires s.monitor.Building?
  {
    var m, tx := s.monitor.m, s.monitor.m.BuildTx();
    if tx in m.history then Some(s.(monitor := AtNetwork(m, tx)))
    else Some(s.(monitor := StoreHistory(m.(history := m.history + {tx}), tx)))
  }

  /** A send may be delivered although it returns an error. */
  function SendStep(s: State, delivered: bool, acked: bool): Option<State>
    requires s.monitor.AtNetwork?
  {
    var m, tx := s.monitor.m, s.monitor.tx;
    if acked && !delivered then None
    else
      var l1 := if delivered then s.l1.(sent := s.l1.sent + {tx}) else s.l1;
      var next := if !acked then Idle
                  else if m.status == Created then StoreSent(m.(status := Sent), tx)
                  else Waiting(m, tx);
      Some(s.(l1 := l1, monitor := next))
  }

  /** Load the row and scan its history. */
  function ScanStep(cfg: Config, s: State, e: Event): Option<State> {
    var pc := s.monitor;
    match e
    case Load =>
      if pc.Idle? && s.row.status in {Created, Sent, Reorged}
      then Some(s.(monitor := Scanning(s.row, s.row.history, false, true))) else None
    case CheckReceipt(tx) =>
      if pc.Scanning? then CheckStep(s, tx) else None
    case CheckError(tx) =>
      if pc.Scanning? && tx in pc.todo && cfg.lookupErrors
      then Some(s.(monitor := pc.(todo := pc.todo - {tx}))) else None
    case EndScan =>
      if pc.Scanning? && pc.todo == {}
      then Some(s.(monitor := if pc.hasFailed && pc.allMined then ReviewNonce(pc.m) else Unconfirmed(pc.m))) else None
    case _ => None
  }

  /** Review nonce and fees. */
  function ReviewStep(s: State, e: Event): Option<State> {
    var pc := s.monitor;
    match e
    case ReadNonce =>
      if pc.ReviewNonce?
      then Some(s.(monitor := StoreNonce(pc.m.(nonce := Max(pc.m.nonce, |s.l1.mined|))))) else None
    case ReviewFees(gas, gasPrice) =>
      if pc.Unconfirmed? && pc.m.status == Sent
      then Some(s.(monitor := StoreReview(pc.m.(gas := Max(pc.m.gas, gas), gasPrice := Max(pc.m.gasPrice, gasPrice)))))
      else None
    case SkipReview =>
      if pc.Unconfirmed? && pc.m.status == Created then Some(s.(monitor := Building(pc.m))) else None
    case _ => None
  }

  /** Build the tx and bring it to the network. */
  function DeliverStep(s: State, e: Event): Option<State> {
    var pc := s.monitor;
    match e
    case Build =>
      if pc.Building? then BuildStep(s) else None
    case FoundInNetwork =>
      if pc.AtNetwork? then Some(s.(monitor := Waiting(pc.m, pc.tx))) else None
    case SendTx(delivered, acked) =>
      if pc.AtNetwork? then SendStep(s, delivered, acked) else None
    case _ => None
  }

  /** Wait for the receipt and decide. `Return` stands for every place where `monitorTx`
      gives up until the next cycle. */
  function DecideStep(s: State, e: Event): Option<State> {
    var pc := s.monitor;
    match e
    case WaitMined =>
      if pc.Waiting? && s.l1.Succeeded(pc.tx) then Some(s.(monitor := Fetching(pc.m, pc.tx))) else None
    case FetchReceipt =>
      if pc.Fetching? && s.l1.Mined(pc.tx)
      then Some(s.(monitor := Deciding(pc.m, s.l1.mined[pc.tx.nonce].ok, s.l1.mined[pc.tx.nonce].block))) else None
    case Decide =>
      if pc.Deciding?
      then
        var status := if pc.ok then Confirmed else Failed;
        Some(s.(monitor := StoreFinal(pc.m.(status := status, blockNumber := Some(pc.block)))))
      else None
    case Return =>
      Some(s.(monitor := Idle))
    case _ => None
  }

  /** One step of `setStatusDone` or `Reorg`. */
  function WriterStep(s: State, e: Event): Option<State> {
    match e
    case OwnerSees =>
      if s.row.status == Confirmed then Some(s.(owner := SawConfirmed)) else None
    case OwnerReads =>
      if s.owner.SawConfirmed? then Some(s.(owner := Holds(s.row))) else None
    case OwnerWrites(applied) =>
      if !s.owner.Holds? then None
      else Some(s.(row := if applied then s.owner.r.(status := Done) else s.row, owner := Away))
    case ReorgReads =>
      if s.row.blockNumber.Some? then Some(s.(reorg := Holds(s.row))) else None
    case ReorgWrites(applied) =>
      if !s.reorg.Holds? then None
      else Some(s.(row := if applied then s.reorg.r.(status := Reorged, blockNumber := None) else s.row, reorg := Away))
    case _ => None
  }

  /** L1 mines in nonce order, only txs that were sent; the process can die at any time. */
  function WorldStep(cfg: Config, s: State, e: Event): Option<State> {
    match e
    case Mine(tx, ok, block) =>
      if tx in s.l1.sent && tx.nonce == |s.l1.mined|
      then Some(s.(l1 := s.l1.(mined := s.l1.mined + [Ours(tx, ok, block)]))) else None
    case MineForeign =>
      Some(s.(l1 := s.l1.(mined := s.l1.mined + [Foreign])))
    case DropBlocks(keep) =>
      if cfg.chainReorgs && keep <= |s.l1.mined|
      then Some(s.(l1 := s.l1.(mined := s.l1.mined[..keep]))) else None
    case Crash =>
      Some(s.(monitor := Idle, owner := Away, reorg := Away))
    case _ => None
  }

  function Next(cfg: Config, s: State, e: Event): Option<State> {
    if e.Scans() then ScanStep(cfg, s, e)
    else if e.Reviews() then ReviewStep(s, e)
    else if e.Delivers() then DeliverStep(s, e)
    else if e.Decides() then DecideStep(s, e)
    else if e.Store? then StoreStep(s, e.applied, e.acked)
    else if e.Writes() then WriterStep(s, e)
    else WorldStep(cfg, s, e)
  }

  function Run(cfg: Config, s: State, es: seq<Event>): Option<State>
    decreases |es|
  {
    if es == [] then Some(s)
    else
      var next := Next(cfg, s, es[0]);
      if next.None? then None else Run(cfg, next.value, es[1..])
  }

  /** After `Add`: nothing sent, nothing of ours mined, the account's nonce as read. */
  predicate Init(s: State) {
    && s.row.status == Created && s.row.blockNumber.None? && s.row.history == {}
    && s.monitor.Idle? && s.owner.Away? && s.reorg.Away?
    && s.l1.sent == {} && s.row.nonce <= |s.l1.mined|
    && forall i :: 0 <= i < |s.l1.mined| ==> s.l1.mined[i].Foreign?
  }

  // ------------------------------------------- invariant of every environment

  /** The row being scanned, reviewed, sent or decided on is one of the three
      statuses that are monitored; only the two unsettled ones reach the network. */
  ghost predicate PhaseFits(pc: Monitor) {
    match pc
    case Idle => true
    case Scanning(m, todo, _, _) => m.status in {Created, Sent, Reorged} && todo <= m.history
    case ReviewNonce(m) => m.status in {Created, Sent, Reorged}
    case StoreNonce(m) => m.status in {Created, Sent, Reorged}
    case Unconfirmed(m) => m.status in {Created, Sent, Reorged}
    case StoreReview(m) => m.status in {Created, Sent}
    case Building(m) => m.status in {Created, Sent}
    case StoreHistory(m, tx) => m.status in {Created, Sent} && tx in m.history && tx.nonce == m.nonce
    case AtNetwork(m, tx) => m.status in {Created, Sent} && tx in m.history && tx.nonce == m.nonce
    case StoreSent(m, tx) => m.status in {Created, Sent}
    case Waiting(m, tx) => m.status in {Created, Sent}
    case Fetching(m, tx) => m.status in {Created, Sent}
    case Deciding(m, _, _) => m.status in {Created, Sent, Reorged}
    case StoreFinal(m) => m.status in {Confirmed, Failed}
  }

  ghost predicate RowFits(r: Row, l1: L1) {
    && l1.sent <= r.history
    && (r.blockNumber.Some? ==> r.Settled())
  }

  ghost predicate WriterFits(w: Writer, row: Row, l1: L1) {
    && (!w.Away? ==> row.Settled())
    && (w.Holds? ==> w.r.Settled() && RowFits(w.r, l1))
  }

  /** Nonce, gas and gas price not lowered, history not shortened. */
  predicate Raised(a: Row, b: Row) {
    a.nonce <= b.nonce && a.gas <= b.gas && a.gasPrice <= b.gasPrice && a.history <= b.history
  }

  /** Every version of the row, stored or held by someone, contains every tx that
      was sent; while the monitor holds an unsettled copy it is the only writer. */
  ghost predicate Protocol(s: State) {
    && RowFits(s.row, s.l1)
    && PhaseFits(s.monitor)
    && WriterFits(s.owner, s.row, s.l1) && WriterFits(s.reorg, s.row, s.l1)
    && (!s.monitor.Idle? ==> RowFits(s.monitor.m, s.l1))
    && (!s.monitor.Idle? && !s.monitor.m.Settled() ==>
          && !s.row.Settled() && Raised(s.row, s.monitor.m)
          && (s.monitor.StoreHistory? || s.monitor.m.history <= s.row.history))
  }

  lemma ScanKeepsProtocol(cfg: Config, s: State, e: Event)
    requires Protocol(s) && ScanStep(cfg, s, e).Some?
    ensures Protocol(ScanStep(cfg, s, e).value)
  {
  }

  lemma ReviewKeepsProtocol(s: State, e: Event)
    requires Protocol(s) && ReviewStep(s, e).Some?
    ensures Protocol(ReviewStep(s, e).value)
  {
  }

  lemma DeliverKeepsProtocol(s: State, e: Event)
    requires Protocol(s) && DeliverStep(s, e).Some?
    ensures Protocol(DeliverStep(s, e).value)
  {
  }

  lemma DecideKeepsProtocol(s: State, e: Event)
    requires Protocol(s) && DecideStep(s, e).Some?
    ensures Protocol(DecideStep(s, e).value)
  {
  }

  lemma StoreKeepsProtocol(s: State, applied: bool, acked: bool)
    requires Protocol(s) && StoreStep(s, applied, acked).Some?
    ensures Protocol(StoreStep(s, applied, acked).value)
  {
  }

  lemma WriterKeepsProtocol(s: State, e: Event)
    requires Protocol(s) && WriterStep(s, e).Some?
    ensures Protocol(WriterStep(s, e).value)
  {
  }

  lemma WorldKeepsProtocol(cfg: Config, s: State, e: Event)
    requires Protocol(s) && WorldStep(cfg, s, e).Some?
    ensures Protocol(WorldStep(cfg, s, e).value)
  {
  }

  lemma StepKeepsProtocol(cfg: Config, s: State, e: Event)
    requires Protocol(s) && Next(cfg, s, e).Some?
    ensures Protocol(Next(cfg, s, e).value)
  {
    if e.Scans() { ScanKeepsProtocol(cfg, s, e); }
    else if e.Reviews() { ReviewKeepsProtocol(s, e); }
    else if e.Delivers() { DeliverKeepsProtocol(s, e); }
    else if e.Decides() { DecideKeepsProtocol(s, e); }
    else if e.Store? { StoreKeepsProtocol(s, e.applied, e.acked); }
    else if e.Writes() { WriterKeepsProtocol(s, e); }
    else { WorldKeepsProtocol(cfg, s, e); }
  }

  lemma {:induction false} RunKeepsProtocol(cfg: Config, s: State, es: seq<Event>)
    requires Protocol(s) && Run(cfg, s, es).Some?
    ensures Protocol(Run(cfg, s, es).value)
    decreases |es|
  {
    if es != [] {
      StepKeepsProtocol(cfg, s, es[0]);
      RunKeepsProtocol(cfg, Next(cfg, s, es[0]).value, es[1..]);
    }
  }

  /** Write-ahead, in every environment: whatever fails and wherever the process
      dies, every tx that reached the network is in the stored history. */
  lemma WriteAhead(cfg: Config, s: State, es: seq<Event>)
    requires Init(s) && Run(cfg, s, es).Some?
    ensures var t := Run(cfg, s, es).value; t.l1.sent <= t.row.history
  {
    RunKeepsProtocol(cfg, s, es);
  }

  lemma RowKept(cfg: Config, s: State, e: Event)
    requires !e.Store? && !e.Writes() && Next(cfg, s, e).Some?
    ensures Next(cfg, s, e).value.row == s.row
  {
  }

  /** A row that is still to be sent was to be sent before, and resends only raise it:
      nonce, gas limit and gas price never go down and no history is lost. */
  lemma StepRaises(cfg: Config, s: State, e: Event)
    requires Protocol(s) && Next(cfg, s, e).Some? && !Next(cfg, s, e).value.row.Settled()
    ensures !s.row.Settled() && Raised(s.row, Next(cfg, s, e).value.row)
  {
    if e.Store? {
    } else if e.Writes() {
    } else {
      RowKept(cfg, s, e);
    }
  }

  lemma {:induction false} RunRaises(cfg: Config, s: State, es: seq<Event>)
    requires Protocol(s) && Run(cfg, s, es).Some? && !Run(cfg, s, es).value.row.Settled()
    ensures !s.row.Settled() && Raised(s.row, Run(cfg, s, es).value.row)
    decreases |es|
  {
    if es != [] {
      var t := Next(cfg, s, es[0]).value;
      StepKeepsProtocol(cfg, s, es[0]);
      RunRaises(cfg, t, es[1..]);
      StepRaises(cfg, s, es[0]);
    }
  }

  // ------------------------------------------------- safety of a run, step by step

  ghost predicate AtMostOneSuccess(l1: L1) {
    forall a, b :: l1.Succeeded(a) && l1.Succeeded(b) ==> a == b
  }

  ghost predicate AllFailed(l1: L1, txs: set<Tx>) {
    forall tx :: tx in txs ==> l1.MinedFailed(tx)
  }

  /** The two ways to do harm: a scan that calls for a nonce review although some history
      tx was not mined and failed, because its lookup was skipped; and an L1 that drops a
      failed tx of ours. */
  ghost predicate Harmless(s: State, e: Event) {
    && (e.EndScan? && s.monitor.Scanning? && s.monitor.hasFailed && s.monitor.allMined ==>
          AllFailed(s.l1, s.monitor.m.history))
    && (e.DropBlocks? ==> forall n :: e.keep <= n < |s.l1.mined| && s.l1.mined[n].Ours? ==> s.l1.mined[n].ok)
  }

  ghost predicate HarmlessRun(cfg: Config, s: State, es: seq<Event>)
    decreases |es|
  {
    es == [] ||
    (Harmless(s, es[0]) && var next := Next(cfg, s, es[0]); next.Some? ==> HarmlessRun(cfg, next.value, es[1..]))
  }

  /** Every history tx carries the current nonce or was mined and failed. */
  ghost predicate Numbered(r: Row, l1: L1) {
    forall tx :: tx in r.history ==> tx.nonce == r.nonce || l1.MinedFailed(tx)
  }

  /** Our mined txs were sent, at the position of their nonce. */
  ghost predicate ChainFits(l1: L1) {
    forall n :: 0 <= n < |l1.mined| && l1.mined[n].Ours? ==> l1.mined[n].tx.nonce == n && l1.mined[n].tx in l1.sent
  }

  /** What keeps a run safe: every version of the row is numbered. */
  ghost predicate Core(s: State) {
    && Protocol(s)
    && ChainFits(s.l1)
    && Numbered(s.row, s.l1)
    && (!s.monitor.Idle? ==> Numbered(s.monitor.m, s.l1))
    && (s.monitor.ReviewNonce? ==> AllFailed(s.l1, s.monitor.m.history))
    && (s.owner.Holds? ==> Numbered(s.owner.r, s.l1))
    && (s.reorg.Holds? ==> Numbered(s.reorg.r, s.l1))
  }

  lemma ScanKeepsCore(cfg: Config, s: State, e: Event)
    requires Core(s) && Harmless(s, e) && ScanStep(cfg, s, e).Some?
    ensures Core(ScanStep(cfg, s, e).value)
  {
    ScanKeepsProtocol(cfg, s, e);
  }

  lemma ReviewKeepsCore(s: State, e: Event)
    requires Core(s) && ReviewStep(s, e).Some?
    ensures Core(ReviewStep(s, e).value)
  {
    ReviewKeepsProtocol(s, e);
  }

  lemma DeliverKeepsCore(s: State, e: Event)
    requires Core(s) && DeliverStep(s, e).Some?
    ensures Core(DeliverStep(s, e).value)
  {
    DeliverKeepsProtocol(s, e);
  }

  lemma DecideKeepsCore(s: State, e: Event)
    requires Core(s) && DecideStep(s, e).Some?
    ensures Core(DecideStep(s, e).value)
  {
    DecideKeepsProtocol(s, e);
  }

  lemma StoreKeepsCore(s: State, applied: bool, acked: bool)
    requires Core(s) && StoreStep(s, applied, acked).Some?
    ensures Core(StoreStep(s, applied, acked).value)
  {
    StoreKeepsProtocol(s, applied, acked);
  }

  lemma WriterKeepsCore(s: State, e: Event)
    requires Core(s) && WriterStep(s, e).Some?
    ensures Core(WriterStep(s, e).value)
  {
    WriterKeepsProtocol(s, e);
  }

  /** Without harm a failed tx stays mined and failed. */
  lemma FailuresStay(cfg: Config, s: State, e: Event, tx: Tx)
    requires ChainFits(s.l1) && Harmless(s, e) && WorldStep(cfg, s, e).Some? && s.l1.MinedFailed(tx)
    ensures WorldStep(cfg, s, e).value.l1.MinedFailed(tx)
  {
    if e.DropBlocks? { assert tx.nonce < e.keep; }
  }

  lemma WorldKeepsCore(cfg: Config, s: State, e: Event)
    requires Core(s) && Harmless(s, e) && WorldStep(cfg, s, e).Some?
    ensures Core(WorldStep(cfg, s, e).value)
  {
    WorldKeepsProtocol(cfg, s, e);
    forall tx | s.l1.MinedFailed(tx) ensures WorldStep(cfg, s, e).value.l1.MinedFailed(tx) {
      FailuresStay(cfg, s, e, tx);
    }
  }

  lemma StepKeepsCore(cfg: Config, s: State, e: Event)
    requires Core(s) && Harmless(s, e) && Next(cfg, s, e).Some?
    ensures Core(Next(cfg, s, e).value)
  {
    if e.Scans() { ScanKeepsCore(cfg, s, e); }
    else if e.Reviews() { ReviewKeepsCore(s, e); }
    else if e.Delivers() { DeliverKeepsCore(s, e); }
    else if e.Decides() { DecideKeepsCore(s, e); }
    else if e.Store? { StoreKeepsCore(s, e.applied, e.acked); }
    else if e.Writes() { WriterKeepsCore(s, e); }
    else { WorldKeepsCore(cfg, s, e); }
  }

  lemma {:induction false} RunKeepsCore(cfg: Config, s: State, es: seq<Event>)
    requires Core(s) && Run(cfg, s, es).Some? && HarmlessRun(cfg, s, es)
    ensures Core(Run(cfg, s, es).value)
    decreases |es|
  {
    if es != [] {
      StepKeepsCore(cfg, s, es[0]);
      RunKeepsCore(cfg, Next(cfg, s, es[0]).value, es[1..]);
    }
  }

  lemma CoreIsSafe(s: State)
    requires Core(s)
    ensures AtMostOneSuccess(s.l1)
  {
    forall a, b | s.l1.Succeeded(a) && s.l1.Succeeded(b) ensures a == b {
      assert a in s.row.history && b in s.row.history;
      assert a.nonce == s.row.nonce && b.nonce == s.row.nonce;
    }
  }

  /** In every environment, over every run without harm, whatever else fails: at most one
      L1 tx of the monitored tx is mined successfully, and every history tx carries the
      stored nonce or was mined and failed. */
  lemma HarmlessRunIsSafe(cfg: Config, s: State, es: seq<Event>)
    requires Init(s) && Run(cfg, s, es).Some? && HarmlessRun(cfg, s, es)
    ensures var t := Run(cfg, s, es).value; AtMostOneSuccess(t.l1) && Numbered(t.row, t.l1)
  {
    RunKeepsCore(cfg, s, es);
    CoreIsSafe(Run(cfg, s, es).value);
  }

  // ------------------------------------- invariant with lookups and chain stable

  predicate Stable(cfg: Config) {
    !cfg.lookupErrors && !cfg.chainReorgs
  }

  /** What a row says about its outcome is so on L1. */
  ghost predicate Truthful(r: Row, l1: L1) {
    && (r.status in {Confirmed, Done} ==> l1.SomeSuccess())
    && (r.blockNumber.Some? ==> l1.SuccessAt(r.blockNumber.value))
    && r.status != Failed
  }

  ghost predicate PhaseTruthful(pc: Monitor, l1: L1) {
    match pc
    case Idle => true
    case Scanning(m, todo, hasFailed, allMined) => Truthful(m, l1) && (allMined ==> AllFailed(l1, m.history - todo))
    case Fetching(m, tx) => Truthful(m, l1) && l1.Succeeded(tx)
    case Deciding(m, ok, block) => Truthful(m, l1) && ok && l1.SuccessAt(block)
    case _ => Truthful(pc.m, l1)
  }

  ghost predicate WriterTruthful(w: Writer, l1: L1) {
    && (w.SawConfirmed? ==> l1.SomeSuccess())
    && (w.Holds? ==> Truthful(w.r, l1))
  }

  ghost predicate Inv(s: State) {
    && Core(s)
    && Truthful(s.row, s.l1)
    && PhaseTruthful(s.monitor, s.l1)
    && WriterTruthful(s.owner, s.l1) && WriterTruthful(s.reorg, s.l1)
    && (s.owner.Holds? ==> s.l1.SomeSuccess())
  }

  lemma StableIsHarmless(cfg: Config, s: State, e: Event)
    requires Stable(cfg) && Inv(s) && Next(cfg, s, e).Some?
    ensures Harmless(s, e)
  {
    if e.EndScan? && s.monitor.allMined {
      assert s.monitor.m.history - s.monitor.todo == s.monitor.m.history;
    }
  }

  lemma ScanKeepsInv(cfg: Config, s: State, e: Event)
    requires Inv(s) && !cfg.lookupErrors && Harmless(s, e) && ScanStep(cfg, s, e).Some?
    ensures Inv(ScanStep(cfg, s, e).value)
  {
    ScanKeepsCore(cfg, s, e);
  }

  lemma ReviewKeepsInv(s: State, e: Event)
    requires Inv(s) && ReviewStep(s, e).Some?
    ensures Inv(ReviewStep(s, e).value)
  {
    ReviewKeepsCore(s, e);
  }

  /** What is on L1 does not depend on what was sent. */
  lemma TruthIgnoresSent(r: Row, l1: L1, sent: set<Tx>)
    requires Truthful(r, l1)
    ensures Truthful(r, l1.(sent := sent))
  {
    var next := l1.(sent := sent);
    if l1.SomeSuccess() {
      var tx :| l1.Succeeded(tx);
      assert next.Succeeded(tx);
    }
    if r.blockNumber.Some? {
      var tx :| l1.Succeeded(tx) && l1.mined[tx.nonce].block == r.blockNumber.value;
      assert next.Succeeded(tx);
    }
  }

  lemma DeliverKeepsInv(s: State, e: Event)
    requires Inv(s) && DeliverStep(s, e).Some?
    ensures Inv(DeliverStep(s, e).value)
  {
    DeliverKeepsCore(s, e);
    var t := DeliverStep(s, e).value;
    TruthIgnoresSent(s.row, s.l1, t.l1.sent);
    TruthIgnoresSent(s.monitor.m, s.l1, t.l1.sent);
  }

  lemma DecideKeepsInv(s: State, e: Event)
    requires Inv(s) && DecideStep(s, e).Some?
    ensures Inv(DecideStep(s, e).value)
  {
    DecideKeepsCore(s, e);
  }

  lemma StoreKeepsInv(s: State, applied: bool, acked: bool)
    requires Inv(s) && StoreStep(s, applied, acked).Some?
    ensures Inv(StoreStep(s, applied, acked).value)
  {
    StoreKeepsCore(s, applied, acked);
  }

  lemma WriterKeepsInv(s: State, e: Event)
    requires Inv(s) && WriterStep(s, e).Some?
    ensures Inv(WriterStep(s, e).value)
  {
    WriterKeepsCore(s, e);
  }

  /** Mining only adds: what was mined stays mined, as it was. */
  lemma SuccessStays(l1: L1, slot: Slot, tx: Tx)
    requires l1.Succeeded(tx)
    ensures var next := l1.(mined := l1.mined + [slot]);
      next.Succeeded(tx) && next.mined[tx.nonce] == l1.mined[tx.nonce]
  {
  }

  lemma BlockStays(l1: L1, slot: Slot, block: nat)
    requires l1.SuccessAt(block)
    ensures l1.(mined := l1.mined + [slot]).SuccessAt(block)
  {
    var tx :| l1.Succeeded(tx) && l1.mined[tx.nonce].block == block;
    SuccessStays(l1, slot, tx);
  }

  lemma TruthStays(r: Row, l1: L1, slot: Slot)
    requires Truthful(r, l1)
    ensures Truthful(r, l1.(mined := l1.mined + [slot]))
  {
    if l1.SomeSuccess() {
      var tx :| l1.Succeeded(tx);
      SuccessStays(l1, slot, tx);
    }
    if r.blockNumber.Some? {
      BlockStays(l1, slot, r.blockNumber.value);
    }
  }

  lemma PhaseTruthStays(pc: Monitor, l1: L1, slot: Slot)
    requires PhaseTruthful(pc, l1)
    ensures PhaseTruthful(pc, l1.(mined := l1.mined + [slot]))
  {
    if !pc.Idle? { TruthStays(pc.m, l1, slot); }
    if pc.Deciding? { BlockStays(l1, slot, pc.block); }
  }

  lemma WriterTruthStays(w: Writer, l1: L1, slot: Slot)
    requires WriterTruthful(w, l1)
    ensures WriterTruthful(w, l1.(mined := l1.mined + [slot]))
  {
    if w.Holds? { TruthStays(w.r, l1, slot); }
    if w.SawConfirmed? {
      var tx :| l1.Succeeded(tx);
      SuccessStays(l1, slot, tx);
    }
  }

  lemma WorldKeepsInv(cfg: Config, s: State, e: Event)
    requires Inv(s) && !cfg.chainReorgs && Harmless(s, e) && WorldStep(cfg, s, e).Some?
    ensures Inv(WorldStep(cfg, s, e).value)
  {
    WorldKeepsCore(cfg, s, e);
    if e.Mine? || e.MineForeign? {
      var slot := if e.Mine? then Ours(e.tx, e.ok, e.block) else Foreign;
      TruthStays(s.row, s.l1, slot);
      PhaseTruthStays(s.monitor, s.l1, slot);
      WriterTruthStays(s.owner, s.l1, slot);
      WriterTruthStays(s.reorg, s.l1, slot);
      if s.owner.Holds? {
        var tx :| s.l1.Succeeded(tx);
        SuccessStays(s.l1, slot, tx);
      }
    }
  }

  lemma StepKeepsInv(cfg: Config, s: State, e: Event)
    requires Stable(cfg) && Inv(s) && Next(cfg, s, e).Some?
    ensures Inv(Next(cfg, s, e).value)
  {
    StableIsHarmless(cfg, s, e);
    if e.Scans() { ScanKeepsInv(cfg, s, e); }
    else if e.Reviews() { ReviewKeepsInv(s, e); }
    else if e.Delivers() { DeliverKeepsInv(s, e); }
    else if e.Decides() { DecideKeepsInv(s, e); }
    else if e.Store? { StoreKeepsInv(s, e.applied, e.acked); }
    else if e.Writes() { WriterKeepsInv(s, e); }
    else { WorldKeepsInv(cfg, s, e); }
  }

  lemma {:induction false} RunKeepsInv(cfg: Config, s: State, es: seq<Event>)
    requires Stable(cfg) && Inv(s) && Run(cfg, s, es).Some?
    ensures Inv(Run(cfg, s, es).value)
    decreases |es|
  {
    if es != [] {
      StepKeepsInv(cfg, s, es[0]);
      RunKeepsInv(cfg, Next(cfg, s, es[0]).value, es[1..]);
    }
  }

  /** With stable lookups and a stable chain, over every run: at most one L1 tx of the
      monitored tx is ever mined successfully; every history tx carries the stored
      nonce or was mined and failed; confirmed and done mean that a success is on L1, a
      stored block number that it is in that block; and failed is never stored. */
  lemma NeverTwice(cfg: Config, s: State, es: seq<Event>)
    requires Stable(cfg) && Init(s) && Run(cfg, s, es).Some?
    ensures var t := Run(cfg, s, es).value;
      && AtMostOneSuccess(t.l1)
      && Numbered(t.row, t.l1)
      && (t.row.status in {Confirmed, Done} ==> t.l1.SomeSuccess())
      && (t.row.blockNumber.Some? ==> t.l1.SuccessAt(t.row.blockNumber.value))
      && t.row.status != Failed
  {
    RunKeepsInv(cfg, s, es);
    CoreIsSafe(Run(cfg, s, es).value);
  }
}
