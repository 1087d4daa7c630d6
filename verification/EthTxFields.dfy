/** What is stored and sent, field by field: over every run, in every environment, what a
    tx carries is what the stored row says. */
module EthTxFields {
  import opened Basics
  import opened EthTxManager

  /** The tx carries the nonce, the gas limit with its offset, and the gas price of the row. */
  predicate IsTxOf(tx: Tx, r: Row) {
    tx.nonce == r.nonce && tx.gas == r.gas + r.gasOffset && tx.gasPrice == r.gasPrice
  }

  /** A later version of the row `b`: the offset is the same, the other fields and every tx
      of the history are not below. */
  ghost predicate Above(r: Row, b: Row) {
    && r.gasOffset == b.gasOffset && b.nonce <= r.nonce && b.gas <= r.gas && b.gasPrice <= r.gasPrice
    && forall tx :: tx in r.history ==>
         b.nonce <= tx.nonce && b.gas + b.gasOffset <= tx.gas && b.gasPrice <= tx.gasPrice
  }

  /** A block number goes with a receipt: confirmed and failed have one; what is still to be
      sent, and what was reorganized, has none. */
  predicate StatusFits(r: Row) {
    && (r.status in {Created, Sent, Reorged} ==> r.blockNumber.None?)
    && (r.status in {Confirmed, Failed} ==> r.blockNumber.Some?)
  }

  ghost predicate VersionFits(r: Row, b: Row) {
    Above(r, b) && StatusFits(r)
  }

  /** The tx in hand is that of the copy in hand. */
  predicate TxFits(pc: Monitor) {
    match pc
    case StoreHistory(m, tx) => IsTxOf(tx, m)
    case AtNetwork(m, tx) => IsTxOf(tx, m)
    case StoreSent(m, tx) => IsTxOf(tx, m)
    case Waiting(m, tx) => IsTxOf(tx, m)
    case Fetching(m, tx) => IsTxOf(tx, m)
    case _ => true
  }

  /** Between its writes `monitorTx` holds what is stored, as long as the row is to be sent. */
  predicate CopyFits(row: Row, pc: Monitor) {
    !pc.Idle? && !pc.m.Settled() && AfterStore(pc).None? ==> row == pc.m
  }

  ghost predicate Fields(s: State, b: Row) {
    && Protocol(s)
    && VersionFits(s.row, b)
    && (!s.monitor.Idle? ==> VersionFits(s.monitor.m, b))
    && (s.owner.Holds? ==> VersionFits(s.owner.r, b))
    && (s.reorg.Holds? ==> VersionFits(s.reorg.r, b))
    && TxFits(s.monitor)
    && CopyFits(s.row, s.monitor)
  }

  lemma ScanKeepsFields(cfg: Config, s: State, e: Event, b: Row)
    requires Fields(s, b) && ScanStep(cfg, s, e).Some?
    ensures Fields(ScanStep(cfg, s, e).value, b)
  {
    ScanKeepsProtocol(cfg, s, e);
  }

  lemma ReviewKeepsFields(s: State, e: Event, b: Row)
    requires Fields(s, b) && ReviewStep(s, e).Some?
    ensures Fields(ReviewStep(s, e).value, b)
  {
    ReviewKeepsProtocol(s, e);
  }

  lemma DeliverKeepsFields(s: State, e: Event, b: Row)
    requires Fields(s, b) && DeliverStep(s, e).Some?
    ensures Fields(DeliverStep(s, e).value, b)
  {
    DeliverKeepsProtocol(s, e);
  }

  lemma DecideKeepsFields(s: State, e: Event, b: Row)
    requires Fields(s, b) && DecideStep(s, e).Some?
    ensures Fields(DecideStep(s, e).value, b)
  {
    DecideKeepsProtocol(s, e);
  }

  lemma StoreKeepsFields(s: State, applied: bool, acked: bool, b: Row)
    requires Fields(s, b) && StoreStep(s, applied, acked).Some?
    ensures Fields(StoreStep(s, applied, acked).value, b)
  {
    StoreKeepsProtocol(s, applied, acked);
  }

  lemma WriterKeepsFields(s: State, e: Event, b: Row)
    requires Fields(s, b) && WriterStep(s, e).Some?
    ensures Fields(WriterStep(s, e).value, b)
  {
    WriterKeepsProtocol(s, e);
  }

  lemma WorldKeepsFields(cfg: Config, s: State, e: Event, b: Row)
    requires Fields(s, b) && WorldStep(cfg, s, e).Some?
    ensures Fields(WorldStep(cfg, s, e).value, b)
  {
    WorldKeepsProtocol(cfg, s, e);
  }

  lemma StepKeepsFields(cfg: Config, s: State, e: Event, b: Row)
    requires Fields(s, b) && Next(cfg, s, e).Some?
    ensures Fields(Next(cfg, s, e).value, b)
  {
    if e.Scans() { ScanKeepsFields(cfg, s, e, b); }
    else if e.Reviews() { ReviewKeepsFields(s, e, b); }
    else if e.Delivers() { DeliverKeepsFields(s, e, b); }
    else if e.Decides() { DecideKeepsFields(s, e, b); }
    else if e.Store? { StoreKeepsFields(s, e.applied, e.acked, b); }
    else if e.Writes() { WriterKeepsFields(s, e, b); }
    else { WorldKeepsFields(cfg, s, e, b); }
  }

  /** The other writers change nothing of what they read but the outcome: `setStatusDone`
      the status, `Reorg` the status and the block number it takes back. */
  lemma WritersKeepFields(s: State, e: Event)
    requires WriterStep(s, e).Some? && WriterStep(s, e).value.row != s.row
    ensures var t := WriterStep(s, e).value;
      var read := if e.OwnerWrites? then s.owner else s.reorg;
      && (e.OwnerWrites? || e.ReorgWrites?) && read.Holds?
      && t.row.nonce == read.r.nonce && t.row.history == read.r.history
      && t.row.gas == read.r.gas && t.row.gasOffset == read.r.gasOffset && t.row.gasPrice == read.r.gasPrice
      && t.row.status == (if e.OwnerWrites? then Done else Reorged)
      && t.row.blockNumber == (if e.OwnerWrites? then read.r.blockNumber else None)
  {
  }

  lemma {:induction false} RunKeepsFields(cfg: Config, s: State, es: seq<Event>, b: Row)
    requires Fields(s, b) && Run(cfg, s, es).Some?
    ensures Fields(Run(cfg, s, es).value, b)
    decreases |es|
  {
    if es != [] {
      StepKeepsFields(cfg, s, es[0], b);
      RunKeepsFields(cfg, Next(cfg, s, es[0]).value, es[1..], b);
    }
  }

  lemma OnlySendsSend(cfg: Config, t: State, e: Event, tx: Tx)
    requires Next(cfg, t, e).Some? && tx in Next(cfg, t, e).value.l1.sent && tx !in t.l1.sent
    ensures e.SendTx? && t.monitor.AtNetwork? && t.monitor.tx == tx
  {
  }

  /** Over every run: the gas offset never changes, and every tx that is in the history or
      was sent carries at least the nonce, the gas limit with the offset and the gas price
      the row started with. */
  lemma NeverBelowStart(cfg: Config, s: State, es: seq<Event>)
    requires Init(s) && Run(cfg, s, es).Some?
    ensures var t := Run(cfg, s, es).value;
      && t.row.gasOffset == s.row.gasOffset
      && s.row.nonce <= t.row.nonce && s.row.gas <= t.row.gas && s.row.gasPrice <= t.row.gasPrice
      && StatusFits(t.row)
      && forall tx :: tx in t.row.history + t.l1.sent ==>
           && s.row.nonce <= tx.nonce && s.row.gasPrice <= tx.gasPrice
           && s.row.gas + s.row.gasOffset <= tx.gas
  {
    RunKeepsFields(cfg, s, es, s.row);
  }

  /** Over every run: a tx that is sent now is in the history of a stored row that is still
      to be sent, and carries exactly the nonce, the gas limit with the offset and the gas
      price of that stored row. */
  lemma SentAsStored(cfg: Config, s: State, es: seq<Event>, e: Event, tx: Tx)
    requires Init(s) && Run(cfg, s, es).Some? && Next(cfg, Run(cfg, s, es).value, e).Some?
    requires var t := Run(cfg, s, es).value; tx in Next(cfg, t, e).value.l1.sent && tx !in t.l1.sent
    ensures var row := Run(cfg, s, es).value.row;
      && row.status in {Created, Sent} && tx in row.history
      && tx.nonce == row.nonce && tx.gas == row.gas + row.gasOffset && tx.gasPrice == row.gasPrice
  {
    RunKeepsFields(cfg, s, es, s.row);
    OnlySendsSend(cfg, Run(cfg, s, es).value, e, tx);
  }
}
