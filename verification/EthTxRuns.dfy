/** When the eth tx manager keeps its promise not to send the same data successfully
    twice: exactly when receipt lookups do not fail and L1 does not drop blocks. */
module EthTxRuns {
  import opened Basics
  import opened EthTxManager

  /** A run with all the states it passes through. */
  datatype Path = Path(cfg: Config, states: seq<State>, events: seq<Event>)
  {
    ghost predicate Valid() {
      && |states| == |events| + 1
      && forall i :: 0 <= i < |events| ==> Next(cfg, states[i], events[i]) == Some(states[i + 1])
    }

    function First(): State
      requires states != []
    {
      states[0]
    }

    function Last(): State
      requires states != []
    {
      states[|states| - 1]
    }
  }

  lemma {:induction false} PathIsRun(p: Path)
    requires p.Valid()
    ensures Run(p.cfg, p.First(), p.events) == Some(p.Last())
    decreases |p.events|
  {
    if p.events != [] {
      PathIsRun(Path(p.cfg, p.states[1..], p.events[1..]));
    }
  }

  /** One more step, to a state that is spelled out. */
  lemma GoTo(p: Path, e: Event, t: State) returns (q: Path)
    requires p.Valid() && Next(p.cfg, p.Last(), e) == Some(t)
    ensures q.Valid() && q.cfg == p.cfg && q.First() == p.First() && q.Last() == t
  {
    q := Path(p.cfg, p.states + [t], p.events + [e]);
  }

  lemma Go(p: Path, e: Event) returns (q: Path)
    requires p.Valid() && Next(p.cfg, p.Last(), e).Some?
    ensures q.Valid() && q.cfg == p.cfg && q.First() == p.First()
    ensures q.Last() == Next(p.cfg, p.Last(), e).value
  {
    q := Path(p.cfg, p.states + [Next(p.cfg, p.Last(), e).value], p.events + [e]);
  }

  // ------------------------------------------------------- two unsafe families

  const H1 := Tx(0, 1, 1)
  const H2 := Tx(1, 1, 1)
  const H3 := Tx(2, 1, 1)

  const FRESH := State(Row(0, 1, 0, 1, Created, None, {}), Idle, Away, Away, L1([], {}))

  function SentRow(nonce: nat, history: set<Tx>): Row {
    Row(nonce, 1, 0, 1, Sent, None, history)
  }

  /** A tx that is not in the history yet is stored there and then sent. */
  lemma SendNew(p: Path) returns (q: Path)
    requires p.Valid() && p.Last().monitor == Building(p.Last().row)
    requires p.Last().row.BuildTx() !in p.Last().row.history
    ensures q.Valid() && q.cfg == p.cfg && q.First() == p.First()
    ensures var t := p.Last();
      var tx := t.row.BuildTx();
      var m := t.row.(history := t.row.history + {tx});
      q.Last() == t.(row := m,
               monitor := if m.status == Created then StoreSent(m.(status := Sent), tx) else Waiting(m, tx),
               l1 := t.l1.(sent := t.l1.sent + {tx}))
  {
    var t, tx := p.Last(), p.Last().row.BuildTx();
    var m := t.row.(history := t.row.history + {tx});
    q := GoTo(p, Build, t.(monitor := StoreHistory(m, tx)));
    q := GoTo(q, Store(true, true), t.(row := m, monitor := AtNetwork(m, tx)));
    q := Go(q, SendTx(true, true));
  }

  /** A new row has nothing to scan or to review. */
  lemma FirstScan(cfg: Config) returns (p: Path)
    ensures p.Valid() && p.cfg == cfg && p.First() == FRESH
    ensures p.Last() == FRESH.(monitor := Building(FRESH.row))
  {
    p := Path(cfg, [FRESH], []);
    p := GoTo(p, Load, FRESH.(monitor := Scanning(FRESH.row, {}, false, true)));
    p := GoTo(p, EndScan, FRESH.(monitor := Unconfirmed(FRESH.row)));
    p := GoTo(p, SkipReview, FRESH.(monitor := Building(FRESH.row)));
  }

  /** First send: H1 goes out with nonce 0. */
  lemma FirstSend(cfg: Config) returns (p: Path)
    ensures p.Valid() && p.cfg == cfg && p.First() == FRESH
    ensures p.Last() == State(SentRow(0, {H1}), Idle, Away, Away, L1([], {H1}))
  {
    p := FirstScan(cfg);
    p := SendNew(p);
    assert {} + {H1} == {H1};
    p := GoTo(p, Store(true, true), State(SentRow(0, {H1}), Waiting(SentRow(0, {H1}), H1), Away, Away, L1([], {H1})));
    p := Go(p, Return);
  }

  /** Nonce and fee review of a sent row, up to building the next tx. */
  lemma Review(p: Path, nonce: nat) returns (q: Path)
    requires p.Valid() && p.Last().monitor == ReviewNonce(p.Last().row)
    requires p.Last().row == SentRow(p.Last().row.nonce, p.Last().row.history)
    requires p.Last().row.nonce <= nonce == |p.Last().l1.mined|
    ensures q.Valid() && q.cfg == p.cfg && q.First() == p.First()
    ensures var m := SentRow(nonce, p.Last().row.history);
      q.Last() == p.Last().(row := m, monitor := Building(m))
  {
    var t, m := p.Last(), SentRow(nonce, p.Last().row.history);
    q := GoTo(p, ReadNonce, t.(monitor := StoreNonce(m)));
    q := GoTo(q, Store(true, true), t.(row := m, monitor := Unconfirmed(m)));
    q := GoTo(q, ReviewFees(1, 1), t.(row := m, monitor := StoreReview(m)));
    q := GoTo(q, Store(true, true), t.(row := m, monitor := Building(m)));
  }

  /** From a finished scan that calls for a nonce review to the next send. */
  lemma Resend(p: Path, nonce: nat) returns (q: Path)
    requires p.Valid() && p.Last().monitor == ReviewNonce(p.Last().row)
    requires p.Last().row == SentRow(p.Last().row.nonce, p.Last().row.history)
    requires p.Last().row.nonce <= nonce == |p.Last().l1.mined| && Tx(nonce, 1, 1) !in p.Last().row.history
    ensures q.Valid() && q.cfg == p.cfg && q.First() == p.First()
    ensures var t, tx := p.Last(), Tx(nonce, 1, 1);
      q.Last() == t.(row := SentRow(nonce, t.row.history + {tx}), monitor := Idle,
               l1 := t.l1.(sent := t.l1.sent + {tx}))
  {
    q := Review(p, nonce);
    q := SendNew(q);
    q := Go(q, Return);
  }

  /** H1 is mined and fails, the nonce is reviewed, H2 goes out with nonce 1. */
  lemma SecondSend(cfg: Config) returns (p: Path)
    ensures p.Valid() && p.cfg == cfg && p.First() == FRESH
    ensures p.Last() == State(SentRow(1, {H1, H2}), Idle, Away, Away, L1([Ours(H1, false, 5)], {H1, H2}))
  {
    p := FirstSend(cfg);
    p := Go(p, Mine(H1, false, 5));
    p := Go(p, Load);
    p := Go(p, CheckReceipt(H1));
    p := Go(p, EndScan);
    p := Resend(p, 1);
    assert p.Last().l1.sent == {H1, H2} && p.Last().row.history == {H1, H2};
    assert p.Last().l1.mined == [Ours(H1, false, 5)];
  }

  /** The L1 drops the block of the failed H1 and mines both. */
  lemma TwiceAfterReorg(cfg: Config) returns (p: Path)
    requires cfg.chainReorgs
    ensures p.Valid() && p.cfg == cfg && p.First() == FRESH && !AtMostOneSuccess(p.Last().l1)
  {
    p := SecondSend(cfg);
    p := Go(p, DropBlocks(0));
    p := Go(p, Mine(H1, true, 5));
    p := Go(p, Mine(H2, true, 6));
    assert p.Last().l1.Succeeded(H1) && p.Last().l1.Succeeded(H2);
  }

  /** H2 is mined successfully, but its lookup fails: the scan still counts every
      history tx as mined and calls for a nonce review. */
  lemma BlindScan(cfg: Config) returns (p: Path)
    requires cfg.lookupErrors
    ensures p.Valid() && p.cfg == cfg && p.First() == FRESH
    ensures var row := SentRow(1, {H1, H2});
      p.Last() == State(row, ReviewNonce(row), Away, Away, L1([Ours(H1, false, 5), Ours(H2, true, 6)], {H1, H2}))
  {
    p := SecondSend(cfg);
    p := Go(p, Mine(H2, true, 6));
    p := Go(p, Load);
    p := Go(p, CheckReceipt(H1));
    p := Go(p, CheckError(H2));
    p := Go(p, EndScan);
  }

  /** ... so the same data is sent again and succeeds again. */
  lemma TwiceAfterLookupError(cfg: Config) returns (p: Path)
    requires cfg.lookupErrors
    ensures p.Valid() && p.cfg == cfg && p.First() == FRESH && !AtMostOneSuccess(p.Last().l1)
  {
    p := BlindScan(cfg);
    p := Resend(p, 2);
    p := Go(p, Mine(H3, true, 7));
    assert p.Last().l1.Succeeded(H2) && p.Last().l1.Succeeded(H3);
  }

  ghost predicate AlwaysSafe(cfg: Config) {
    forall s, es :: Init(s) && Run(cfg, s, es).Some? ==> AtMostOneSuccess(Run(cfg, s, es).value.l1)
  }

  /** The promise holds in every run of an environment if and only if the environment
      neither fails receipt lookups nor drops mined blocks. */
  lemma SafeExactlyWhenStable(cfg: Config)
    ensures AlwaysSafe(cfg) <==> Stable(cfg)
  {
    if Stable(cfg) {
      forall s, es | Init(s) && Run(cfg, s, es).Some?
        ensures AtMostOneSuccess(Run(cfg, s, es).value.l1)
      {
        NeverTwice(cfg, s, es);
      }
    } else if cfg.chainReorgs {
      var p := TwiceAfterReorg(cfg);
      PathIsRun(p);
    } else {
      var p := TwiceAfterLookupError(cfg);
      PathIsRun(p);
    }
  }
}
