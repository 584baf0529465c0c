/** The confirmation gate: whatever heads the loops read, in whatever order, and however loops overlap,
    fail or re-initialise a cursor, only final deposits of their own block are ever stored or sent. */
module ConfirmationGate {
  import opened Decimal
  import opened Deposits
  import opened BufferStore
  import opened Pipeline
  import opened NoLoss

  /** Status TXCF and at least the chain's minimum number of confirmations. */
  ghost predicate Final(w: World, d: Deposit) {
    d.status.Confirmed? && w.minConf(d.key.chainId) <= d.confirmCount
  }

  ghost predicate AllFinal(w: World, s: System) {
    && (forall r | r in s.db.rows :: Final(w, r.deposit))
    && (forall d | d in s.received :: Final(w, d))
  }

  /** What a loop carries between its steps. */
  ghost predicate GateOk(w: World, l: Loop) {
    match l.pc
    case Resting => true
    case Polled(latest, m) => m + w.minConf(l.chain) == latest
    case Positioned(latest, m, _) => m + w.minConf(l.chain) == latest
    case Walking(latest, block, end) => end + w.minConf(l.chain) <= latest
    case Scanned(latest, block, end, ds) =>
      end + w.minConf(l.chain) <= latest && block <= end && Complete(w, l.chain, l.kind, block, ds)
  }

  ghost predicate GateInv(w: World, s: System) {
    && StoreInv(w, s.db.rows)
    && (forall id | id in s.loops :: GateOk(w, s.loops[id]))
    && LinkInv(w, s.received, s.link)
  }

  lemma GatePc(w: World, s: System, id: nat, pc: LoopPc)
    requires GateInv(w, s) && id in s.loops && GateOk(w, s.loops[id].(pc := pc))
    ensures GateInv(w, WithPc(s, id, pc))
  {
  }

  lemma LoopMoves(w: World, s: System, s': System, id: nat, a: LoopAction)
    requires Coherent(w) && GateInv(w, s) && LoopNext(w, s, s', id, a)
    ensures GateOk(w, s'.loops[id])
  {
    hide Complete;
    hide Converted;
    hide Stamp;
    var Loop(c, k, pc) := s.loops[id];
    assert GateOk(w, s.loops[id]);
    if a.Scan? {
      ScanIsComplete(w, c, k, pc.block, a.events, pc.latest - pc.block, a.now);
    }
  }

  lemma LoopKeepsGate(w: World, s: System, s': System, id: nat, a: LoopAction)
    requires Coherent(w) && GateInv(w, s) && LoopNext(w, s, s', id, a)
    ensures GateInv(w, s')
  {
    var Loop(c, k, pc) := s.loops[id];
    assert GateOk(w, s.loops[id]);
    if a.Commit? {
      CommitRows(w, s.db.rows, c, k, pc.block, pc.deposits);
    }
    LoopMoves(w, s, s', id, a);
    hide GateOk;
    hide LinkInv;
    hide InsertAll;
    hide Converted;
    assert a.InitCursor? ==> InsertAll(s.db.rows, [], pc.maxConfirmed) == s.db.rows by { InsertNone(s.db.rows); }
    GatePc(w, s, id, s'.loops[id].pc);
  }

  lemma InsertNone(rows: seq<Row>)
    ensures forall b :: InsertAll(rows, [], b) == rows
  {
  }

  lemma ReceiveKeepsGate(w: World, s: System, c: Conn)
    requires GateInv(w, s) && s.link == Up(c) && c.wire != []
    ensures GateInv(w, PubAfter(w, s, c, Receive))
  {
    assert Genuine(w, c.wire[0]);
    ReceiveConn(w, s, c);
    hide AckId;
    hide ConnInv;
  }

  lemma UnlistKeepsGate(w: World, s: System, c: Conn, applied: bool)
    requires GateInv(w, s) && s.link == Up(c) && c.phase.Taken?
    ensures GateInv(w, PubAfter(w, s, c, Unlist(applied)))
  {
    DeleteRemovesOnlyKey(s.db.rows, c.phase.key);
    assert ConnInv(w, s.received, c.(phase := Selecting));
    hide AckId;
    hide ConnInv;
  }

  lemma PublisherKeepsGate(w: World, s: System, s': System, a: PubAction)
    requires GateInv(w, s) && PubNext(w, s, s', a) && !a.Connect? && !a.Lose?
    ensures GateInv(w, s')
  {
    hide AckId;
    hide ConnInv;
    var c := s.link.conn;
    if a.Receive? {
      ReceiveKeepsGate(w, s, c);
    } else if a.Unlist? {
      UnlistKeepsGate(w, s, c, a.applied);
    } else if a.Fetch? {
      FetchConn(w, s, c);
    } else if a.TakeAck? {
      TakeConn(w, s, c);
    } else if a.SkipSent? || a.Write? || a.Record? || a.EndFill? {
      FillConn(w, s, c, a);
    } else {
      AckConn(w, s, c, a);
    }
  }

  lemma StepKeepsGate(w: World, s: System, s': System, a: Action)
    requires Coherent(w) && GateInv(w, s) && Next(w, s, s', a)
    ensures GateInv(w, s')
  {
    match a {
      case ByLoop(id, step) => LoopKeepsGate(w, s, s', id, step);
      case ByPublisher(Connect) =>
      case ByPublisher(Lose(_)) =>
      case ByPublisher(act) => PublisherKeepsGate(w, s, s', act);
      case _ =>
    }
  }

  lemma {:induction false} RunKeepsGate(w: World, states: seq<System>, actions: seq<Action>, i: nat)
    requires Coherent(w) && IsRun(w, states, actions) && i < |states|
    ensures GateInv(w, states[i])
  {
    if i > 0 {
      RunKeepsGate(w, states, actions, i - 1);
      StepKeepsGate(w, states[i - 1], states[i], actions[i - 1]);
    }
  }

  /** In every state of every run each stored row and each delivery is final, each row records an event
      of the block it is filed under, and no key is stored twice. */
  lemma OnlyFinalDepositsAreStored(w: World, states: seq<System>, actions: seq<Action>, s: System)
    requires Coherent(w) && IsRun(w, states, actions) && s in states
    ensures AllFinal(w, s) && UniqueKeys(s.db.rows)
    ensures forall r | r in s.db.rows ::
              exists k, e | e in w.scan(r.deposit.key.chainId, k, r.block) ::
                  ExpectedCore(e, w.kst) == Some(Core(r.deposit))
  {
    var i :| 0 <= i < |states| && states[i] == s;
    RunKeepsGate(w, states, actions, i);
    forall r | r in s.db.rows
      ensures Final(w, r.deposit)
      ensures exists k, e | e in w.scan(r.deposit.key.chainId, k, r.block) ::
                ExpectedCore(e, w.kst) == Some(Core(r.deposit))
    {
      assert GenuineAt(w, r.deposit, r.block);
    }
  }
}
