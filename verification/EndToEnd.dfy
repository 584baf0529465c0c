/** The guarantee the listener exists for: scanners, store, publisher and Adapter composed. Every
    deposit that a scanned block holds is in the buffer or at the Adapter, with its own key, parties
    and amount, in every state of every run. */
module EndToEnd {
  import opened Decimal
  import opened Deposits
  import opened BufferStore
  import opened Accounts
  import opened Pipeline
  import opened LogScanner
  import opened TraceScanner
  import opened KeySpace
  import opened NoLoss
  import opened InitGuard
  import ScanLoop

  /** One chain: its settings, its confirmed blocks and what the node answers about them. */
  datatype Ledger = Ledger(chain: Chain, blocks: nat -> Block, node: Node)

  datatype Universe = Universe(ledgers: map<int, Ledger>, table: seq<Account>)

  datatype Settings = Settings(kst: Clock, minConf: int -> nat, maxBlocks: nat, maxInFlight: nat, maxBatch: nat)

  /** What the two scanners extract from block `b`; ScanLog and ScanTrace below show that their code
      returns exactly this. */
  function ScanOf(u: Universe, c: int, k: Kind, b: nat): seq<DepositEvent> {
    if c !in u.ledgers then []
    else
      var l := u.ledgers[c];
      match k
      case LogKind => LogScan(l.chain, u.table, l.blocks(b))
      case TraceKind => TraceScan(l.chain, l.node, Watch(u.table, l.chain.id), l.blocks(b))
  }

  function WorldOf(u: Universe, cfg: Settings): World {
    World((c: int, k: Kind, b: nat) => ScanOf(u, c, k, b), cfg.kst, cfg.minConf, cfg.maxBlocks, cfg.maxInFlight,
          cfg.maxBatch)
  }

  /** Blocks of at most 99,999 transactions, unique log indices, logs of the block's own
      transactions. */
  ghost predicate OrderlyBlock(block: Block) {
    && |block.txs| <= MAX_TXS && UniqueLogs(block.logs)
    && forall lg | lg in block.logs :: MinedIn(block, lg.txHash)
  }

  ghost predicate MinedIn(block: Block, hash: string) {
    exists tx | tx in block.txs :: tx.hash == hash
  }

  /** A transaction belongs to one block of its chain, and a node that calls tracing unsupported once
      never returns a trace with a payment. */
  ghost predicate Orderly(u: Universe) {
    forall c | c in u.ledgers ::
      && u.ledgers[c].chain.id == c
      && Steady(u.ledgers[c].node)
      && (forall b :: OrderlyBlock(u.ledgers[c].blocks(b)))
      && (forall b, b', hash | MinedIn(u.ledgers[c].blocks(b), hash) && MinedIn(u.ledgers[c].blocks(b'), hash) ::
            b == b')
  }

  lemma EventsBelong(chain: Chain, table: seq<Account>, node: Node, block: Block, e: DepositEvent)
    requires OrderlyBlock(block) && e in AllEvents(chain, table, node, block)
    ensures e.key.chainId == chain.id && MinedIn(block, e.key.txHash)
  {
    NativesShape(chain, table, block.time, block.txs);
    TokensShape(chain, table, block.time, block.logs);
    HitsInBlock(node, Watch(table, chain.id), block.txs);
    var hits := BlockHits(node, Watch(table, chain.id), block.txs);
    if e in Natives(chain, table, block.time, block.txs) {
      assert block.txs[-1 - e.key.logIndex] in block.txs;
    } else if e in TraceScan(chain, node, Watch(table, chain.id), block) {
      var i :| 0 <= i < |hits| && e == TraceEvent(chain, block.time, hits[i], i);
      assert hits[i] in hits;
    } else {
      assert e in Tokens(chain, table, block.time, block.logs);
    }
  }

  lemma SameKeySameEvent(events: seq<DepositEvent>, e: DepositEvent, e': DepositEvent)
    requires DistinctKeys(events) && e in events && e' in events && e.key == e'.key
    ensures e == e'
  {
    var i :| 0 <= i < |events| && events[i] == e;
    var j :| 0 <= j < |events| && events[j] == e';
  }

  lemma ScanIsPart(u: Universe, c: int, k: Kind, b: nat, e: DepositEvent)
    requires Orderly(u) && e in ScanOf(u, c, k, b)
    ensures c in u.ledgers && e in AllEvents(u.ledgers[c].chain, u.table, u.ledgers[c].node, u.ledgers[c].blocks(b))
    ensures e.key.chainId == c && MinedIn(u.ledgers[c].blocks(b), e.key.txHash)
  {
    hide LogScan;
    hide TraceScan;
    var l := u.ledgers[c];
    assert OrderlyBlock(l.blocks(b));
    EventsBelong(l.chain, u.table, l.node, l.blocks(b), e);
  }

  /** Across all blocks of a chain and both scanners a key names one event, so ignoring an insert
      conflict never drops a different deposit. */
  lemma OrderlyIsCoherent(u: Universe, cfg: Settings)
    requires Orderly(u)
    ensures Coherent(WorldOf(u, cfg))
  {
    var w := WorldOf(u, cfg);
    forall c, k, b, e | Emits(w, c, k, b, e) ensures e.key.chainId == c {
      ScanIsPart(u, c, k, b, e);
    }
    forall c, k, b, e, c', k', b', e' | Emits(w, c, k, b, e) && Emits(w, c', k', b', e') && e.key == e'.key
      ensures e == e'
    {
      ScanIsPart(u, c, k, b, e);
      ScanIsPart(u, c', k', b', e');
      var l := u.ledgers[c];
      assert b == b';
      assert OrderlyBlock(l.blocks(b));
      KeysNeverMeet(l.chain, u.table, l.node, l.blocks(b));
      SameKeySameEvent(AllEvents(l.chain, u.table, l.node, l.blocks(b)), e, e');
    }
  }

  // ---------- the code returns these events ----------

  /** The log scanner is a scanner of this world; it fails only when one of its calls does, or on a log that
      its decoder rejects. */
  method ScanLog(u: Universe, cfg: Settings, c: int, b: nat, confirmations: int, calls: LogCalls)
    returns (ok: bool, events: seq<DepositEvent>, ghost order: seq<DepositEvent>)
    requires c in u.ledgers
    ensures ok <==> LogScanReached(u.ledgers[c].chain, u.table, u.ledgers[c].blocks(b), calls)
    ensures ok ==> ScanLoop.IsScan(WorldOf(u, cfg), c, LogKind, b, confirmations, events, order)
    ensures ok ==> multiset(events) == multiset(Stamp(WorldOf(u, cfg).scan(c, LogKind, b), confirmations))
  {
    hide LogScan;
    hide LogScanReached;
    var l := u.ledgers[c];
    ok, events, order := LogScanner.ScanBlock(l.chain, u.table, l.blocks(b), confirmations, calls);
  }

  /** So is the trace scanner, whatever its cache holds and whether or not it has stopped; it fails only
      when the block cannot be fetched or a code query goes unanswered. */
  method ScanTrace(u: Universe, cfg: Settings, c: int, scanner: TraceScanner, b: nat, confirmations: int,
                   fetches: bool, codes: string -> bool)
    returns (ok: bool, events: seq<DepositEvent>, ghost order: seq<DepositEvent>)
    requires Orderly(u) && c in u.ledgers && scanner.Valid()
    requires scanner.chain == u.ledgers[c].chain && scanner.node == u.ledgers[c].node
    requires scanner.watched == Watch(u.table, c)
    modifies scanner
    ensures scanner.Valid()
    ensures ok ==> ScanLoop.IsScan(WorldOf(u, cfg), c, TraceKind, b, confirmations, events, order)
    ensures !ok ==> !fetches || exists tx | tx in u.ledgers[c].blocks(b).txs :: Unanswered(codes, tx)
  {
    hide TraceScan;
    hide Steady;
    ghost var n;
    ok, events, order, n := scanner.ScanBlock(u.ledgers[c].blocks(b), confirmations, fetches, codes);
  }

  // ---------- the guarantee ----------

  /** The deposit `e` turns into: key, parties, symbol, exact amount, confirmed. */
  ghost predicate Records(d: Deposit, e: DepositEvent, kst: Clock) {
    && d.key == e.key && d.from == e.from && d.to == e.to && d.symbol == e.symbol
    && d.amount == FormatUnits(e.amount, e.decimals) && d.status.Confirmed? && Some(d.txTime) == kst(e.txTime)
  }

  ghost predicate Safe(s: System, e: DepositEvent, kst: Clock) {
    || (exists r | r in s.db.rows :: Records(r.deposit, e, kst))
    || (exists d | d in s.received :: Records(d, e, kst))
  }

  /** The main theorem. In every state of every run over orderly chains, whatever loops overlap, fail,
      restart or crash, and whatever the connection does, each event of each block between a scanner's
      first initialisation and its cursor is safe, provided its initialising writes are guarded or each
      scanner has one loop at a time. */
  lemma EveryDepositIsSafe(u: Universe, cfg: Settings, states: seq<System>, actions: seq<Action>,
                           s: System, c: int, k: Kind, b: nat, e: DepositEvent)
    requires Orderly(u) && IsRun(WorldOf(u, cfg), states, actions)
    requires SafeInits(states, actions)
    requires s in states && (c, k) in s.inits && s.inits[(c, k)] < b <= CursorOf(s.db.cursors, c, k)
    requires e in ScanOf(u, c, k, b) && cfg.kst(e.txTime).Some?
    ensures Safe(s, e, cfg.kst)
  {
    OrderlyIsCoherent(u, cfg);
    SafeInitsLoseNothing(WorldOf(u, cfg), states, actions);
    NothingLostIsSafe(u, cfg, s, c, k, b, e);
  }

  lemma NothingLostIsSafe(u: Universe, cfg: Settings, s: System, c: int, k: Kind, b: nat, e: DepositEvent)
    requires NothingLost(WorldOf(u, cfg), s)
    requires (c, k) in s.inits && s.inits[(c, k)] < b <= CursorOf(s.db.cursors, c, k)
    requires e in ScanOf(u, c, k, b) && cfg.kst(e.txTime).Some?
    ensures Safe(s, e, cfg.kst)
  {
    hide ScanOf;
    var w := WorldOf(u, cfg);
    var core := ExpectedCore(e, cfg.kst).value;
    assert core in Expected(w, c, k, b);
    assert HoldsBlock(w, s.db.rows, s.received, c, k, b);
    CoreRecords(s, e, cfg.kst, core);
  }

  lemma CoreRecords(s: System, e: DepositEvent, kst: Clock, core: Deposit)
    requires ExpectedCore(e, kst) == Some(core) && Held(s.db.rows, s.received, core)
    ensures Safe(s, e, kst)
  {
    hide FormatUnits;
    if r :| r in s.db.rows && Core(r.deposit) == core {
      assert Records(r.deposit, e, kst);
    } else {
      var d :| d in s.received && Core(d) == core;
      assert Records(d, e, kst);
    }
  }

  /** `s` is a state of a run over orderly chains, and block `b` lies between the first initialisation of the
      scanner and its cursor. */
  ghost predicate Covered(u: Universe, cfg: Settings, states: seq<System>, actions: seq<Action>, s: System,
                          c: int, k: Kind, b: nat) {
    && Orderly(u) && IsRun(WorldOf(u, cfg), states, actions) && SafeInits(states, actions) && s in states
    && c in u.ledgers && (c, k) in s.inits && s.inits[(c, k)] < b <= CursorOf(s.db.cursors, c, k)
  }

  /** For a plain transfer: the i-th transaction of a scanned block, without data, pays an account of the
      chain, whatever the case of its address; so a deposit with its hash, sender, recipient and exact
      amount is in the buffer or at the Adapter. */
  lemma NativeTransferIsSafe(u: Universe, cfg: Settings, states: seq<System>, actions: seq<Action>,
                             s: System, c: int, b: nat, i: nat)
    requires Covered(u, cfg, states, actions, s, c, LogKind, b)
    requires var block := u.ledgers[c].blocks(b);
             && cfg.kst(block.time).Some? && i < |block.txs|
             && var tx := block.txs[i];
                tx.to.Some? && tx.dataLength == 0 && tx.value > 0 && Listed(u.table, c, tx.to.value)
    ensures var l := u.ledgers[c];
            var tx := l.blocks(b).txs[i];
            Safe(s, DepositEvent(Key(c, tx.hash, -1 - i), tx.sender, tx.to.value, Some(tx.value),
                                 l.chain.native, l.chain.decimals, 0, l.blocks(b).time), cfg.kst)
  {
    var l := u.ledgers[c];
    var block := l.blocks(b);
    HasIsCaseBlind(u.table, c, block.txs[i].to.value);
    NativeListed(l.chain, u.table, block.time, block.txs, i);
    hide Has;
    hide Listed;
    hide Natives;
    EveryDepositIsSafe(u, cfg, states, actions, s, c, LogKind, b, NativeEvent(l.chain, block.time, block.txs[i], i));
  }

  /** For a token transfer: a log of the contract configured under the lower-case address `a` pays an account
      of the chain; so a deposit with the log's hash and index, its parties and exact amount, and the
      contract's symbol and decimals is in the buffer or at the Adapter. */
  lemma TokenTransferIsSafe(u: Universe, cfg: Settings, states: seq<System>, actions: seq<Action>,
                            s: System, c: int, b: nat, i: nat, a: string, symbol: string)
    requires Covered(u, cfg, states, actions, s, c, LogKind, b)
    requires var l := u.ledgers[c];
             && cfg.kst(l.blocks(b).time).Some? && i < |l.blocks(b).logs|
             && a in l.chain.contracts && (forall ch | ch in a :: ch !in UPPER)
             && Shown(l.chain.contracts[a].symbol, l.chain.kcp == Some(c), symbol)
             && var lg := l.blocks(b).logs[i];
                lg.decoded.Transfer? && SameButCase(lg.address, a) && Listed(u.table, c, lg.decoded.to)
    ensures var l := u.ledgers[c];
            var lg := l.blocks(b).logs[i];
            Safe(s, DepositEvent(Key(c, lg.txHash, lg.index), lg.decoded.from, lg.decoded.to, Some(lg.decoded.amount),
                                 symbol, l.chain.contracts[a].decimals, 0, l.blocks(b).time), cfg.kst)
  {
    var l := u.ledgers[c];
    var block := l.blocks(b);
    var lg := block.logs[i];
    LowerIsCaseBlind(lg.address, a);
    LowerKeeps(a);
    HasIsCaseBlind(u.table, c, lg.decoded.to);
    TokenListed(l.chain, u.table, block.time, block.logs, i);
    TokenEventDescribes(l.chain, block.time, lg);
    ShownIsOne(l.chain.contracts[a].symbol, l.chain.kcp == Some(c), symbol, TokenEvent(l.chain, block.time, lg).symbol);
    hide Has;
    hide Listed;
    hide Lower;
    hide SameButCase;
    hide Tokens;
    EveryDepositIsSafe(u, cfg, states, actions, s, c, LogKind, b, TokenEvent(l.chain, block.time, lg));
  }

  lemma ShownIsOne(raw: string, kcp: bool, symbol: string, symbol': string)
    requires Shown(raw, kcp, symbol) && Shown(raw, kcp, symbol')
    ensures symbol == symbol'
  {
    assert Wraps(raw, symbol) ==> raw[1..] == symbol;
    assert Wraps(raw, symbol') ==> raw[1..] == symbol';
  }

  /** For an internal transfer: a traced contract call reaches, through frames that did not revert and within
      the depth limit, a CALL that pays n > 0 to an account of the chain, its value being any
      hexadecimal writing of n; so a deposit with the transaction's hash, the frame's parties and the
      amount n is in the buffer or at the Adapter, under an index from -100,000 down. */
  lemma InternalTransferIsSafe(u: Universe, cfg: Settings, states: seq<System>, actions: seq<Action>,
                               s: System, c: int, b: nat, t: nat, path: seq<nat>, f: Frame,
                               n: nat, zeros: nat, upper: nat -> bool)
    returns (i: nat)
    requires Covered(u, cfg, states, actions, s, c, TraceKind, b)
    requires var l := u.ledgers[c];
             && cfg.kst(l.blocks(b).time).Some? && t < |l.blocks(b).txs|
             && var tx := l.blocks(b).txs[t];
                && tx.to.Some? && l.node.codeSize(tx.to.value) > 0 && l.node.trace(tx.hash).Traced?
                && Reaches(l.node.trace(tx.hash).root.calls, path, f) && |path| <= 1025
    requires f.kind == "CALL" && n > 0 && f.value == "0x" + (Zeros(zeros) + HexText(n, upper))
    requires Listed(u.table, c, f.to)
    ensures var l := u.ledgers[c];
            Safe(s, DepositEvent(Key(c, l.blocks(b).txs[t].hash, -100_000 - i), f.from, f.to, Some(n),
                                 l.chain.native, l.chain.decimals, 0, l.blocks(b).time), cfg.kst)
  {
    var l := u.ledgers[c];
    var block := l.blocks(b);
    var watched := Watch(u.table, c);
    HexValueReads(n, zeros, upper);
    HasIsCaseBlind(u.table, c, f.to);
    hide HexValue;
    hide HexText;
    hide Has;
    hide Listed;
    hide Reaches;
    assert Pays(f, watched);
    i := ReachedIsHit(l.node, watched, block.txs, t, path, f);
    hide BlockHits;
    var hit := BlockHits(l.node, watched, block.txs)[i];
    assert TraceScan(l.chain, l.node, watched, block)[i] == TraceEvent(l.chain, block.time, hit, i);
    EveryDepositIsSafe(u, cfg, states, actions, s, c, TraceKind, b, TraceEvent(l.chain, block.time, hit, i));
  }
}
