/** The auditor (internal/audit/auditor.go): rescan sampled blocks and count the pending rows that the
    rescan does not find, telling the scanners apart by log_index alone. */
module Auditor {
  import opened Decimal
  import opened Deposits
  import opened BufferStore
  import opened Accounts
  import opened Pipeline
  import opened LogScanner
  import opened TraceScanner
  import opened KeySpace
  import opened NoLoss
  import opened ConfirmationGate
  import opened EndToEnd

  function ScannerName(k: Kind): string { if k.LogKind? then "log" else "trace" }

  predicate OwnedBy(name: string, logIndex: int) {
    if name == "log" then logIndex > -10_000
    else if name == "trace" then logIndex <= -100_000
    else true
  }

  function EventKeys(events: seq<DepositEvent>): set<Key> { set e | e in events :: e.key }

  predicate FiledUnder(r: Row, chain: int, block: nat) { r.deposit.key.chainId == chain && r.block == block }

  /** The rows an audit of the block reports: attributed to the scanner, unknown to the rescan. */
  ghost function Reported(rows: seq<Row>, chain: int, name: string, block: nat, keys: set<Key>): set<Row> {
    set r | r in rows && FiledUnder(r, chain, block) && OwnedBy(name, r.deposit.key.logIndex) && r.deposit.key !in keys
  }

  // ---------- the code ----------

  ghost predicate SameIds(ids: set<string>, events: seq<DepositEvent>) {
    forall k: Key :: AckId(k) in ids <==> k in EventKeys(events)
  }

  method RescannedIds(events: seq<DepositEvent>) returns (ids: set<string>)
    ensures SameIds(ids, events)
  {
    hide AckId;
    ids := {};
    for i := 0 to |events|
      invariant SameIds(ids, events[..i])
    {
      assert events[..i + 1] == events[..i] + [events[i]];
      forall k: Key ensures AckId(k) in ids + {AckId(events[i].key)} <==> k in EventKeys(events[..i + 1]) {
        if k != events[i].key { AckIdDistinct(k, events[i].key); }
      }
      ids := ids + {AckId(events[i].key)};
    }
    assert events[..|events|] == events;
  }

  /** Rescan and compare. No answer when the rescan or the query fails; otherwise the exact number of
      rows of this block that the scanner owns and the rescan lacks. */
  method AuditBlock(repo: BufferRepo, chain: int, name: string, block: nat, rescan: Option<seq<DepositEvent>>,
                    answers: bool)
    returns (missing: Option<nat>)
    requires repo.Valid()
    ensures missing.Some? <==> rescan.Some? && answers
    ensures missing.Some? ==> missing.value == |Reported(repo.rows, chain, name, block, EventKeys(rescan.value))|
  {
    hide AckId;
    if rescan.None? { return None; }
    var ok, pending := repo.PendingInBlock(chain, block, answers);
    if !ok { return None; }
    var events := rescan.value;
    ghost var keys := EventKeys(events);
    ghost var rows := InBlock(repo.rows, chain, block);
    InBlockMembers(repo.rows, chain, block);
    ReportedInBlock(repo.rows, chain, name, block, keys);
    hide InBlock;
    hide Reported;
    var ids := RescannedIds(events);
    var count := 0;
    for i := 0 to |pending|
      invariant count == |Reported(rows[..i], chain, name, block, keys)|
    {
      assert rows[i] in rows;
      ReportedOneMore(rows, i, chain, name, block, keys);
      if AckId(pending[i].key) in ids { continue; }
      if !OwnedBy(name, pending[i].key.logIndex) { continue; }
      count := count + 1;
    }
    assert rows[..|pending|] == rows;
    return Some(count);
  }

  lemma ReportedInBlock(rows: seq<Row>, chain: int, name: string, block: nat, keys: set<Key>)
    ensures Reported(InBlock(rows, chain, block), chain, name, block, keys) == Reported(rows, chain, name, block, keys)
    ensures |Reported([], chain, name, block, keys)| == 0
  {
    InBlockMembers(rows, chain, block);
    assert Reported([], chain, name, block, keys) == {};
  }

  lemma ReportedOneMore(rows: seq<Row>, i: nat, chain: int, name: string, block: nat, keys: set<Key>)
    requires UniqueKeys(rows) && i < |rows| && FiledUnder(rows[i], chain, block)
    ensures |Reported(rows[..i + 1], chain, name, block, keys)| ==
            |Reported(rows[..i], chain, name, block, keys)| +
            (if rows[i].deposit.key !in keys && OwnedBy(name, rows[i].deposit.key.logIndex) then 1 else 0)
  {
    var before := Reported(rows[..i], chain, name, block, keys);
    var after := Reported(rows[..i + 1], chain, name, block, keys);
    assert rows[..i + 1] == rows[..i] + [rows[i]];
    assert forall j | 0 <= j < i :: rows[j] != rows[i];
    assert rows[i] !in rows[..i];
    if rows[i].deposit.key !in keys && OwnedBy(name, rows[i].deposit.key.logIndex) {
      assert after == before + {rows[i]};
    } else {
      assert after == before;
    }
  }

  datatype Report = Report(block: nat, missing: nat)

  /** The i-th sample: a random block of the window that ends `margin` blocks behind the cursor. */
  function Sample(cursor: nat, window: nat, margin: nat, pick: nat): nat
    requires window + margin <= cursor
  {
    cursor - (window + margin) + pick % (window + 1)
  }

  /** The samples are the blocks of the window, and every one of them can be picked. */
  lemma SampleCovers(cursor: nat, window: nat, margin: nat, block: nat)
    requires window + margin <= cursor
    ensures cursor - margin - window <= block <= cursor - margin <==>
            exists pick :: Sample(cursor, window, margin, pick) == block
  {
    if cursor - margin - window <= block <= cursor - margin {
      assert Sample(cursor, window, margin, block - (cursor - margin - window)) == block;
    }
  }

  ghost predicate HasReport(reports: seq<Report>, block: nat) {
    exists i | 0 <= i < |reports| :: reports[i].block == block
  }

  /** The rescan and the query of the block both succeed. */
  ghost predicate Comparable(rescan: nat -> Option<seq<DepositEvent>>, answers: nat -> bool, block: nat) {
    rescan(block).Some? && answers(block)
  }

  /** Each report is about a block of the window and carries its exact count; no block is reported twice. */
  ghost predicate ReportsOk(rows: seq<Row>, chain: int, kind: Kind, cursor: nat, window: nat, margin: nat,
                            rescan: nat -> Option<seq<DepositEvent>>, answers: nat -> bool, reports: seq<Report>) {
    && (forall i, j | 0 <= i < j < |reports| :: reports[i].block != reports[j].block)
    && forall i | 0 <= i < |reports| ::
         var b := reports[i].block;
         && cursor - margin - window <= b <= cursor - margin && Comparable(rescan, answers, b)
         && reports[i].missing == |Reported(rows, chain, ScannerName(kind), b, EventKeys(rescan(b).value))|
  }

  /** Audit random blocks. `picks` is the random source, `located` and `answers` tell whether the queries
      succeed, `rescan(b)` is None when the rescan fails, and `stops` when the context is cancelled.
      A cycle that is not cut short reports exactly the sampled blocks that can be compared. */
  method AuditScanner(repo: BufferRepo, chain: int, kind: Kind, rescan: nat -> Option<seq<DepositEvent>>,
                      picks: nat -> nat, window: nat, margin: nat, samples: nat,
                      located: bool, answers: nat -> bool, stops: nat -> bool)
    returns (reports: seq<Report>, complete: bool)
    requires repo.Valid()
    ensures |reports| <= samples
    ensures ReportsOk(repo.rows, chain, kind, CursorOf(repo.cursors, chain, kind), window, margin, rescan, answers,
                      reports)
    ensures CursorOf(repo.cursors, chain, kind) < window + margin ==> reports == []
    ensures complete <==> located && (CursorOf(repo.cursors, chain, kind) < window + margin ||
                                      forall i | 0 <= i < samples :: !stops(i))
    ensures complete && window + margin <= CursorOf(repo.cursors, chain, kind) ==>
              forall i | 0 <= i < samples ::
                var b := Sample(CursorOf(repo.cursors, chain, kind), window, margin, picks(i));
                HasReport(reports, b) <==> Comparable(rescan, answers, b)
  {
    hide Reported;
    reports, complete := [], false;
    var ok, cursor := repo.Cursor(chain, kind, located);
    if !ok { return; }
    if cursor < window + margin { return reports, true; }
    var tried: set<nat> := {};
    for i := 0 to samples
      invariant |reports| <= i && forall j | 0 <= j < i :: !stops(j)
      invariant forall b | HasReport(reports, b) :: b in tried
      invariant forall b | b in tried :: HasReport(reports, b) <==> Comparable(rescan, answers, b)
      invariant forall j | 0 <= j < i :: Sample(cursor, window, margin, picks(j)) in tried
      invariant ReportsOk(repo.rows, chain, kind, cursor, window, margin, rescan, answers, reports)
    {
      if stops(i) { return; }
      var block := Sample(cursor, window, margin, picks(i));
      if block in tried { continue; }
      tried := tried + {block};
      var missing := AuditBlock(repo, chain, ScannerName(kind), block, rescan(block), answers(block));
      if missing.Some? {
        MoreReports(reports, Report(block, missing.value));
        assert forall j | 0 <= j < |reports| :: HasReport(reports, reports[j].block);
        reports := reports + [Report(block, missing.value)];
      }
    }
    complete := true;
  }

  lemma MoreReports(reports: seq<Report>, r: Report)
    ensures forall b :: HasReport(reports + [r], b) <==> HasReport(reports, b) || b == r.block
  {
    var more := reports + [r];
    assert more[|reports|] == r;
    forall b | HasReport(reports, b) ensures HasReport(more, b) {
      var i :| 0 <= i < |reports| && reports[i].block == b;
      assert more[i].block == b;
    }
  }

  // ---------- no false alarm ----------

  ghost predicate MadeBy(u: Universe, c: int, k: Kind, b: nat, key: Key) {
    exists e | e in ScanOf(u, c, k, b) :: e.key == key
  }

  /** Which indices each scanner can produce in an orderly block. */
  lemma IndexDomain(u: Universe, c: int, k: Kind, b: nat, key: Key)
    requires Orderly(u) && MadeBy(u, c, k, b, key)
    ensures c in u.ledgers
    ensures k == LogKind ==> key.logIndex >= -(|u.ledgers[c].blocks(b).txs| as int)
    ensures k == TraceKind ==> key.logIndex <= TRACE_LOG_INDEX_BASE
  {
    hide BlockHits;
    var e :| e in ScanOf(u, c, k, b) && e.key == key;
    var l := u.ledgers[c];
    var block := l.blocks(b);
    assert OrderlyBlock(block);
    NativesShape(l.chain, u.table, block.time, block.txs);
    TokensShape(l.chain, u.table, block.time, block.logs);
  }

  /** In every state of every run, each row is the work of one of the two scanners on its own block. */
  lemma EveryRowHasAMaker(u: Universe, cfg: Settings, states: seq<System>, actions: seq<Action>, s: System, r: Row)
    returns (k: Kind)
    requires Orderly(u) && IsRun(WorldOf(u, cfg), states, actions) && s in states && r in s.db.rows
    ensures MadeBy(u, r.deposit.key.chainId, k, r.block, r.deposit.key)
  {
    hide ScanOf;
    hide FormatUnits;
    var w := WorldOf(u, cfg);
    OrderlyIsCoherent(u, cfg);
    OnlyFinalDepositsAreStored(w, states, actions, s);
    var e;
    k, e :| e in w.scan(r.deposit.key.chainId, k, r.block) && ExpectedCore(e, w.kst) == Some(Core(r.deposit));
    assert e.key == r.deposit.key;
  }

  /** The pending rows of the block that scanner `k` made and the rescan lacks. */
  ghost function Lost(u: Universe, rows: seq<Row>, c: int, k: Kind, b: nat, keys: set<Key>): set<Row> {
    set r | r in rows && FiledUnder(r, c, b) && MadeBy(u, c, k, b, r.deposit.key) && r.deposit.key !in keys
  }

  const OWNED_TXS: nat := 9_999

  /** Whatever the rescan returns, the audit reports exactly the scanner's own rows that the rescan
      lacks: always for the trace scanner, and for the log scanner in blocks of at most 9,999
      transactions. */
  lemma AuditIsExact(u: Universe, cfg: Settings, states: seq<System>, actions: seq<Action>, s: System,
                     c: int, k: Kind, b: nat, keys: set<Key>)
    requires Orderly(u) && IsRun(WorldOf(u, cfg), states, actions) && s in states && c in u.ledgers
    requires k == LogKind ==> |u.ledgers[c].blocks(b).txs| <= OWNED_TXS
    ensures Reported(s.db.rows, c, ScannerName(k), b, keys) == Lost(u, s.db.rows, c, k, b, keys)
  {
    hide MadeBy;
    forall r | r in s.db.rows && FiledUnder(r, c, b)
      ensures OwnedBy(ScannerName(k), r.deposit.key.logIndex) <==> MadeBy(u, c, k, b, r.deposit.key)
    {
      Attribution(u, cfg, states, actions, s, r, k);
    }
  }

  lemma Attribution(u: Universe, cfg: Settings, states: seq<System>, actions: seq<Action>, s: System, r: Row, k: Kind)
    requires Orderly(u) && IsRun(WorldOf(u, cfg), states, actions) && s in states && r in s.db.rows
    requires r.deposit.key.chainId in u.ledgers
    requires k == LogKind ==> |u.ledgers[r.deposit.key.chainId].blocks(r.block).txs| <= OWNED_TXS
    ensures OwnedBy(ScannerName(k), r.deposit.key.logIndex) <==>
              MadeBy(u, r.deposit.key.chainId, k, r.block, r.deposit.key)
  {
    hide MadeBy;
    var c, b, key := r.deposit.key.chainId, r.block, r.deposit.key;
    var maker := EveryRowHasAMaker(u, cfg, states, actions, s, r);
    IndexDomain(u, c, maker, b, key);
    if MadeBy(u, c, k, b, key) { IndexDomain(u, c, k, b, key); }
    assert OrderlyBlock(u.ledgers[c].blocks(b));
    assert maker == k || (maker == LogKind && k == TraceKind) || (maker == TraceKind && k == LogKind);
  }

  /** A deterministic rescan raises no alarm in any state of any run, for any orderly block. */
  lemma NoFalseAlarm(u: Universe, cfg: Settings, states: seq<System>, actions: seq<Action>, s: System,
                     c: int, k: Kind, b: nat, rescan: seq<DepositEvent>)
    requires Orderly(u) && IsRun(WorldOf(u, cfg), states, actions) && s in states
    requires multiset(rescan) == multiset(ScanOf(u, c, k, b))
    ensures Reported(s.db.rows, c, ScannerName(k), b, EventKeys(rescan)) == {}
  {
    hide ScanOf;
    forall r | r in s.db.rows && FiledUnder(r, c, b) && OwnedBy(ScannerName(k), r.deposit.key.logIndex)
      ensures r.deposit.key in EventKeys(rescan)
    {
      var maker := EveryRowHasAMaker(u, cfg, states, actions, s, r);
      IndexDomain(u, c, maker, b, r.deposit.key);
      assert OrderlyBlock(u.ledgers[c].blocks(b));
      assert maker == k;
      var e :| e in ScanOf(u, c, k, b) && e.key == r.deposit.key;
      SameMembers(rescan, ScanOf(u, c, k, b), e);
    }
  }

  // ---------- the bound of 9,999 is exact ----------

  /** The first poll of a new scanner moves its cursor to the confirmed head. */
  lemma PollInitialises(w: World, c: int, k: Kind, head: nat) returns (states: seq<System>, actions: seq<Action>)
    ensures IsRun(w, states, actions)
    ensures states[|actions|] ==
            Initialised(System(Db([], map[]), map[0 := Loop(c, k, Resting)], Down, {}, map[], {}), c, k, head)
  {
    var m := w.minConf(c);
    var s0 := System(Db([], map[]), map[], Down, {}, map[], {});
    var s1 := s0.(loops := map[0 := Loop(c, k, Resting)]);
    states, actions := [s0], [];
    states, actions := Extend(w, states, actions, Spawn(0, c, k), s1);
    hide IsRun;
    states, actions := Extend(w, states, actions, ByLoop(0, ReadHead(head + m)), WithPc(s1, 0, Polled(head + m, head)));
    states, actions := Extend(w, states, actions, ByLoop(0, ReadCursor), WithPc(s1, 0, Positioned(head + m, head, 0)));
    states, actions := Extend(w, states, actions, ByLoop(0, InitCursor(true)), Initialised(s1, c, k, head));
  }

  /** The next poll, at a head one higher, begins to walk block `b`. */
  lemma PollWalks(w: World, c: int, k: Kind, b: nat) returns (states: seq<System>, actions: seq<Action>, s: System)
    requires b >= 2 && w.maxBlocks >= 1
    ensures IsRun(w, states, actions) && s.db.rows == [] && s.loops == map[0 := Loop(c, k, Resting)]
    ensures states[|actions|] == WithPc(s, 0, Walking(b + w.minConf(c), b, b))
  {
    var m := w.minConf(c);
    states, actions := PollInitialises(w, c, k, b - 1);
    hide IsRun;
    s := states[|actions|];
    states, actions := Extend(w, states, actions, ByLoop(0, ReadHead(b + m)), WithPc(s, 0, Polled(b + m, b)));
    states, actions := Extend(w, states, actions, ByLoop(0, ReadCursor), WithPc(s, 0, Positioned(b + m, b, b - 1)));
    states, actions := Extend(w, states, actions, ByLoop(0, StartWalk), WithPc(s, 0, Walking(b + m, b, b)));
  }

  /** Any block after the first can be scanned and stored by an ordinary run. */
  lemma StoringRun(w: World, c: int, k: Kind, b: nat, now: nat -> string)
    returns (states: seq<System>, actions: seq<Action>)
    requires b >= 2 && w.maxBlocks >= 1
    ensures IsRun(w, states, actions)
    ensures states[|actions|].db.rows ==
            InsertAll([], Converted(Stamp(w.scan(c, k, b), w.minConf(c)), w.minConf(c), w.kst, now), b)
  {
    hide Converted;
    hide Stamp;
    hide InsertAll;
    hide IsRun;
    var m := w.minConf(c);
    var s;
    states, actions, s := PollWalks(w, c, k, b);
    var ds := Converted(Stamp(w.scan(c, k, b), m), m, w.kst, now);
    states, actions := Extend(w, states, actions, ByLoop(0, Scan(w.scan(c, k, b), now)),
                              WithPc(s, 0, Scanned(b + m, b, b, ds)));
    states, actions := Extend(w, states, actions, ByLoop(0, Commit(true, false)),
                              s.(db := Saved(s.db, c, k, b, ds), done := s.done + {(c, k, b)}));
  }

  /** A convertible event of the block is a row at the end of that run. */
  lemma StoredRow(w: World, c: int, k: Kind, b: nat, now: nat -> string, i: nat) returns (r: Row)
    requires i < |w.scan(c, k, b)| && ExpectedCore(w.scan(c, k, b)[i], w.kst).Some?
    ensures r in InsertAll([], Converted(Stamp(w.scan(c, k, b), w.minConf(c)), w.minConf(c), w.kst, now), b)
    ensures r.block == b && r.deposit.key == w.scan(c, k, b)[i].key
  {
    hide FormatUnits;
    var stamped := Stamp(w.scan(c, k, b), w.minConf(c));
    var ds := Converted(stamped, w.minConf(c), w.kst, now);
    var d := ConvertedKeeps(stamped, w.minConf(c), w.kst, now, i);
    InsertAllKeepsAndAdds([], ds, b);
    var rows := InsertAll([], ds, b);
    var j :| 0 <= j < |rows| && rows[j].deposit.key == d.key;
    r := rows[j];
    assert r in rows;
  }

  ghost predicate ExactFor(n: nat, u: Universe, cfg: Settings, states: seq<System>, actions: seq<Action>, s: System,
                           c: int, k: Kind, b: nat, keys: set<Key>) {
    Orderly(u) && IsRun(WorldOf(u, cfg), states, actions) && s in states && c in u.ledgers &&
    |u.ledgers[c].blocks(b).txs| == n ==>
      |Reported(s.db.rows, c, ScannerName(k), b, keys)| == |Lost(u, s.db.rows, c, k, b, keys)|
  }

  function PaidTx(): Tx { Tx("0xaa", Some("b"), 0, 1, "a") }

  /** Block 2 of chain 1 holds n transactions; the one in position 9,999 pays the watched account. */
  function PaidUniverse(n: nat): Universe {
    Universe(map[1 := Ledger(Chain(1, "ETH", 18, map[], None),
                             b => if b == 2 then Block("t", PaidTxs(n), []) else Block("t", [], []),
                             Node(_ => 0, _ => TraceFailed))],
             [Account(1, "b")])
  }

  function PaidTxs(n: nat): seq<Tx> {
    seq(n, i => if i == OWNED_TXS then PaidTx() else Tx(IntString(i), None, 0, 0, "a"))
  }

  function PlainSettings(): Settings { Settings(t => Some(t), _ => 0, 1, 1, 1) }

  lemma PaidIsOrderly(n: nat)
    requires n <= MAX_TXS
    ensures Orderly(PaidUniverse(n))
  {
  }

  lemma PaidEvent(n: nat) returns (i: nat)
    requires OWNED_TXS < n
    ensures var es := ScanOf(PaidUniverse(n), 1, LogKind, 2);
            i < |es| && es[i].key == Key(1, "0xaa", -10_000) && ExpectedCore(es[i], PlainSettings().kst).Some?
  {
    var u := PaidUniverse(n);
    var l := u.ledgers[1];
    assert u.table[0].chainId == 1 && Has(u.table, 1, "b");
    assert PaidTxs(n)[OWNED_TXS] == PaidTx();
    NativeListed(l.chain, u.table, "t", PaidTxs(n), OWNED_TXS);
    var e := NativeEvent(l.chain, "t", PaidTx(), OWNED_TXS);
    var es := ScanOf(u, 1, LogKind, 2);
    assert e in es;
    i :| 0 <= i < |es| && es[i] == e;
  }

  /** A lost row of a large block goes unreported: the native transfer in position 9,999 has index
      -10,000, which neither scanner owns. */
  lemma LargeBlockHidesLoss(n: nat) returns (states: seq<System>, actions: seq<Action>, s: System, keys: set<Key>)
    requires OWNED_TXS < n <= MAX_TXS
    ensures !ExactFor(n, PaidUniverse(n), PlainSettings(), states, actions, s, 1, LogKind, 2, keys)
    ensures Reported(s.db.rows, 1, "log", 2, keys) == {} && Lost(PaidUniverse(n), s.db.rows, 1, LogKind, 2, keys) != {}
  {
    var u, cfg, now := PaidUniverse(n), PlainSettings(), (_: nat) => "";
    var w := WorldOf(u, cfg);
    var i := PaidEvent(n);
    states, actions := StoringRun(w, 1, LogKind, 2, now);
    s := states[|actions|];
    var r := StoredRow(w, 1, LogKind, 2, now, i);
    var es := ScanOf(u, 1, LogKind, 2);
    PaidIsOrderly(n);
    hide ScanOf;
    hide Orderly;
    hide IsRun;
    hide Converted;
    hide InsertAll;
    hide ExpectedCore;
    keys := EventKeys(es) - {es[i].key};
    assert r in Lost(u, s.db.rows, 1, LogKind, 2, keys);
    forall r | r in s.db.rows && FiledUnder(r, 1, 2) && OwnedBy("log", r.deposit.key.logIndex)
      ensures r.deposit.key in keys
    {
      var maker := EveryRowHasAMaker(u, cfg, states, actions, s, r);
      IndexDomain(u, 1, maker, 2, r.deposit.key);
    }
    assert Reported(s.db.rows, 1, "log", 2, keys) == {};
  }

  /** Over orderly blocks of n transactions the audit always counts exactly the losses if and only if n
      is at most 9,999. */
  lemma AuditBoundIsExact(n: nat)
    requires n <= MAX_TXS
    ensures n <= OWNED_TXS <==>
            forall u, cfg, states, actions, s, c, k, b, keys :: ExactFor(n, u, cfg, states, actions, s, c, k, b, keys)
  {
    hide Reported;
    hide Lost;
    if n <= OWNED_TXS {
      forall u, cfg, states, actions, s, c, k, b, keys ensures ExactFor(n, u, cfg, states, actions, s, c, k, b, keys) {
        if Orderly(u) && IsRun(WorldOf(u, cfg), states, actions) && s in states && c in u.ledgers &&
           |u.ledgers[c].blocks(b).txs| == n {
          AuditIsExact(u, cfg, states, actions, s, c, k, b, keys);
        }
      }
    } else {
      var states, actions, s, keys := LargeBlockHidesLoss(n);
      assert !ExactFor(n, PaidUniverse(n), PlainSettings(), states, actions, s, 1, LogKind, 2, keys);
    }
  }
}
