/** The log_index encoding: which keys the two scanners can produce, why they never meet in a block of
    at most 99,999 transactions, and why that bound is the right one. */
module KeySpace {
  import opened Decimal
  import opened Deposits
  import opened Accounts
  import opened LogScanner
  import opened TraceScanner

  /** Every native event carries -1 minus the position of its transaction, and the transaction's hash. */
  lemma {:induction false} NativesShape(chain: Chain, table: seq<Account>, time: string, txs: seq<Tx>)
    ensures var es := Natives(chain, table, time, txs);
            && (forall e | e in es :: e.key.chainId == chain.id && -|txs| <= e.key.logIndex <= -1 &&
                                      e.key.txHash == txs[-1 - e.key.logIndex].hash)
            && (forall i, j | 0 <= i < j < |es| :: es[i].key.logIndex > es[j].key.logIndex)
  {
    if txs != [] {
      var last := |txs| - 1;
      NativesShape(chain, table, time, txs[..last]);
      var init := Natives(chain, table, time, txs[..last]);
      assert forall i | 0 <= i < |init| :: init[i] in init;
    }
  }

  /** Every token event carries the index and hash of one of the logs. */
  lemma {:induction false} TokenSource(chain: Chain, table: seq<Account>, time: string, logs: seq<TokenLog>,
                                       e: DepositEvent)
    returns (i: nat)
    requires e in Tokens(chain, table, time, logs)
    ensures i < |logs| && e.key == Key(chain.id, logs[i].txHash, logs[i].index)
  {
    var last := |logs| - 1;
    if e in Tokens(chain, table, time, logs[..last]) {
      i := TokenSource(chain, table, time, logs[..last], e);
    } else {
      i := last;
    }
  }

  lemma {:induction false} TokensDistinct(chain: Chain, table: seq<Account>, time: string, logs: seq<TokenLog>)
    requires UniqueLogs(logs)
    ensures var es := Tokens(chain, table, time, logs);
            forall i, j | 0 <= i < j < |es| :: es[i].key.logIndex != es[j].key.logIndex
  {
    if logs != [] {
      var last := |logs| - 1;
      TokensDistinct(chain, table, time, logs[..last]);
      var init := Tokens(chain, table, time, logs[..last]);
      forall i | 0 <= i < |init| ensures init[i].key.logIndex != logs[last].index {
        var j := TokenSource(chain, table, time, logs[..last], init[i]);
      }
    }
  }

  lemma TokensShape(chain: Chain, table: seq<Account>, time: string, logs: seq<TokenLog>)
    requires UniqueLogs(logs)
    ensures var es := Tokens(chain, table, time, logs);
            && (forall e | e in es :: e.key.chainId == chain.id &&
                                      exists lg | lg in logs :: e.key.txHash == lg.txHash && e.key.logIndex == lg.index)
            && (forall i, j | 0 <= i < j < |es| :: es[i].key.logIndex != es[j].key.logIndex)
  {
    TokensDistinct(chain, table, time, logs);
    hide Tokens;
    forall e | e in Tokens(chain, table, time, logs)
      ensures e.key.chainId == chain.id
      ensures exists lg | lg in logs :: e.key.txHash == lg.txHash && e.key.logIndex == lg.index
    {
      var i := TokenSource(chain, table, time, logs, e);
      assert logs[i] in logs;
    }
  }

  ghost predicate UniqueLogs(logs: seq<TokenLog>) {
    forall i, j | 0 <= i < j < |logs| :: logs[i].index != logs[j].index
  }

  lemma {:induction false} HitsInBlock(node: Node, watched: string -> Option<bool>, txs: seq<Tx>)
    ensures forall h | h in BlockHits(node, watched, txs) :: exists tx | tx in txs :: tx.hash == h.txHash
  {
    if txs != [] {
      var last := |txs| - 1;
      HitsInBlock(node, watched, txs[..last]);
      assert txs == txs[..last] + [txs[last]];
      forall h | h in TxHits(node, watched, txs[last]) ensures h.txHash == txs[last].hash {
      }
    }
  }

  /** Account lookups that never fail. */
  function Watch(table: seq<Account>, chain: int): string -> Option<bool> {
    a => Some(Has(table, chain, a))
  }

  /** What the two scanners extract from one block. */
  function AllEvents(chain: Chain, table: seq<Account>, node: Node, block: Block): seq<DepositEvent> {
    LogScan(chain, table, block) + TraceScan(chain, node, Watch(table, chain.id), block)
  }

  ghost predicate DistinctKeys(events: seq<DepositEvent>) {
    forall i, j | 0 <= i < j < |events| :: events[i].key != events[j].key
  }

  const MAX_TXS: nat := 99_999

  ghost predicate DistinctWithin(events: seq<DepositEvent>, low: int, high: int) {
    && (forall i | 0 <= i < |events| :: low <= events[i].key.logIndex <= high)
    && (forall i, j | 0 <= i < j < |events| :: events[i].key.logIndex != events[j].key.logIndex)
  }

  lemma RangesApart(a: seq<DepositEvent>, b: seq<DepositEvent>, c: seq<DepositEvent>, top: int, deep: int)
    requires DistinctWithin(a, 0 - MAX_TXS, -1) && DistinctWithin(b, 0, top)
    requires DistinctWithin(c, deep, TRACE_LOG_INDEX_BASE)
    ensures DistinctKeys(a + b + c)
  {
  }

  lemma {:induction false} TopIndex(events: seq<DepositEvent>) returns (top: int)
    ensures forall i | 0 <= i < |events| :: events[i].key.logIndex <= top
  {
    if events == [] { return 0; }
    var last := |events| - 1;
    top := TopIndex(events[..last]);
    if events[last].key.logIndex > top { top := events[last].key.logIndex; }
  }

  /** Native, token and internal events of one block have pairwise distinct keys: native indices lie
      in -99,999..-1, token indices are not negative, internal ones start at -100,000. */
  lemma KeysNeverMeet(chain: Chain, table: seq<Account>, node: Node, block: Block)
    requires |block.txs| <= MAX_TXS && UniqueLogs(block.logs)
    ensures DistinctKeys(AllEvents(chain, table, node, block))
  {
    hide BlockHits;
    NativesShape(chain, table, block.time, block.txs);
    TokensShape(chain, table, block.time, block.logs);
    var natives := Natives(chain, table, block.time, block.txs);
    var tokens := if chain.contracts == map[] then [] else Tokens(chain, table, block.time, block.logs);
    var traces := TraceScan(chain, node, Watch(table, chain.id), block);
    assert forall i | 0 <= i < |natives| :: natives[i] in natives;
    assert forall i | 0 <= i < |tokens| :: tokens[i] in tokens && tokens[i].key.logIndex >= 0;
    assert forall i | 0 <= i < |traces| :: traces[i].key.logIndex == TRACE_LOG_INDEX_BASE - i;
    hide Natives;
    hide Tokens;
    var top := TopIndex(tokens);
    RangesApart(natives, tokens, traces, top, TRACE_LOG_INDEX_BASE - |traces|);
  }

  // ---------- the bound is exact ----------

  lemma {:induction false} NativeListed(chain: Chain, table: seq<Account>, time: string, txs: seq<Tx>, i: nat)
    requires i < |txs| && IsNative(txs[i]) && Has(table, chain.id, txs[i].to.value)
    ensures NativeEvent(chain, time, txs[i], i) in Natives(chain, table, time, txs)
  {
    var last := |txs| - 1;
    if i < last { NativeListed(chain, table, time, txs[..last], i); }
  }

  lemma {:induction false} TokenListed(chain: Chain, table: seq<Account>, time: string, logs: seq<TokenLog>, i: nat)
    requires i < |logs| && IsToken(chain, logs[i]) && Has(table, chain.id, logs[i].decoded.to)
    ensures TokenEvent(chain, time, logs[i]) in Tokens(chain, table, time, logs)
  {
    var last := |logs| - 1;
    if i < last { TokenListed(chain, table, time, logs[..last], i); }
  }

  lemma {:induction false} SoleHits(node: Node, watched: string -> Option<bool>, txs: seq<Tx>, i: nat)
    requires i < |txs| && forall j | 0 <= j < |txs| && j != i :: txs[j].to.None?
    ensures BlockHits(node, watched, txs) == TxHits(node, watched, txs[i])
  {
    var last := |txs| - 1;
    if i < last {
      SoleHits(node, watched, txs[..last], i);
    } else {
      NoHits(node, watched, txs[..last]);
    }
  }

  lemma {:induction false} NoHits(node: Node, watched: string -> Option<bool>, txs: seq<Tx>)
    requires forall j | 0 <= j < |txs| :: txs[j].to.None?
    ensures BlockHits(node, watched, txs) == []
  {
    if txs != [] { NoHits(node, watched, txs[..|txs| - 1]); }
  }

  /** A watched wallet contract "b", called once with a plain transfer that it forwards to itself. */
  function WalletCall(): Frame { Frame("CALL", "b", "b", "0x2", "", []) }

  function WalletNode(): Node {
    Node(a => if a == "b" then 1 else 0, _ => Traced(Frame("CALL", "a", "b", "0x1", "", [WalletCall()])))
  }

  function WalletTxs(n: nat): seq<Tx> {
    seq(n, i => if i == MAX_TXS then Tx("0xaa", Some("b"), 0, 1, "a") else Tx(IntString(i), None, 0, 0, "a"))
  }

  lemma WalletHits(watched: string -> Option<bool>)
    requires watched("b") == Some(true)
    ensures TxHits(WalletNode(), watched, Tx("0xaa", Some("b"), 0, 1, "a")) == [Hit("0xaa", WalletCall())]
  {
    var f := WalletCall();
    assert "0x" <= f.value && f.value[2..] == "2" && HexValue(f.value) == Some(2);
    assert Height([f]) == 1;
    NothingCut(WalletNode(), watched, Tx("0xaa", Some("b"), 0, 1, "a"));
    assert Preorder([f], false) == [Visit(f, false)];
    assert Payments([Visit(f, false)], watched) == [f];
  }

  /** With 100,000 transactions or more the bound fails: the native transfer in position 99,999 and
      the block's first internal transfer get the same key although they are different deposits. */
  lemma KeysMeetBeyondBound(n: nat, chain: Chain)
    requires n > MAX_TXS
    ensures var table, block := [Account(chain.id, "b")], Block("t", WalletTxs(n), []);
            exists e, e' |
                e in LogScan(chain, table, block) &&
                e' in TraceScan(chain, WalletNode(), Watch(table, chain.id), block) ::
              e.key == e'.key && e.amount != e'.amount
  {
    var table, node := [Account(chain.id, "b")], WalletNode();
    var txs := WalletTxs(n);
    var block := Block("t", txs, []);
    assert table[0].chainId == chain.id && Has(table, chain.id, "b");
    WalletHits(Watch(table, chain.id));
    SoleHits(node, Watch(table, chain.id), txs, MAX_TXS);
    hide BlockHits;
    hide TxHits;
    hide Has;
    hide Natives;
    var traces := TraceScan(chain, node, Watch(table, chain.id), block);
    var e' := TraceEvent(chain, "t", Hit("0xaa", WalletCall()), 0);
    assert traces == [e'];
    NativeListed(chain, table, "t", txs, MAX_TXS);
    var e := NativeEvent(chain, "t", txs[MAX_TXS], MAX_TXS);
    assert e in LogScan(chain, table, block);
    assert HexValue("0x2") == Some(2) by { assert "0x2"[2..] == "2"; }
  }

  ghost predicate DistinctFor(n: nat, chain: Chain, table: seq<Account>, node: Node, block: Block) {
    |block.txs| == n && UniqueLogs(block.logs) ==> DistinctKeys(AllEvents(chain, table, node, block))
  }

  lemma MeetingKeysAreNotDistinct(a: seq<DepositEvent>, b: seq<DepositEvent>, e: DepositEvent, e': DepositEvent)
    requires e in a && e' in b && e.key == e'.key
    ensures !DistinctKeys(a + b)
  {
    var i :| 0 <= i < |a| && a[i] == e;
    var j :| 0 <= j < |b| && b[j] == e';
    assert (a + b)[i] == e && (a + b)[|a| + j] == e';
  }

  /** Blocks of n transactions always have distinct keys if and only if n is at most 99,999. */
  lemma KeyBoundIsExact(n: nat, chain: Chain)
    ensures n <= MAX_TXS <==> forall table, node, block :: DistinctFor(n, chain, table, node, block)
  {
    hide LogScan;
    hide TraceScan;
    if n <= MAX_TXS {
      forall table, node, block ensures DistinctFor(n, chain, table, node, block) {
        if |block.txs| == n && UniqueLogs(block.logs) { KeysNeverMeet(chain, table, node, block); }
      }
    } else {
      KeysMeetBeyondBound(n, chain);
      var table, node, block := [Account(chain.id, "b")], WalletNode(), Block("t", WalletTxs(n), []);
      var logged, traced := LogScan(chain, table, block), TraceScan(chain, node, Watch(table, chain.id), block);
      var e, e' :| e in logged && e' in traced && e.key == e'.key;
      MeetingKeysAreNotDistinct(logged, traced, e, e');
      assert !DistinctFor(n, chain, table, node, block);
    }
  }
}
