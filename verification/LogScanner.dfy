/** The log scanner (internal/scanner/log_scanner.go): direct native transfers and token transfers of
    one block, found with batched account lookups and concurrent sender queries. */
module LogScanner {
  import opened Decimal
  import opened Deposits
  import opened Accounts
  import opened Pipeline

  const NATIVE_LOG_INDEX_BASE: int := -1

  datatype Tx = Tx(hash: string, to: Option<string>, dataLength: nat, value: int, sender: string)

  /** What the registered decoders make of a log. */
  datatype Decoded = NoDecoder | Inapplicable | Undecodable | Transfer(from: string, to: string, amount: nat)

  datatype TokenLog = TokenLog(address: string, txHash: string, index: nat, decoded: Decoded)

  datatype Block = Block(time: string, txs: seq<Tx>, logs: seq<TokenLog>)

  datatype ContractInfo = ContractInfo(symbol: string, decimals: nat)

  /** Chain settings; `contracts` is keyed by lower-case address, `kcp` is the chain whose wrapped
      symbols lose their 'W'. */
  datatype Chain = Chain(id: int, native: string, decimals: nat, contracts: map<string, ContractInfo>, kcp: Option<int>)

  function SymbolForChain(raw: string, chain: Chain): string {
    if chain.kcp == Some(chain.id) && |raw| > 1 && raw[0] == 'W' then raw[1..] else raw
  }

  /** `raw` is 'W' followed by `x`. */
  ghost predicate Wraps(raw: string, x: string) { raw == ['W'] + x }

  /** The symbol shown: on the KCP chain a wrapped token goes by the name it wraps; every other symbol, and
      every symbol of another chain, stays. */
  ghost predicate Shown(raw: string, kcp: bool, symbol: string) {
    if kcp && exists x :: Wraps(raw, x) && x != [] then Wraps(raw, symbol) else symbol == raw
  }

  lemma SymbolIsShown(raw: string, chain: Chain)
    ensures Shown(raw, chain.kcp == Some(chain.id), SymbolForChain(raw, chain))
  {
    assert |raw| > 1 && raw[0] == 'W' ==> Wraps(raw, raw[1..]);
    assert forall x | Wraps(raw, x) && x != [] :: |raw| > 1 && raw[0] == 'W' && x == raw[1..];
  }

  // ---------- what a block holds, one candidate at a time ----------

  predicate IsNative(tx: Tx) { tx.to.Some? && tx.dataLength == 0 && tx.value > 0 }

  function NativeEvent(chain: Chain, time: string, tx: Tx, txIdx: nat): DepositEvent
    requires IsNative(tx)
  {
    DepositEvent(Key(chain.id, tx.hash, NATIVE_LOG_INDEX_BASE - txIdx), tx.sender, tx.to.value, Some(tx.value),
                 chain.native, chain.decimals, 0, time)
  }

  /** Native deposits: each plain transfer whose recipient the single lookup knows. */
  function Natives(chain: Chain, table: seq<Account>, time: string, txs: seq<Tx>): seq<DepositEvent> {
    if txs == [] then []
    else
      var last := |txs| - 1;
      Natives(chain, table, time, txs[..last]) +
      (if IsNative(txs[last]) && Has(table, chain.id, txs[last].to.value)
       then [NativeEvent(chain, time, txs[last], last)] else [])
  }

  /** `events` describes exactly the plain transfers to watched accounts, each once, in their order; `at` lists
      where. */
  ghost predicate NativeListing(chain: Chain, table: seq<Account>, time: string, txs: seq<Tx>,
                                at: seq<nat>, events: seq<DepositEvent>) {
    && |at| == |events| && Increasing(at) && (forall j | 0 <= j < |at| :: at[j] < |txs|)
    && (forall i | 0 <= i < |txs| :: i in at <==> PlainlyPays(chain, table, txs[i]))
    && forall j | 0 <= j < |at| ::
         var tx := txs[at[j]];
         && tx.to.Some?
         && events[j] == DepositEvent(Key(chain.id, tx.hash, -1 - (at[j] as int)), tx.sender, tx.to.value,
                                      Some(tx.value), chain.native, chain.decimals, 0, time)
  }

  ghost predicate PlainlyPays(chain: Chain, table: seq<Account>, tx: Tx) {
    tx.to.Some? && tx.dataLength == 0 && tx.value > 0 && Listed(table, chain.id, tx.to.value)
  }

  lemma {:induction false} NativesInOrder(chain: Chain, table: seq<Account>, time: string, txs: seq<Tx>)
    returns (at: seq<nat>)
    ensures NativeListing(chain, table, time, txs, at, Natives(chain, table, time, txs))
  {
    if txs == [] { return []; }
    var last := |txs| - 1;
    at := NativesInOrder(chain, table, time, txs[..last]);
    if txs[last].to.Some? { HasIsCaseBlind(table, chain.id, txs[last].to.value); }
    hide Has;
    hide Listed;
    if IsNative(txs[last]) && Has(table, chain.id, txs[last].to.value) { at := at + [last]; }
  }

  predicate IsToken(chain: Chain, lg: TokenLog) { Lower(lg.address) in chain.contracts && lg.decoded.Transfer? }

  function TokenEvent(chain: Chain, time: string, lg: TokenLog): DepositEvent
    requires IsToken(chain, lg)
  {
    var info := chain.contracts[Lower(lg.address)];
    DepositEvent(Key(chain.id, lg.txHash, lg.index), lg.decoded.from, lg.decoded.to, Some(lg.decoded.amount),
                 SymbolForChain(info.symbol, chain), info.decimals, 0, time)
  }

  /** Token deposits: each decodable log of a configured contract whose recipient the single lookup knows. */
  function Tokens(chain: Chain, table: seq<Account>, time: string, logs: seq<TokenLog>): seq<DepositEvent> {
    if logs == [] then []
    else
      var last := |logs| - 1;
      Tokens(chain, table, time, logs[..last]) +
      (if IsToken(chain, logs[last]) && Has(table, chain.id, logs[last].decoded.to)
       then [TokenEvent(chain, time, logs[last])] else [])
  }

  /** The deposit event of a token log, written out from the log and the contract's settings. */
  ghost predicate Describes(e: DepositEvent, chain: Chain, time: string, lg: TokenLog) {
    && lg.decoded.Transfer? && Lower(lg.address) in chain.contracts
    && var info := chain.contracts[Lower(lg.address)];
       && e == DepositEvent(Key(chain.id, lg.txHash, lg.index), lg.decoded.from, lg.decoded.to,
                            Some(lg.decoded.amount), e.symbol, info.decimals, 0, time)
       && Shown(info.symbol, chain.kcp == Some(chain.id), e.symbol)
  }

  /** A transfer logged by a configured contract to a watched account. */
  ghost predicate PaysAccount(chain: Chain, table: seq<Account>, lg: TokenLog) {
    lg.decoded.Transfer? && Lower(lg.address) in chain.contracts && Listed(table, chain.id, lg.decoded.to)
  }

  /** `events` describes exactly the logs that pay an account, each once, in their order; `at` lists where. */
  ghost predicate TokenListing(chain: Chain, table: seq<Account>, time: string, logs: seq<TokenLog>,
                               at: seq<nat>, events: seq<DepositEvent>) {
    && |at| == |events| && Increasing(at) && (forall j | 0 <= j < |at| :: at[j] < |logs|)
    && (forall i | 0 <= i < |logs| :: i in at <==> PaysAccount(chain, table, logs[i]))
    && forall j | 0 <= j < |at| :: Describes(events[j], chain, time, logs[at[j]])
  }

  lemma TokenEventDescribes(chain: Chain, time: string, lg: TokenLog)
    requires IsToken(chain, lg)
    ensures Describes(TokenEvent(chain, time, lg), chain, time, lg)
  {
    SymbolIsShown(chain.contracts[Lower(lg.address)].symbol, chain);
  }

  lemma {:induction false} TokensInOrder(chain: Chain, table: seq<Account>, time: string, logs: seq<TokenLog>)
    returns (at: seq<nat>)
    ensures TokenListing(chain, table, time, logs, at, Tokens(chain, table, time, logs))
  {
    if logs == [] { return []; }
    var last := |logs| - 1;
    var lg := logs[last];
    at := TokensInOrder(chain, table, time, logs[..last]);
    var before := Tokens(chain, table, time, logs[..last]);
    if lg.decoded.Transfer? { HasIsCaseBlind(table, chain.id, lg.decoded.to); }
    hide Has;
    hide Listed;
    if IsToken(chain, lg) && Has(table, chain.id, lg.decoded.to) {
      TokenEventDescribes(chain, time, lg);
      assert Tokens(chain, table, time, logs) == before + [TokenEvent(chain, time, lg)];
      hide Tokens;
      at := OneTokenMore(chain, table, time, logs, at, before, TokenEvent(chain, time, lg));
    } else {
      assert Tokens(chain, table, time, logs) == before;
      hide Tokens;
      NoTokenMore(chain, table, time, logs, at, before);
    }
  }

  lemma OneTokenMore(chain: Chain, table: seq<Account>, time: string, logs: seq<TokenLog>, at: seq<nat>,
                     events: seq<DepositEvent>, e: DepositEvent)
    returns (at': seq<nat>)
    requires logs != [] && TokenListing(chain, table, time, logs[..|logs| - 1], at, events)
    requires PaysAccount(chain, table, logs[|logs| - 1]) && Describes(e, chain, time, logs[|logs| - 1])
    ensures TokenListing(chain, table, time, logs, at', events + [e])
  {
    hide PaysAccount;
    hide Describes;
    var last := |logs| - 1;
    assert forall i | 0 <= i < last :: logs[..last][i] == logs[i];
    OnePositionMore(at, last);
    at' := at + [last];
  }

  lemma NoTokenMore(chain: Chain, table: seq<Account>, time: string, logs: seq<TokenLog>, at: seq<nat>,
                    events: seq<DepositEvent>)
    requires logs != [] && TokenListing(chain, table, time, logs[..|logs| - 1], at, events)
    requires !PaysAccount(chain, table, logs[|logs| - 1])
    ensures TokenListing(chain, table, time, logs, at, events)
  {
    hide PaysAccount;
    hide Describes;
    var last := |logs| - 1;
    assert forall i | 0 <= i < last :: logs[..last][i] == logs[i];
    assert forall j | 0 <= j < |at| :: at[j] in at && at[j] != last;
  }

  function LogScan(chain: Chain, table: seq<Account>, block: Block): seq<DepositEvent> {
    Natives(chain, table, block.time, block.txs) +
    (if chain.contracts == map[] then [] else Tokens(chain, table, block.time, block.logs))
  }

  // ---------- candidates and batched matching ----------

  function Recipients(events: seq<DepositEvent>): set<string> { set e | e in events :: Lower(e.to) }

  /** The candidates whose recipient is watched, in order. */
  function Watched(table: seq<Account>, chain: int, events: seq<DepositEvent>): seq<DepositEvent> {
    if events == [] then []
    else
      var last := |events| - 1;
      Watched(table, chain, events[..last]) + (if Has(table, chain, events[last].to) then [events[last]] else [])
  }

  lemma {:induction false} WatchedAppend(table: seq<Account>, chain: int, events: seq<DepositEvent>, e: DepositEvent)
    ensures Watched(table, chain, events + [e]) ==
            Watched(table, chain, events) + if Has(table, chain, e.to) then [e] else []
  {
    assert (events + [e])[..|events|] == events;
  }

  /** A listing of a set in whatever order map iteration yields. */
  method AnyOrder(s: set<string>) returns (list: seq<string>)
    ensures forall x :: x in list <==> x in s
    ensures s == {} ==> list == []
  {
    list := [];
    var left := s;
    while left != {}
      invariant left <= s && (s == {} ==> list == []) && forall x :: x in list <==> x in s && x !in left
      decreases left
    {
      var x :| x in left;
      list := list + [x];
      left := left - {x};
    }
  }

  /** Prefetch all recipients with one HasMany call and keep the candidates it confirms. */
  method MatchRecipients(table: seq<Account>, chain: int, candidates: seq<DepositEvent>, answers: bool)
    returns (ok: bool, kept: seq<DepositEvent>)
    ensures ok <==> candidates == [] || answers
    ensures ok ==> kept == Watched(table, chain, candidates)
  {
    var addrs := AnyOrder(Recipients(candidates));
    if candidates != [] { assert Lower(candidates[0].to) in addrs; } else { assert Recipients(candidates) == {}; }
    var matched;
    ok, matched := HasMany(table, chain, addrs, answers);
    if !ok { return false, []; }
    kept := [];
    for i := 0 to |candidates|
      invariant kept == Watched(table, chain, candidates[..i])
    {
      var e := candidates[i];
      assert candidates[..i + 1] == candidates[..i] + [e];
      WatchedAppend(table, chain, candidates[..i], e);
      assert e in candidates && Lower(e.to) in Recipients(candidates);
      LowerIdempotent(e.to);
      assert Lower(e.to) in addrs;
      if matched[Lower(e.to)] {
        kept := kept + [e];
      }
    }
    assert candidates[..|candidates|] == candidates;
  }

  lemma RemoveAt<T>(s: seq<T>, j: nat)
    requires j < |s|
    ensures multiset(s) == multiset(s[..j] + s[j + 1..]) + multiset{s[j]}
  {
    assert s == s[..j] + [s[j]] + s[j + 1..];
  }

  /** Sender queries run concurrently and append their result when they finish: any order, all of them;
      an error if and only if one of the queries fails. */
  method ResolveSenders(jobs: seq<DepositEvent>, known: string -> bool) returns (ok: bool, results: seq<DepositEvent>)
    ensures ok <==> forall e | e in jobs :: known(e.key.txHash)
    ensures ok ==> multiset(results) == multiset(jobs)
  {
    var running := jobs;
    results := [];
    while running != []
      invariant multiset(results) + multiset(running) == multiset(jobs)
      invariant forall e | e in results :: known(e.key.txHash)
      decreases |running|
    {
      var j :| 0 <= j < |running|;
      assert running[j] in multiset(jobs);
      if !known(running[j].key.txHash) { return false, []; }
      RemoveAt(running, j);
      results := results + [running[j]];
      running := running[..j] + running[j + 1..];
    }
    assert multiset(results) == multiset(jobs);
    forall e | e in jobs ensures known(e.key.txHash) {
      assert e in multiset(jobs) && e in multiset(results);
    }
    ok := true;
  }

  /** Which of the calls a scan makes succeed: the block, the two batched lookups, the sender of each
      transaction, and the log query. */
  datatype LogCalls = LogCalls(block: bool, nativeLookup: bool, sender: string -> bool, logs: bool, tokenLookup: bool)

  /** The native part can fail only through its lookup or the sender of a deposit. */
  ghost predicate NativesReached(chain: Chain, table: seq<Account>, block: Block, calls: LogCalls) {
    || (forall tx | tx in block.txs :: !IsNative(tx))
    || (calls.nativeLookup &&
        forall e | e in Natives(chain, table, block.time, block.txs) :: calls.sender(e.key.txHash))
  }

  lemma NativesStep(chain: Chain, table: seq<Account>, time: string, txs: seq<Tx>, i: nat)
    requires i < |txs|
    ensures Natives(chain, table, time, txs[..i + 1]) ==
            Natives(chain, table, time, txs[..i]) +
            if IsNative(txs[i]) && Has(table, chain.id, txs[i].to.value)
            then [NativeEvent(chain, time, txs[i], i)] else []
  {
    hide Has;
    assert txs[..i + 1][..i] == txs[..i];
  }

  method NativeCandidates(chain: Chain, ghost table: seq<Account>, block: Block) returns (candidates: seq<DepositEvent>)
    ensures Watched(table, chain.id, candidates) == Natives(chain, table, block.time, block.txs)
    ensures candidates == [] <==> forall tx | tx in block.txs :: !IsNative(tx)
  {
    hide Has;
    hide IsNative;
    candidates := [];
    for i := 0 to |block.txs|
      invariant Watched(table, chain.id, candidates) == Natives(chain, table, block.time, block.txs[..i])
      invariant candidates == [] <==> forall tx | tx in block.txs[..i] :: !IsNative(tx)
    {
      var tx := block.txs[i];
      assert block.txs[..i + 1] == block.txs[..i] + [tx];
      NativesStep(chain, table, block.time, block.txs, i);
      hide Natives;
      hide Watched;
      if IsNative(tx) {
        WatchedAppend(table, chain.id, candidates, NativeEvent(chain, block.time, tx, i));
        candidates := candidates + [NativeEvent(chain, block.time, tx, i)];
      }
    }
    assert block.txs[..|block.txs|] == block.txs;
  }

  method ParseNativeTransfers(chain: Chain, table: seq<Account>, block: Block, calls: LogCalls)
    returns (ok: bool, events: seq<DepositEvent>)
    ensures ok <==> NativesReached(chain, table, block, calls)
    ensures ok ==> multiset(events) == multiset(Natives(chain, table, block.time, block.txs))
  {
    hide Natives;
    hide IsNative;
    var candidates := NativeCandidates(chain, table, block);
    if candidates == [] { return true, []; }
    hide Watched;
    var matched;
    ok, matched := MatchRecipients(table, chain.id, candidates, calls.nativeLookup);
    if !ok { return false, []; }
    ok, events := ResolveSenders(matched, calls.sender);
  }

  /** A log of a configured contract that its decoder rejects with an error fails the whole block. */
  predicate Poisoned(chain: Chain, lg: TokenLog) { Lower(lg.address) in chain.contracts && lg.decoded.Undecodable? }

  /** The token part can fail only through the log query, a log its decoder rejects, or its lookup. */
  ghost predicate TokensReached(chain: Chain, block: Block, calls: LogCalls) {
    && calls.logs && (forall lg | lg in block.logs :: !Poisoned(chain, lg))
    && (calls.tokenLookup || forall lg | lg in block.logs :: !IsToken(chain, lg))
  }

  method ParseTokenTransfers(chain: Chain, table: seq<Account>, block: Block, calls: LogCalls)
    returns (ok: bool, events: seq<DepositEvent>, ghost at: seq<nat>)
    ensures ok <==> TokensReached(chain, block, calls)
    ensures ok ==> events == Tokens(chain, table, block.time, block.logs)
    ensures ok ==> TokenListing(chain, table, block.time, block.logs, at, events)
  {
    at := TokensInOrder(chain, table, block.time, block.logs);
    hide TokenListing;
    if !calls.logs { return false, [], at; }
    var candidates: seq<DepositEvent> := [];
    for i := 0 to |block.logs|
      invariant Watched(table, chain.id, candidates) == Tokens(chain, table, block.time, block.logs[..i])
      invariant forall lg | lg in block.logs[..i] :: !Poisoned(chain, lg)
      invariant candidates == [] <==> forall lg | lg in block.logs[..i] :: !IsToken(chain, lg)
    {
      var lg := block.logs[i];
      assert block.logs[..i + 1] == block.logs[..i] + [lg] && block.logs[..i + 1][..i] == block.logs[..i];
      if Lower(lg.address) in chain.contracts {
        if lg.decoded.Undecodable? {
          assert lg in block.logs && Poisoned(chain, lg);
          return false, [], at;
        }
        if lg.decoded.Transfer? {
          WatchedAppend(table, chain.id, candidates, TokenEvent(chain, block.time, lg));
          candidates := candidates + [TokenEvent(chain, block.time, lg)];
        }
      }
    }
    assert block.logs[..|block.logs|] == block.logs;
    if candidates == [] { return true, [], at; }
    ok, events := MatchRecipients(table, chain.id, candidates, calls.tokenLookup);
  }

  /** When a scan succeeds. */
  ghost predicate LogScanReached(chain: Chain, table: seq<Account>, block: Block, calls: LogCalls) {
    && calls.block && NativesReached(chain, table, block, calls)
    && (chain.contracts == map[] || TokensReached(chain, block, calls))
  }

  /** The scan refines the candidate-by-candidate specification, whatever the goroutine schedule. */
  method ScanBlock(chain: Chain, table: seq<Account>, block: Block, confirmations: int, calls: LogCalls)
    returns (ok: bool, events: seq<DepositEvent>, ghost order: seq<DepositEvent>)
    ensures ok <==> LogScanReached(chain, table, block, calls)
    ensures ok ==> events == Stamp(order, confirmations)
    ensures ok ==> multiset(order) == multiset(LogScan(chain, table, block))
    ensures ok ==> multiset(events) == multiset(Stamp(LogScan(chain, table, block), confirmations))
    ensures ok ==> forall lg | lg in block.logs :: !Poisoned(chain, lg)
  {
    hide NativesReached;
    order := [];
    if !calls.block { return false, [], order; }
    var natives, tokens := [], [];
    ok, natives := ParseNativeTransfers(chain, table, block, calls);
    if !ok { return false, [], order; }
    if chain.contracts != map[] {
      ghost var at;
      ok, tokens, at := ParseTokenTransfers(chain, table, block, calls);
      if !ok { return false, [], order; }
    }
    order := natives + tokens;
    events := Stamp(natives + tokens, confirmations);
    StampPermutes(order, LogScan(chain, table, block), confirmations);
  }

  /** Filling in the confirmations commutes with reordering. */
  lemma {:induction false} StampPermutes(a: seq<DepositEvent>, b: seq<DepositEvent>, confirmations: int)
    requires multiset(a) == multiset(b)
    ensures multiset(Stamp(a, confirmations)) == multiset(Stamp(b, confirmations))
    decreases |a|
  {
    if a == [] {
      assert |multiset(b)| == 0;
    } else {
      var last := |a| - 1;
      assert a[last] in multiset(b);
      var j :| 0 <= j < |b| && b[j] == a[last];
      var rest := b[..j] + b[j + 1..];
      RemoveAt(a, last);
      RemoveAt(b, j);
      assert a[..last] + a[last + 1..] == a[..last];
      assert multiset(a[..last]) == multiset(a) - multiset{a[last]};
      assert multiset(rest) == multiset(b) - multiset{b[j]};
      StampPermutes(a[..last], rest, confirmations);
      StampWithout(a, last, confirmations);
      StampWithout(b, j, confirmations);
    }
  }

  lemma StampWithout(s: seq<DepositEvent>, j: nat, confirmations: int)
    requires j < |s|
    ensures multiset(Stamp(s, confirmations)) ==
            multiset(Stamp(s[..j] + s[j + 1..], confirmations)) + multiset{s[j].(confirmations := confirmations)}
  {
    var t := Stamp(s, confirmations);
    RemoveAt(t, j);
    assert t[..j] + t[j + 1..] == Stamp(s[..j] + s[j + 1..], confirmations);
  }
}
