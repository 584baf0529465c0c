/** The trace scanner (internal/scanner/trace_scanner.go): internal native transfers found by walking
    the call tree of every transaction sent to a contract. */
module TraceScanner {
  import opened Decimal
  import opened Deposits
  import opened Pipeline
  import opened LogScanner

  const TRACE_LOG_INDEX_BASE: int := -100_000
  const CODE_CACHE_MAX: nat := 10_000
  const MAX_CALL_FRAME_DEPTH: nat := 1024

  /** A callTracer frame. */
  datatype Frame = Frame(kind: string, from: string, to: string, value: string, error: string, calls: seq<Frame>)

  datatype TraceResult = Traced(root: Frame) | TraceFailed | Unsupported

  /** The node as seen by one scan: code sizes and traces. */
  datatype Node = Node(codeSize: string -> nat, trace: string -> TraceResult)

  // ---------- hexadecimal values ----------

  function HexDigit(c: char): Option<nat> {
    if '0' <= c <= '9' then Some(c as int - '0' as int)
    else if 'a' <= c <= 'f' then Some(c as int - 'a' as int + 10)
    else if 'A' <= c <= 'F' then Some(c as int - 'A' as int + 10)
    else None
  }

  function HexDigits(s: string): Option<nat> {
    if s == [] then None
    else
      var last := |s| - 1;
      var d := HexDigit(s[last]);
      var high := if last == 0 then Some(0) else HexDigits(s[..last]);
      if d.None? || high.None? then None else Some(16 * high.value + d.value)
  }

  /** big.Int.SetString(strings.TrimPrefix(value, "0x"), 16). */
  function HexValue(value: string): Option<int> {
    var s := if "0x" <= value then value[2..] else value;
    if s != [] && s[0] == '-' then
      var n := HexDigits(s[1..]);
      if n.None? then None else Some(0 - n.value)
    else if s != [] && s[0] == '+' then
      var n := HexDigits(s[1..]);
      if n.None? then None else Some(0 + n.value)
    else
      var n := HexDigits(s);
      if n.None? then None else Some(0 + n.value)
  }

  const HEX_LOWER: string := "0123456789abcdef"
  const HEX_UPPER: string := "0123456789ABCDEF"

  function HexChar(d: nat, upper: bool): char
    requires d < 16
  {
    if upper then HEX_UPPER[d] else HEX_LOWER[d]
  }

  /** A number in hexadecimal; `upper(p)` is the case of the p-th digit from the right. */
  function HexText(n: nat, upper: nat -> bool): (s: string)
    ensures s != []
  {
    if n < 16 then [HexChar(n, upper(0))]
    else HexText(n / 16, Shifted(upper)) + [HexChar(n % 16, upper(0))]
  }

  function Shifted(upper: nat -> bool): nat -> bool { (p: nat) => upper(p + 1) }

  ghost predicate IsHexChar(c: char) { c in HEX_LOWER || c in HEX_UPPER }

  lemma HexDigitReads(d: nat, upper: bool)
    requires d < 16
    ensures HexDigit(HexChar(d, upper)) == Some(d) && IsHexChar(HexChar(d, upper))
  {
    assert HEX_LOWER[d] as int == if d < 10 then '0' as int + d else 'a' as int + d - 10;
    assert HEX_UPPER[d] as int == if d < 10 then '0' as int + d else 'A' as int + d - 10;
  }

  lemma HexDigitKnows(c: char)
    ensures HexDigit(c).Some? <==> IsHexChar(c)
  {
    if HexDigit(c).Some? {
      HexDigitReads(HexDigit(c).value, false);
      HexDigitReads(HexDigit(c).value, true);
    }
  }

  lemma HexAppend(high: string, x: nat, c: char, d: nat)
    requires HexDigit(c) == Some(d) && (if high == [] then x == 0 else HexDigits(high) == Some(x))
    ensures HexDigits(high + [c]) == Some(16 * x + d)
  {
    hide HexDigit;
    assert (high + [c])[..|high|] == high;
  }

  lemma HexTextSplits(n: nat, upper: nat -> bool)
    ensures n < 16 ==> HexText(n, upper) == [] + [HexChar(n, upper(0))]
    ensures n >= 16 ==> HexText(n, upper) == HexText(n / 16, Shifted(upper)) + [HexChar(n % 16, upper(0))]
  {
    hide HexChar;
  }

  lemma {:induction false} HexTextReads(n: nat, upper: nat -> bool)
    ensures HexDigits(HexText(n, upper)) == Some(n)
    decreases n
  {
    hide *;
    var high, low := n / 16, n % 16;
    HexDigitReads(low, upper(0));
    HexTextSplits(n, upper);
    if n >= 16 {
      HexTextReads(high, Shifted(upper));
      HexAppend(HexText(high, Shifted(upper)), high, HexChar(low, upper(0)), low);
    } else {
      HexAppend([], 0, HexChar(low, upper(0)), low);
    }
  }

  lemma {:induction false} HexZeros(k: nat, s: string)
    requires s != []
    ensures HexDigits(Zeros(k) + s) == HexDigits(s)
  {
    var t := Zeros(k) + s;
    assert t[..|t| - 1] == Zeros(k) + s[..|s| - 1] && t[|t| - 1] == s[|s| - 1];
    if |s| > 1 {
      HexZeros(k, s[..|s| - 1]);
    } else if k > 0 {
      assert Zeros(k) + s[..0] == Zeros(k - 1) + ['0'];
      HexZeros(k - 1, ['0']);
    }
  }

  /** Every way of writing a number in hexadecimal, with any leading zeros and in any case, reads back. */
  lemma HexValueReads(n: nat, zeros: nat, upper: nat -> bool)
    ensures HexValue("0x" + (Zeros(zeros) + HexText(n, upper))) == Some(n)
  {
    var digits := Zeros(zeros) + HexText(n, upper);
    HexTextReads(n, upper);
    HexZeros(zeros, HexText(n, upper));
    HexText0(n, upper);
    assert digits[0] == if zeros > 0 then '0' else HexText(n, upper)[0];
    HexDigitKnows(digits[0]);
    assert digits[0] != '-' && digits[0] != '+' by { hide HexText; hide HexDigits; }
    hide HexDigits;
    hide HexText;
    hide IsHexChar;
    hide HexDigit;
    assert ("0x" + digits)[2..] == digits;
  }

  lemma {:induction false} HexText0(n: nat, upper: nat -> bool)
    ensures IsHexChar(HexText(n, upper)[0])
    decreases n
  {
    HexDigitReads(n % 16, upper(0));
    hide HexChar;
    hide IsHexChar;
    if n >= 16 { HexText0(n / 16, Shifted(upper)); }
  }

  /** Anything but hexadecimal digits is rejected. */
  lemma {:induction false} HexDigitsKnow(s: string)
    ensures HexDigits(s).Some? <==> s != [] && forall c | c in s :: IsHexChar(c)
  {
    if s != [] {
      var last := |s| - 1;
      HexDigitKnows(s[last]);
      hide HexDigit;
      hide IsHexChar;
      assert s == s[..last] + [s[last]];
      if last > 0 { HexDigitsKnow(s[..last]); }
    }
  }

  lemma HexValueRejects(value: string)
    ensures var s := if "0x" <= value then value[2..] else value;
            var t := if s != [] && (s[0] == '-' || s[0] == '+') then s[1..] else s;
            HexValue(value).Some? <==> t != [] && forall c | c in t :: IsHexChar(c)
  {
    var s := if "0x" <= value then value[2..] else value;
    HexDigitsKnow(if s != [] && (s[0] == '-' || s[0] == '+') then s[1..] else s);
    hide HexDigits;
    hide IsHexChar;
  }

  // ---------- specification: filter the preorder listing ----------

  /** A frame of the listing; `dead` when it or a frame above it reverted. */
  datatype Visit = Visit(frame: Frame, dead: bool)

  /** Every frame of the trees in depth-first preorder. */
  function Preorder(calls: seq<Frame>, dead: bool): seq<Visit> {
    if calls == [] then []
    else
      var last := |calls| - 1;
      var f := calls[last];
      var gone := dead || f.error != "";
      Preorder(calls[..last], dead) + ([Visit(f, gone)] + Preorder(f.calls, gone))
  }

  /** A value-bearing CALL to a watched account; a failed lookup counts as not watched. */
  predicate Pays(f: Frame, watched: string -> Option<bool>) {
    && f.kind == "CALL"
    && f.value != "" && HexValue(f.value).Some? && HexValue(f.value).value > 0
    && watched(f.to) == Some(true)
  }

  function Payments(visits: seq<Visit>, watched: string -> Option<bool>): seq<Frame> {
    if visits == [] then []
    else
      var last := |visits| - 1;
      Payments(visits[..last], watched) +
      (if !visits[last].dead && Pays(visits[last].frame, watched) then [visits[last].frame] else [])
  }

  /** The trees cut below `n` levels. */
  function Prune(calls: seq<Frame>, n: nat): seq<Frame>
    decreases n
  {
    if n == 0 then []
    else seq(|calls|, i requires 0 <= i < |calls| => calls[i].(calls := Prune(calls[i].calls, n - 1)))
  }

  function Height(calls: seq<Frame>): nat {
    if calls == [] then 0
    else
      var last := |calls| - 1;
      var rest, here := Height(calls[..last]), 1 + Height(calls[last].calls);
      if rest > here then rest else here
  }

  /** Trees no higher than the cut are left whole, so nothing is lost within the EVM's call depth. */
  lemma {:induction false} PruneWhole(calls: seq<Frame>, n: nat)
    requires Height(calls) <= n
    ensures Prune(calls, n) == calls
    decreases n
  {
    if calls != [] {
      forall i | 0 <= i < |calls| ensures Prune(calls[i].calls, n - 1) == calls[i].calls {
        HeightBelow(calls, i);
        PruneWhole(calls[i].calls, n - 1);
      }
    }
  }

  lemma {:induction false} HeightBelow(calls: seq<Frame>, i: nat)
    requires i < |calls|
    ensures Height(calls[i].calls) < Height(calls)
  {
    var last := |calls| - 1;
    if i < last { HeightBelow(calls[..last], i); }
  }

  lemma {:induction false} PaymentsConcat(a: seq<Visit>, b: seq<Visit>, watched: string -> Option<bool>)
    ensures Payments(a + b, watched) == Payments(a, watched) + Payments(b, watched)
  {
    if b == [] {
      assert a + b == a;
    } else {
      var last := |b| - 1;
      PaymentsConcat(a, b[..last], watched);
      assert (a + b)[..|a + b| - 1] == a + b[..last];
    }
  }

  /** Nothing below a reverted frame is collected. */
  lemma {:induction false} DeadPaysNothing(calls: seq<Frame>, watched: string -> Option<bool>)
    ensures Payments(Preorder(calls, true), watched) == []
    decreases calls
  {
    if calls != [] {
      var last := |calls| - 1;
      var f := calls[last];
      DeadPaysNothing(calls[..last], watched);
      DeadPaysNothing(f.calls, watched);
      PaymentsConcat([Visit(f, true)], Preorder(f.calls, true), watched);
      PaymentsConcat(Preorder(calls[..last], true), [Visit(f, true)] + Preorder(f.calls, true), watched);
    }
  }

  /** What the last frame of a list contributes. */
  lemma {:induction false} LastFramePays(calls: seq<Frame>, watched: string -> Option<bool>)
    requires calls != []
    ensures var last := |calls| - 1;
            var f := calls[last];
            Payments(Preorder(calls, false), watched) ==
            Payments(Preorder(calls[..last], false), watched) +
            (if f.error != "" then []
             else (if Pays(f, watched) then [f] else []) + Payments(Preorder(f.calls, false), watched))
  {
    var last := |calls| - 1;
    var f := calls[last];
    var gone := f.error != "";
    hide Pays;
    var own := [Visit(f, gone)];
    assert own[..0] == [] && Payments(own, watched) == if !gone && Pays(f, watched) then [f] else [];
    PaymentsConcat(own, Preorder(f.calls, gone), watched);
    PaymentsConcat(Preorder(calls[..last], false), own + Preorder(f.calls, gone), watched);
    if gone { DeadPaysNothing(f.calls, watched); }
  }

  // ---------- specification: number the payments of a block ----------

  datatype Hit = Hit(txHash: string, frame: Frame)

  function Tag(hash: string, frames: seq<Frame>): seq<Hit> {
    seq(|frames|, i requires 0 <= i < |frames| => Hit(hash, frames[i]))
  }

  /** `hits` and then the payments of the trees, in preorder. */
  ghost function Adding(hits: seq<Hit>, hash: string, calls: seq<Frame>, watched: string -> Option<bool>): seq<Hit> {
    hits + Tag(hash, Payments(Preorder(calls, false), watched))
  }

  lemma AddingNone(hits: seq<Hit>, hash: string, watched: string -> Option<bool>)
    ensures Adding(hits, hash, [], watched) == hits
  {
  }

  /** The last frame adds itself if it pays, then its subtree, unless it reverted. */
  lemma AddingLast(hits: seq<Hit>, hash: string, calls: seq<Frame>, watched: string -> Option<bool>)
    requires calls != []
    ensures var last := |calls| - 1;
            var f, base := calls[last], Adding(hits, hash, calls[..last], watched);
            Adding(hits, hash, calls, watched) ==
            if f.error != "" then base
            else
              var paid := && f.kind == "CALL" && f.value != ""
                          && HexValue(f.value).Some? && HexValue(f.value).value > 0
                          && watched(f.to) == Some(true);
              Adding(if paid then base + [Hit(hash, f)] else base, hash, f.calls, watched)
  {
    var last := |calls| - 1;
    var f := calls[last];
    var before, below := Payments(Preorder(calls[..last], false), watched), Payments(Preorder(f.calls, false), watched);
    LastFramePays(calls, watched);
    hide Payments;
    hide Preorder;
    TagConcat(hash, hits, before, if Pays(f, watched) then [f] else [], below);
  }

  lemma TagConcat(hash: string, hits: seq<Hit>, a: seq<Frame>, b: seq<Frame>, c: seq<Frame>)
    ensures hits + Tag(hash, a + (b + c)) == ((hits + Tag(hash, a)) + Tag(hash, b)) + Tag(hash, c)
    ensures hits + Tag(hash, a + []) == hits + Tag(hash, a)
    ensures |b| == 1 ==> Tag(hash, b) == [Hit(hash, b[0])]
    ensures b == [] ==> (hits + Tag(hash, a)) + Tag(hash, b) == hits + Tag(hash, a)
  {
    assert a + [] == a;
  }

  function TraceEvent(chain: Chain, time: string, h: Hit, k: nat): DepositEvent {
    DepositEvent(Key(chain.id, h.txHash, TRACE_LOG_INDEX_BASE - k), h.frame.from, h.frame.to, HexValue(h.frame.value),
                 chain.native, chain.decimals, 0, time)
  }

  /** Consecutive indices -100000, -100001, ... across the whole block. */
  function Number(chain: Chain, time: string, hits: seq<Hit>): seq<DepositEvent> {
    seq(|hits|, i requires 0 <= i < |hits| => TraceEvent(chain, time, hits[i], i))
  }

  /** The levels that collect walks: depths 0 to the limit. */
  const LEVELS: nat := MAX_CALL_FRAME_DEPTH + 1

  function TxHits(node: Node, watched: string -> Option<bool>, tx: Tx): seq<Hit> {
    if tx.to.None? || node.codeSize(tx.to.value) == 0 || !node.trace(tx.hash).Traced? then []
    else Tag(tx.hash, Payments(Preorder(Prune(node.trace(tx.hash).root.calls, LEVELS), false), watched))
  }

  function BlockHits(node: Node, watched: string -> Option<bool>, txs: seq<Tx>): seq<Hit> {
    if txs == [] then []
    else BlockHits(node, watched, txs[..|txs| - 1]) + TxHits(node, watched, txs[|txs| - 1])
  }

  function TraceScan(chain: Chain, node: Node, watched: string -> Option<bool>, block: Block): seq<DepositEvent> {
    Number(chain, block.time, BlockHits(node, watched, block.txs))
  }

  /** Within the EVM's depth limit a transaction's hits are its payments, uncut. */
  lemma NothingCut(node: Node, watched: string -> Option<bool>, tx: Tx)
    requires tx.to.Some? && node.codeSize(tx.to.value) > 0 && node.trace(tx.hash).Traced?
    requires Height(node.trace(tx.hash).root.calls) <= LEVELS
    ensures TxHits(node, watched, tx) ==
            Tag(tx.hash, Payments(Preorder(node.trace(tx.hash).root.calls, false), watched))
  {
    PruneWhole(node.trace(tx.hash).root.calls, LEVELS);
  }

  // ---------- nodes that stop tracing ----------

  /** The call at which the scanner learns that tracing is unsupported, and gives up for good. */
  predicate Stops(node: Node, tx: Tx) {
    tx.to.Some? && node.codeSize(tx.to.value) > 0 && node.trace(tx.hash).Unsupported?
  }

  /** The first `n` transactions are those before the first stop. */
  ghost predicate IsCovered(node: Node, txs: seq<Tx>, n: nat) {
    && n <= |txs|
    && (forall i | 0 <= i < n :: !Stops(node, txs[i]))
    && (n < |txs| ==> Stops(node, txs[n]))
  }

  ghost predicate CanStop(node: Node, address: string, hash: string) {
    node.codeSize(address) > 0 && node.trace(hash).Unsupported?
  }

  function Everyone(): string -> Option<bool> { _ => Some(true) }

  /** The trace holds a payment that some account list would make a deposit. */
  ghost predicate Paying(node: Node, hash: string) {
    node.trace(hash).Traced? &&
    Payments(Preorder(Prune(node.trace(hash).root.calls, LEVELS), false), Everyone()) != []
  }

  /** A node that calls tracing unsupported once never returns a trace with a payment. */
  ghost predicate Steady(node: Node) {
    (exists a, h :: CanStop(node, a, h)) ==> forall h :: !Paying(node, h)
  }

  lemma {:induction false} FewerPayments(visits: seq<Visit>, watched: string -> Option<bool>)
    requires Payments(visits, Everyone()) == []
    ensures Payments(visits, watched) == []
  {
    if visits != [] {
      FewerPayments(visits[..|visits| - 1], watched);
    }
  }

  lemma {:induction false} UnpaidHitsNothing(node: Node, watched: string -> Option<bool>, txs: seq<Tx>)
    requires forall h :: !Paying(node, h)
    ensures BlockHits(node, watched, txs) == []
  {
    if txs != [] {
      var last := |txs| - 1;
      UnpaidHitsNothing(node, watched, txs[..last]);
      var hash := txs[last].hash;
      assert !Paying(node, hash);
      if node.trace(hash).Traced? {
        FewerPayments(Preorder(Prune(node.trace(hash).root.calls, LEVELS), false), watched);
      }
    }
  }

  ghost predicate DropsNothing(node: Node, watched: string -> Option<bool>, txs: seq<Tx>, n: nat) {
    IsCovered(node, txs, n) ==> BlockHits(node, watched, txs[..n]) == BlockHits(node, watched, txs)
  }

  lemma SteadyDropsNothing(node: Node, watched: string -> Option<bool>, txs: seq<Tx>, n: nat)
    requires Steady(node)
    ensures DropsNothing(node, watched, txs, n)
  {
    if IsCovered(node, txs, n) {
      if n < |txs| {
        assert CanStop(node, txs[n].to.value, txs[n].hash);
        UnpaidHitsNothing(node, watched, txs[..n]);
        UnpaidHitsNothing(node, watched, txs);
      } else {
        assert txs[..n] == txs;
      }
    }
  }

  /** Two contract calls, the first of which stops the scanner: the payment of the second is dropped. */
  lemma UnsteadyDrops(node: Node, address: string, stop: string, pay: string)
    requires CanStop(node, address, stop) && Paying(node, pay)
    ensures var txs := [Tx(stop, Some(address), 0, 0, ""), Tx(pay, Some(address), 0, 0, "")];
            IsCovered(node, txs, 0) && BlockHits(node, Everyone(), txs[..0]) == [] != BlockHits(node, Everyone(), txs)
  {
    var txs := [Tx(stop, Some(address), 0, 0, ""), Tx(pay, Some(address), 0, 0, "")];
    assert txs[..1] == [txs[0]] && txs[..1][..0] == [];
    hide Payments;
    hide Preorder;
    hide Prune;
    assert TxHits(node, Everyone(), txs[1]) != [];
  }

  /** Steadiness is exact: stopping at the first unsupported trace never drops a payment, for any block
      and any watched accounts, if and only if the node is steady. */
  lemma SteadyIsExact(node: Node)
    ensures Steady(node) <==> forall watched, txs, n :: DropsNothing(node, watched, txs, n)
  {
    if Steady(node) {
      forall watched, txs, n ensures DropsNothing(node, watched, txs, n) {
        SteadyDropsNothing(node, watched, txs, n);
      }
    } else {
      var a, stop :| CanStop(node, a, stop);
      var pay :| Paying(node, pay);
      UnsteadyDrops(node, a, stop, pay);
      assert !DropsNothing(node, Everyone(), [Tx(stop, Some(a), 0, 0, ""), Tx(pay, Some(a), 0, 0, "")], 0);
    }
  }

  // ---------- payments by their place in the tree ----------

  /** `f` is found by following `path` from the top, through frames that did not revert. */
  ghost predicate Reaches(calls: seq<Frame>, path: seq<nat>, f: Frame)
    decreases |path|
  {
    && path != [] && path[0] < |calls| && calls[path[0]].error == ""
    && if |path| == 1 then calls[path[0]] == f else Reaches(calls[path[0]].calls, path[1..], f)
  }

  lemma {:induction false} PreorderHas(calls: seq<Frame>, i: nat, v: Visit)
    requires i < |calls| && calls[i].error == ""
    requires v == Visit(calls[i], false) || v in Preorder(calls[i].calls, false)
    ensures v in Preorder(calls, false)
  {
    var last := |calls| - 1;
    if i < last { PreorderHas(calls[..last], i, v); }
  }

  /** A frame that a path reaches is in the listing, with its own subtree cut. */
  lemma {:induction false} ReachedIsListed(calls: seq<Frame>, path: seq<nat>, f: Frame, n: nat)
    requires Reaches(calls, path, f) && |path| <= n
    ensures Visit(Cut(f, n - |path|), false) in Preorder(Prune(calls, n), false)
    decreases |path|
  {
    var i := path[0];
    var pruned := Prune(calls, n);
    assert pruned[i] == Cut(calls[i], n - 1);
    if |path| > 1 { ReachedIsListed(calls[i].calls, path[1..], f, n - 1); }
    hide Prune;
    PreorderHas(pruned, i, Visit(Cut(f, n - |path|), false));
  }

  lemma {:induction false} PaymentListed(visits: seq<Visit>, f: Frame, watched: string -> Option<bool>)
    requires Visit(f, false) in visits && Pays(f, watched)
    ensures f in Payments(visits, watched)
  {
    hide Pays;
    var last := |visits| - 1;
    if visits[last] != Visit(f, false) {
      assert visits == visits[..last] + [visits[last]];
      PaymentListed(visits[..last], f, watched);
    }
  }

  lemma {:induction false} HitListed(node: Node, watched: string -> Option<bool>, txs: seq<Tx>, t: nat, h: Hit)
    requires t < |txs| && h in TxHits(node, watched, txs[t])
    ensures h in BlockHits(node, watched, txs)
  {
    hide TxHits;
    var last := |txs| - 1;
    if t < last { HitListed(node, watched, txs[..last], t, h); }
  }

  /** A frame of a traced contract call, within the depth limit, that pays a watched account is a hit of
      the block. */
  lemma ReachedIsHit(node: Node, watched: string -> Option<bool>, txs: seq<Tx>, t: nat, path: seq<nat>, f: Frame)
    returns (i: nat)
    requires t < |txs| && txs[t].to.Some? && node.codeSize(txs[t].to.value) > 0 && node.trace(txs[t].hash).Traced?
    requires Reaches(node.trace(txs[t].hash).root.calls, path, f) && |path| <= LEVELS && Pays(f, watched)
    ensures i < |BlockHits(node, watched, txs)|
    ensures BlockHits(node, watched, txs)[i].txHash == txs[t].hash
    ensures var g := BlockHits(node, watched, txs)[i].frame; g == f.(calls := g.calls)
  {
    var tx, g := txs[t], Cut(f, LEVELS - |path|);
    var visits := Preorder(Prune(node.trace(tx.hash).root.calls, LEVELS), false);
    ReachedIsListed(node.trace(tx.hash).root.calls, path, f, LEVELS);
    assert Pays(g, watched);
    PaymentListed(visits, g, watched);
    var found := Payments(visits, watched);
    var p :| 0 <= p < |found| && found[p] == g;
    assert TxHits(node, watched, tx)[p] == Hit(tx.hash, g);
    HitListed(node, watched, txs, t, Hit(tx.hash, g));
    hide BlockHits;
    i :| 0 <= i < |BlockHits(node, watched, txs)| && BlockHits(node, watched, txs)[i] == Hit(tx.hash, g);
  }

  // ---------- the scanner ----------

  /** The node does not answer the code query that the transaction needs. */
  ghost predicate Unanswered(codes: string -> bool, tx: Tx) { tx.to.Some? && !codes(tx.to.value) }

  class TraceScanner {
    const chain: Chain
    const node: Node
    const watched: string -> Option<bool>
    var codeCache: map<string, bool>
    var traceUnsupported: bool

    // collect's counter and output, passed by reference in the source
    var counter: nat
    var out: seq<DepositEvent>

    constructor (chain: Chain, node: Node, watched: string -> Option<bool>)
      ensures this.chain == chain && this.node == node && this.watched == watched
      ensures Valid() && !traceUnsupported
    {
      this.chain, this.node, this.watched := chain, node, watched;
      codeCache, traceUnsupported, counter, out := map[], false, 0, [];
    }

    /** The cache never lies and stays bounded. */
    ghost predicate Valid()
      reads this
    {
      && |codeCache| <= CODE_CACHE_MAX
      && (forall a | a in codeCache :: codeCache[a] <==> node.codeSize(a) > 0)
      && (traceUnsupported ==> exists a, h :: CanStop(node, a, h))
    }

    /** The collected output stands for these hits. */
    ghost predicate Collected(time: string, hits: seq<Hit>)
      reads this
    {
      counter == |hits| && out == Number(chain, time, hits)
    }

    /** `codes(a)` tells whether the node answers a code query for `a`. */
    method IsContract(addr: string, codes: string -> bool) returns (ok: bool, contract: bool)
      requires Valid()
      modifies this`codeCache
      ensures Valid()
      ensures ok <==> addr in old(codeCache) || codes(addr)
      ensures ok ==> (contract <==> node.codeSize(addr) > 0)
    {
      if addr in codeCache { return true, codeCache[addr]; }
      if !codes(addr) { return false, false; }
      ok := true;
      contract := node.codeSize(addr) > 0;
      if |codeCache| >= CODE_CACHE_MAX {
        codeCache := map[];
      }
      OneMoreKey(codeCache, addr, contract);
      codeCache := codeCache[addr := contract];
    }

    /** Append the frame if it pays; `f` is the frame with its subtree cut. */
    method Emit(call: Frame, ghost f: Frame, hash: string, time: string, ghost base: seq<Hit>)
      returns (ghost now: seq<Hit>)
      requires Collected(time, base) && f == call.(calls := f.calls)
      modifies this`counter, this`out
      ensures now == (if Pays(f, watched) then base + [Hit(hash, f)] else base) && Collected(time, now)
    {
      PrunedPays(chain, time, hash, call, f, counter, watched);
      NumberAppend(chain, time, base, Hit(hash, f));
      hide Pays;
      hide TraceEvent;
      now := base;
      if Pays(call, watched) {
        now := base + [Hit(hash, f)];
        out := out + [TraceEvent(chain, time, Hit(hash, call), counter)];
        counter := counter + 1;
      }
    }

    /** Walk the frames depth-first, appending each payment with the next index. */
    method Collect(calls: seq<Frame>, hash: string, time: string, depth: nat, ghost hits: seq<Hit>)
      requires depth <= LEVELS && Collected(time, hits)
      modifies this`counter, this`out
      ensures Collected(time, Adding(hits, hash, Prune(calls, LEVELS - depth), watched))
      decreases calls
    {
      ghost var n := LEVELS - depth;
      UptoEnds(hits, hash, calls, n, watched);
      assert n == 0 <==> depth > MAX_CALL_FRAME_DEPTH;
      hide *;
      if depth > MAX_CALL_FRAME_DEPTH { return; }
      for i := 0 to |calls|
        invariant Collected(time, Upto(hits, hash, calls, n, i, watched))
      {
        UptoStep(hits, hash, calls, n, i, watched);
        if calls[i].error != "" {
          continue;
        }
        ghost var base := Emit(calls[i], Cut(calls[i], n - 1), hash, time, Upto(hits, hash, calls, n, i, watched));
        Collect(calls[i].calls, hash, time, depth + 1, base);
      }
    }

    /** One transaction of the block loop. */
    method ScanTx(tx: Tx, time: string, codes: string -> bool, ghost hits: seq<Hit>) returns (ok: bool)
      requires Valid() && !traceUnsupported && Collected(time, hits)
      modifies this
      ensures Valid()
      ensures !ok ==> Unanswered(codes, tx)
      ensures ok ==> (traceUnsupported <==> Stops(node, tx))
      ensures ok ==> Collected(time, if traceUnsupported then hits else hits + TxHits(node, watched, tx))
    {
      assert hits + [] == hits;
      if tx.to.None? { return true; }
      var known, contract := IsContract(tx.to.value, codes);
      if !known || !contract { return known; }
      match node.trace(tx.hash) {
        case TraceFailed =>
        case Unsupported =>
          assert CanStop(node, tx.to.value, tx.hash);
          traceUnsupported := true;
        case Traced(root) => Collect(root.calls, tx.hash, time, 0, hits);
      }
      return true;
    }

    /** The transaction loop: it covers the transactions before the first stop. */
    method ScanTxs(txs: seq<Tx>, time: string, codes: string -> bool) returns (ok: bool, ghost n: nat)
      requires Valid() && !traceUnsupported
      modifies this
      ensures Valid()
      ensures !ok ==> exists tx | tx in txs :: Unanswered(codes, tx)
      ensures ok ==> IsCovered(node, txs, n) && (traceUnsupported <==> n < |txs|)
      ensures ok ==> Collected(time, BlockHits(node, watched, txs[..n]))
    {
      NoHitsYet(node, watched, txs);
      counter, out, n := 0, [], 0;
      assert Collected(time, []);
      hide *;
      for i := 0 to |txs|
        invariant Valid() && !traceUnsupported && n == i && NoStop(node, txs, i)
        invariant Collected(time, BlockHits(node, watched, txs[..i]))
      {
        ok := ScanTx(txs[i], time, codes, BlockHits(node, watched, txs[..i]));
        if !ok {
          assert txs[i] in txs;
          return false, n;
        }
        StopOrMore(node, watched, txs, i);
        if traceUnsupported { return true, n; }
        n := n + 1;
      }
      ok := true;
    }

    /** Scan one block. A scanner that has stopped returns nothing; otherwise a scan that reports
        success has covered the `n` transactions before the first stop, and has stopped if that is
        not all of them. For a steady node nothing is missing either way. */
    method ScanBlock(block: Block, confirmations: int, fetches: bool, codes: string -> bool)
      returns (ok: bool, events: seq<DepositEvent>, ghost order: seq<DepositEvent>, ghost n: nat)
      requires Valid()
      modifies this
      ensures Valid()
      ensures !ok ==> !old(traceUnsupported) && (!fetches || exists tx | tx in block.txs :: Unanswered(codes, tx))
      ensures ok ==> old(traceUnsupported) || fetches
      ensures old(traceUnsupported) ==> ok && traceUnsupported && events == [] && n == 0
      ensures ok && !old(traceUnsupported) ==> IsCovered(node, block.txs, n) && (traceUnsupported <==> n < |block.txs|)
      ensures ok ==> n <= |block.txs| && order == TraceScan(chain, node, watched, block.(txs := block.txs[..n]))
      ensures ok && Steady(node) ==> order == TraceScan(chain, node, watched, block)
      ensures ok ==> events == Stamp(order, confirmations)
    {
      hide BlockHits;
      hide Steady;
      hide CanStop;
      NoHitsYet(node, watched, block.txs);
      order, n, events := [], 0, [];
      if traceUnsupported {
        StoppedScansNothing(node, watched, block.txs);
        return true, events, order, n;
      }
      if !fetches { return false, events, order, n; }
      ok, n := ScanTxs(block.txs, block.time, codes);
      if !ok { return false, [], [], n; }
      CoveredScan(node, watched, block.txs, n);
      order := out;
      events := Stamp(out, confirmations);
    }
  }

  ghost predicate NoStop(node: Node, txs: seq<Tx>, n: nat) {
    n <= |txs| && forall i | 0 <= i < n :: !Stops(node, txs[i])
  }

  lemma NoHitsYet(node: Node, watched: string -> Option<bool>, txs: seq<Tx>)
    ensures NoStop(node, txs, 0) && BlockHits(node, watched, txs[..0]) == []
    ensures forall n :: NoStop(node, txs, n) && n == |txs| ==> IsCovered(node, txs, n)
  {
  }

  lemma StopOrMore(node: Node, watched: string -> Option<bool>, txs: seq<Tx>, n: nat)
    requires NoStop(node, txs, n) && n < |txs|
    ensures Stops(node, txs[n]) ==> IsCovered(node, txs, n)
    ensures !Stops(node, txs[n]) ==> NoStop(node, txs, n + 1)
    ensures BlockHits(node, watched, txs[..n + 1]) == BlockHits(node, watched, txs[..n]) + TxHits(node, watched, txs[n])
  {
    hide TxHits;
    hide Stops;
    assert txs[..n + 1][..n] == txs[..n];
  }

  lemma StoppedScansNothing(node: Node, watched: string -> Option<bool>, txs: seq<Tx>)
    ensures Steady(node) && (exists a, h :: CanStop(node, a, h)) ==> BlockHits(node, watched, txs) == []
  {
    if Steady(node) && exists a, h :: CanStop(node, a, h) { UnpaidHitsNothing(node, watched, txs); }
  }

  lemma CoveredScan(node: Node, watched: string -> Option<bool>, txs: seq<Tx>, n: nat)
    requires IsCovered(node, txs, n)
    ensures Steady(node) ==> BlockHits(node, watched, txs[..n]) == BlockHits(node, watched, txs)
  {
    if Steady(node) { SteadyDropsNothing(node, watched, txs, n); }
  }

  lemma OneMoreKey(cache: map<string, bool>, k: string, v: bool)
    ensures |cache[k := v]| <= |cache| + 1
  {
    assert cache[k := v].Keys == cache.Keys + {k};
  }

  ghost function Cut(f: Frame, n: nat): Frame { f.(calls := Prune(f.calls, n)) }

  /** What walking the first `i` of the frames collects. */
  ghost function Upto(hits: seq<Hit>, hash: string, calls: seq<Frame>, n: nat, i: nat,
                      watched: string -> Option<bool>): seq<Hit>
    requires i <= |calls|
  {
    if n == 0 then hits else Adding(hits, hash, Prune(calls, n)[..i], watched)
  }

  lemma UptoEnds(hits: seq<Hit>, hash: string, calls: seq<Frame>, n: nat, watched: string -> Option<bool>)
    ensures Upto(hits, hash, calls, n, 0, watched) == hits
    ensures Upto(hits, hash, calls, n, |calls|, watched) == Adding(hits, hash, Prune(calls, n), watched)
    ensures n == 0 ==> Adding(hits, hash, Prune(calls, n), watched) == hits
  {
    AddingNone(hits, hash, watched);
    assert n > 0 ==> Prune(calls, n)[..|calls|] == Prune(calls, n);
  }

  lemma UptoStep(hits: seq<Hit>, hash: string, calls: seq<Frame>, n: nat, i: nat, watched: string -> Option<bool>)
    requires 0 < n && i < |calls|
    ensures var f, base := Cut(calls[i], n - 1), Upto(hits, hash, calls, n, i, watched);
            Upto(hits, hash, calls, n, i + 1, watched) ==
            if calls[i].error != "" then base
            else Adding(if Pays(f, watched) then base + [Hit(hash, f)] else base, hash, Prune(calls[i].calls, n - 1),
                        watched)
    ensures var f := Cut(calls[i], n - 1); f == calls[i].(calls := f.calls)
  {
    hide Adding;
    var pruned := Prune(calls, n);
    assert pruned[i] == Cut(calls[i], n - 1);
    var upto := pruned[..i + 1];
    assert upto[..i] == pruned[..i] && upto[i] == pruned[i];
    hide Prune;
    AddingLast(hits, hash, upto, watched);
  }

  lemma PrunedPays(chain: Chain, time: string, hash: string, call: Frame, f: Frame, k: nat,
                   watched: string -> Option<bool>)
    requires f == call.(calls := f.calls)
    ensures Pays(call, watched) <==> Pays(f, watched)
    ensures TraceEvent(chain, time, Hit(hash, call), k) == TraceEvent(chain, time, Hit(hash, f), k)
  {
  }

  lemma NumberAppend(chain: Chain, time: string, hits: seq<Hit>, h: Hit)
    ensures Number(chain, time, hits + [h]) == Number(chain, time, hits) + [TraceEvent(chain, time, h, |hits|)]
  {
  }
}
