/** Deposit events, the deposits sent to the Adapter, their keys and their text forms
    (internal/model/deposit.go, internal/publisher/protocol.go). */
module Deposits {
  import opened Decimal

  /** The UNIQUE(chain_id, tx_hash, log_index) key of the buffer table. */
  datatype Key = Key(chainId: int, txHash: string, logIndex: int)

  datatype Status = Confirmed | Pending

  /** What a scanner extracts; `amount` is None for Go's nil *big.Int. */
  datatype DepositEvent = DepositEvent(
    key: Key, from: string, to: string, amount: Option<int>, symbol: string,
    decimals: nat, confirmations: int, txTime: string)

  /** What the Adapter receives. */
  datatype Deposit = Deposit(
    key: Key, from: string, to: string, amount: string, confirmCount: int, symbol: string,
    status: Status, txTime: string, receivedAt: string)

  // ---------- fixed-point amounts ----------

  function FormatUnits(wei: Option<int>, decimals: nat): string {
    var w := if wei.Some? then wei.value else 0;
    if w < 0 then ['-'] + PlacePoint(NatString(-w), decimals) else PlacePoint(NatString(w), decimals)
  }

  function PlacePoint(s: string, decimals: nat): string {
    if decimals == 0 then s
    else
      var p := Padded(s, decimals);
      p[..|p| - decimals] + ['.'] + p[|p| - decimals..]
  }

  /** At least one digit before the point. */
  function Padded(s: string, decimals: nat): (p: string)
    ensures decimals > 0 ==> |p| > decimals
  {
    if decimals > 0 && |s| <= decimals then Zeros(decimals - |s| + 1) + s else s
  }

  /** An independent reader of fixed-point text: the amount in base units and the number of
      fraction digits. A point must have digits on both sides, and the integer part may not
      carry a redundant leading zero. */
  function ParseUnits(t: string): Option<(int, nat)> {
    if t != [] && t[0] == '-' then
      var m := ParseMagnitude(t[1..]);
      if m.Some? then Some((-m.value.0, m.value.1)) else None
    else
      var m := ParseMagnitude(t);
      if m.Some? then Some((m.value.0, m.value.1)) else None
  }

  function ParseMagnitude(u: string): Option<(int, nat)> {
    var dot := IndexOf(u, '.');
    var whole := u[..dot];
    var fraction := if dot < |u| then u[dot + 1..] else [];
    if !AllDigits(whole) || !AllDigits(fraction) || whole == [] then None
    else if dot < |u| && fraction == [] then None
    else if whole[0] == '0' && |whole| > 1 then None
    else Some((ParseNat(whole + fraction), |fraction|))
  }

  function PointText(whole: string, fraction: string): string {
    if fraction == [] then whole else whole + ['.'] + fraction
  }

  lemma ParseMagnitudeOf(whole: string, fraction: string)
    requires AllDigits(whole) && AllDigits(fraction)
    requires whole != [] && (whole[0] == '0' ==> |whole| == 1)
    ensures ParseMagnitude(PointText(whole, fraction)) == Some((ParseNat(whole + fraction), |fraction|))
  {
    var u := PointText(whole, fraction);
    if fraction == [] {
      IndexOfSplit(whole, '.', []);
      assert u[..|u|] == whole && whole + fraction == whole;
    } else {
      IndexOfSplit(whole, '.', fraction);
      assert u[..|whole|] == whole && u[|whole| + 1..] == fraction;
    }
  }

  lemma PlacePointSplits(s: string, decimals: nat) returns (whole: string, fraction: string)
    requires AllDigits(s) && s != [] && (s[0] == '0' ==> |s| == 1)
    ensures PlacePoint(s, decimals) == PointText(whole, fraction)
    ensures AllDigits(whole) && AllDigits(fraction) && |fraction| == decimals
    ensures whole != [] && (whole[0] == '0' ==> |whole| == 1)
    ensures ParseNat(whole + fraction) == ParseNat(s)
  {
    hide ParseNat;
    var p := Padded(s, decimals);
    PaddedDigits(s, decimals);
    whole, fraction := p[..|p| - decimals], p[|p| - decimals..];
    assert p == whole + fraction;
    assert AllDigits(whole) && AllDigits(fraction) by { hide Padded; }
    assert whole[0] == p[0];
    assert decimals == 0 ==> whole == p && fraction == [];
    hide AllDigits;
    hide Padded;
  }

  lemma PaddedDigits(s: string, decimals: nat)
    requires AllDigits(s) && s != [] && (s[0] == '0' ==> |s| == 1)
    ensures var p := Padded(s, decimals);
            && |p| > decimals && AllDigits(p) && ParseNat(p) == ParseNat(s)
            && (p[0] == '0' ==> |p| == decimals + 1) && (decimals == 0 ==> p == s)
  {
    hide ParseNat;
    if decimals > 0 && |s| <= decimals { LeadingZeros(decimals - |s| + 1, s); }
  }

  lemma SignedUnits(t: string, m: int, decimals: nat)
    requires t != [] && t[0] != '-' && ParseMagnitude(t) == Some((m, decimals))
    ensures ParseUnits(t) == Some((m, decimals)) && ParseUnits(['-'] + t) == Some((-m, decimals))
  {
    assert (['-'] + t)[1..] == t;
  }

  lemma {:induction false} DigitsReadBack(s: string, decimals: nat)
    requires AllDigits(s) && s != [] && (s[0] == '0' ==> |s| == 1)
    ensures ParseUnits(PlacePoint(s, decimals)) == Some((0 + ParseNat(s), decimals))
    ensures ParseUnits(['-'] + PlacePoint(s, decimals)) == Some((0 - ParseNat(s), decimals))
  {
    hide ParseNat;
    hide ParseMagnitude;
    hide PlacePoint;
    var whole, fraction := PlacePointSplits(s, decimals);
    ParseMagnitudeOf(whole, fraction);
    assert PointText(whole, fraction)[0] == whole[0];
    hide PointText;
    hide ParseUnits;
    SignedUnits(PlacePoint(s, decimals), ParseNat(s), decimals);
  }

  /** Reading what the printer wrote gives back the amount and the number of decimals. */
  lemma {:induction false} FormatUnitsRoundTrip(wei: Option<int>, decimals: nat)
    ensures ParseUnits(FormatUnits(wei, decimals)) ==
            Some((if wei.Some? then wei.value else 0, decimals))
  {
    hide PlacePoint;
    hide ParseUnits;
    hide NatString;
    hide ParseNat;
    var w := if wei.Some? then wei.value else 0;
    var n: nat := if w < 0 then -w else w;
    NatStringReadsBack(n);
    DigitsReadBack(NatString(n), decimals);
  }

  /** Two amounts (and precisions) printed alike are equal. */
  lemma FormatUnitsInjective(a: int, d: nat, a': int, d': nat)
    requires FormatUnits(Some(a), d) == FormatUnits(Some(a'), d')
    ensures a == a' && d == d'
  {
    FormatUnitsRoundTrip(Some(a), d);
    FormatUnitsRoundTrip(Some(a'), d');
  }

  // ---------- identifiers ----------

  /** The id carried by a deposit message and echoed by its ACK; the auditor uses the same text. */
  function AckId(k: Key): string {
    IntString(k.chainId) + [':'] + k.txHash + [':'] + IntString(k.logIndex)
  }

  /** Different keys have different ids, whatever characters the hash is made of. */
  lemma AckIdInjective(k: Key, k': Key)
    requires AckId(k) == AckId(k')
    ensures k == k'
  {
    IntStringInjective(k.chainId, k'.chainId);
    IntStringInjective(k'.chainId, k.chainId);
    IntStringInjective(k.logIndex, k'.logIndex);
    IntStringInjective(k'.logIndex, k.logIndex);
    var rest := k.txHash + [':'] + IntString(k.logIndex);
    var rest' := k'.txHash + [':'] + IntString(k'.logIndex);
    assert AckId(k) == IntString(k.chainId) + [':'] + rest;
    assert AckId(k') == IntString(k'.chainId) + [':'] + rest';
    SplitAtFirst(':', IntString(k.chainId), rest, IntString(k'.chainId), rest');
    SplitAtLast(':', k.txHash, IntString(k.logIndex), k'.txHash, IntString(k'.logIndex));
  }

  lemma AckIdDistinct(k: Key, k': Key)
    requires k != k'
    ensures AckId(k) != AckId(k')
  {
    if AckId(k) == AckId(k') { AckIdInjective(k, k'); }
  }

  /** Read from the text: the chain before the first colon, the index after the last, the hash between. */
  ghost predicate ReadsAs(t: string, k: Key) {
    var i, j := IndexOf(t, ':'), LastIndexOf(t, ':');
    && i < j < |t| && IntText(t[..i]) && IntText(t[j + 1..])
    && ParseInt(t[..i]) == k.chainId && t[i + 1..j] == k.txHash && ParseInt(t[j + 1..]) == k.logIndex
  }

  lemma AckIdReadsBack(k: Key)
    ensures ReadsAs(AckId(k), k)
  {
    IntStringReadsBack(k.chainId);
    IntStringReadsBack(k.logIndex);
    var c, n := IntString(k.chainId), IntString(k.logIndex);
    hide IntString;
    hide ParseInt;
    hide IntText;
    var t := AckId(k);
    var before, after := c + [':'] + k.txHash, k.txHash + [':'] + n;
    assert t == before + [':'] + n;
    assert t == c + [':'] + after;
    IndexOfSplit(c, ':', after);
    LastIndexOfSplit(before, ':', n);
    assert t[..|c|] == c && t[|before| + 1..] == n && t[|c| + 1..|before|] == k.txHash;
  }

  // ---------- conversion ----------

  /** KST rendering of an RFC 3339 timestamp; None when the text does not parse. */
  type Clock = string -> Option<string>

  function ToDeposit(e: DepositEvent, minConfirmations: int, kst: Clock, now: string): Option<Deposit> {
    var time := kst(e.txTime);
    if time.None? then None
    else Some(Deposit(
                e.key, e.from, e.to, FormatUnits(e.amount, e.decimals), e.confirmations, e.symbol,
                if e.confirmations >= minConfirmations then Confirmed else Pending,
                time.value, now))
  }

  /** What the loop turns a scan into: unconvertible events are skipped, the rest keep their order.
      `now(i)` is the clock reading when the i-th event is converted. */
  function Converted(events: seq<DepositEvent>, minConfirmations: int, kst: Clock, now: nat -> string): seq<Deposit> {
    if events == [] then []
    else
      var last := |events| - 1;
      var d := ToDeposit(events[last], minConfirmations, kst, now(last));
      Converted(events[..last], minConfirmations, kst, now) + (if d.Some? then [d.value] else [])
  }

  /** The deposit says of the event, field by field, what the Adapter is told. */
  ghost predicate Renders(d: Deposit, e: DepositEvent, minConfirmations: int, kst: Clock, now: string) {
    && d.key == e.key && d.from == e.from && d.to == e.to && d.symbol == e.symbol
    && d.amount == FormatUnits(e.amount, e.decimals)
    && d.confirmCount == e.confirmations
    && (d.status == Confirmed <==> minConfirmations <= e.confirmations)
    && Some(d.txTime) == kst(e.txTime) && d.receivedAt == now
  }

  /** `out` renders exactly the events whose time parses, each once, in their order; `at` lists where. */
  ghost predicate RendersInOrder(events: seq<DepositEvent>, minConfirmations: int, kst: Clock, now: nat -> string,
                                 at: seq<nat>, out: seq<Deposit>) {
    && |at| == |out| && Increasing(at) && (forall j | 0 <= j < |at| :: at[j] < |events|)
    && (forall i | 0 <= i < |events| :: i in at <==> kst(events[i].txTime).Some?)
    && forall j | 0 <= j < |at| :: Renders(out[j], events[at[j]], minConfirmations, kst, now(at[j]))
  }

  method ConvertEvents(events: seq<DepositEvent>, minConfirmations: int, kst: Clock, now: nat -> string)
    returns (out: seq<Deposit>, ghost at: seq<nat>)
    ensures out == Converted(events, minConfirmations, kst, now)
    ensures RendersInOrder(events, minConfirmations, kst, now, at, out)
  {
    out := [];
    for i := 0 to |events|
      invariant out == Converted(events[..i], minConfirmations, kst, now)
    {
      var d := ToDeposit(events[i], minConfirmations, kst, now(i));
      assert events[..i + 1][..i] == events[..i];
      if d.Some? {
        out := out + [d.value];
      }
    }
    assert events[..|events|] == events;
    at := ConvertedInOrder(events, minConfirmations, kst, now);
  }

  lemma {:induction false} ConvertedInOrder(
    events: seq<DepositEvent>, minConfirmations: int, kst: Clock, now: nat -> string)
    returns (at: seq<nat>)
    ensures RendersInOrder(events, minConfirmations, kst, now, at, Converted(events, minConfirmations, kst, now))
  {
    if events == [] { return []; }
    var last := |events| - 1;
    at := ConvertedInOrder(events[..last], minConfirmations, kst, now);
    var out := Converted(events[..last], minConfirmations, kst, now);
    var d := ToDeposit(events[last], minConfirmations, kst, now(last));
    ToDepositRenders(events[last], minConfirmations, kst, now(last));
    assert Converted(events, minConfirmations, kst, now) == if d.Some? then out + [d.value] else out;
    hide Converted;
    hide ToDeposit;
    at := RendersOneMore(events, minConfirmations, kst, now, at, out, d);
  }

  lemma ToDepositRenders(e: DepositEvent, minConfirmations: int, kst: Clock, now: string)
    ensures var d := ToDeposit(e, minConfirmations, kst, now);
            (d.Some? <==> kst(e.txTime).Some?) && (d.Some? ==> Renders(d.value, e, minConfirmations, kst, now))
  {
    hide FormatUnits;
  }

  lemma OnePositionMore(at: seq<nat>, last: nat)
    requires Increasing(at) && forall j | 0 <= j < |at| :: at[j] < last
    ensures Increasing(at + [last]) && last !in at && forall i :: i in at + [last] <==> i in at || i == last
  {
  }

  lemma RendersOneMore(events: seq<DepositEvent>, minConfirmations: int, kst: Clock, now: nat -> string,
                       at: seq<nat>, out: seq<Deposit>, d: Option<Deposit>)
    returns (at': seq<nat>)
    requires events != []
    requires RendersInOrder(events[..|events| - 1], minConfirmations, kst, now, at, out)
    requires var last := |events| - 1;
             && (d.Some? <==> kst(events[last].txTime).Some?)
             && (d.Some? ==> Renders(d.value, events[last], minConfirmations, kst, now(last)))
    ensures RendersInOrder(events, minConfirmations, kst, now, at', if d.Some? then out + [d.value] else out)
  {
    hide Renders;
    var last := |events| - 1;
    var init := events[..last];
    var out' := if d.Some? then out + [d.value] else out;
    at' := if d.Some? then at + [last] else at;
    OnePositionMore(at, last);
    forall i | 0 <= i < |events| ensures i in at' <==> kst(events[i].txTime).Some? {
      assert i < last ==> init[i] == events[i];
      assert last !in at;
    }
    forall j | 0 <= j < |at'|
      ensures at'[j] < |events| && Renders(out'[j], events[at'[j]], minConfirmations, kst, now(at'[j]))
    {
      if j < |at| { assert init[at[j]] == events[at[j]] && out'[j] == out[j]; }
    }
  }

  /** The part of a deposit that the chain determines: everything but the number of
      confirmations at scan time and the wall-clock stamp. */
  function Core(d: Deposit): Deposit {
    d.(confirmCount := 0, receivedAt := "")
  }

  /** The core that an event converts to once it has its confirmations; None when it is unconvertible. */
  function ExpectedCore(e: DepositEvent, kst: Clock): Option<Deposit> {
    ToDeposit(e.(confirmations := 0), 0, kst, "")
  }

  /** Each deposit comes from an event of the scan with the same key, confirmations and core. */
  lemma {:induction false} ConvertedFrom(
    events: seq<DepositEvent>, minConfirmations: int, kst: Clock, now: nat -> string, d: Deposit)
    returns (i: nat)
    requires forall e | e in events :: e.confirmations >= minConfirmations
    requires d in Converted(events, minConfirmations, kst, now)
    ensures i < |events| && d.key == events[i].key && d.confirmCount == events[i].confirmations
    ensures ExpectedCore(events[i], kst) == Some(Core(d))
  {
    var last := |events| - 1;
    var init := Converted(events[..last], minConfirmations, kst, now);
    if d in init {
      i := ConvertedFrom(events[..last], minConfirmations, kst, now, d);
    } else {
      i := last;
      assert events[last] in events;
    }
  }

  /** Each convertible event yields a deposit with its core. */
  lemma {:induction false} ConvertedKeeps(
    events: seq<DepositEvent>, minConfirmations: int, kst: Clock, now: nat -> string, i: nat)
    returns (d: Deposit)
    requires forall e | e in events :: e.confirmations >= minConfirmations
    requires i < |events| && ExpectedCore(events[i], kst).Some?
    ensures d in Converted(events, minConfirmations, kst, now) && Core(d) == ExpectedCore(events[i], kst).value
  {
    var last := |events| - 1;
    if i < last {
      d := ConvertedKeeps(events[..last], minConfirmations, kst, now, i);
    } else {
      d := ToDeposit(events[last], minConfirmations, kst, now(last)).value;
      assert events[last] in events;
    }
  }
}
