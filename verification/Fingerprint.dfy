/** The token-configuration fingerprint (internal/database/config_repo.go): the text that is hashed to
    decide whether a chain must be reloaded. */
module Fingerprint {
  import opened Decimal

  datatype Token = Token(address: string, symbol: string, decimals: int)

  // ---------- byte-wise string order ----------

  predicate Less(a: string, b: string) {
    b != [] && (a == [] || a[0] < b[0] || (a[0] == b[0] && Less(a[1..], b[1..])))
  }

  /** `a` stops or has the smaller character where the two first differ. */
  ghost predicate SmallerAt(a: string, b: string, p: nat) {
    && p <= |a| && p < |b| && (forall i | 0 <= i < p :: a[i] == b[i]) && (p == |a| || a[p] < b[p])
  }

  lemma SmallerShifts(a: string, b: string, p: nat)
    requires a != [] && b != [] && a[0] == b[0]
    ensures SmallerAt(a, b, p + 1) <==> SmallerAt(a[1..], b[1..], p)
    ensures !SmallerAt(a, b, 0)
  {
    assert forall i | 0 < i < |a| :: a[i] == a[1..][i - 1];
    assert forall i | 0 < i < |b| :: b[i] == b[1..][i - 1];
    if SmallerAt(a, b, p + 1) {
      forall i | 0 <= i < p ensures a[1..][i] == b[1..][i] {
        assert a[i + 1] == b[i + 1];
      }
    }
  }

  lemma {:induction false} LessMeans(a: string, b: string)
    ensures Less(a, b) <==> exists p: nat :: SmallerAt(a, b, p)
  {
    if a == [] || b == [] || a[0] != b[0] {
      assert Less(a, b) ==> SmallerAt(a, b, 0);
    } else {
      LessMeans(a[1..], b[1..]);
      if exists p: nat :: SmallerAt(a[1..], b[1..], p) {
        var p: nat :| SmallerAt(a[1..], b[1..], p);
        SmallerShifts(a, b, p);
      }
      if exists p: nat :: SmallerAt(a, b, p) {
        var p: nat :| SmallerAt(a, b, p);
        SmallerShifts(a, b, if p > 0 then p - 1 else 0);
      }
    }
  }

  lemma {:induction false} LessIsStrict(a: string, b: string)
    ensures !(Less(a, b) && Less(b, a))
    ensures a != b ==> Less(a, b) || Less(b, a)
  {
    if a != [] && b != [] {
      LessIsStrict(a[1..], b[1..]);
      assert a == [a[0]] + a[1..] && b == [b[0]] + b[1..];
    }
  }

  lemma {:induction false} LessIsTransitive(a: string, b: string, c: string)
    requires !Less(b, a) && !Less(c, b)
    ensures !Less(c, a)
  {
    if a != [] && b != [] && c != [] && a[0] == b[0] == c[0] {
      LessIsTransitive(a[1..], b[1..], c[1..]);
    }
  }

  // ---------- the code ----------

  /** What sort.Slice promises: every index once, addresses in order; ties may come in any order. */
  ghost predicate IsSorting(tokens: seq<Token>, idx: seq<nat>) {
    && InRange(tokens, idx)
    && (forall i | 0 <= i < |tokens| :: i in idx)
    && (forall p, q | 0 <= p < q < |idx| :: idx[p] != idx[q])
    && InOrder(tokens, idx)
  }

  predicate InRange(tokens: seq<Token>, idx: seq<nat>) { forall p | 0 <= p < |idx| :: idx[p] < |tokens| }

  ghost predicate InOrder(tokens: seq<Token>, idx: seq<nat>)
    requires InRange(tokens, idx)
  {
    forall p, q | 0 <= p < q < |idx| :: !Less(tokens[idx[q]].address, tokens[idx[p]].address)
  }

  /** Where index `i` belongs among indices already in order. */
  method Place(tokens: seq<Token>, idx: seq<nat>, i: nat) returns (p: nat)
    requires i < |tokens| && InRange(tokens, idx) && InOrder(tokens, idx)
    ensures p <= |idx|
    ensures forall q | 0 <= q < p :: !Less(tokens[i].address, tokens[idx[q]].address)
    ensures forall q | p <= q < |idx| :: !Less(tokens[idx[q]].address, tokens[i].address)
  {
    p := |idx|;
    while p > 0 && Less(tokens[i].address, tokens[idx[p - 1]].address)
      invariant 0 <= p <= |idx|
      invariant forall q | p <= q < |idx| :: !Less(tokens[idx[q]].address, tokens[i].address)
    {
      LessIsStrict(tokens[i].address, tokens[idx[p - 1]].address);
      p := p - 1;
    }
    if p > 0 {
      forall q | 0 <= q < p ensures !Less(tokens[i].address, tokens[idx[q]].address) {
        if q < p - 1 { LessIsTransitive(tokens[idx[q]].address, tokens[idx[p - 1]].address, tokens[i].address); }
      }
    }
  }

  /** The first `i` indices, each once, in order. */
  ghost predicate SortsFirst(tokens: seq<Token>, idx: seq<nat>, i: nat) {
    && i <= |tokens| && InRange(tokens, idx)
    && (forall p | 0 <= p < |idx| :: idx[p] < i)
    && (forall j | 0 <= j < i :: j in idx)
    && (forall p, q | 0 <= p < q < |idx| :: idx[p] != idx[q])
    && InOrder(tokens, idx)
  }

  lemma InsertedMembers(idx: seq<nat>, p: nat, i: nat)
    requires p <= |idx| && forall j | 0 <= j < i :: j in idx
    ensures forall j | 0 <= j <= i :: j in idx[..p] + [i] + idx[p..]
  {
    assert idx == idx[..p] + idx[p..];
    forall j | 0 <= j <= i ensures j in idx[..p] + [i] + idx[p..] {
      assert j < i ==> j in idx;
    }
  }

  /** Where the q-th entry of the longer listing comes from. */
  ghost predicate Inserts(idx: seq<nat>, idx': seq<nat>, p: nat, i: nat) {
    && p <= |idx| && |idx'| == |idx| + 1
    && idx'[p] == i
    && (forall q | 0 <= q < p :: idx'[q] == idx[q])
    && (forall q | p < q < |idx'| :: idx'[q] == idx[q - 1])
  }

  lemma InsertedPair(tokens: seq<Token>, idx: seq<nat>, idx': seq<nat>, p: nat, i: nat, q: nat, r: nat)
    requires SortsFirst(tokens, idx, i) && i < |tokens| && Inserts(idx, idx', p, i) && InRange(tokens, idx')
    requires forall q | 0 <= q < p :: !Less(tokens[i].address, tokens[idx[q]].address)
    requires forall q | p <= q < |idx| :: !Less(tokens[idx[q]].address, tokens[i].address)
    requires q < r < |idx'|
    ensures idx'[q] != idx'[r] && !Less(tokens[idx'[r]].address, tokens[idx'[q]].address)
  {
    hide Less;
    assert q > p ==> idx'[q] == idx[q - 1];
    assert r > p ==> idx'[r] == idx[r - 1];
  }

  lemma InsertedInOrder(tokens: seq<Token>, idx: seq<nat>, p: nat, i: nat)
    requires SortsFirst(tokens, idx, i) && i < |tokens| && p <= |idx|
    requires forall q | 0 <= q < p :: !Less(tokens[i].address, tokens[idx[q]].address)
    requires forall q | p <= q < |idx| :: !Less(tokens[idx[q]].address, tokens[i].address)
    ensures SortsFirst(tokens, idx[..p] + [i] + idx[p..], i + 1)
  {
    hide Less;
    InsertedMembers(idx, p, i);
    var idx' := idx[..p] + [i] + idx[p..];
    assert Inserts(idx, idx', p, i);
    InsertedRange(tokens, idx, idx', p, i);
    forall q, r | 0 <= q < r < |idx'|
      ensures idx'[q] != idx'[r] && !Less(tokens[idx'[r]].address, tokens[idx'[q]].address)
    {
      InsertedPair(tokens, idx, idx', p, i, q, r);
    }
    hide Inserts;
  }

  lemma InsertedRange(tokens: seq<Token>, idx: seq<nat>, idx': seq<nat>, p: nat, i: nat)
    requires i < |tokens| && Inserts(idx, idx', p, i) && forall q | 0 <= q < |idx| :: idx[q] < i
    ensures InRange(tokens, idx') && forall q | 0 <= q < |idx'| :: idx'[q] < i + 1
  {
    forall q | 0 <= q < |idx'| ensures idx'[q] <= i {
      assert q > p ==> idx'[q] == idx[q - 1];
    }
  }

  method SortIndices(tokens: seq<Token>) returns (idx: seq<nat>)
    ensures IsSorting(tokens, idx)
  {
    hide Less;
    idx := [];
    for i := 0 to |tokens|
      invariant SortsFirst(tokens, idx, i)
    {
      var p := Place(tokens, idx, i);
      InsertedInOrder(tokens, idx, p, i);
      hide SortsFirst;
      idx := idx[..p] + [i] + idx[p..];
    }
  }

  function Entry(t: Token): string { t.address + [':'] + t.symbol + [':'] + IntString(t.decimals) }

  function Entries(tokens: seq<Token>): string {
    if tokens == [] then [] else Entries(tokens[..|tokens| - 1]) + (['|'] + Entry(tokens[|tokens| - 1]))
  }

  function Picked(tokens: seq<Token>, idx: seq<nat>): seq<Token>
    requires InRange(tokens, idx)
  {
    seq(|idx|, p requires 0 <= p < |idx| => tokens[idx[p]])
  }

  function PreImage(native: string, tokens: seq<Token>): string { "native:" + native + Entries(tokens) }

  /** The hashed text lists the tokens by address, each once. */
  method Fingerprint(native: string, tokens: seq<Token>) returns (text: string)
    ensures exists idx :: IsSorting(tokens, idx) && text == PreImage(native, Picked(tokens, idx))
    ensures DistinctAddresses(tokens) ==>
              forall idx | IsSorting(tokens, idx) :: text == PreImage(native, Picked(tokens, idx))
  {
    hide Entry;
    hide IsSorting;
    var order := SortIndices(tokens);
    text := "native:" + native;
    SortingInRange(tokens, order);
    ghost var listed := Picked(tokens, order);
    for p := 0 to |order|
      invariant text == "native:" + native + Entries(listed[..p])
    {
      assert listed[..p + 1][..p] == listed[..p];
      text := text + (['|'] + Entry(tokens[order[p]]));
    }
    assert listed[..|order|] == listed;
    if DistinctAddresses(tokens) {
      forall idx | IsSorting(tokens, idx)
        ensures InRange(tokens, idx) && text == PreImage(native, Picked(tokens, idx))
      {
        SortingInRange(tokens, idx);
        OrderDoesNotShow(native, tokens, order, tokens, idx);
      }
    }
  }

  lemma SortingInRange(tokens: seq<Token>, idx: seq<nat>)
    requires IsSorting(tokens, idx)
    ensures InRange(tokens, idx)
  {
  }

  // ---------- the order of the rows does not matter ----------

  ghost predicate DistinctAddresses(tokens: seq<Token>) {
    forall i, j | 0 <= i < j < |tokens| :: tokens[i].address != tokens[j].address
  }

  ghost predicate Increasing(tokens: seq<Token>) {
    forall i, j | 0 <= i < j < |tokens| :: Less(tokens[i].address, tokens[j].address)
  }

  lemma PickedIncreasing(tokens: seq<Token>, idx: seq<nat>)
    requires DistinctAddresses(tokens) && IsSorting(tokens, idx)
    ensures Increasing(Picked(tokens, idx))
    ensures forall t :: t in Picked(tokens, idx) <==> t in tokens
  {
    var listed := Picked(tokens, idx);
    forall p, q | 0 <= p < q < |listed| ensures Less(listed[p].address, listed[q].address) {
      assert idx[p] < idx[q] || idx[q] < idx[p];
      assert listed[p].address != listed[q].address;
      LessIsStrict(listed[p].address, listed[q].address);
    }
    forall t | t in tokens ensures t in listed {
      var i :| 0 <= i < |tokens| && tokens[i] == t;
      assert i in idx;
      var p :| 0 <= p < |idx| && idx[p] == i;
      assert listed[p] == t;
    }
    forall t | t in listed ensures t in tokens {
      var p :| 0 <= p < |idx| && listed[p] == t;
    }
  }

  /** An increasing listing is determined by its members. */
  lemma {:induction false} IncreasingUnique(a: seq<Token>, b: seq<Token>)
    requires Increasing(a) && Increasing(b) && forall t :: t in a <==> t in b
    ensures a == b
  {
    if a != [] {
      assert a[0] in b;
      assert b[0] in a;
      SameHead(a, b);
      var a', b' := a[1..], b[1..];
      forall t ensures t in a' <==> t in b' {
        TailMembers(a, t);
        TailMembers(b, t);
      }
      IncreasingUnique(a', b');
      assert a == [a[0]] + a' && b == [b[0]] + b';
    } else {
      HasMember(b);
    }
  }

  lemma HasMember(b: seq<Token>)
    ensures b == [] || exists t :: t in b
  {
    if b != [] { assert b[0] in b; }
  }

  lemma SameHead(a: seq<Token>, b: seq<Token>)
    requires Increasing(a) && Increasing(b) && a != [] && b != [] && a[0] in b && b[0] in a
    ensures a[0] == b[0]
  {
    HeadIsLeast(a, b[0]);
    HeadIsLeast(b, a[0]);
    LessIsStrict(a[0].address, b[0].address);
  }

  lemma HeadIsLeast(a: seq<Token>, t: Token)
    requires Increasing(a) && t in a
    ensures t == a[0] || Less(a[0].address, t.address)
  {
    var i :| 0 <= i < |a| && a[i] == t;
  }

  lemma TailMembers(a: seq<Token>, t: Token)
    requires Increasing(a) && a != []
    ensures t in a[1..] <==> t in a && t != a[0]
  {
    LessIsStrict(a[0].address, a[0].address);
    assert forall i | 0 < i < |a| :: a[i] == a[1..][i - 1] && Less(a[0].address, a[i].address);
    assert a == [a[0]] + a[1..];
  }

  /** For distinct addresses neither the order of the rows nor the tie-breaking of the sort shows. */
  lemma OrderDoesNotShow(native: string, tokens: seq<Token>, idx: seq<nat>, tokens': seq<Token>, idx': seq<nat>)
    requires DistinctAddresses(tokens) && DistinctAddresses(tokens')
    requires forall t :: t in tokens <==> t in tokens'
    requires IsSorting(tokens, idx) && IsSorting(tokens', idx')
    ensures PreImage(native, Picked(tokens, idx)) == PreImage(native, Picked(tokens', idx'))
  {
    PickedIncreasing(tokens, idx);
    PickedIncreasing(tokens', idx');
    IncreasingUnique(Picked(tokens, idx), Picked(tokens', idx'));
  }

  /** The shape of the text: the native symbol, then for each token a bar and its address, symbol and
      decimals with colons between. */
  lemma TextShape(native: string, tokens: seq<Token>, t: Token)
    ensures PreImage(native, []) == "native:" + native
    ensures PreImage(native, tokens + [t]) ==
            PreImage(native, tokens) + "|" + t.address + ":" + t.symbol + ":" + IntString(t.decimals)
  {
    var all := tokens + [t];
    assert all[..|all| - 1] == tokens;
    assert PreImage(native, all) == "native:" + native + (Entries(tokens) + (['|'] + Entry(t)));
    Spelled("native:" + native, Entries(tokens), t.address, t.symbol, IntString(t.decimals));
    hide IntString;
    hide Entries;
  }

  lemma Spelled(n: string, e: string, a: string, s: string, x: string)
    ensures n + (e + (['|'] + (a + [':'] + s + [':'] + x))) == n + e + "|" + a + ":" + s + ":" + x
  {
  }

  // ---------- the text determines the configuration ----------

  /** No separator in the address, and not both in the symbol. */
  ghost predicate Clean(t: Token) {
    ':' !in t.address && '|' !in t.address && ('|' !in t.symbol || ':' !in t.symbol)
  }

  /** What follows an entry: nothing, or a bar. */
  ghost predicate BarLed(r: string) { r == [] || r[0] == '|' }

  lemma FirstBar(d: string, r: string)
    requires '|' !in d && BarLed(r)
    ensures IndexOf(d + r, '|') == |d|
  {
    IndexOfSplit(d, '|', if r == [] then [] else r[1..]);
    assert d + r == if r == [] then d else d + ['|'] + r[1..];
  }

  /** The first bar ends a bar-free text. */
  lemma CutAtBar(d: string, r: string, d': string, r': string)
    requires '|' !in d && '|' !in d' && BarLed(r) && BarLed(r') && d + r == d' + r'
    ensures d == d' && r == r'
  {
    FirstBar(d, r);
    FirstBar(d', r');
    assert d == (d + r)[..|d|] && d' == (d' + r')[..|d'|];
    assert r == (d + r)[|d|..] && r' == (d' + r')[|d'|..];
  }

  /** A text that is read both as a bar-free symbol with its decimals and with a bar in the symbol has a
      colon before that bar. */
  lemma ColonBeforeBar(s: string, d: string, r: string, s': string, rest': string)
    requires '|' !in s && '|' !in d && BarLed(r) && '|' in s'
    requires s + [':'] + d + r == s' + rest'
    ensures ':' in s'
  {
    var u := s + [':'] + d;
    FirstBar(u, r);
    var j := IndexOf(s', '|');
    IndexFound(s', '|');
    IndexOfSplit(s'[..j], '|', s'[j + 1..] + rest');
    assert s' + rest' == s'[..j] + ['|'] + (s'[j + 1..] + rest');
    assert (u + r)[|s|] == ':' && (s' + rest')[|s|] == s'[|s|];
  }

  lemma {:induction false} IndexFound(s: string, c: char)
    requires c in s
    ensures IndexOf(s, c) < |s| && s[IndexOf(s, c)] == c && c !in s[..IndexOf(s, c)]
  {
    if s[0] != c {
      IndexFound(s[1..], c);
      assert s == [s[0]] + s[1..];
      assert s[..IndexOf(s, c)] == [s[0]] + s[1..][..IndexOf(s[1..], c)];
    }
  }

  /** Symbol, decimals and what follows can be told apart. */
  lemma SymbolEnds(s: string, d: int, r: string, s': string, d': int, r': string)
    requires ('|' !in s || ':' !in s) && ('|' !in s' || ':' !in s') && BarLed(r) && BarLed(r')
    requires s + [':'] + IntString(d) + r == s' + [':'] + IntString(d') + r'
    ensures s == s' && d == d' && r == r'
  {
    IntStringInjective(d, d');
    IntStringInjective(d', d);
    var x, x' := IntString(d), IntString(d');
    hide IntString;
    assert s' + [':'] + x' + r' == s' + ([':'] + x' + r') && s + [':'] + x + r == s + ([':'] + x + r);
    if '|' !in s && '|' !in s' {
      CutAtBar(s + [':'] + x, r, s' + [':'] + x', r');
      SplitAtLast(':', s, x, s', x');
    } else if ':' !in s && ':' !in s' {
      assert s + [':'] + x + r == s + [':'] + (x + r) && s' + [':'] + x' + r' == s' + [':'] + (x' + r');
      SplitAtFirst(':', s, x + r, s', x' + r');
      CutAtBar(x, r, x', r');
    } else {
      if '|' !in s {
        ColonBeforeBar(s, x, r, s', [':'] + x' + r');
      } else {
        ColonBeforeBar(s', x', r', s, [':'] + x + r);
      }
      assert false;
    }
  }

  lemma EntryEnds(t: Token, r: string, t': Token, r': string)
    requires Clean(t) && Clean(t') && BarLed(r) && BarLed(r') && Entry(t) + r == Entry(t') + r'
    ensures t == t' && r == r'
  {
    var x, x' := IntString(t.decimals), IntString(t'.decimals);
    assert Entry(t) + r == t.address + [':'] + (t.symbol + [':'] + x + r);
    assert Entry(t') + r' == t'.address + [':'] + (t'.symbol + [':'] + x' + r');
    hide IntString;
    SplitAtFirst(':', t.address, t.symbol + [':'] + x + r, t'.address, t'.symbol + [':'] + x' + r');
    SymbolEnds(t.symbol, t.decimals, r, t'.symbol, t'.decimals, r');
  }

  lemma {:induction false} EntriesConcat(a: seq<Token>, b: seq<Token>)
    ensures Entries(a + b) == Entries(a) + Entries(b)
  {
    if b == [] {
      assert a + b == a;
    } else {
      var last := |b| - 1;
      assert (a + b)[..|a + b| - 1] == a + b[..last];
      EntriesLast(a + b);
      EntriesLast(b);
      hide Entries;
      hide Entry;
      EntriesConcat(a, b[..last]);
      Group(Entries(a), Entries(b[..last]), ['|'] + Entry(b[last]));
    }
  }

  lemma EntriesLast(a: seq<Token>)
    requires a != []
    ensures Entries(a) == Entries(a[..|a| - 1]) + (['|'] + Entry(a[|a| - 1]))
  {
    hide Entry;
  }

  lemma EntriesOne(t: Token)
    ensures Entries([t]) == ['|'] + Entry(t)
  {
    hide Entry;
    assert [t][..0] == [];
  }

  lemma Group(x: string, y: string, z: string)
    ensures (x + y) + z == x + (y + z)
  {
  }

  lemma EntriesFirst(a: seq<Token>)
    requires a != []
    ensures Entries(a) == ['|'] + (Entry(a[0]) + Entries(a[1..]))
  {
    hide *;
    assert a == [a[0]] + a[1..];
    EntriesConcat([a[0]], a[1..]);
    EntriesOne(a[0]);
    Group(['|'], Entry(a[0]), Entries(a[1..]));
  }

  lemma EntriesBarLed(a: seq<Token>)
    ensures BarLed(Entries(a)) && (Entries(a) == [] <==> a == [])
  {
    if a != [] { EntriesFirst(a); }
  }

  lemma {:induction false} ListingInjective(a: seq<Token>, b: seq<Token>)
    requires (forall t | t in a :: Clean(t)) && (forall t | t in b :: Clean(t)) && Entries(a) == Entries(b)
    ensures a == b
    decreases |a|
  {
    hide *;
    EntriesBarLed(a);
    EntriesBarLed(b);
    if a != [] {
      EntriesFirst(a);
      EntriesFirst(b);
      EntriesBarLed(a[1..]);
      EntriesBarLed(b[1..]);
      AfterBar(Entry(a[0]) + Entries(a[1..]), Entry(b[0]) + Entries(b[1..]));
      EntryEnds(a[0], Entries(a[1..]), b[0], Entries(b[1..]));
      ListingInjective(a[1..], b[1..]);
      assert a == [a[0]] + a[1..] && b == [b[0]] + b[1..];
    }
  }

  lemma AfterBar(x: string, y: string)
    requires ['|'] + x == ['|'] + y
    ensures x == y
  {
    assert x == (['|'] + x)[1..] && y == (['|'] + y)[1..];
  }

  lemma EntriesInjective(n: string, a: seq<Token>, n': string, b: seq<Token>)
    requires '|' !in n && '|' !in n' && (forall t | t in a :: Clean(t)) && (forall t | t in b :: Clean(t))
    requires n + Entries(a) == n' + Entries(b)
    ensures n == n' && a == b
  {
    EntriesBarLed(a);
    EntriesBarLed(b);
    CutAtBar(n, Entries(a), n', Entries(b));
    ListingInjective(a, b);
  }

  /** Two configurations with distinct addresses, bar-free native symbols and clean tokens are given the
      same text if and only if they have the same native symbol and the same tokens, whatever orders
      the rows come in and the sorts choose. */
  lemma TextIsCanonical(native: string, tokens: seq<Token>, idx: seq<nat>, native': string, tokens': seq<Token>,
                        idx': seq<nat>)
    requires DistinctAddresses(tokens) && DistinctAddresses(tokens')
    requires IsSorting(tokens, idx) && IsSorting(tokens', idx')
    requires '|' !in native && '|' !in native'
    requires (forall t | t in tokens :: Clean(t)) && (forall t | t in tokens' :: Clean(t))
    ensures PreImage(native, Picked(tokens, idx)) == PreImage(native', Picked(tokens', idx')) <==>
            native == native' && forall t :: t in tokens <==> t in tokens'
  {
    var listed, listed' := Picked(tokens, idx), Picked(tokens', idx');
    PickedIncreasing(tokens, idx);
    PickedIncreasing(tokens', idx');
    if PreImage(native, listed) == PreImage(native', listed') {
      EntriesInjective("native:" + native, listed, "native:" + native', listed');
      assert native == ("native:" + native)[7..] && native' == ("native:" + native')[7..];
    } else if forall t :: t in tokens <==> t in tokens' {
      IncreasingUnique(listed, listed');
    }
  }

  /** A token whose symbol spells the end of one entry and the start of the next. */
  function Glued(t: Token, t': Token): Token {
    Token(t.address, t.symbol + [':'] + IntString(t.decimals) + ['|'] + t'.address + [':'] + t'.symbol, t'.decimals)
  }

  lemma GlueText(a: string, s: string, x: string, a': string, s': string, x': string)
    ensures a + [':'] + (s + [':'] + x + ['|'] + a' + [':'] + s') + [':'] + x' ==
            (a + [':'] + s + [':'] + x) + (['|'] + (a' + [':'] + s' + [':'] + x'))
    ensures ':' in s + [':'] + x + ['|'] + a' + [':'] + s' && '|' in s + [':'] + x + ['|'] + a' + [':'] + s'
  {
    var m := s + [':'] + x + ['|'] + a' + [':'] + s';
    assert m[|s|] == ':' && m[|s| + 1 + |x|] == '|';
  }

  /** With both separators in a symbol it fails: any two tokens share their text with one. */
  lemma GluedCollides(native: string, t: Token, t': Token)
    ensures PreImage(native, [t, t']) == PreImage(native, [Glued(t, t')]) && !Clean(Glued(t, t'))
  {
    GlueText(t.address, t.symbol, IntString(t.decimals), t'.address, t'.symbol, IntString(t'.decimals));
    assert Entry(Glued(t, t')) == Entry(t) + (['|'] + Entry(t'));
    hide Entry;
    hide Entries;
    hide Glued;
    assert [t, t'] == [t] + [t'];
    EntriesConcat([t], [t']);
    EntriesOne(t);
    EntriesOne(t');
    EntriesOne(Glued(t, t'));
    Group(['|'], Entry(t), ['|'] + Entry(t'));
  }

  /** A native symbol that spells entries collides with listing them. */
  lemma NativeCollides(native: string, a: seq<Token>, b: seq<Token>)
    ensures PreImage(native + Entries(a), b) == PreImage(native, a + b)
  {
    EntriesConcat(a, b);
    hide Entries;
    var n := "native:";
    assert n + (native + Entries(a)) + Entries(b) == n + native + (Entries(a) + Entries(b));
  }

  // ---------- ties ----------

  /** Exchanging two indices of one address is again a result the sort allows. */
  lemma SwappedSorting(tokens: seq<Token>, idx: seq<nat>, p: nat, q: nat) returns (idx': seq<nat>)
    requires IsSorting(tokens, idx) && p < q < |idx| && tokens[idx[p]].address == tokens[idx[q]].address
    ensures idx' == idx[p := idx[q]][q := idx[p]] && IsSorting(tokens, idx')
  {
    hide Less;
    idx' := idx[p := idx[q]][q := idx[p]];
    assert idx'[p] == idx[q] && idx'[q] == idx[p];
    forall i | 0 <= i < |tokens| ensures i in idx' {
      assert i in idx;
      var r :| 0 <= r < |idx| && idx[r] == i;
      assert r != p && r != q ==> idx'[r] == i;
    }
    assert forall r | 0 <= r < |idx| :: tokens[idx'[r]].address == tokens[idx[r]].address;
  }

  /** For clean tokens that are pairwise different, the text is independent of how the sort breaks ties if
      and only if no two share an address. */
  lemma TiesShow(native: string, tokens: seq<Token>, idx: seq<nat>)
    requires (forall t | t in tokens :: Clean(t)) && (forall i, j | 0 <= i < j < |tokens| :: tokens[i] != tokens[j])
    requires IsSorting(tokens, idx)
    ensures DistinctAddresses(tokens) <==>
            forall idx' | IsSorting(tokens, idx') ::
              PreImage(native, Picked(tokens, idx')) == PreImage(native, Picked(tokens, idx))
  {
    hide Clean;
    if DistinctAddresses(tokens) {
      forall idx' | IsSorting(tokens, idx')
        ensures PreImage(native, Picked(tokens, idx')) == PreImage(native, Picked(tokens, idx))
      {
        OrderDoesNotShow(native, tokens, idx, tokens, idx');
      }
    } else {
      var i, j :| 0 <= i < j < |tokens| && tokens[i].address == tokens[j].address;
      var idx' := OtherSorting(tokens, idx, i, j);
      DifferentTexts(native, tokens, idx, idx');
    }
  }

  lemma OtherSorting(tokens: seq<Token>, idx: seq<nat>, i: nat, j: nat) returns (idx': seq<nat>)
    requires IsSorting(tokens, idx) && i < j < |tokens|
    requires tokens[i].address == tokens[j].address && tokens[i] != tokens[j]
    ensures IsSorting(tokens, idx') && Picked(tokens, idx') != Picked(tokens, idx)
  {
    assert i in idx && j in idx;
    var p :| 0 <= p < |idx| && idx[p] == i;
    var q :| 0 <= q < |idx| && idx[q] == j;
    idx' := SwappedSorting(tokens, idx, if p < q then p else q, if p < q then q else p);
    assert Picked(tokens, idx')[p] == tokens[j] && Picked(tokens, idx)[p] == tokens[i];
  }

  lemma DifferentTexts(native: string, tokens: seq<Token>, idx: seq<nat>, idx': seq<nat>)
    requires (forall t | t in tokens :: Clean(t)) && IsSorting(tokens, idx) && IsSorting(tokens, idx')
    requires Picked(tokens, idx) != Picked(tokens, idx')
    ensures PreImage(native, Picked(tokens, idx)) != PreImage(native, Picked(tokens, idx'))
  {
    hide Clean;
    var a, b := Picked(tokens, idx), Picked(tokens, idx');
    assert forall t | t in a || t in b :: t in tokens;
    var n := "native:" + native;
    assert Entries(a) == (n + Entries(a))[|n|..] && Entries(b) == (n + Entries(b))[|n|..];
    if Entries(a) == Entries(b) { ListingInjective(a, b); }
  }
}
