/** Watched-account lookups, one by one and batched (internal/database/account_repo.go). */
module Accounts {

  function LowerChar(c: char): char {
    if 'A' <= c <= 'Z' then (c as int + 32) as char else c
  }

  function Lower(s: string): string {
    seq(|s|, i requires 0 <= i < |s| => LowerChar(s[i]))
  }

  /** A row of the Adapter's accounts table. */
  datatype Account = Account(chainId: int, address: string)

  /** The single lookup: chain-scoped and case-insensitive. */
  predicate Has(table: seq<Account>, chain: int, address: string) {
    exists i | 0 <= i < |table| :: table[i].chainId == chain && Lower(table[i].address) == Lower(address)
  }

  /** SELECT lower(address) ... WHERE chain_id = $1 AND lower(address) = ANY($2). */
  function Select(table: seq<Account>, chain: int, wanted: seq<string>): seq<string> {
    if table == [] then []
    else
      var last := |table| - 1;
      var a := Lower(table[last].address);
      Select(table[..last], chain, wanted) + (if table[last].chainId == chain && a in wanted then [a] else [])
  }

  lemma {:induction false} SelectMembers(table: seq<Account>, chain: int, wanted: seq<string>)
    ensures forall a :: a in Select(table, chain, wanted) <==>
                        a in wanted && exists i | 0 <= i < |table| ::
                            table[i].chainId == chain && Lower(table[i].address) == a
  {
    if table != [] {
      var last := |table| - 1;
      SelectMembers(table[..last], chain, wanted);
      assert forall i | 0 <= i < last :: table[..last][i] == table[i];
    }
  }

  // ---------- case-insensitivity ----------

  const UPPER: string := "ABCDEFGHIJKLMNOPQRSTUVWXYZ"
  const LOWER: string := "abcdefghijklmnopqrstuvwxyz"

  /** The same character, or the same letter of the alphabet in either case. */
  ghost predicate SameLetter(a: char, b: char) {
    a == b || exists j | 0 <= j < 26 :: a in [UPPER[j], LOWER[j]] && b in [UPPER[j], LOWER[j]]
  }

  ghost predicate SameButCase(a: string, b: string) {
    |a| == |b| && forall i | 0 <= i < |a| :: SameLetter(a[i], b[i])
  }

  lemma LowerOfLetter(j: nat)
    requires j < 26
    ensures LowerChar(UPPER[j]) == LOWER[j] == LowerChar(LOWER[j])
  {
    assert UPPER[j] as int == 'A' as int + j && LOWER[j] as int == 'a' as int + j;
  }

  lemma SameLetterLowers(a: char, b: char)
    requires SameLetter(a, b)
    ensures LowerChar(a) == LowerChar(b)
  {
    if a != b {
      var j :| 0 <= j < 26 && a in [UPPER[j], LOWER[j]] && b in [UPPER[j], LOWER[j]];
      LowerOfLetter(j);
      hide LowerChar;
    }
  }

  lemma LetterOf(c: char, j: nat)
    requires j < 26 && LowerChar(c) as int == 'a' as int + j
    ensures c in [UPPER[j], LOWER[j]]
  {
    assert UPPER[j] as int == 'A' as int + j && LOWER[j] as int == 'a' as int + j;
  }

  lemma LowerTellsLetters(a: char, b: char)
    ensures LowerChar(a) == LowerChar(b) <==> SameLetter(a, b)
  {
    if a != b && LowerChar(a) == LowerChar(b) {
      var j := LowerChar(a) as int - 'a' as int;
      LetterOf(a, j);
      LetterOf(b, j);
      hide UPPER;
      hide LOWER;
    } else if a != b && SameLetter(a, b) {
      SameLetterLowers(a, b);
    }
  }

  /** Lower-casing identifies exactly the texts that differ in the case of ASCII letters only. */
  lemma LowerIsCaseBlind(a: string, b: string)
    ensures Lower(a) == Lower(b) <==> SameButCase(a, b)
  {
    forall i | 0 <= i < |a| && i < |b| ensures LowerChar(a[i]) == LowerChar(b[i]) <==> SameLetter(a[i], b[i]) {
      LowerTellsLetters(a[i], b[i]);
    }
    hide LowerChar;
    hide SameLetter;
    if Lower(a) == Lower(b) {
      assert |Lower(a)| == |a| && |Lower(b)| == |b|;
      forall i | 0 <= i < |a| ensures SameLetter(a[i], b[i]) {
        assert Lower(a)[i] == Lower(b)[i];
      }
    }
  }

  lemma CapitalIsListed(c: char)
    ensures 'A' <= c <= 'Z' ==> c in UPPER
  {
    if 'A' <= c <= 'Z' { assert UPPER[c as int - 'A' as int] == c; }
  }

  /** A text without capital letters is its own lower case. */
  lemma LowerKeeps(a: string)
    requires forall c | c in a :: c !in UPPER
    ensures Lower(a) == a
  {
    forall i | 0 <= i < |a| ensures LowerChar(a[i]) == a[i] {
      assert a[i] in a;
      CapitalIsListed(a[i]);
    }
  }

  /** Some row of the chain has the address, whatever its case. */
  ghost predicate Listed(table: seq<Account>, chain: int, address: string) {
    exists i | 0 <= i < |table| :: table[i].chainId == chain && SameButCase(table[i].address, address)
  }

  /** The lookup finds an address if and only if a row of the chain has it, whatever the case of either. */
  lemma HasIsCaseBlind(table: seq<Account>, chain: int, address: string)
    ensures Has(table, chain, address) <==> Listed(table, chain, address)
  {
    forall i | 0 <= i < |table|
      ensures Lower(table[i].address) == Lower(address) <==> SameButCase(table[i].address, address)
    {
      LowerIsCaseBlind(table[i].address, address);
    }
    hide Lower;
    hide SameButCase;
  }

  lemma AllCaseBlind(table: seq<Account>, chain: int, addresses: seq<string>)
    ensures forall a | a in addresses :: Has(table, chain, a) <==> Listed(table, chain, a)
  {
    hide Has;
    hide Listed;
    forall a | a in addresses ensures Has(table, chain, a) <==> Listed(table, chain, a) {
      HasIsCaseBlind(table, chain, a);
    }
  }

  lemma LowerIdempotent(s: string)
    ensures Lower(Lower(s)) == Lower(s)
  {
  }

  /** The inputs in lower case, each once. */
  method Normalised(addresses: seq<string>) returns (seen: set<string>, lowered: seq<string>)
    ensures seen == set a | a in addresses :: Lower(a)
    ensures forall a :: a in lowered <==> a in seen
    ensures forall i, j | 0 <= i < j < |lowered| :: lowered[i] != lowered[j]
  {
    hide Lower;
    seen, lowered := {}, [];
    for i := 0 to |addresses|
      invariant seen == set a | a in addresses[..i] :: Lower(a)
      invariant forall a :: a in lowered <==> a in seen
      invariant forall i, j | 0 <= i < j < |lowered| :: lowered[i] != lowered[j]
    {
      var la := Lower(addresses[i]);
      assert addresses[..i + 1] == addresses[..i] + [addresses[i]];
      assert forall j | 0 <= j < |lowered| :: lowered[j] in lowered;
      if la !in seen {
        seen := seen + {la};
        lowered := lowered + [la];
      }
    }
    assert addresses[..|addresses|] == addresses;
  }

  /** Batched lookup: every input, normalised, is answered exactly as the single lookup would. */
  method HasMany(table: seq<Account>, chain: int, addresses: seq<string>, answers: bool)
    returns (ok: bool, found: map<string, bool>)
    ensures ok <==> addresses == [] || answers
    ensures ok ==> found.Keys == set a | a in addresses :: Lower(a)
    ensures ok ==> forall a | a in addresses :: Lower(a) in found && found[Lower(a)] == Has(table, chain, a)
    ensures ok ==> forall a | a in addresses :: Lower(a) in found && (found[Lower(a)] <==> Listed(table, chain, a))
  {
    hide *;
    if addresses == [] { return true, map[]; }
    var seen, lowered := Normalised(addresses);
    if !answers { return false, map[]; }
    ok := true;
    var rows := Select(table, chain, lowered);
    SelectWithin(table, chain, lowered);
    found := Mark(lowered, rows);
    AllCaseBlind(table, chain, addresses);
    forall a | a in addresses ensures Lower(a) in found && found[Lower(a)] == Has(table, chain, a) {
      assert Lower(a) in seen && Lower(a) in lowered;
      SelectAnswers(table, chain, lowered, a);
    }
  }

  /** First every input false, then every row of the answer true. */
  method Mark(lowered: seq<string>, rows: seq<string>) returns (found: map<string, bool>)
    requires forall a | a in rows :: a in lowered
    ensures found.Keys == set a | a in lowered
    ensures forall a | a in found :: found[a] <==> a in rows
  {
    found := map[];
    for i := 0 to |lowered|
      invariant found.Keys == set a | a in lowered[..i]
      invariant forall a | a in found :: !found[a]
    {
      found := found[lowered[i] := false];
    }
    assert lowered[..|lowered|] == lowered;
    for i := 0 to |rows|
      invariant found.Keys == set a | a in lowered
      invariant forall a | a in found :: found[a] <==> a in rows[..i]
    {
      assert rows[i] in rows;
      found := found[rows[i] := true];
    }
    assert rows[..|rows|] == rows;
  }

  lemma SelectWithin(table: seq<Account>, chain: int, wanted: seq<string>)
    ensures forall a | a in Select(table, chain, wanted) :: a in wanted
  {
    SelectMembers(table, chain, wanted);
  }

  /** The query answers for a lower-cased input as the single lookup would. */
  lemma SelectAnswers(table: seq<Account>, chain: int, wanted: seq<string>, a: string)
    requires Lower(a) in wanted
    ensures Lower(a) in Select(table, chain, wanted) <==> Has(table, chain, a)
  {
    SelectMembers(table, chain, wanted);
    hide Select;
    hide Lower;
  }
}
