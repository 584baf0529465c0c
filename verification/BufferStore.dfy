/** The durable store: the buffer table, the scan cursors and their transactions
    (internal/database/buffer_repo.go, migrations/0001_init.up.sql). */
module BufferStore {
  import opened Decimal
  import opened Deposits

  /** The two scanner names, 'log' and 'trace'. */
  datatype Kind = LogKind | TraceKind

  datatype Row = Row(deposit: Deposit, block: nat)

  /** A committed state of the database; rows stand in `id` order. */
  datatype Db = Db(rows: seq<Row>, cursors: Cursors)

  ghost predicate UniqueKeys(rows: seq<Row>) {
    forall i, j | 0 <= i < j < |rows| :: rows[i].deposit.key != rows[j].deposit.key
  }

  predicate HasKey(rows: seq<Row>, k: Key) {
    exists i | 0 <= i < |rows| :: rows[i].deposit.key == k
  }

  function Payloads(rows: seq<Row>): seq<Deposit> {
    seq(|rows|, i requires 0 <= i < |rows| => rows[i].deposit)
  }

  // ---------- the statements of the transactions ----------

  /** INSERT ... ON CONFLICT DO NOTHING. */
  function Insert(rows: seq<Row>, d: Deposit, block: nat): seq<Row> {
    if HasKey(rows, d.key) then rows else rows + [Row(d, block)]
  }

  function InsertAll(rows: seq<Row>, ds: seq<Deposit>, block: nat): seq<Row> {
    if ds == [] then rows
    else Insert(InsertAll(rows, ds[..|ds| - 1], block), ds[|ds| - 1], block)
  }

  function Saved(db: Db, chain: int, kind: Kind, block: nat, ds: seq<Deposit>): Db {
    Db(InsertAll(db.rows, ds, block), db.cursors[(chain, kind) := block])
  }

  /** DELETE of one key; the remaining rows keep their order. */
  function Delete(rows: seq<Row>, k: Key): seq<Row> {
    if rows == [] then []
    else
      var last := |rows| - 1;
      Delete(rows[..last], k) + (if rows[last].deposit.key == k then [] else [rows[last]])
  }

  type Cursors = map<(int, Kind), nat>

  function CursorOf(cursors: Cursors, chain: int, kind: Kind): nat {
    if (chain, kind) in cursors then cursors[(chain, kind)] else 0
  }

  /** ORDER BY id LIMIT n. */
  function Prefix(rows: seq<Row>, limit: nat): seq<Row> {
    if |rows| <= limit then rows else rows[..limit]
  }

  function InBlock(rows: seq<Row>, chain: int, block: nat): seq<Row> {
    if rows == [] then []
    else
      var last := |rows| - 1;
      InBlock(rows[..last], chain, block) +
      (if rows[last].deposit.key.chainId == chain && rows[last].block == block then [rows[last]] else [])
  }

  // ---------- what the statements guarantee ----------

  /** Saving a block loses no row, invents none, keeps keys unique, and afterwards every key of the
      batch is present, whether inserted now or already there. */
  lemma {:induction false} InsertAllKeepsAndAdds(rows: seq<Row>, ds: seq<Deposit>, block: nat)
    requires UniqueKeys(rows)
    ensures UniqueKeys(InsertAll(rows, ds, block))
    ensures rows <= InsertAll(rows, ds, block)
    ensures forall d | d in ds :: HasKey(InsertAll(rows, ds, block), d.key)
    ensures forall r | r in InsertAll(rows, ds, block) :: r in rows || (r.block == block && r.deposit in ds)
  {
    if ds != [] {
      var last := |ds| - 1;
      InsertAllKeepsAndAdds(rows, ds[..last], block);
      var mid := InsertAll(rows, ds[..last], block);
      var d := ds[last];
      var res := InsertAll(rows, ds, block);
      assert ds == ds[..last] + [d];
      assert mid <= res;
      if !HasKey(mid, d.key) {
        assert res[|mid|].deposit.key == d.key;
      }
      forall e | e in ds ensures HasKey(res, e.key) {
        if e != d {
          assert e in ds[..last];
          var i :| 0 <= i < |mid| && mid[i].deposit.key == e.key;
          assert res[i].deposit.key == e.key;
        }
      }
    }
  }

  /** The deposit at position `i` is stored: no row and no earlier deposit of the batch has its key. */
  ghost predicate IsNew(rows: seq<Row>, ds: seq<Deposit>, i: nat)
    requires i < |ds|
  {
    !HasKey(rows, ds[i].key) && forall j | 0 <= j < i :: ds[j].key != ds[i].key
  }

  /** The rows added are the new deposits of the batch, in the order of the batch. */
  ghost predicate Appended(rows: seq<Row>, ds: seq<Deposit>, block: nat, rows': seq<Row>, at: seq<nat>) {
    && |rows'| == |rows| + |at| && rows'[..|rows|] == rows
    && Increasing(at) && (forall j | 0 <= j < |at| :: at[j] < |ds|)
    && (forall i | 0 <= i < |ds| :: i in at <==> IsNew(rows, ds, i))
    && forall j | 0 <= j < |at| :: rows'[|rows| + j] == Row(ds[at[j]], block)
  }

  lemma {:induction false} InsertAllAppends(rows: seq<Row>, ds: seq<Deposit>, block: nat) returns (at: seq<nat>)
    ensures Appended(rows, ds, block, InsertAll(rows, ds, block), at)
  {
    if ds == [] { return []; }
    var last := |ds| - 1;
    var init := ds[..last];
    var mid := InsertAll(rows, init, block);
    at := InsertAllAppends(rows, init, block);
    MidHasKey(rows, init, block, mid, at, ds[last].key);
    assert forall i | 0 <= i < last :: IsNew(rows, ds, i) <==> IsNew(rows, init, i);
    hide InsertAll;
    if !HasKey(mid, ds[last].key) { at := at + [last]; }
  }

  /** A key is present after the first deposits if and only if a row or one of them has it. */
  lemma MidHasKey(rows: seq<Row>, ds: seq<Deposit>, block: nat, mid: seq<Row>, at: seq<nat>, k: Key)
    requires Appended(rows, ds, block, mid, at)
    ensures HasKey(mid, k) <==> HasKey(rows, k) || exists j | 0 <= j < |ds| :: ds[j].key == k
  {
    if HasKey(rows, k) {
      var i :| 0 <= i < |rows| && rows[i].deposit.key == k;
      assert mid[i] == rows[i];
    } else if exists j | 0 <= j < |ds| :: ds[j].key == k {
      var j := FirstWithKey(ds, k);
      assert IsNew(rows, ds, j) && j in at;
      var p :| 0 <= p < |at| && at[p] == j;
      assert mid[|rows| + p].deposit.key == k;
    } else {
      forall i | 0 <= i < |mid| ensures mid[i].deposit.key != k {
        assert i < |rows| ==> mid[i] == rows[i];
        assert i >= |rows| ==> mid[|rows| + (i - |rows|)] == Row(ds[at[i - |rows|]], block);
      }
    }
  }

  lemma {:induction false} FirstWithKey(ds: seq<Deposit>, k: Key) returns (j: nat)
    requires exists j | 0 <= j < |ds| :: ds[j].key == k
    ensures j < |ds| && ds[j].key == k && forall i | 0 <= i < j :: ds[i].key != k
  {
    if ds[0].key == k { return 0; }
    assert forall i | 0 < i < |ds| :: ds[1..][i - 1] == ds[i];
    j := FirstWithKey(ds[1..], k);
    j := j + 1;
  }

  /** Deleting a key removes exactly the rows with that key. */
  lemma {:induction false} DeleteRemovesOnlyKey(rows: seq<Row>, k: Key)
    ensures forall r :: r in Delete(rows, k) <==> r in rows && r.deposit.key != k
    ensures UniqueKeys(rows) ==> UniqueKeys(Delete(rows, k))
  {
    if rows != [] {
      var last := |rows| - 1;
      var init := rows[..last];
      DeleteRemovesOnlyKey(init, k);
      assert rows == init + [rows[last]];
      var rest := Delete(init, k);
      if UniqueKeys(rows) {
        forall i | 0 <= i < |rest| ensures rest[i].deposit.key != rows[last].deposit.key {
          assert rest[i] in rest;
          var j :| 0 <= j < |init| && init[j] == rest[i];
          assert rows[j] == rest[i];
        }
      }
    }
  }

  /** Deleting an absent key changes nothing; deleting a present one removes one row. */
  lemma {:induction false} DeleteSize(rows: seq<Row>, k: Key)
    requires UniqueKeys(rows)
    ensures !HasKey(rows, k) ==> Delete(rows, k) == rows
    ensures HasKey(rows, k) ==> |Delete(rows, k)| == |rows| - 1
  {
    if rows != [] {
      var last := |rows| - 1;
      DeleteSize(rows[..last], k);
      assert forall i | 0 <= i < last :: rows[..last][i] == rows[i];
    }
  }

  lemma {:induction false} InBlockMembers(rows: seq<Row>, chain: int, block: nat)
    ensures forall r :: r in InBlock(rows, chain, block) <==>
                        r in rows && r.deposit.key.chainId == chain && r.block == block
    ensures UniqueKeys(rows) ==> UniqueKeys(InBlock(rows, chain, block))
  {
    if rows != [] {
      var last := |rows| - 1;
      var init := rows[..last];
      InBlockMembers(init, chain, block);
      assert rows == init + [rows[last]];
      var rest := InBlock(init, chain, block);
      if UniqueKeys(rows) {
        forall i | 0 <= i < |rest| ensures rest[i].deposit.key != rows[last].deposit.key {
          assert rest[i] in rest;
          var j :| 0 <= j < |init| && init[j] == rest[i];
          assert rows[j] == rest[i];
        }
      }
    }
  }

  // ---------- the repository object ----------

  /** How the statements of a saving transaction fare. An error from COMMIT leaves open whether it was
      applied: it may commit and not report so. */
  datatype Fate = Fate(
    begins: bool, inserts: nat -> bool, upserts: bool, notifies: bool, commits: bool, reports: bool)

  /** A transaction that inserts `n` rows takes effect. */
  ghost predicate Takes(fate: Fate, n: nat) {
    && fate.begins && (forall i | 0 <= i < n :: fate.inserts(i))
    && fate.upserts && (n > 0 ==> fate.notifies) && fate.commits
  }

  /** Nothing goes wrong, however many rows there are. */
  ghost predicate Sound(fate: Fate) {
    && fate.begins && (forall i :: fate.inserts(i))
    && fate.upserts && fate.notifies && fate.commits && fate.reports
  }

  /** The repository. Whether a call succeeds is an input of the call; `ok == false` is any error it
      reports. A transaction is atomic. */
  class BufferRepo {
    var rows: seq<Row>
    var cursors: Cursors

    ghost predicate Valid() reads this { UniqueKeys(rows) }

    ghost function Contents(): Db reads this { Db(rows, cursors) }

    constructor ()
      ensures Valid() && Contents() == Db([], map[])
    {
      rows, cursors := [], map[];
    }

    /** One transaction: rows and cursor change together exactly when every statement and the COMMIT took
        effect, and no error is reported exactly when the COMMIT also said so. */
    method SaveAndAdvance(chain: int, kind: Kind, block: nat, deposits: seq<Deposit>, fate: Fate) returns (ok: bool)
      requires Valid()
      modifies this
      ensures Valid()
      ensures ok <==> Takes(fate, |deposits|) && fate.reports
      ensures Contents() ==
              if Takes(fate, |deposits|) then Saved(old(Contents()), chain, kind, block, deposits) else old(Contents())
    {
      if !fate.begins { return false; }
      var tx := rows;
      for i := 0 to |deposits|
        invariant rows == old(rows) && cursors == old(cursors) && forall j | 0 <= j < i :: fate.inserts(j)
        invariant tx == InsertAll(rows, deposits[..i], block)
      {
        if !fate.inserts(i) { return false; }
        assert deposits[..i + 1][..i] == deposits[..i];
        tx := Insert(tx, deposits[i], block);
      }
      assert deposits[..|deposits|] == deposits;
      InsertAllKeepsAndAdds(rows, deposits, block);
      if !fate.upserts { return false; }
      if |deposits| > 0 && !fate.notifies { return false; }
      if fate.commits {
        rows, cursors := tx, cursors[(chain, kind) := block];
      }
      return fate.commits && fate.reports;
    }

    /** The oldest rows in id order, as many as there are up to the limit. */
    method PendingAll(limit: nat, answers: bool) returns (ok: bool, pending: seq<Deposit>)
      ensures ok <==> answers
      ensures ok ==> |pending| == if |rows| <= limit then |rows| else limit
      ensures ok ==> forall i | 0 <= i < |pending| :: pending[i] == rows[i].deposit
      ensures ok ==> pending == Payloads(Prefix(rows, limit))
    {
      pending := [];
      if !answers { return false, pending; }
      while |pending| < |rows| && |pending| < limit
        invariant |pending| <= |rows| && |pending| <= limit
        invariant forall i | 0 <= i < |pending| :: pending[i] == rows[i].deposit
      {
        pending := pending + [rows[|pending|].deposit];
      }
      ok := true;
    }

    /** The rows of one chain filed under one block: all of them, no others, in id order. */
    method PendingInBlock(chain: int, block: nat, answers: bool) returns (ok: bool, pending: seq<Deposit>)
      ensures ok <==> answers
      ensures ok ==> pending == Payloads(InBlock(rows, chain, block))
      ensures ok ==> forall d :: d in pending <==>
                                 exists r | r in rows :: r.deposit == d && d.key.chainId == chain && r.block == block
    {
      pending := [];
      if !answers { return false, pending; }
      for i := 0 to |rows|
        invariant pending == Payloads(InBlock(rows[..i], chain, block))
      {
        InBlockStep(rows, i, chain, block);
        if rows[i].deposit.key.chainId == chain && rows[i].block == block {
          pending := pending + [rows[i].deposit];
        }
      }
      assert rows[..|rows|] == rows;
      InBlockPayloads(rows, chain, block);
      ok := true;
    }

    /** DELETE; when it executes but its report is lost the row is gone all the same. */
    method Ack(k: Key, executes: bool, reports: bool) returns (ok: bool)
      requires Valid()
      modifies this`rows
      ensures Valid()
      ensures ok <==> executes && reports
      ensures rows == if executes then Delete(old(rows), k) else old(rows)
    {
      DeleteRemovesOnlyKey(rows, k);
      if executes {
        rows := Delete(rows, k);
      }
      return executes && reports;
    }

    /** Zero stands for "no cursor yet". */
    method Cursor(chain: int, kind: Kind, answers: bool) returns (ok: bool, block: nat)
      ensures ok <==> answers
      ensures ok ==> block == CursorOf(cursors, chain, kind) == CursorOf(Contents().cursors, chain, kind)
    {
      ok := answers;
      block := if (chain, kind) in cursors then cursors[(chain, kind)] else 0;
    }
  }

  lemma InBlockStep(rows: seq<Row>, i: nat, chain: int, block: nat)
    requires i < |rows|
    ensures InBlock(rows[..i + 1], chain, block) ==
            InBlock(rows[..i], chain, block) +
            if rows[i].deposit.key.chainId == chain && rows[i].block == block then [rows[i]] else []
  {
    assert rows[..i + 1][..i] == rows[..i];
  }

  lemma InBlockPayloads(rows: seq<Row>, chain: int, block: nat)
    ensures forall d :: d in Payloads(InBlock(rows, chain, block)) <==>
                        exists r | r in rows :: r.deposit == d && d.key.chainId == chain && r.block == block
  {
    InBlockMembers(rows, chain, block);
    var found := InBlock(rows, chain, block);
    hide InBlock;
    forall d | exists r | r in rows :: r.deposit == d && d.key.chainId == chain && r.block == block
      ensures d in Payloads(found)
    {
      var r :| r in rows && r.deposit == d && d.key.chainId == chain && r.block == block;
      var i :| 0 <= i < |found| && found[i] == r;
      assert Payloads(found)[i] == d;
    }
    forall d | d in Payloads(found)
      ensures exists r | r in rows :: r.deposit == d && d.key.chainId == chain && r.block == block
    {
      var i :| 0 <= i < |found| && Payloads(found)[i] == d;
      assert found[i] in found;
    }
  }
}
