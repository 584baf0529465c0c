/** The polling loop of one (chain, scanner) goroutine (internal/scanner/loop.go), proved to take
    only steps of the Pipeline and to move the cursor one block at a time behind the confirmed head. */
module ScanLoop {
  import opened Decimal
  import opened Deposits
  import opened BufferStore
  import opened Pipeline

  /** Go's uint64 arithmetic. */
  function U64(x: int): nat { x % 0x1_0000_0000_0000_0000 }

  /** Sums of two block numbers and differences that stay positive do not wrap. */
  lemma Fits(x: int)
    requires 0 <= x <= 2 * MAX_BLOCK + 1
    ensures U64(x) == x
  {
  }

  /** Largest block number the BIGINT columns hold. */
  const MAX_BLOCK: nat := 0x7FFF_FFFF_FFFF_FFFF

  function Max(a: int, b: int): int { if a <= b then b else a }

  /** How the calls of one cycle fare: the head, None when BlockNumber fails; the cursor query; the scan
      and the saving transaction of each block; cancellation after each block; and the clock. */
  datatype Cycle = Cycle(
    head: Option<nat>, answers: bool, scans: nat -> bool, saves: nat -> Fate, cancels: nat -> bool, now: nat -> string)

  /** Something goes wrong at the block. */
  ghost predicate Trouble(cy: Cycle, block: nat) {
    !cy.scans(block) || !Sound(cy.saves(block)) || cy.cancels(block)
  }

  /** What a loop expects of its scanner: the events of the block in whatever order its goroutines
      finished, with the confirmations filled in. */
  ghost predicate IsScan(w: World, chain: int, kind: Kind, block: nat, confirmations: int,
                         events: seq<DepositEvent>, order: seq<DepositEvent>) {
    events == Stamp(order, confirmations) && multiset(order) == multiset(w.scan(chain, kind, block))
  }

  /** The injected scanner. */
  method ScanBlock(w: World, chain: int, kind: Kind, block: nat, confirmations: int, scans: nat -> bool)
    returns (ok: bool, events: seq<DepositEvent>, ghost order: seq<DepositEvent>)
    ensures ok <==> scans(block)
    ensures ok ==> IsScan(w, chain, kind, block, confirmations, events, order)
  {
    ok := scans(block);
    order := w.scan(chain, kind, block);
    events := Stamp(w.scan(chain, kind, block), confirmations);
  }

  /** What a cycle did to the cursor of a scanner that stood at `from`: one step per committed
      block, never over a block whose scan fails. */
  ghost predicate Stepped(before: Cursors, after: Cursors, chain: int, kind: Kind, from: nat, n: nat,
                          scans: nat -> bool) {
    && after == (if n == 0 then before else before[(chain, kind) := from + n])
    && forall b | from < b <= from + n :: scans(b)
  }

  lemma NotStepped(cursors: Cursors, chain: int, kind: Kind, from: nat, scans: nat -> bool)
    ensures Stepped(cursors, cursors, chain, kind, from, 0, scans)
  {
  }

  lemma StepOne(before: Cursors, after: Cursors, chain: int, kind: Kind, from: nat, n: nat, scans: nat -> bool)
    requires Stepped(before, after, chain, kind, from, n, scans) && scans(from + n + 1)
    ensures Stepped(before, after[(chain, kind) := from + n + 1], chain, kind, from, n + 1, scans)
  {
  }

  ghost predicate Reorders(a: seq<DepositEvent>, b: seq<DepositEvent>) { multiset(a) == multiset(b) }

  /** What the scan of one block at head `latest` converts to, in some order. */
  ghost predicate IsBatch(w: World, chain: int, kind: Kind, latest: nat, block: nat, now: nat -> string,
                          ds: seq<Deposit>) {
    exists order :: Reorders(order, w.scan(chain, kind, block)) &&
                    ds == Converted(Stamp(order, latest - block), w.minConf(chain), w.kst, now)
  }

  function SavedBlocks(rows: seq<Row>, from: nat, batches: seq<seq<Deposit>>): seq<Row> {
    if batches == [] then rows
    else
      var last := |batches| - 1;
      InsertAll(SavedBlocks(rows, from, batches[..last]), batches[last], from + |batches|)
  }

  /** What a cycle did to the buffer: the deposits of the blocks after `from`, block by block. */
  ghost predicate Stored(w: World, chain: int, kind: Kind, latest: nat, now: nat -> string,
                         before: seq<Row>, after: seq<Row>, from: nat, batches: seq<seq<Deposit>>) {
    && after == SavedBlocks(before, from, batches)
    && forall i | 0 <= i < |batches| :: IsBatch(w, chain, kind, latest, from + 1 + i, now, batches[i])
  }

  lemma StoredNone(w: World, chain: int, kind: Kind, latest: nat, now: nat -> string, rows: seq<Row>, from: nat)
    ensures Stored(w, chain, kind, latest, now, rows, rows, from, [])
  {
  }

  lemma StoredOneMore(w: World, chain: int, kind: Kind, latest: nat, now: nat -> string,
                      before: seq<Row>, after: seq<Row>, from: nat, batches: seq<seq<Deposit>>, ds: seq<Deposit>)
    requires Stored(w, chain, kind, latest, now, before, after, from, batches)
    requires IsBatch(w, chain, kind, latest, from + 1 + |batches|, now, ds)
    ensures Stored(w, chain, kind, latest, now, before, InsertAll(after, ds, from + 1 + |batches|), from,
                   batches + [ds])
  {
    hide IsBatch;
    hide InsertAll;
    assert (batches + [ds])[..|batches|] == batches;
  }

  lemma ScannedBatch(w: World, chain: int, kind: Kind, latest: nat, block: nat, now: nat -> string,
                     order: seq<DepositEvent>)
    requires multiset(order) == multiset(w.scan(chain, kind, block))
    ensures IsBatch(w, chain, kind, latest, block, now,
                    Converted(Stamp(order, latest - block), w.minConf(chain), w.kst, now))
  {
    hide Converted;
    hide Stamp;
    assert Reorders(order, w.scan(chain, kind, block));
  }

  /** The same steps taken in the system: `t` is reached from `s`, agrees with the store, and apart
      from it only the loop `id` differs, which now stands at `l`. */
  ghost predicate Tracks(w: World, s: System, t: System, id: nat, l: Loop, db: Db) {
    && Leads(w, s, t) && t.db == db && t.link == s.link && t.received == s.received
    && t.loops == s.loops[id := l]
  }

  /** Why a cycle that stood at `from` and committed `n` blocks may report an error. */
  ghost predicate Excused(w: World, chain: int, cy: Cycle, from: nat, n: nat) {
    || cy.head.None? || !cy.answers
    || (from == 0 && w.minConf(chain) <= cy.head.value && !Sound(cy.saves(cy.head.value - w.minConf(chain))))
    || (from != 0 && ((n > 0 && Trouble(cy, from + n)) || Trouble(cy, from + n + 1)))
  }

  /** What a cycle did that found the store at `before`, with the cursor at `from`, and left it at `after`. */
  ghost predicate CycleDone(w: World, chain: int, kind: Kind, cy: Cycle, ok: bool, from: nat, n: nat,
                            batches: seq<seq<Deposit>>, before: Db, after: Db) {
    // an error has a cause, and success means that the calls succeeded
    && (!ok ==> Excused(w, chain, cy, from, n))
    && (ok ==> cy.head.Some? && (w.minConf(chain) <= cy.head.value ==> cy.answers))
    // the confirmation gate
    && (cy.head.None? || cy.head.value < w.minConf(chain) ==> after == before)
    // a zero cursor is only initialised, to the confirmed head
    && (from == 0 ==> n == 0 && after.rows == before.rows && Initialised0(w, chain, kind, cy, ok, before, after))
    // otherwise it rises by one per committed block, within the limit and behind the confirmed head, and
    // as far as allowed when the cycle reports no error
    && (from != 0 ==> Walked(w, chain, kind, cy, ok, from, n, batches, before, after))
  }

  ghost predicate Initialised0(w: World, chain: int, kind: Kind, cy: Cycle, ok: bool, before: Db, after: Db) {
    || (after.cursors == before.cursors && (ok ==> cy.head.Some? && cy.head.value < w.minConf(chain)))
    || (cy.head.Some? && w.minConf(chain) <= cy.head.value &&
        after.cursors == before.cursors[(chain, kind) := cy.head.value - w.minConf(chain)])
  }

  ghost predicate Walked(w: World, chain: int, kind: Kind, cy: Cycle, ok: bool, from: nat, n: nat,
                         batches: seq<seq<Deposit>>, before: Db, after: Db) {
    && Stepped(before.cursors, after.cursors, chain, kind, from, n, cy.scans)
    && |batches| == n <= w.maxBlocks
    && (if cy.head.None? then after.rows == before.rows
        else Stored(w, chain, kind, cy.head.value, cy.now, before.rows, after.rows, from, batches))
    && (n > 0 ==> cy.head.Some? && from + n + w.minConf(chain) <= cy.head.value)
    && (ok ==> cy.head.Some? && n == Min(w.maxBlocks, Max(0, cy.head.value - w.minConf(chain) - from)))
  }

  lemma NothingDone(w: World, chain: int, kind: Kind, cy: Cycle, ok: bool, from: nat, db: Db)
    requires ok ==> cy.head.Some? && cy.head.value < w.minConf(chain)
    requires !ok ==> cy.head.None? || !cy.answers
    ensures CycleDone(w, chain, kind, cy, ok, from, 0, [], db, db)
  {
    NotStepped(db.cursors, chain, kind, from, cy.scans);
    if cy.head.Some? { StoredNone(w, chain, kind, cy.head.value, cy.now, db.rows, from); }
    hide Stepped;
    hide Stored;
    hide Trouble;
  }

  lemma InitDone(w: World, chain: int, kind: Kind, cy: Cycle, ok: bool, before: Db, after: Db, m: nat)
    requires cy.head.Some? && cy.answers && w.minConf(chain) + m == cy.head.value
    requires ok <==> Takes(cy.saves(m), 0) && cy.saves(m).reports
    requires after.rows == before.rows
    requires after.cursors == if Takes(cy.saves(m), 0) then before.cursors[(chain, kind) := m] else before.cursors
    ensures CycleDone(w, chain, kind, cy, ok, 0, 0, [], before, after)
  {
    hide Trouble;
  }

  lemma WalkDone(w: World, chain: int, kind: Kind, cy: Cycle, ok: bool, from: nat, n: nat,
                 batches: seq<seq<Deposit>>, before: Db, after: Db, m: nat)
    requires cy.head.Some? && cy.answers && w.minConf(chain) + m == cy.head.value && from != 0
    requires Stepped(before.cursors, after.cursors, chain, kind, from, n, cy.scans) && |batches| == n
    requires Stored(w, chain, kind, cy.head.value, cy.now, before.rows, after.rows, from, batches)
    requires n <= Min(w.maxBlocks, Max(0, m - from)) && (ok ==> n == Min(w.maxBlocks, Max(0, m - from)))
    requires !ok ==> (n > 0 && Trouble(cy, from + n)) || Trouble(cy, from + n + 1)
    ensures CycleDone(w, chain, kind, cy, ok, from, n, batches, before, after)
  {
    hide Stepped;
    hide Stored;
    hide Trouble;
  }

  /** One polling cycle of the loop `id`. `ok == false` is any returned error, including cancellation
      between blocks. `from` is the cursor at the start, `n` the number of blocks committed. */
  method PollOnce(w: World, repo: BufferRepo, chain: int, kind: Kind, cy: Cycle, ghost id: nat, ghost s: System)
    returns (ok: bool, ghost from: nat, ghost n: nat, ghost batches: seq<seq<Deposit>>, ghost s': System)
    requires repo.Valid()
    requires w.minConf(chain) <= MAX_BLOCK && w.maxBlocks <= MAX_BLOCK
    requires cy.head.Some? ==> cy.head.value <= MAX_BLOCK
    requires CursorOf(repo.Contents().cursors, chain, kind) <= MAX_BLOCK
    requires s.db == repo.Contents() && id in s.loops && s.loops[id] == Loop(chain, kind, Resting)
    modifies repo
    ensures repo.Valid() && from == CursorOf(old(repo.Contents()).cursors, chain, kind)
    ensures Tracks(w, s, s', id, Loop(chain, kind, Resting), repo.Contents())
    ensures CycleDone(w, chain, kind, cy, ok, from, n, batches, old(repo.Contents()), repo.Contents())
  {
    hide *;
    ghost var db := repo.Contents();
    from, n, batches := CursorOf(db.cursors, chain, kind), 0, [];
    s' := Start(w, s, id, chain, kind, db);
    Fits(w.minConf(chain));
    if cy.head.None? {
      NothingDone(w, chain, kind, cy, false, from, db);
      return false, from, n, batches, s';
    }
    var latest := cy.head.value;
    if U64(w.minConf(chain)) > latest {
      NothingDone(w, chain, kind, cy, true, from, db);
      return true, from, n, batches, s';
    }
    Fits(latest - w.minConf(chain));
    var maxConfirmed := U64(latest - U64(w.minConf(chain)));

    var read, cursor := repo.Cursor(chain, kind, cy.answers);
    if !read {
      NothingDone(w, chain, kind, cy, false, from, db);
      return false, from, n, batches, s';
    }
    s' := Locate(w, s, s', id, chain, kind, db, latest);
    if cursor == 0 {
      ok, s' := InitCursorAt(w, repo, chain, kind, latest, maxConfirmed, cy.saves(maxConfirmed), id, s, s');
      InitDone(w, chain, kind, cy, ok, db, repo.Contents(), maxConfirmed);
      return ok, from, n, batches, s';
    }
    ok, n, batches, s' := CatchUp(w, repo, chain, kind, latest, maxConfirmed, cursor, cy, id, s, s');
    WalkDone(w, chain, kind, cy, ok, from, n, batches, db, repo.Contents(), maxConfirmed);
  }

  /** A cycle in which nothing goes wrong reports no error and gets as far as it may. */
  lemma FaultlessCycle(w: World, chain: int, kind: Kind, cy: Cycle, ok: bool, from: nat, n: nat,
                       batches: seq<seq<Deposit>>, before: Db, after: Db)
    requires CycleDone(w, chain, kind, cy, ok, from, n, batches, before, after)
    requires cy.head.Some? && cy.answers && forall b :: !Trouble(cy, b)
    ensures ok
    ensures from != 0 ==> n == Min(w.maxBlocks, Max(0, cy.head.value - w.minConf(chain) - from))
    ensures from == 0 && w.minConf(chain) <= cy.head.value ==>
              after.cursors == before.cursors[(chain, kind) := cy.head.value - w.minConf(chain)]
  {
    hide Stored;
    assert w.minConf(chain) <= cy.head.value ==> !Trouble(cy, cy.head.value - w.minConf(chain));
    assert !Trouble(cy, from + n) && !Trouble(cy, from + n + 1);
  }

  /** Initialise the cursor of a new scanner to the confirmed head. */
  method InitCursorAt(w: World, repo: BufferRepo, chain: int, kind: Kind, latest: nat, maxConfirmed: nat, fate: Fate,
                      ghost id: nat, ghost s: System, ghost t: System)
    returns (ok: bool, ghost s': System)
    requires repo.Valid()
    requires Tracks(w, s, t, id, Loop(chain, kind, Positioned(latest, maxConfirmed, 0)), repo.Contents())
    modifies repo
    ensures repo.Valid() && repo.Contents().rows == old(repo.Contents()).rows
    ensures Tracks(w, s, s', id, Loop(chain, kind, Resting), repo.Contents())
    ensures var before := old(repo.Contents()).cursors;
            repo.Contents().cursors == if Takes(fate, 0) then before[(chain, kind) := maxConfirmed] else before
    ensures ok <==> Takes(fate, 0) && fate.reports
  {
    hide Tracks;
    ghost var db := repo.Contents();
    ok := repo.SaveAndAdvance(chain, kind, maxConfirmed, [], fate);
    s' := Initialise(w, s, t, id, chain, kind, latest, maxConfirmed, db, Takes(fate, 0));
  }

  /** The rest of the cycle for a scanner that has a cursor. */
  method CatchUp(w: World, repo: BufferRepo, chain: int, kind: Kind, latest: nat, maxConfirmed: nat, cursor: nat,
                 cy: Cycle, ghost id: nat, ghost s: System, ghost t: System)
    returns (ok: bool, ghost n: nat, ghost batches: seq<seq<Deposit>>, ghost s': System)
    requires repo.Valid() && 0 < cursor <= MAX_BLOCK && maxConfirmed <= latest <= MAX_BLOCK && w.maxBlocks <= MAX_BLOCK
    requires Tracks(w, s, t, id, Loop(chain, kind, Positioned(latest, maxConfirmed, cursor)), repo.Contents())
    modifies repo
    ensures repo.Valid()
    ensures Tracks(w, s, s', id, Loop(chain, kind, Resting), repo.Contents())
    ensures Stepped(old(repo.Contents()).cursors, repo.Contents().cursors, chain, kind, cursor, n, cy.scans)
    ensures |batches| == n
    ensures Stored(w, chain, kind, latest, cy.now, old(repo.Contents()).rows, repo.Contents().rows, cursor, batches)
    ensures n <= Min(w.maxBlocks, Max(0, maxConfirmed - cursor))
    ensures ok ==> n == Min(w.maxBlocks, Max(0, maxConfirmed - cursor))
    ensures !ok ==> (n > 0 && Trouble(cy, cursor + n)) || Trouble(cy, cursor + n + 1)
  {
    hide *;
    ghost var db := repo.Contents();
    NotStepped(db.cursors, chain, kind, cursor, cy.scans);
    StoredNone(w, chain, kind, latest, cy.now, db.rows, cursor);
    RangeOf(cursor, maxConfirmed, w.maxBlocks);
    n, batches := 0, [];
    Fits(cursor + 1);
    var startBlock := U64(cursor + 1);
    if startBlock > maxConfirmed {
      s' := Rest(w, s, t, id, Loop(chain, kind, Positioned(latest, maxConfirmed, cursor)), db);
      return true, n, batches, s';
    }
    Fits(startBlock + w.maxBlocks - 1);
    var endBlock := U64(startBlock + w.maxBlocks - 1);
    if endBlock > maxConfirmed { endBlock := maxConfirmed; }
    s' := BeginWalk(w, s, t, id, chain, kind, latest, maxConfirmed, cursor, endBlock, db);
    ok, n, batches, s' := WalkBlocks(w, repo, chain, kind, latest, startBlock, endBlock, cy, id, s, s');
  }

  lemma RangeOf(cursor: nat, maxConfirmed: nat, limit: nat)
    ensures Min(cursor + limit, maxConfirmed) == if cursor + limit > maxConfirmed then maxConfirmed else cursor + limit
    ensures Min(limit, Max(0, maxConfirmed - cursor)) ==
            if cursor < maxConfirmed then Min(cursor + limit, maxConfirmed) - cursor else 0
  {
  }

  /** One more block committed. */
  lemma Advanced(w: World, chain: int, kind: Kind, latest: nat, cy: Cycle,
                 before: Db, mid: Db, from: nat, batches: seq<seq<Deposit>>, ds: seq<Deposit>)
    requires Stepped(before.cursors, mid.cursors, chain, kind, from, |batches|, cy.scans)
    requires Stored(w, chain, kind, latest, cy.now, before.rows, mid.rows, from, batches)
    requires cy.scans(from + 1 + |batches|) && IsBatch(w, chain, kind, latest, from + 1 + |batches|, cy.now, ds)
    ensures var after := Saved(mid, chain, kind, from + 1 + |batches|, ds);
            && Stepped(before.cursors, after.cursors, chain, kind, from, |batches| + 1, cy.scans)
            && Stored(w, chain, kind, latest, cy.now, before.rows, after.rows, from, batches + [ds])
  {
    StepOne(before.cursors, mid.cursors, chain, kind, from, |batches|, cy.scans);
    StoredOneMore(w, chain, kind, latest, cy.now, before.rows, mid.rows, from, batches, ds);
    hide Stepped;
    hide Stored;
    hide InsertAll;
  }

  /** One block: scan, convert, save and advance. The cycle ends with an error if and only if the scan
      fails, the transaction fails or does not report, or the context is cancelled before the next
      block; the block is committed if and only if its scan succeeds and its transaction takes
      effect. */
  method WalkBlock(w: World, repo: BufferRepo, chain: int, kind: Kind, latest: nat, block: nat, endBlock: nat,
                   cy: Cycle, ghost id: nat, ghost s: System, ghost t: System)
    returns (ok: bool, ghost applied: bool, ghost ds: seq<Deposit>, ghost s': System)
    requires repo.Valid() && 0 < block <= endBlock <= latest
    requires Tracks(w, s, t, id, Loop(chain, kind, Walking(latest, block, endBlock)), repo.Contents())
    modifies repo
    ensures repo.Valid()
    ensures applied <==> cy.scans(block) && Takes(cy.saves(block), |ds|)
    ensures ok <==> applied && cy.saves(block).reports && (block < endBlock ==> !cy.cancels(block))
    ensures cy.scans(block) ==> IsBatch(w, chain, kind, latest, block, cy.now, ds)
    ensures repo.Contents() ==
            if applied then Saved(old(repo.Contents()), chain, kind, block, ds) else old(repo.Contents())
    ensures Tracks(w, s, s', id,
                   Loop(chain, kind, if ok && block < endBlock then Walking(latest, block + 1, endBlock) else Resting),
                   repo.Contents())
  {
    hide Tracks;
    hide Converted;
    hide RendersInOrder;
    hide InsertAll;
    hide IsBatch;
    hide Takes;
    ghost var db := repo.Contents();
    applied, ds := false, [];
    var scanned, events, order := ScanBlock(w, chain, kind, block, latest - block, cy.scans);
    if !scanned {
      s' := Rest(w, s, t, id, Loop(chain, kind, Walking(latest, block, endBlock)), db);
      return false, applied, ds, s';
    }
    ScannedBatch(w, chain, kind, latest, block, cy.now, order);
    var deposits, at := ConvertEvents(events, w.minConf(chain), w.kst, cy.now);
    s' := Observe(w, s, t, id, chain, kind, latest, block, endBlock, order, cy.now, db);
    ds, applied := deposits, Takes(cy.saves(block), |deposits|);
    ok := repo.SaveAndAdvance(chain, kind, block, deposits, cy.saves(block));
    if block < endBlock && cy.cancels(block) { ok := false; }
    ghost var pc := if ok && block < endBlock then Walking(latest, block + 1, endBlock) else Resting;
    s' := Store(w, s, s', id, chain, kind, latest, block, endBlock, deposits, db, applied, pc);
  }

  /** A block that is not committed, or after which the cycle ends early, is in trouble. */
  lemma NotWithoutTrouble(cy: Cycle, block: nat, n: nat)
    ensures !cy.scans(block) || !Takes(cy.saves(block), n) || !cy.saves(block).reports || cy.cancels(block) ==>
              Trouble(cy, block)
  {
  }

  /** The block loop of a cycle: it stops at the first failure. */
  method WalkBlocks(w: World, repo: BufferRepo, chain: int, kind: Kind, latest: nat, startBlock: nat, endBlock: nat,
                    cy: Cycle, ghost id: nat, ghost s: System, ghost t: System)
    returns (ok: bool, ghost n: nat, ghost batches: seq<seq<Deposit>>, ghost s': System)
    requires repo.Valid() && 0 < startBlock <= endBlock + 1 && endBlock <= latest <= MAX_BLOCK
    requires Tracks(w, s, t, id, Loop(chain, kind, Walking(latest, startBlock, endBlock)), repo.Contents())
    modifies repo
    ensures repo.Valid()
    ensures Tracks(w, s, s', id, Loop(chain, kind, Resting), repo.Contents())
    ensures |batches| == n
    ensures var before, after := old(repo.Contents()), repo.Contents();
            && Stepped(before.cursors, after.cursors, chain, kind, startBlock - 1, n, cy.scans)
            && Stored(w, chain, kind, latest, cy.now, before.rows, after.rows, startBlock - 1, batches)
    ensures n <= endBlock + 1 - startBlock && (ok ==> n == endBlock + 1 - startBlock)
    ensures !ok ==> (n > 0 && Trouble(cy, startBlock + n - 1)) || Trouble(cy, startBlock + n)
  {
    hide Tracks;
    hide InsertAll;
    hide IsBatch;
    hide Takes;
    hide Trouble;
    NotStepped(repo.cursors, chain, kind, startBlock - 1, cy.scans);
    StoredNone(w, chain, kind, latest, cy.now, repo.rows, startBlock - 1);
    hide Stepped;
    hide Stored;
    hide UniqueKeys;
    hide U64;
    n, batches, s' := 0, [], t;
    ghost var start := repo.Contents();
    var block := startBlock;
    ghost var pc := Walking(latest, startBlock, endBlock);
    while block <= endBlock
      invariant repo.Valid() && startBlock <= block <= endBlock + 1 && |batches| == n == block - startBlock
      invariant n == 0 || block <= endBlock ==> pc == Walking(latest, block, endBlock)
      invariant n > 0 && block > endBlock ==> pc == Resting
      invariant Tracks(w, s, s', id, Loop(chain, kind, pc), repo.Contents())
      invariant Stepped(start.cursors, repo.cursors, chain, kind, startBlock - 1, n, cy.scans)
      invariant Stored(w, chain, kind, latest, cy.now, start.rows, repo.rows, startBlock - 1, batches)
    {
      ghost var mid, applied, ds := repo.Contents(), false, [];
      ok, applied, ds, s' := WalkBlock(w, repo, chain, kind, latest, block, endBlock, cy, id, s, s');
      pc := if ok && block < endBlock then Walking(latest, block + 1, endBlock) else Resting;
      NotWithoutTrouble(cy, block, |ds|);
      if applied {
        Advanced(w, chain, kind, latest, cy, start, mid, startBlock - 1, batches, ds);
        n, batches := n + 1, batches + [ds];
      }
      if !ok { return false, n, batches, s'; }
      Fits(block + 1);
      block := U64(block + 1);
    }
    if n == 0 { s' := Rest(w, s, s', id, Loop(chain, kind, pc), repo.Contents()); }
    return true, n, batches, s';
  }

  /** The deposit renders the event with the confirmations its block had at the head. */
  ghost predicate RendersAt(w: World, chain: int, confirmations: int, e: DepositEvent, d: Deposit) {
    Renders(d, e.(confirmations := confirmations), w.minConf(chain), w.kst, d.receivedAt)
  }

  /** What is stored for a block, said of its events: every deposit renders one of them, and every event
      whose time parses is rendered. */
  lemma BatchRenders(w: World, chain: int, kind: Kind, latest: nat, block: nat, now: nat -> string, ds: seq<Deposit>)
    requires IsBatch(w, chain, kind, latest, block, now, ds)
    ensures forall d | d in ds ::
              exists e | e in w.scan(chain, kind, block) :: RendersAt(w, chain, latest - block, e, d)
    ensures forall e | e in w.scan(chain, kind, block) && w.kst(e.txTime).Some? ::
              exists d | d in ds :: RendersAt(w, chain, latest - block, e, d)
  {
    hide Converted;
    hide FormatUnits;
    var conf := latest - block;
    var order: seq<DepositEvent> :|
      Reorders(order, w.scan(chain, kind, block)) && ds == Converted(Stamp(order, conf), w.minConf(chain), w.kst, now);
    var at := ConvertedInOrder(Stamp(order, conf), w.minConf(chain), w.kst, now);
    forall e ensures e in order <==> e in w.scan(chain, kind, block) {
      assert e in order <==> e in multiset(order);
    }
    forall d | d in ds ensures exists e | e in w.scan(chain, kind, block) :: RendersAt(w, chain, conf, e, d) {
      var j :| 0 <= j < |ds| && ds[j] == d;
      assert order[at[j]] in order;
      assert RendersAt(w, chain, conf, order[at[j]], d);
    }
    forall e | e in w.scan(chain, kind, block) && w.kst(e.txTime).Some?
      ensures exists d | d in ds :: RendersAt(w, chain, conf, e, d)
    {
      var i :| 0 <= i < |order| && order[i] == e;
      assert Stamp(order, conf)[i].txTime == e.txTime && i in at;
      var j :| 0 <= j < |at| && at[j] == i;
      assert ds[j] in ds && RendersAt(w, chain, conf, e, ds[j]);
    }
  }

  // ---------- the ghost path, one step of the code at a time ----------

  ghost method Start(w: World, s: System, id: nat, chain: int, kind: Kind, db: Db) returns (v: System)
    requires s.db == db && id in s.loops && s.loops[id] == Loop(chain, kind, Resting)
    ensures Tracks(w, s, v, id, Loop(chain, kind, Resting), db)
  {
    LeadsNowhere(w, s);
    v := s;
  }

  /** A step that only moves the loop's program counter. */
  ghost method Move(w: World, s: System, t: System, id: nat, l: Loop, db: Db, a: LoopAction, pc: LoopPc)
    returns (v: System)
    requires Tracks(w, s, t, id, l, db) && LoopNext(w, t, WithPc(t, id, pc), id, a)
    ensures Tracks(w, s, v, id, l.(pc := pc), db)
  {
    v := WithPc(t, id, pc);
    LeadsOn(w, s, t, v, ByLoop(id, a));
  }

  ghost method Rest(w: World, s: System, t: System, id: nat, l: Loop, db: Db) returns (v: System)
    requires Tracks(w, s, t, id, l, db)
    ensures Tracks(w, s, v, id, l.(pc := Resting), db)
  {
    v := Move(w, s, t, id, l, db, GiveUp, Resting);
  }

  ghost method Locate(w: World, s: System, t: System, id: nat, c: int, k: Kind, db: Db, latest: nat) returns (v: System)
    requires Tracks(w, s, t, id, Loop(c, k, Resting), db) && w.minConf(c) <= latest
    ensures Tracks(w, s, v, id, Loop(c, k, Positioned(latest, latest - w.minConf(c), CursorOf(db.cursors, c, k))), db)
  {
    var m := latest - w.minConf(c);
    v := Move(w, s, t, id, Loop(c, k, Resting), db, ReadHead(latest), Polled(latest, m));
    v := Move(w, s, v, id, Loop(c, k, Polled(latest, m)), db, ReadCursor,
              Positioned(latest, m, CursorOf(db.cursors, c, k)));
  }

  ghost method Initialise(w: World, s: System, t: System, id: nat, c: int, k: Kind, latest: nat, m: nat, db: Db,
                          applied: bool)
    returns (v: System)
    requires Tracks(w, s, t, id, Loop(c, k, Positioned(latest, m, 0)), db)
    ensures Tracks(w, s, v, id, Loop(c, k, Resting), if applied then Saved(db, c, k, m, []) else db)
  {
    v := WithPc(t, id, Resting);
    if applied { v := Initialised(v, c, k, m); }
    LeadsOn(w, s, t, v, ByLoop(id, InitCursor(applied)));
  }

  ghost method BeginWalk(w: World, s: System, t: System, id: nat, c: int, k: Kind, latest: nat, m: nat, cursor: nat,
                         end: nat, db: Db)
    returns (v: System)
    requires Tracks(w, s, t, id, Loop(c, k, Positioned(latest, m, cursor)), db)
    requires 0 < cursor < m && end == Min(cursor + w.maxBlocks, m)
    ensures Tracks(w, s, v, id, Loop(c, k, Walking(latest, cursor + 1, end)), db)
  {
    v := Move(w, s, t, id, Loop(c, k, Positioned(latest, m, cursor)), db, StartWalk, Walking(latest, cursor + 1, end));
  }

  ghost method Observe(w: World, s: System, t: System, id: nat, c: int, k: Kind, latest: nat, block: nat, end: nat,
                       order: seq<DepositEvent>, now: nat -> string, db: Db)
    returns (v: System)
    requires Tracks(w, s, t, id, Loop(c, k, Walking(latest, block, end)), db) && block <= end <= latest
    requires multiset(order) == multiset(w.scan(c, k, block))
    ensures var ds := Converted(Stamp(order, latest - block), w.minConf(c), w.kst, now);
            Tracks(w, s, v, id, Loop(c, k, Scanned(latest, block, end, ds)), db)
  {
    var ds := Converted(Stamp(order, latest - block), w.minConf(c), w.kst, now);
    v := Move(w, s, t, id, Loop(c, k, Walking(latest, block, end)), db, Scan(order, now),
              Scanned(latest, block, end, ds));
  }

  ghost method Store(w: World, s: System, t: System, id: nat, c: int, k: Kind, latest: nat, block: nat, end: nat,
                     ds: seq<Deposit>, db: Db, applied: bool, pc: LoopPc)
    returns (v: System)
    requires Tracks(w, s, t, id, Loop(c, k, Scanned(latest, block, end, ds)), db)
    requires pc == Resting || (pc == Walking(latest, block + 1, end) && applied && block < end)
    ensures Tracks(w, s, v, id, Loop(c, k, pc), if applied then Saved(db, c, k, block, ds) else db)
  {
    v := WithPc(t, id, pc);
    if applied { v := v.(db := Saved(db, c, k, block, ds), done := t.done + {(c, k, block)}); }
    LeadsOn(w, s, t, v, ByLoop(id, Commit(applied, !pc.Resting?)));
  }
}
