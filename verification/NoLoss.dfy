/** No deposit is ever lost: every block between the first initialisation of a cursor and its
    current value has all of its deposits in the buffer or at the Adapter, in every state of every
    run with any number of overlapping loops, failures and crashes. */
module NoLoss {
  import opened Decimal
  import opened Deposits
  import opened BufferStore
  import opened Pipeline

  // ---------- statement ----------

  /** The deposits, up to scan-time data, that block `b` owes the Adapter. */
  ghost function Expected(w: World, c: int, k: Kind, b: nat): set<Deposit> {
    set e | e in w.scan(c, k, b) && ExpectedCore(e, w.kst).Some? :: ExpectedCore(e, w.kst).value
  }

  /** The deposit is a buffer row or has been received by the Adapter. */
  ghost predicate Held(rows: seq<Row>, received: set<Deposit>, core: Deposit) {
    || (exists r | r in rows :: Core(r.deposit) == core)
    || (exists d | d in received :: Core(d) == core)
  }

  ghost predicate HoldsBlock(w: World, rows: seq<Row>, received: set<Deposit>, c: int, k: Kind, b: nat) {
    forall core | core in Expected(w, c, k, b) :: Held(rows, received, core)
  }

  ghost predicate NothingLost(w: World, s: System) {
    forall c, k, b | (c, k) in s.inits && s.inits[(c, k)] < b <= CursorOf(s.db.cursors, c, k) ::
      HoldsBlock(w, s.db.rows, s.received, c, k, b)
  }

  /** Scanners label events with their own chain, and a key names one event only. */
  ghost predicate Coherent(w: World) {
    && (forall c, k, b, e | Emits(w, c, k, b, e) :: e.key.chainId == c)
    && (forall c, k, b, e, c', k', b', e' |
          Emits(w, c, k, b, e) && Emits(w, c', k', b', e') && e.key == e'.key :: e == e')
  }

  ghost predicate Emits(w: World, c: int, k: Kind, b: nat, e: DepositEvent) {
    e in w.scan(c, k, b)
  }

  type Inits = map<(int, Kind), nat>
  type Done = set<(int, Kind, nat)>

  /** Every block up to `n` that the scanner owes has been committed. */
  ghost predicate CaughtUp(inits: Inits, done: Done, c: int, k: Kind, n: nat) {
    (c, k) in inits ==> forall b | inits[(c, k)] < b <= n :: (c, k, b) in done
  }

  /** A loop that read a zero cursor before another loop initialised it is about to overwrite the
      cursor with its own head. The proof needs that no uncommitted block is skipped; what a caller can
      look at before the write is the subject of InitGuard. */
  ghost predicate Benign(s: System, a: Action) {
    a.ByLoop? && a.step.InitCursor? && a.step.applied && a.id in s.loops && s.loops[a.id].pc.Positioned? ==>
      var l := s.loops[a.id];
      CaughtUp(s.inits, s.done, l.chain, l.kind, l.pc.maxConfirmed)
  }

  // ---------- invariant ----------

  ghost predicate Genuine(w: World, d: Deposit) {
    && w.minConf(d.key.chainId) <= d.confirmCount
    && exists k, b :: Core(d) in Expected(w, d.key.chainId, k, b)
  }

  ghost predicate GenuineAt(w: World, d: Deposit, b: nat) {
    && w.minConf(d.key.chainId) <= d.confirmCount
    && exists k :: Core(d) in Expected(w, d.key.chainId, k, b)
  }

  ghost predicate StoreInv(w: World, rows: seq<Row>) {
    && UniqueKeys(rows)
    && forall r | r in rows :: GenuineAt(w, r.deposit, r.block)
  }

  /** A scan result carries all the block owes and nothing else. */
  ghost predicate Complete(w: World, c: int, k: Kind, b: nat, ds: seq<Deposit>) {
    && (forall d | d in ds :: d.key.chainId == c && w.minConf(c) <= d.confirmCount && Core(d) in Expected(w, c, k, b))
    && (forall core | core in Expected(w, c, k, b) :: exists d | d in ds :: Core(d) == core)
  }

  ghost predicate LoopOk(w: World, inits: Inits, done: Done, l: Loop) {
    match l.pc
    case Resting => true
    case Polled(latest, m) => m + w.minConf(l.chain) == latest
    case Positioned(latest, m, cursor) =>
      && m + w.minConf(l.chain) == latest
      && (cursor != 0 ==> (l.chain, l.kind) in inits && CaughtUp(inits, done, l.chain, l.kind, cursor))
    case Walking(latest, block, end) =>
      && end + w.minConf(l.chain) <= latest && block > 0
      && (l.chain, l.kind) in inits && CaughtUp(inits, done, l.chain, l.kind, block - 1)
    case Scanned(latest, block, end, ds) =>
      && end + w.minConf(l.chain) <= latest && 0 < block <= end
      && (l.chain, l.kind) in inits && CaughtUp(inits, done, l.chain, l.kind, block - 1)
      && Complete(w, l.chain, l.kind, block, ds)
  }

  ghost predicate LoopInv(w: World, inits: Inits, done: Done, loops: map<nat, Loop>) {
    forall id | id in loops :: LoopOk(w, inits, done, loops[id])
  }

  ghost predicate CursorInv(inits: Inits, done: Done, cursors: Cursors) {
    forall c, k :: CursorOk(inits, done, c, k, CursorOf(cursors, c, k))
  }

  ghost predicate CursorOk(inits: Inits, done: Done, c: int, k: Kind, cursor: nat) {
    CaughtUp(inits, done, c, k, cursor) && (cursor != 0 ==> (c, k) in inits)
  }

  ghost predicate DoneInv(w: World, done: Done, rows: seq<Row>, received: set<Deposit>) {
    forall c, k, b | (c, k, b) in done :: HoldsBlock(w, rows, received, c, k, b)
  }

  /** Every message is genuine, every ACK under way answers something received, and the publisher
      deletes only what the Adapter has. */
  ghost predicate ConnInv(w: World, received: set<Deposit>, c: Conn) {
    && (forall d | d in c.wire :: Genuine(w, d))
    && (forall id | id in c.inbox || id in c.acks || id in c.queue :: Echoes(received, id))
    && (forall id | id in c.out :: AckId(c.out[id]) == id)
    && match c.phase
       case Selecting => true
       case Filling(todo) => forall d | d in todo :: Genuine(w, d)
       case Wrote(d, todo) => Genuine(w, d) && forall d | d in todo :: Genuine(w, d)
       case Taken(k) => exists d | d in received :: d.key == k
  }

  ghost predicate LinkInv(w: World, received: set<Deposit>, link: Link) {
    && (forall d | d in received :: Genuine(w, d))
    && (link.Up? ==> ConnInv(w, received, link.conn))
  }

  ghost predicate Inv(w: World, s: System) {
    && StoreInv(w, s.db.rows)
    && LoopInv(w, s.inits, s.done, s.loops)
    && CursorInv(s.inits, s.done, s.db.cursors)
    && DoneInv(w, s.done, s.db.rows, s.received)
    && LinkInv(w, s.received, s.link)
  }

  // ---------- facts about cores ----------

  /** A key names one deposit: equal keys mean equal cores, whichever scan they came from. */
  lemma SameKeySameCore(w: World, d: Deposit, d': Deposit)
    requires Coherent(w) && Genuine(w, d) && Genuine(w, d') && d.key == d'.key
    ensures Core(d) == Core(d')
  {
    var k, b :| Core(d) in Expected(w, d.key.chainId, k, b);
    var k', b' :| Core(d') in Expected(w, d'.key.chainId, k', b');
    var e :| Emits(w, d.key.chainId, k, b, e) && ExpectedCore(e, w.kst) == Some(Core(d));
    var e' :| Emits(w, d'.key.chainId, k', b', e') && ExpectedCore(e', w.kst) == Some(Core(d'));
    assert e.key == e'.key;
  }

  /** Converting a scan of `b`, in any order, yields everything block `b` owes. */
  lemma ScanIsComplete(w: World, c: int, k: Kind, b: nat, events: seq<DepositEvent>, conf: int, now: nat -> string)
    requires Coherent(w) && multiset(events) == multiset(w.scan(c, k, b)) && w.minConf(c) <= conf
    ensures Complete(w, c, k, b, Converted(Stamp(events, conf), w.minConf(c), w.kst, now))
  {
    var stamped := Stamp(events, conf);
    var ds := Converted(stamped, w.minConf(c), w.kst, now);
    forall d | d in ds
      ensures d.key.chainId == c && w.minConf(c) <= d.confirmCount && Core(d) in Expected(w, c, k, b)
    {
      var i := ConvertedFrom(stamped, w.minConf(c), w.kst, now, d);
      SameMembers(events, w.scan(c, k, b), events[i]);
      assert Emits(w, c, k, b, events[i]);
    }
    forall core | core in Expected(w, c, k, b)
      ensures exists d | d in ds :: Core(d) == core
    {
      var e :| e in w.scan(c, k, b) && ExpectedCore(e, w.kst) == Some(core);
      SameMembers(events, w.scan(c, k, b), e);
      var i :| 0 <= i < |events| && events[i] == e;
      var d := ConvertedKeeps(stamped, w.minConf(c), w.kst, now, i);
    }
  }

  lemma SameMembers<T>(a: seq<T>, b: seq<T>, x: T)
    requires multiset(a) == multiset(b)
    ensures x in a <==> x in b
  {
    assert x in a <==> x in multiset(a);
    assert x in b <==> x in multiset(b);
  }

  // ---------- every step keeps the invariant ----------

  lemma HoldsBlockGrows(w: World, rows: seq<Row>, received: set<Deposit>, rows': seq<Row>, received': set<Deposit>,
                        c: int, k: Kind, b: nat)
    requires HoldsBlock(w, rows, received, c, k, b)
    requires forall r | r in rows :: r in rows'
    requires received <= received'
    ensures HoldsBlock(w, rows', received', c, k, b)
  {
  }

  lemma PcStep(w: World, s: System, id: nat, pc: LoopPc)
    requires Inv(w, s) && id in s.loops
    requires LoopOk(w, s.inits, s.done, s.loops[id].(pc := pc))
    ensures Inv(w, WithPc(s, id, pc))
  {
  }

  lemma LoopMemoryStep(w: World, s: System, s': System, id: nat, a: LoopAction)
    requires Coherent(w) && Inv(w, s) && LoopNext(w, s, s', id, a)
    requires !a.InitCursor? && !a.Commit?
    ensures Inv(w, s')
  {
    hide Complete;
    hide Converted;
    hide Stamp;
    var l := s.loops[id];
    if a.Scan? {
      ScanIsComplete(w, l.chain, l.kind, l.pc.block, a.events, l.pc.latest - l.pc.block, a.now);
    } else if a.ReadCursor? {
      assert CursorOk(s.inits, s.done, l.chain, l.kind, CursorOf(s.db.cursors, l.chain, l.kind));
    }
    PcStep(w, s, id, s'.loops[id].pc);
  }

  lemma CursorMoves(inits: Inits, done: Done, cursors: Cursors, c: int, k: Kind, m: nat)
    requires CursorInv(inits, done, cursors) && CursorOk(inits, done, c, k, m)
    ensures CursorInv(inits, done, cursors[(c, k) := m])
  {
    var cursors' := cursors[(c, k) := m];
    forall c', k' ensures CursorOk(inits, done, c', k', CursorOf(cursors', c', k')) {
      assert (c', k') != (c, k) ==> CursorOf(cursors', c', k') == CursorOf(cursors, c', k');
    }
  }

  /** Remembering a first initialisation disturbs no loop and no cursor of another scanner. */
  lemma RememberInit(w: World, s: System, c: int, k: Kind, m: nat)
    requires LoopInv(w, s.inits, s.done, s.loops) && CursorInv(s.inits, s.done, s.db.cursors)
    requires (c, k) !in s.inits
    ensures LoopInv(w, s.inits[(c, k) := m], s.done, s.loops)
    ensures CursorInv(s.inits[(c, k) := m], s.done, s.db.cursors)
  {
    var inits' := s.inits[(c, k) := m];
    forall c', k' ensures CursorOk(inits', s.done, c', k', CursorOf(s.db.cursors, c', k')) {
      assert CursorOk(s.inits, s.done, c', k', CursorOf(s.db.cursors, c', k'));
    }
    forall id | id in s.loops ensures LoopOk(w, inits', s.done, s.loops[id]) {
      assert LoopOk(w, s.inits, s.done, s.loops[id]);
    }
  }

  lemma InitStep(w: World, s: System, s': System, id: nat, applied: bool)
    requires Inv(w, s) && LoopNext(w, s, s', id, InitCursor(applied))
    requires Benign(s, ByLoop(id, InitCursor(applied)))
    ensures Inv(w, s')
  {
    var Loop(c, k, pc) := s.loops[id];
    var t := WithPc(s, id, Resting);
    PcStep(w, s, id, Resting);
    if applied {
      if pc.maxConfirmed != 0 && (c, k) !in s.inits {
        RememberInit(w, t, c, k, pc.maxConfirmed);
      }
      CursorMoves(s'.inits, s.done, s.db.cursors, c, k, pc.maxConfirmed);
    }
  }

  lemma CommitRows(w: World, rows: seq<Row>, c: int, k: Kind, b: nat, ds: seq<Deposit>)
    requires Coherent(w) && StoreInv(w, rows) && Complete(w, c, k, b, ds)
    ensures StoreInv(w, InsertAll(rows, ds, b))
    ensures forall r | r in rows :: r in InsertAll(rows, ds, b)
    ensures HoldsBlock(w, InsertAll(rows, ds, b), {}, c, k, b)
  {
    InsertAllKeepsAndAdds(rows, ds, b);
    var rows' := InsertAll(rows, ds, b);
    forall r | r in rows' ensures GenuineAt(w, r.deposit, r.block) {
      if r !in rows {
        assert Core(r.deposit) in Expected(w, c, k, b);
      }
    }
    forall core | core in Expected(w, c, k, b) ensures Held(rows', {}, core) {
      var d :| d in ds && Core(d) == core;
      var i :| 0 <= i < |rows'| && rows'[i].deposit.key == d.key;
      assert rows'[i] in rows';
      SameKeySameCore(w, rows'[i].deposit, d);
    }
  }

  /** Committing one more block only adds to what loops and cursors may rely on. */
  lemma MoreDone(w: World, s: System, done: Done)
    requires LoopInv(w, s.inits, s.done, s.loops) && CursorInv(s.inits, s.done, s.db.cursors)
    requires s.done <= done
    ensures LoopInv(w, s.inits, done, s.loops) && CursorInv(s.inits, done, s.db.cursors)
  {
    forall c, k ensures CursorOk(s.inits, done, c, k, CursorOf(s.db.cursors, c, k)) {
      assert CursorOk(s.inits, s.done, c, k, CursorOf(s.db.cursors, c, k));
    }
    forall id | id in s.loops ensures LoopOk(w, s.inits, done, s.loops[id]) {
      assert LoopOk(w, s.inits, s.done, s.loops[id]);
    }
  }

  lemma CommitDone(w: World, s: System, c: int, k: Kind, b: nat, rows: seq<Row>)
    requires DoneInv(w, s.done, s.db.rows, s.received)
    requires forall r | r in s.db.rows :: r in rows
    requires HoldsBlock(w, rows, {}, c, k, b)
    ensures DoneInv(w, s.done + {(c, k, b)}, rows, s.received)
  {
    forall c', k', b' | (c', k', b') in s.done + {(c, k, b)}
      ensures HoldsBlock(w, rows, s.received, c', k', b')
    {
      if (c', k', b') in s.done {
        HoldsBlockGrows(w, s.db.rows, s.received, rows, s.received, c', k', b');
      } else {
        HoldsBlockGrows(w, rows, {}, rows, s.received, c, k, b);
      }
    }
  }

  lemma CommitLoops(w: World, s: System, id: nat, done: Done, pc': LoopPc)
    requires LoopInv(w, s.inits, done, s.loops) && id in s.loops && s.loops[id].pc.Scanned?
    requires LoopOk(w, s.inits, s.done, s.loops[id])
    requires var Loop(c, k, pc) := s.loops[id];
             && done == s.done + {(c, k, pc.block)}
             && (pc' == Resting || pc' == Walking(pc.latest, pc.block + 1, pc.end))
    ensures LoopInv(w, s.inits, done, WithPc(s, id, pc').loops)
    ensures CursorOk(s.inits, done, s.loops[id].chain, s.loops[id].kind, s.loops[id].pc.block)
  {
  }

  lemma CommitStep(w: World, s: System, s': System, id: nat, goOn: bool)
    requires Coherent(w) && Inv(w, s) && LoopNext(w, s, s', id, Commit(true, goOn))
    ensures Inv(w, s')
  {
    var Loop(c, k, pc) := s.loops[id];
    assert LoopOk(w, s.inits, s.done, s.loops[id]);
    CommitRows(w, s.db.rows, c, k, pc.block, pc.deposits);
    CommitDone(w, s, c, k, pc.block, s'.db.rows);
    MoreDone(w, s, s'.done);
    CommitLoops(w, s, id, s'.done, s'.loops[id].pc);
    CursorMoves(s.inits, s'.done, s.db.cursors, c, k, pc.block);
  }

  /** Deleting a row that the Adapter has received loses nothing. */
  lemma DeleteKeepsHeld(w: World, s: System, key: Key)
    requires Coherent(w) && Inv(w, s)
    requires exists d | d in s.received :: d.key == key
    ensures StoreInv(w, Delete(s.db.rows, key))
    ensures DoneInv(w, s.done, Delete(s.db.rows, key), s.received)
  {
    var rows' := Delete(s.db.rows, key);
    DeleteRemovesOnlyKey(s.db.rows, key);
    var d :| d in s.received && d.key == key;
    forall core | Held(s.db.rows, s.received, core) ensures Held(rows', s.received, core) {
      if r :| r in s.db.rows && Core(r.deposit) == core {
        if r.deposit.key == key {
          SameKeySameCore(w, r.deposit, d);
        } else {
          assert r in rows';
        }
      }
    }
  }

  lemma ReceivedGrows(w: World, s: System, got: set<Deposit>)
    requires Inv(w, s) && forall d | d in got :: Genuine(w, d)
    ensures DoneInv(w, s.done, s.db.rows, s.received + got)
    ensures forall d | d in s.received + got :: Genuine(w, d)
    ensures forall id | Echoes(s.received, id) :: Echoes(s.received + got, id)
  {
    forall c, k, b | (c, k, b) in s.done ensures HoldsBlock(w, s.db.rows, s.received + got, c, k, b) {
      HoldsBlockGrows(w, s.db.rows, s.received, s.db.rows, s.received + got, c, k, b);
    }
  }

  /** Steps inside topUp. */
  lemma FillConn(w: World, s: System, c: Conn, a: PubAction)
    requires ConnInv(w, s.received, c) && Enabled(w, s, c, a)
    requires a.SkipSent? || a.Write? || a.Record? || a.EndFill?
    ensures ConnInv(w, s.received, ConnAfter(w, s, c, a).conn)
  {
    hide AckId;
  }

  lemma FetchConn(w: World, s: System, c: Conn)
    requires ConnInv(w, s.received, c) && StoreInv(w, s.db.rows) && Enabled(w, s, c, Fetch)
    ensures ConnInv(w, s.received, ConnAfter(w, s, c, Fetch).conn)
  {
    hide AckId;
    var rows := Prefix(s.db.rows, FetchLimit(w));
    forall d | d in Payloads(rows) ensures Genuine(w, d) {
      var i :| 0 <= i < |rows| && Payloads(rows)[i] == d;
      assert rows[i] in s.db.rows;
    }
  }

  /** The Adapter answers. */
  lemma AnswerConn(w: World, s: System, c: Conn, a: PubAction)
    requires ConnInv(w, s.received, c) && Enabled(w, s, c, a) && (a.AckOne? || a.Echo?)
    ensures ConnInv(w, s.received, ConnAfter(w, s, c, a).conn)
  {
    hide AckId;
    hide Genuine;
    hide Echoes;
    var c' := ConnAfter(w, s, c, a).conn;
    forall id | id in c'.inbox || id in c'.acks || id in c'.queue ensures Echoes(s.received, id) {
      assert id == a.id || id in c.acks || id in c.queue || id in c.inbox;
    }
  }

  /** An answer travels from the connection to the channel, or is dropped. */
  lemma ArrivalConn(w: World, s: System, c: Conn, a: PubAction)
    requires ConnInv(w, s.received, c) && Enabled(w, s, c, a) && (a.Enqueue? || a.Overflow?)
    ensures ConnInv(w, s.received, ConnAfter(w, s, c, a).conn)
  {
    hide AckId;
    hide Genuine;
    hide Echoes;
    var c' := ConnAfter(w, s, c, a).conn;
    forall id | id in c'.inbox || id in c'.acks || id in c'.queue ensures Echoes(s.received, id) {
      assert id in c.acks || id in c.queue || id in c.inbox;
    }
  }

  lemma AckConn(w: World, s: System, c: Conn, a: PubAction)
    requires ConnInv(w, s.received, c) && Enabled(w, s, c, a)
    requires a.AckOne? || a.Echo? || a.Enqueue? || a.Overflow?
    ensures ConnInv(w, s.received, ConnAfter(w, s, c, a).conn)
  {
    hide AckId;
    hide ConnInv;
    hide ConnAfter;
    if a.AckOne? || a.Echo? { AnswerConn(w, s, c, a); } else { ArrivalConn(w, s, c, a); }
  }

  /** The entry an ACK takes out of the window is the one the Adapter has received. */
  lemma TakeConn(w: World, s: System, c: Conn)
    requires ConnInv(w, s.received, c) && Enabled(w, s, c, TakeAck)
    ensures ConnInv(w, s.received, ConnAfter(w, s, c, TakeAck).conn)
  {
    hide AckId;
    var id := c.queue[0];
    assert id in c.queue;
    if id in c.out {
      var d :| d in s.received && IdOf(d) == id;
      AckIdInjective(d.key, c.out[id]);
    }
  }

  lemma ReceiveConn(w: World, s: System, c: Conn)
    requires ConnInv(w, s.received, c) && c.wire != []
    ensures ConnInv(w, s.received + {c.wire[0]}, ConnAfter(w, s, c, Receive).conn)
  {
    hide AckId;
    var received := s.received + {c.wire[0]};
    assert Echoes(received, IdOf(c.wire[0]));
    assert forall id | Echoes(s.received, id) :: Echoes(received, id);
  }

  lemma LoseStep(w: World, s: System, s': System, got: set<Deposit>)
    requires Inv(w, s) && PubNext(w, s, s', Lose(got))
    ensures Inv(w, s')
  {
    hide AckId;
    ReceivedGrows(w, s, got);
    hide DoneInv;
    hide LoopInv;
    hide CursorInv;
    hide StoreInv;
  }

  lemma UnlistStep(w: World, s: System, s': System, applied: bool)
    requires Coherent(w) && Inv(w, s) && PubNext(w, s, s', Unlist(applied))
    ensures Inv(w, s')
  {
    hide AckId;
    hide Coherent;
    hide DoneInv;
    hide LoopInv;
    hide CursorInv;
    hide StoreInv;
    hide Delete;
    var c := s.link.conn;
    DeleteKeepsHeld(w, s, c.phase.key);
    assert ConnInv(w, s.received, c.(phase := Selecting));
    hide ConnInv;
  }

  /** A connection made or lost, and the DELETE that ends a delivery. */
  lemma EndStep(w: World, s: System, s': System, a: PubAction)
    requires Coherent(w) && Inv(w, s) && PubNext(w, s, s', a)
    requires a.Connect? || a.Lose? || a.Unlist?
    ensures Inv(w, s')
  {
    if a.Lose? {
      hide Inv;
      LoseStep(w, s, s', a.got);
    } else if a.Unlist? {
      hide Inv;
      UnlistStep(w, s, s', a.applied);
    }
  }

  lemma PubStep(w: World, s: System, s': System, a: PubAction)
    requires Coherent(w) && Inv(w, s) && PubNext(w, s, s', a)
    ensures Inv(w, s')
  {
    if a.Connect? || a.Lose? || a.Unlist? {
      EndStep(w, s, s', a);
    } else {
      hide AckId;
      var c := s.link.conn;
      if a.Receive? {
        ReceivedGrows(w, s, {c.wire[0]});
        ReceiveConn(w, s, c);
      } else if a.Fetch? {
        FetchConn(w, s, c);
      } else if a.TakeAck? {
        TakeConn(w, s, c);
      } else if a.SkipSent? || a.Write? || a.Record? || a.EndFill? {
        FillConn(w, s, c, a);
      } else {
        AckConn(w, s, c, a);
      }
    }
  }

  lemma StepKeepsInv(w: World, s: System, s': System, a: Action)
    requires Coherent(w) && Inv(w, s) && Next(w, s, s', a) && Benign(s, a)
    ensures Inv(w, s')
  {
    match a {
      case Spawn(_, _, _) =>
      case Exit(_) =>
      case ByLoop(id, InitCursor(applied)) => InitStep(w, s, s', id, applied);
      case ByLoop(id, Commit(applied, goOn)) =>
        if applied { CommitStep(w, s, s', id, goOn); } else { PcStep(w, s, id, Resting); }
      case ByLoop(id, step) => LoopMemoryStep(w, s, s', id, step);
      case ByPublisher(act) => PubStep(w, s, s', act);
      case Crash(got) => ReceivedGrows(w, s, got);
    }
  }

  // ---------- theorems over whole runs ----------

  lemma InvMeansSafe(w: World, s: System)
    requires Inv(w, s)
    ensures NothingLost(w, s)
  {
    forall c, k, b | (c, k) in s.inits && s.inits[(c, k)] < b <= CursorOf(s.db.cursors, c, k)
      ensures HoldsBlock(w, s.db.rows, s.received, c, k, b)
    {
      assert CursorOk(s.inits, s.done, c, k, CursorOf(s.db.cursors, c, k));
      assert (c, k, b) in s.done;
    }
  }

  lemma {:induction false} RunKeepsInv(w: World, states: seq<System>, actions: seq<Action>, i: nat)
    requires Coherent(w) && IsRun(w, states, actions)
    requires forall j | 0 <= j < |actions| :: Benign(states[j], actions[j])
    requires i < |states|
    ensures Inv(w, states[i])
  {
    if i > 0 {
      RunKeepsInv(w, states, actions, i - 1);
      StepKeepsInv(w, states[i - 1], states[i], actions[i - 1]);
    }
  }

  /** In every state of every run in which no loop overwrites an initialised cursor past unscanned
      blocks, nothing is lost; loops may overlap and cursors may move backwards. */
  lemma NoDepositLost(w: World, states: seq<System>, actions: seq<Action>)
    requires Coherent(w) && IsRun(w, states, actions)
    requires forall i | 0 <= i < |actions| :: Benign(states[i], actions[i])
    ensures forall s | s in states :: NothingLost(w, s)
  {
    forall i | 0 <= i < |states| ensures NothingLost(w, states[i]) {
      RunKeepsInv(w, states, actions, i);
      InvMeansSafe(w, states[i]);
    }
  }

  /** At most one loop per scanner. */
  ghost predicate Sole(s: System) {
    forall i, j | i in s.loops && j in s.loops &&
                  s.loops[i].chain == s.loops[j].chain && s.loops[i].kind == s.loops[j].kind ::
      i == j
  }

  /** A loop that saw a zero cursor saw a scanner that is still uninitialised. */
  ghost predicate ZeroIsNew(s: System) {
    && (forall c, k | (c, k) in s.inits :: CursorOf(s.db.cursors, c, k) != 0)
    && (forall id | id in s.loops && s.loops[id].pc.Positioned? && s.loops[id].pc.cursor == 0 ::
          (s.loops[id].chain, s.loops[id].kind) !in s.inits)
  }

  /** The publisher side never touches loops, cursors or the scan history. */
  lemma PublisherFrame(w: World, s: System, s': System, a: PubAction)
    requires PubNext(w, s, s', a)
    ensures s'.loops == s.loops && s'.inits == s.inits && s'.done == s.done && s'.db.cursors == s.db.cursors
  {
  }

  lemma SoleLoopStep(w: World, s: System, s': System, id: nat, a: LoopAction)
    requires Inv(w, s) && ZeroIsNew(s) && Sole(s) && LoopNext(w, s, s', id, a)
    ensures ZeroIsNew(s')
  {
    var Loop(c, k, pc) := s.loops[id];
    assert LoopOk(w, s.inits, s.done, s.loops[id]);
    assert forall j | j in s.loops && j != id :: s'.loops[j] == s.loops[j];
    assert forall c', k' | (c', k') != (c, k) :: CursorOf(s'.db.cursors, c', k') == CursorOf(s.db.cursors, c', k');
  }

  lemma SoleStepIsBenign(w: World, s: System, s': System, a: Action)
    requires Inv(w, s) && ZeroIsNew(s) && Sole(s) && Next(w, s, s', a)
    ensures Benign(s, a) && ZeroIsNew(s')
  {
    match a {
      case ByLoop(id, step) => SoleLoopStep(w, s, s', id, step);
      case ByPublisher(act) => PublisherFrame(w, s, s', act);
      case _ =>
    }
  }

  lemma {:induction false} SoleRunKeeps(w: World, states: seq<System>, actions: seq<Action>, i: nat)
    requires Coherent(w) && IsRun(w, states, actions)
    requires forall s | s in states :: Sole(s)
    requires i < |states|
    ensures Inv(w, states[i]) && ZeroIsNew(states[i])
    ensures i > 0 ==> Benign(states[i - 1], actions[i - 1])
  {
    if i > 0 {
      SoleRunKeeps(w, states, actions, i - 1);
      assert states[i - 1] in states;
      SoleStepIsBenign(w, states[i - 1], states[i], actions[i - 1]);
      StepKeepsInv(w, states[i - 1], states[i], actions[i - 1]);
    }
  }

  /** Without overlap no condition is needed: one loop per scanner never loses a deposit. */
  lemma SingleLoopLosesNothing(w: World, states: seq<System>, actions: seq<Action>)
    requires Coherent(w) && IsRun(w, states, actions)
    requires forall s | s in states :: Sole(s)
    ensures forall s | s in states :: NothingLost(w, s)
  {
    forall i | 0 <= i < |states| ensures NothingLost(w, states[i]) {
      SoleRunKeeps(w, states, actions, i);
      InvMeansSafe(w, states[i]);
    }
  }
}
