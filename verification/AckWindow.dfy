/** The ACK window of the publisher, over every interleaving of the writing goroutine, the reader
    goroutine, the Adapter, scan loops and crashes: the window bound, the ACK channel that never
    overflows, when rows may disappear, and that draining makes progress. */
module AckWindow {
  import opened Deposits
  import opened BufferStore
  import opened Pipeline

  // ---------- invariants ----------

  ghost function IdSet(rows: seq<Row>): set<string> {
    set i | 0 <= i < |rows| :: IdOf(rows[i].deposit)
  }

  ghost predicate AllListed(ds: seq<Deposit>, ids: set<string>) {
    forall d | d in ds :: IdOf(d) in ids
  }

  /** What holds of a connection whatever the Adapter acknowledges: outstanding ids are buffer ids
      that were written here, and they fit the window. */
  ghost predicate ConnWindow(w: World, ids: set<string>, c: Conn) {
    && |c.out| <= w.maxInFlight
    && c.out.Keys <= ids
    && (forall id | id in c.out :: AckId(c.out[id]) == id && c.out[id] in c.written)
    && (forall id | id in c.queue :: id in c.arrived)
    && match c.phase
       case Selecting => true
       case Filling(todo) => AllListed(todo, ids)
       case Wrote(d, todo) =>
         |c.out| < w.maxInFlight && IdOf(d) !in c.out && IdOf(d) in ids && d.key in c.written && AllListed(todo, ids)
       case Taken(k) =>
         |c.out| < w.maxInFlight && AckId(k) !in c.out && AckId(k) in ids && k in c.written && AckId(k) in c.arrived
  }

  ghost predicate WindowInv(w: World, s: System) {
    && UniqueKeys(s.db.rows)
    && (s.link.Up? ==> ConnWindow(w, IdSet(s.db.rows), s.link.conn))
  }

  function Ids(ds: seq<Deposit>): seq<string> {
    seq(|ds|, i requires 0 <= i < |ds| => IdOf(ds[i]))
  }

  /** Message ids between a write and the handling of its ACK. */
  ghost function UnderWay(c: Conn): multiset<string> {
    multiset(Ids(c.wire)) + c.inbox + multiset(c.acks) + multiset(c.queue)
  }

  /** With an Adapter that answers each message at most once, every id under way stands for one
      outstanding entry, counting the message written and not yet recorded. */
  ghost predicate ConnTokens(c: Conn) {
    UnderWay(c) == multiset(c.out.Keys) + (if c.phase.Wrote? then multiset{IdOf(c.phase.sent)} else multiset{})
  }

  ghost predicate TokenInv(s: System) {
    s.link.Up? ==> ConnTokens(s.link.conn)
  }

  // ---------- preservation ----------

  lemma IdSetGrows(rows: seq<Row>, rows': seq<Row>)
    requires rows <= rows'
    ensures IdSet(rows) <= IdSet(rows')
  {
    forall id | id in IdSet(rows) ensures id in IdSet(rows') {
      var i :| 0 <= i < |rows| && IdOf(rows[i].deposit) == id;
      assert rows'[i] == rows[i];
    }
  }

  lemma IdSetAfterDelete(rows: seq<Row>, k: Key)
    ensures IdSet(rows) - {AckId(k)} <= IdSet(Delete(rows, k))
  {
    DeleteRemovesOnlyKey(rows, k);
    forall id | id in IdSet(rows) && id != AckId(k) ensures id in IdSet(Delete(rows, k)) {
      var i :| 0 <= i < |rows| && IdOf(rows[i].deposit) == id;
      assert rows[i] in Delete(rows, k);
    }
  }

  lemma PrefixListed(rows: seq<Row>, limit: nat)
    ensures AllListed(Payloads(Prefix(rows, limit)), IdSet(rows))
  {
    var ds := Payloads(Prefix(rows, limit));
    forall d | d in ds ensures IdOf(d) in IdSet(rows) {
      var i :| 0 <= i < |ds| && ds[i] == d;
      assert rows[i].deposit == d;
    }
  }

  lemma FillWindow(w: World, s: System, ids: set<string>, c: Conn, a: PubAction)
    requires ConnWindow(w, ids, c) && Enabled(w, s, c, a)
    requires a.SkipSent? || a.Write? || a.EndFill?
    ensures ConnWindow(w, ids, ConnAfter(w, s, c, a).conn)
  {
    hide AckId;
  }

  lemma RecordWindow(w: World, s: System, ids: set<string>, c: Conn)
    requires ConnWindow(w, ids, c) && Enabled(w, s, c, Record)
    ensures ConnWindow(w, ids, ConnAfter(w, s, c, Record).conn)
  {
    hide AckId;
    assert c.out[IdOf(c.phase.sent) := c.phase.sent.key].Keys == c.out.Keys + {IdOf(c.phase.sent)};
  }

  lemma AckMovesWindow(w: World, s: System, ids: set<string>, c: Conn, a: PubAction)
    requires ConnWindow(w, ids, c) && Enabled(w, s, c, a)
    requires a.Receive? || a.AckOne? || a.Echo? || a.Enqueue? || a.Overflow?
    ensures ConnWindow(w, ids, ConnAfter(w, s, c, a).conn)
  {
    hide AckId;
  }

  lemma TakeWindow(w: World, s: System, ids: set<string>, c: Conn)
    requires ConnWindow(w, ids, c) && Enabled(w, s, c, TakeAck)
    ensures ConnWindow(w, ids, ConnAfter(w, s, c, TakeAck).conn)
  {
    hide AckId;
    var id := c.queue[0];
    assert id in c.queue;
    if id in c.out {
      assert (c.out - {id}).Keys == c.out.Keys - {id};
    }
  }

  lemma UnlistKeepsWindow(w: World, s: System, s': System, a: PubAction)
    requires WindowInv(w, s) && PubNext(w, s, s', a) && a.Unlist?
    ensures WindowInv(w, s')
  {
    hide AckId;
    DeleteRemovesOnlyKey(s.db.rows, s.link.conn.phase.key);
    IdSetAfterDelete(s.db.rows, s.link.conn.phase.key);
  }

  lemma PubKeepsWindow(w: World, s: System, s': System, a: PubAction)
    requires WindowInv(w, s) && PubNext(w, s, s', a)
    ensures WindowInv(w, s')
  {
    hide AckId;
    if a.Unlist? {
      UnlistKeepsWindow(w, s, s', a);
    } else if s.link.Up? && !a.Lose? {
      var ids, c := IdSet(s.db.rows), s.link.conn;
      if a.Fetch? {
        PrefixListed(s.db.rows, FetchLimit(w));
      } else if a.Record? {
        RecordWindow(w, s, ids, c);
      } else if a.SkipSent? || a.Write? || a.EndFill? {
        FillWindow(w, s, ids, c, a);
      } else if a.TakeAck? {
        TakeWindow(w, s, ids, c);
      } else {
        AckMovesWindow(w, s, ids, c, a);
      }
    }
  }

  lemma LoopKeepsWindow(w: World, s: System, s': System, id: nat, a: LoopAction)
    requires WindowInv(w, s) && LoopNext(w, s, s', id, a)
    ensures WindowInv(w, s')
  {
    if a.Commit? && a.applied {
      var pc := s.loops[id].pc;
      InsertAllKeepsAndAdds(s.db.rows, pc.deposits, pc.block);
      IdSetGrows(s.db.rows, s'.db.rows);
    }
    assert s.db.rows <= s'.db.rows && s'.link == s.link;
  }

  lemma StepKeepsWindow(w: World, s: System, s': System, a: Action)
    requires WindowInv(w, s) && Next(w, s, s', a)
    ensures WindowInv(w, s')
  {
    match a {
      case ByLoop(id, step) => LoopKeepsWindow(w, s, s', id, step);
      case ByPublisher(act) => PubKeepsWindow(w, s, s', act);
      case _ =>
    }
  }

  lemma IdsShift(ds: seq<Deposit>, d: Deposit)
    ensures Ids(ds + [d]) == Ids(ds) + [IdOf(d)]
    ensures ds != [] ==> Ids(ds) == [IdOf(ds[0])] + Ids(ds[1..])
  {
    hide AckId;
  }

  lemma HeadOff(s: seq<string>)
    requires s != []
    ensures multiset(s) == multiset{s[0]} + multiset(s[1..])
  {
    assert s == [s[0]] + s[1..];
  }

  lemma WriteTokens(c: Conn, d: Deposit, c': Conn)
    requires ConnTokens(c) && c.phase.Filling?
    requires c'.phase.Wrote? && c'.phase.sent == d && c'.wire == c.wire + [d] && c'.out == c.out
    requires c'.inbox == c.inbox && c'.acks == c.acks && c'.queue == c.queue
    ensures ConnTokens(c')
  {
    IdsShift(c.wire, d);
    assert UnderWay(c') == UnderWay(c) + multiset{IdOf(d)};
  }

  lemma RecordTokens(c: Conn, c': Conn)
    requires ConnTokens(c) && c.phase.Wrote? && IdOf(c.phase.sent) !in c.out
    requires !c'.phase.Wrote? && c'.out == c.out[IdOf(c.phase.sent) := c.phase.sent.key]
    requires UnderWay(c') == UnderWay(c)
    ensures ConnTokens(c')
  {
    assert c'.out.Keys == c.out.Keys + {IdOf(c.phase.sent)};
  }

  lemma ReceiveTokens(c: Conn, c': Conn)
    requires c.wire != [] && c' == c.(wire := c.wire[1..], inbox := c.inbox + multiset{IdOf(c.wire[0])})
    ensures UnderWay(c') == UnderWay(c)
  {
    IdsShift(c.wire, c.wire[0]);
    HeadOff(Ids(c.wire));
  }

  lemma TakeTokens(c: Conn, c': Conn)
    requires ConnTokens(c) && c.queue != [] && !c.phase.Wrote? && !c'.phase.Wrote?
    requires c'.out == c.out - {c.queue[0]} && c'.queue == c.queue[1..]
    requires c'.wire == c.wire && c'.inbox == c.inbox && c'.acks == c.acks
    ensures c.queue[0] in c.out && ConnTokens(c')
  {
    HeadOff(c.queue);
    assert UnderWay(c) == UnderWay(c') + multiset{c.queue[0]};
    RemoveOne(c.out.Keys, UnderWay(c'), c.queue[0]);
    assert c'.out.Keys == c.out.Keys - {c.queue[0]};
  }

  lemma RemoveOne(ids: set<string>, rest: multiset<string>, id: string)
    requires rest + multiset{id} == multiset(ids)
    ensures id in ids && rest == multiset(ids - {id})
  {
    assert id in rest + multiset{id};
    forall x ensures rest[x] == multiset(ids - {id})[x] {
      assert (rest + multiset{id})[x] == multiset(ids)[x];
    }
  }

  lemma PubKeepsTokens(w: World, s: System, s': System, a: PubAction)
    requires TokenInv(s) && WindowInv(w, s) && PubNext(w, s, s', a) && !a.Echo?
    ensures !a.Overflow?
    ensures TokenInv(s')
  {
    hide AckId;
    if s.link.Up? && s'.link.Up? {
      var c, c' := s.link.conn, s'.link.conn;
      NeverFull(w, c);
      TokensAfter(w, s, c, a);
    }
  }

  lemma KeepTokens(c: Conn, c': Conn)
    requires ConnTokens(c) && UnderWay(c') == UnderWay(c) && c'.out == c.out
    requires c'.phase == c.phase || (!c.phase.Wrote? && !c'.phase.Wrote?)
    ensures ConnTokens(c')
  {
    hide AckId;
    hide UnderWay;
  }

  lemma SameTokens(c: Conn, c': Conn)
    requires c'.wire == c.wire && c'.inbox == c.inbox && c'.acks == c.acks && c'.queue == c.queue
    ensures UnderWay(c') == UnderWay(c)
  {
  }

  /** The step moves an id along, or only changes where the publisher stands. */
  lemma MovedTokens(w: World, s: System, c: Conn, a: PubAction)
    requires ConnTokens(c) && Enabled(w, s, c, a) && !a.Echo? && !a.Overflow? && !a.Lose?
    requires !a.Write? && !a.Record? && !a.TakeAck?
    ensures ConnTokens(ConnAfter(w, s, c, a).conn)
  {
    hide AckId;
    hide UnderWay;
    hide ConnTokens;
    var c' := ConnAfter(w, s, c, a).conn;
    match a {
      case Receive => ReceiveTokens(c, c');
      case Enqueue => EnqueueTokens(c, c');
      case AckOne(id) => AckOneTokens(c, id, c');
      case _ => SameTokens(c, c');
    }
    KeepTokens(c, c');
  }

  lemma TokensAfter(w: World, s: System, c: Conn, a: PubAction)
    requires ConnTokens(c) && Enabled(w, s, c, a) && !a.Echo? && !a.Overflow? && !a.Lose?
    requires c.phase.Wrote? ==> IdOf(c.phase.sent) !in c.out
    ensures ConnTokens(ConnAfter(w, s, c, a).conn)
  {
    hide AckId;
    hide UnderWay;
    hide ConnTokens;
    var c' := ConnAfter(w, s, c, a).conn;
    match a {
      case Write => WriteTokens(c, c.phase.todo[0], c');
      case Record =>
        SameTokens(c, c');
        RecordTokens(c, c');
      case TakeAck =>
        var t := c.(queue := c.queue[1..], out := c.out - {c.queue[0]});
        TakeTokens(c, t);
        SameTokens(t, c');
        KeepTokens(t, c');
      case _ => MovedTokens(w, s, c, a);
    }
  }

  lemma AckOneTokens(c: Conn, id: string, c': Conn)
    requires id in c.inbox && c'.inbox == c.inbox - multiset{id} && c'.acks == c.acks + [id]
    requires c'.wire == c.wire && c'.queue == c.queue
    ensures UnderWay(c') == UnderWay(c)
  {
  }

  lemma EnqueueTokens(c: Conn, c': Conn)
    requires c.acks != [] && c'.acks == c.acks[1..] && c'.queue == c.queue + [c.acks[0]]
    requires c'.wire == c.wire && c'.inbox == c.inbox
    ensures UnderWay(c') == UnderWay(c)
  {
    HeadOff(c.acks);
  }

  /** Whenever an ACK is about to be enqueued, the channel has room for it. */
  lemma NeverFull(w: World, c: Conn)
    requires ConnTokens(c)
    requires |c.out| <= w.maxInFlight && (c.phase.Wrote? ==> |c.out| < w.maxInFlight)
    ensures |c.wire| + |c.inbox| + |c.acks| + |c.queue| <= w.maxInFlight
    ensures |c.wire| + |c.inbox| + |c.acks| + |c.queue| == |c.out| + if c.phase.Wrote? then 1 else 0
  {
    assert |UnderWay(c)| == |c.wire| + |c.inbox| + |c.acks| + |c.queue|;
  }

  lemma {:induction false} RunKeepsWindow(w: World, states: seq<System>, actions: seq<Action>, i: nat)
    requires IsRun(w, states, actions) && i < |states|
    ensures WindowInv(w, states[i])
  {
    if i > 0 {
      RunKeepsWindow(w, states, actions, i - 1);
      StepKeepsWindow(w, states[i - 1], states[i], actions[i - 1]);
    }
  }

  lemma {:induction false} RunKeepsTokens(w: World, states: seq<System>, actions: seq<Action>, i: nat)
    requires IsRun(w, states, actions) && i < |states|
    requires forall a | a in actions :: !IsEcho(a)
    ensures TokenInv(states[i])
    ensures i > 0 ==> actions[i - 1] != ByPublisher(Overflow)
  {
    if i > 0 {
      RunKeepsTokens(w, states, actions, i - 1);
      RunKeepsWindow(w, states, actions, i - 1);
      assert actions[i - 1] in actions;
      StepKeepsTokens(w, states[i - 1], states[i], actions[i - 1]);
    }
  }

  lemma StepKeepsTokens(w: World, s: System, s': System, a: Action)
    requires TokenInv(s) && WindowInv(w, s) && Next(w, s, s', a) && !IsEcho(a)
    ensures TokenInv(s') && a != ByPublisher(Overflow)
  {
    hide AckId;
    if a.ByPublisher? {
      PubKeepsTokens(w, s, s', a.act);
    } else {
      assert s'.link == s.link || s'.link.Down?;
    }
  }

  ghost predicate IsEcho(a: Action) { a.ByPublisher? && a.act.Echo? }

  /** The ACK channel never overflows: with an Adapter that acknowledges each message it received
      at most once, no run takes the reader's drop branch, the ACKs queued never exceed the window,
      and an ACK about to be queued always finds room. */
  lemma AckChannelNeverOverflows(w: World, states: seq<System>, actions: seq<Action>)
    requires IsRun(w, states, actions)
    requires forall a | a in actions :: !IsEcho(a)
    ensures ByPublisher(Overflow) !in actions
    ensures forall s | s in states && s.link.Up? ::
              |s.link.conn.acks| + |s.link.conn.queue| <= w.maxInFlight
  {
    forall i | 0 <= i < |states| && states[i].link.Up?
      ensures |states[i].link.conn.acks| + |states[i].link.conn.queue| <= w.maxInFlight
    {
      RunKeepsWindow(w, states, actions, i);
      RunKeepsTokens(w, states, actions, i);
      NeverFull(w, states[i].link.conn);
    }
    forall i | 0 <= i < |actions| ensures actions[i] != ByPublisher(Overflow) {
      RunKeepsTokens(w, states, actions, i + 1);
    }
  }

  /** That condition is needed: wherever a run has a connection and something was ever received, an
      Adapter that repeats an ACK can fill the channel, whatever its size, and force a drop. */
  lemma {:induction false} RepeatedAcksOverflow(w: World, states: seq<System>, actions: seq<Action>, d: Deposit)
    returns (states': seq<System>, actions': seq<Action>)
    requires IsRun(w, states, actions) && states[|actions|].link.Up? && d in states[|actions|].received
    ensures IsRun(w, states', actions') && ByPublisher(Overflow) in actions'
    decreases w.maxInFlight - |states[|actions|].link.conn.queue|
  {
    hide AckId;
    var s := states[|actions|];
    var c := s.link.conn;
    assert Echoes(s.received, IdOf(d));
    hide IsRun;
    var c' := c.(acks := c.acks + [IdOf(d)]);
    var t := s.(link := Up(c'));
    states', actions' := Extend(w, states, actions, ByPublisher(Echo(IdOf(d))), t);
    var act := if |c.queue| < w.maxInFlight then Enqueue else Overflow;
    states', actions' := Extend(w, states', actions', ByPublisher(act), PubAfter(w, t, c', act));
    if act.Enqueue? {
      states', actions' := RepeatedAcksOverflow(w, states', actions', d);
    } else {
      assert actions'[|actions'| - 1] == ByPublisher(Overflow);
    }
  }

  // ---------- when a row may disappear ----------

  /** On the current connection the message for `k` was written, an ACK with its id arrived, and
      the publisher has matched the two. */
  ghost predicate Delivered(s: System, k: Key) {
    && s.link.Up? && s.link.conn.phase == Taken(k)
    && k in s.link.conn.written && AckId(k) in s.link.conn.arrived
  }

  lemma LoopsOnlyAdd(w: World, s: System, s': System, id: nat, a: LoopAction)
    requires UniqueKeys(s.db.rows) && LoopNext(w, s, s', id, a)
    ensures forall k | HasKey(s.db.rows, k) :: HasKey(s'.db.rows, k)
  {
    if a.Commit? && a.applied {
      InsertAllKeepsAndAdds(s.db.rows, s.loops[id].pc.deposits, s.loops[id].pc.block);
    }
    assert forall i | 0 <= i < |s.db.rows| :: s'.db.rows[i] == s.db.rows[i];
  }

  lemma PublisherRows(w: World, s: System, s': System, a: PubAction)
    requires PubNext(w, s, s', a)
    ensures s'.db.rows == s.db.rows ||
            (a == Unlist(true) && s.link.Up? && s.link.conn.phase.Taken? &&
             s'.db.rows == Delete(s.db.rows, s.link.conn.phase.key))
  {
  }

  lemma VanishingStep(w: World, s: System, s': System, a: Action, k: Key)
    requires WindowInv(w, s) && Next(w, s, s', a)
    requires HasKey(s.db.rows, k) && !HasKey(s'.db.rows, k)
    ensures a == ByPublisher(Unlist(true)) && Delivered(s, k)
  {
    if a.ByLoop? {
      LoopsOnlyAdd(w, s, s', a.id, a.step);
    } else if a.ByPublisher? {
      PublisherRows(w, s, s', a.act);
      var i :| 0 <= i < |s.db.rows| && s.db.rows[i].deposit.key == k;
      assert s.db.rows[i] in s.db.rows;
      if s.link.Up? && s.link.conn.phase.Taken? {
        DeleteRemovesOnlyKey(s.db.rows, s.link.conn.phase.key);
      }
    }
  }

  /** Between two states of a run a row can only have disappeared through an ACK for its own
      message on the connection it was written on; any other ACK leaves the buffer alone. */
  lemma {:induction false} RowsVanishOnlyWhenDelivered(
    w: World, states: seq<System>, actions: seq<Action>, i: nat, j: nat, k: Key)
    requires IsRun(w, states, actions) && i <= j < |states|
    requires HasKey(states[i].db.rows, k) && !HasKey(states[j].db.rows, k)
    ensures exists m | i <= m < j :: actions[m] == ByPublisher(Unlist(true)) && Delivered(states[m], k)
    decreases j
  {
    RunKeepsWindow(w, states, actions, j - 1);
    if HasKey(states[j - 1].db.rows, k) {
      VanishingStep(w, states[j - 1], states[j], actions[j - 1], k);
    } else {
      RowsVanishOnlyWhenDelivered(w, states, actions, i, j - 1, k);
    }
  }

  // ---------- draining makes progress ----------

  /** Steps without failures, disconnects, repeated ACKs or new rows. */
  predicate Smooth(a: PubAction) {
    Quiet(a) || Productive(a)
  }

  predicate Quiet(a: PubAction) { a.Fetch? || a.SkipSent? || a.Record? || a.EndFill? }

  predicate Productive(a: PubAction) {
    a.Write? || a.Receive? || a.AckOne? || a.Enqueue? || a.TakeAck? || a == Unlist(true)
  }

  /** Work left: six productive steps per row, less those its delivery has already gone through. */
  ghost function Work(s: System): int
    requires s.link.Up?
  {
    var c := s.link.conn;
    6 * |s.db.rows| - |c.wire| - 2 * |c.inbox| - 3 * |c.acks| - 4 * |c.queue| - (if c.phase.Taken? then 5 else 0)
  }

  ghost predicate Draining(w: World, s: System) {
    s.link.Up? && WindowInv(w, s) && TokenInv(s)
  }

  lemma LastIdIsNew(rows: seq<Row>, last: nat)
    requires UniqueKeys(rows) && |rows| == last + 1
    ensures IdOf(rows[last].deposit) !in IdSet(rows[..last])
  {
    forall i | 0 <= i < last ensures IdOf(rows[i].deposit) != IdOf(rows[last].deposit) {
      AckIdDistinct(rows[i].deposit.key, rows[last].deposit.key);
    }
  }

  lemma LastId(rows: seq<Row>, last: nat)
    requires |rows| == last + 1
    ensures IdSet(rows) == IdSet(rows[..last]) + {IdOf(rows[last].deposit)}
  {
    hide AckId;
    var init := rows[..last];
    forall id | id in IdSet(rows) ensures id in IdSet(init) + {IdOf(rows[last].deposit)} {
      var i :| 0 <= i < |rows| && IdOf(rows[i].deposit) == id;
      assert i < last ==> init[i] == rows[i];
    }
    IdSetGrows(init, rows);
    assert IdOf(rows[last].deposit) in IdSet(rows);
  }

  lemma {:induction false} IdSetSize(rows: seq<Row>)
    ensures |IdSet(rows)| <= |rows|
    ensures UniqueKeys(rows) ==> |IdSet(rows)| == |rows|
  {
    if rows == [] {
      assert IdSet(rows) == {};
    } else {
      var last := |rows| - 1;
      IdSetSize(rows[..last]);
      LastId(rows, last);
      if UniqueKeys(rows) { LastIdIsNew(rows, last); }
    }
  }

  lemma Within<T>(a: set<T>, b: set<T>)
    requires a <= b
    ensures |a| <= |b|
  {
    assert b == a + (b - a);
  }

  /** At least one step is left for every row and none without rows: no work left means an empty buffer. */
  lemma WorkBound(w: World, s: System)
    requires Draining(w, s)
    ensures |s.db.rows| <= Work(s) <= 6 * |s.db.rows|
  {
    hide AckId;
    var c := s.link.conn;
    NeverFull(w, c);
    IdSetSize(s.db.rows);
    var taken := if c.phase.Taken? then {AckId(c.phase.key)} else if c.phase.Wrote? then {IdOf(c.phase.sent)} else {};
    Within(c.out.Keys + taken, IdSet(s.db.rows));
  }

  lemma UnlistWork(w: World, s: System, s': System)
    requires Draining(w, s) && PubNext(w, s, s', Unlist(true)) && s'.link.Up?
    ensures Work(s') == Work(s) - 1
  {
    ListedKey(s.db.rows, s.link.conn.phase.key);
    DeleteSize(s.db.rows, s.link.conn.phase.key);
    hide AckId;
    hide Delete;
    hide UniqueKeys;
  }

  /** A listed id is the id of a row with that key. */
  lemma ListedKey(rows: seq<Row>, k: Key)
    ensures AckId(k) in IdSet(rows) ==> HasKey(rows, k)
  {
    hide AckId;
    if AckId(k) in IdSet(rows) {
      var i :| 0 <= i < |rows| && IdOf(rows[i].deposit) == AckId(k);
      AckIdInjective(rows[i].deposit.key, k);
    }
  }

  lemma TakeWork(w: World, s: System, s': System)
    requires Draining(w, s) && PubNext(w, s, s', TakeAck) && s'.link.Up?
    ensures Work(s') == Work(s) - 1
  {
    var c := s.link.conn;
    TakeTokens(c, c.(queue := c.queue[1..], out := c.out - {c.queue[0]}));
  }

  lemma MoveWork(w: World, s: System, s': System, a: PubAction)
    requires s.link.Up? && PubNext(w, s, s', a) && Smooth(a) && !a.TakeAck? && !a.Unlist?
    ensures s'.link.Up? && Work(s') == Work(s) - if Productive(a) then 1 else 0
  {
  }

  /** Work falls by one on each send, receipt, ACK, hand-over and deletion, and stays otherwise. */
  lemma SmoothStep(w: World, s: System, s': System, a: PubAction)
    requires Draining(w, s) && PubNext(w, s, s', a) && Smooth(a)
    ensures Draining(w, s')
    ensures Work(s') == Work(s) - if Productive(a) then 1 else 0
  {
    PubKeepsWindow(w, s, s', a);
    PubKeepsTokens(w, s, s', a);
    if a.TakeAck? {
      TakeWork(w, s, s');
    } else if a.Unlist? {
      UnlistWork(w, s, s');
    } else {
      MoveWork(w, s, s', a);
    }
  }

  /** A stretch of a run without failures or new rows. */
  ghost predicate Stretch(w: World, states: seq<System>, actions: seq<PubAction>) {
    && |states| == |actions| + 1
    && forall i | 0 <= i < |actions| :: Smooth(actions[i]) && PubNext(w, states[i], states[i + 1], actions[i])
  }

  function ProductiveCount(actions: seq<PubAction>): nat {
    if actions == [] then 0
    else ProductiveCount(actions[..|actions| - 1]) + if Productive(actions[|actions| - 1]) then 1 else 0
  }

  lemma {:induction false} StretchWork(w: World, states: seq<System>, actions: seq<PubAction>)
    requires Stretch(w, states, actions) && Draining(w, states[0])
    ensures Draining(w, states[|actions|])
    ensures ProductiveCount(actions) + Work(states[|actions|]) == Work(states[0])
  {
    if actions != [] {
      var n := |actions| - 1;
      StretchWork(w, states[..n + 1], actions[..n]);
      assert states[..n + 1][n] == states[n];
      SmoothStep(w, states[n], states[n + 1], actions[n]);
    }
  }

  /** However the steps are scheduled, a failure-free stretch has at most as many productive steps as
      there was work, and it ends with an empty buffer if and only if it has that many. */
  lemma StretchDrainsIff(w: World, states: seq<System>, actions: seq<PubAction>)
    requires Stretch(w, states, actions) && Draining(w, states[0])
    ensures ProductiveCount(actions) <= Work(states[0])
    ensures states[|actions|].db.rows == [] <==> ProductiveCount(actions) == Work(states[0])
  {
    StretchWork(w, states, actions);
    WorkBound(w, states[|actions|]);
  }

  /** Some failure-free stretch empties the buffer, in as many productive steps as there is work. */
  ghost predicate CanDrain(w: World, s: System) {
    exists states: seq<System>, actions: seq<PubAction> :: Drains(w, s, states, actions)
  }

  ghost predicate Drains(w: World, s: System, states: seq<System>, actions: seq<PubAction>) {
    && Stretch(w, states, actions) && states[0] == s && states[|actions|].db.rows == []
    && s.link.Up? && ProductiveCount(actions) == Work(s)
  }

  lemma Prepend(w: World, s: System, a: PubAction, states: seq<System>, actions: seq<PubAction>)
    requires Stretch(w, states, actions) && Smooth(a) && PubNext(w, s, states[0], a)
    ensures Stretch(w, [s] + states, [a] + actions)
  {
    hide PubNext;
    hide Smooth;
    var states', actions' := [s] + states, [a] + actions;
    forall i | 0 <= i < |actions'| ensures Smooth(actions'[i]) && PubNext(w, states'[i], states'[i + 1], actions'[i]) {
      if i > 0 { assert actions'[i] == actions[i - 1] && states'[i] == states[i - 1]; }
    }
  }

  lemma CanDrainBefore(w: World, s: System, t: System, a: PubAction)
    requires Draining(w, s) && Smooth(a) && PubNext(w, s, t, a) && CanDrain(w, t)
    ensures CanDrain(w, s)
  {
    hide PubNext;
    hide WindowInv;
    hide TokenInv;
    hide Work;
    var states: seq<System>, actions: seq<PubAction> :| Drains(w, t, states, actions);
    Prepend(w, s, a, states, actions);
    StretchDrainsIff(w, [s] + states, [a] + actions);
    assert Drains(w, s, [s] + states, [a] + actions);
  }

  ghost function Rank(c: Conn): nat {
    match c.phase
    case Wrote(_, todo) => |todo| + 2
    case Filling(todo) => |todo| + 1
    case _ => 0
  }

  /** While rows remain, some step moves them on or brings the publisher closer to one that does. */
  lemma NextMove(w: World, s: System, c: Conn) returns (a: PubAction)
    requires Draining(w, s) && s.link == Up(c) && w.maxInFlight > 0
    ensures Smooth(a) && Enabled(w, s, c, a)
    ensures a.Fetch? ==> c.out == map[]
    ensures Quiet(a) && !a.Fetch? ==> c.phase.Wrote? || c.phase.Filling?
  {
    NeverFull(w, c);
    if c.wire != [] {
      a := Receive;
    } else if id :| id in c.inbox {
      a := AckOne(id);
    } else if c.acks != [] {
      a := Enqueue;
    } else {
      match c.phase {
        case Taken(_) => a := Unlist(true);
        case Wrote(_, _) => a := Record;
        case Selecting => a := if c.queue != [] then TakeAck else Fetch;
        case Filling(todo) =>
          a := if todo == [] || |c.out| >= w.maxInFlight then EndFill
               else if IdOf(todo[0]) in c.out then SkipSent else Write;
      }
    }
  }

  lemma RankFalls(w: World, s: System, c: Conn, a: PubAction)
    requires Enabled(w, s, c, a) && Quiet(a) && !a.Fetch?
    ensures PubAfter(w, s, c, a).link.Up? && Rank(PubAfter(w, s, c, a).link.conn) < Rank(c)
  {
  }

  /** With nothing outstanding, what topUp fetches first it can send at once. */
  lemma FetchedIsSendable(w: World, s: System, c: Conn) returns (t: System, c': Conn)
    requires Enabled(w, s, c, Fetch) && c.out == map[] && s.db.rows != []
    requires w.maxInFlight > 0 && w.maxBatch > 0
    ensures t == PubAfter(w, s, c, Fetch) && t.link == Up(c') && Enabled(w, t, c', Write)
  {
    t := PubAfter(w, s, c, Fetch);
    c' := t.link.conn;
    assert |Prefix(s.db.rows, FetchLimit(w))| > 0;
  }

  lemma DrainStep(w: World, s: System, c: Conn, a: PubAction) returns (t: System)
    requires Draining(w, s) && s.link == Up(c) && Smooth(a) && Enabled(w, s, c, a)
    ensures t == PubAfter(w, s, c, a) && PubNext(w, s, t, a) && Draining(w, t)
    ensures 0 <= Work(t) == Work(s) - if Productive(a) then 1 else 0
  {
    t := PubAfter(w, s, c, a);
    SmoothStep(w, s, t, a);
    WorkBound(w, t);
  }

  /** No state with rows left is stuck: from every one there is a failure-free stretch that empties
      the buffer. */
  lemma DrainExists(w: World, s: System)
    requires Draining(w, s) && w.maxInFlight > 0 && w.maxBatch > 0
    ensures CanDrain(w, s)
    decreases Work(s), Rank(s.link.conn)
  {
    WorkBound(w, s);
    if s.db.rows == [] {
      assert Drains(w, s, [s], []);
      return;
    }
    var c := s.link.conn;
    var a := NextMove(w, s, c);
    var t := DrainStep(w, s, c, a);
    if a.Fetch? {
      var _, c' := FetchedIsSendable(w, s, c);
      var t' := DrainStep(w, t, c', Write);
      DrainExists(w, t');
      CanDrainBefore(w, t, t', Write);
    } else {
      if Quiet(a) { RankFalls(w, s, c, a); }
      DrainExists(w, t);
    }
    CanDrainBefore(w, s, t, a);
  }

  /** In every connected state of every run with a well-behaved Adapter the buffer can be drained. */
  lemma EveryRunCanDrain(w: World, states: seq<System>, actions: seq<Action>, i: nat)
    requires IsRun(w, states, actions) && i < |states| && states[i].link.Up?
    requires forall a | a in actions :: !IsEcho(a)
    requires w.maxInFlight > 0 && w.maxBatch > 0
    ensures CanDrain(w, states[i])
  {
    RunKeepsWindow(w, states, actions, i);
    RunKeepsTokens(w, states, actions, i);
    DrainExists(w, states[i]);
  }

  // ---------- how long draining can take ----------

  /** Nothing can move until the publisher goroutine does. */
  ghost predicate Still(c: Conn) { c.wire == [] && c.inbox == multiset{} && c.acks == [] && c.queue == [] }

  /** A top-up begun although a message or an ACK is still under way, as polls and wake-ups do. */
  ghost predicate Early(s: System, a: PubAction) { a.Fetch? && s.link.Up? && !Still(s.link.conn) }

  /** Steps the publisher can take on its own before the next productive one. */
  ghost function Slack(w: World, c: Conn): nat {
    match c.phase
    case Selecting => if c.out == map[] then FetchLimit(w) + 2 else 0
    case Taken(_) => FetchLimit(w) + 2
    case Filling(todo) => if todo == [] && c.out == map[] then FetchLimit(w) + 3 else |todo| + 1
    case Wrote(_, todo) => |todo| + 2
  }

  ghost function Effort(w: World, s: System): int
    requires s.link.Up?
  {
    EffortOf(Work(s), Slack(w, s.link.conn), FetchLimit(w) + 3)
  }

  function EffortOf(work: int, slack: nat, k: nat): int { work * k + slack }

  lemma StillIsEmpty(c: Conn)
    requires ConnTokens(c) && Still(c) && !c.phase.Wrote?
    ensures c.out == map[]
  {
    hide AckId;
    assert UnderWay(c) == multiset{} by { assert Ids(c.wire) == []; }
    assert forall id :: id in c.out.Keys <==> id in multiset(c.out.Keys);
    assert c.out.Keys == {};
  }

  lemma FetchSlack(w: World, s: System, c: Conn)
    requires Draining(w, s) && s.link == Up(c) && s.db.rows != [] && Enabled(w, s, c, Fetch)
    requires w.maxInFlight > 0 && w.maxBatch > 0
    ensures var c' := PubAfter(w, s, c, Fetch).link.conn;
            Slack(w, c') + 1 <= Slack(w, c) + if Early(s, Fetch) then FetchLimit(w) + 3 else 0
  {
    hide AckId;
    if Still(c) { StillIsEmpty(c); }
    assert 0 < |Payloads(Prefix(s.db.rows, FetchLimit(w)))| <= FetchLimit(w);
  }

  lemma QuietSlack(w: World, s: System, c: Conn, a: PubAction)
    requires Draining(w, s) && s.link == Up(c) && s.db.rows != [] && Enabled(w, s, c, a) && Quiet(a)
    requires w.maxInFlight > 0 && w.maxBatch > 0
    ensures var c' := PubAfter(w, s, c, a).link.conn;
            Slack(w, c') + 1 <= Slack(w, c) + if Early(s, a) then FetchLimit(w) + 3 else 0
  {
    hide AckId;
    if a.Fetch? {
      FetchSlack(w, s, c);
    } else if a.Record? {
      assert IdOf(c.phase.sent) in PubAfter(w, s, c, a).link.conn.out;
    } else if a.EndFill? && c.out == map[] {
      assert |c.out| == 0;
    }
  }

  lemma ProductiveSlack(w: World, s: System, c: Conn, a: PubAction)
    requires Draining(w, s) && s.link == Up(c) && Enabled(w, s, c, a) && Productive(a)
    ensures Slack(w, PubAfter(w, s, c, a).link.conn) <= Slack(w, c) + FetchLimit(w) + 2
  {
    hide AckId;
  }

  /** The publisher's own steps, by kind of step. */
  lemma StepSlack(w: World, s: System, s': System, a: PubAction)
    requires Draining(w, s) && s.db.rows != [] && PubNext(w, s, s', a) && Smooth(a) && s'.link.Up?
    requires w.maxInFlight > 0 && w.maxBatch > 0
    ensures Productive(a) ==> Slack(w, s'.link.conn) <= Slack(w, s.link.conn) + FetchLimit(w) + 2
    ensures !Productive(a) ==>
              Slack(w, s'.link.conn) + 1 <= Slack(w, s.link.conn) + if Early(s, a) then FetchLimit(w) + 3 else 0
  {
    var c := s.link.conn;
    assert Enabled(w, s, c, a) && s' == PubAfter(w, s, c, a);
    if Quiet(a) { QuietSlack(w, s, c, a); } else { ProductiveSlack(w, s, c, a); }
    hide *;
  }

  lemma LessEffort(work: int, work': int, slack: nat, slack': nat, k: nat, extra: nat)
    requires (work' == work - 1 && slack' + 1 <= slack + k) || (work' == work && slack' + 1 <= slack + extra)
    ensures EffortOf(work', slack', k) + 1 <= EffortOf(work, slack, k) + extra
  {
    assert (work - 1) * k == work * k - k;
  }

  /** Every failure-free step from a non-empty buffer uses up effort, whatever it is; only a top-up begun
      early can give some back. */
  lemma EffortFalls(w: World, s: System, s': System, a: PubAction)
    requires Draining(w, s) && s.db.rows != [] && PubNext(w, s, s', a) && Smooth(a)
    requires w.maxInFlight > 0 && w.maxBatch > 0
    ensures Draining(w, s')
    ensures Effort(w, s') + 1 <= Effort(w, s) + if Early(s, a) then FetchLimit(w) + 3 else 0
  {
    hide EffortOf;
    hide PubNext;
    hide WindowInv;
    hide TokenInv;
    hide Slack;
    hide Work;
    hide Early;
    hide Productive;
    hide Quiet;
    SmoothStep(w, s, s', a);
    StepSlack(w, s, s', a);
    LessEffort(Work(s), Work(s'), Slack(w, s.link.conn), Slack(w, s'.link.conn), FetchLimit(w) + 3,
               if Early(s, a) then FetchLimit(w) + 3 else 0);
  }

  /** What top-ups begun early may cost. */
  ghost function Allowance(w: World, states: seq<System>, actions: seq<PubAction>): nat
    requires |states| == |actions| + 1
  {
    if actions == [] then 0
    else
      var n := |actions| - 1;
      Allowance(w, states[..n + 1], actions[..n]) + if Early(states[n], actions[n]) then FetchLimit(w) + 3 else 0
  }

  lemma RowsStayGone(w: World, s: System, s': System, a: PubAction)
    requires PubNext(w, s, s', a) && s.db.rows == []
    ensures s'.db.rows == []
  {
  }

  lemma {:induction false} StretchEffort(w: World, states: seq<System>, actions: seq<PubAction>)
    requires Stretch(w, states, actions) && Draining(w, states[0]) && w.maxInFlight > 0 && w.maxBatch > 0
    ensures Draining(w, states[|actions|])
    ensures states[|actions|].db.rows != [] ==>
              |actions| + Effort(w, states[|actions|]) <= Effort(w, states[0]) + Allowance(w, states, actions)
  {
    hide Effort;
    hide PubNext;
    hide Early;
    hide WindowInv;
    hide TokenInv;
    if actions != [] {
      var n := |actions| - 1;
      StretchEffort(w, states[..n + 1], actions[..n]);
      assert states[..n + 1][n] == states[n] && states[..n + 1][0] == states[0];
      if states[n].db.rows == [] {
        RowsStayGone(w, states[n], states[n + 1], actions[n]);
        SmoothDraining(w, states[n], states[n + 1], actions[n]);
      } else {
        EffortFalls(w, states[n], states[n + 1], actions[n]);
      }
    }
  }

  lemma SmoothDraining(w: World, s: System, s': System, a: PubAction)
    requires Draining(w, s) && PubNext(w, s, s', a) && Smooth(a)
    ensures Draining(w, s')
  {
    SmoothStep(w, s, s', a);
  }

  lemma EffortIsNat(w: World, s: System)
    requires Draining(w, s)
    ensures 0 <= Effort(w, s) <= 6 * |s.db.rows| * (FetchLimit(w) + 3) + Slack(w, s.link.conn)
  {
    WorkBound(w, s);
    hide Work;
    hide Slack;
    Product(Work(s), 6 * |s.db.rows|, FetchLimit(w) + 3);
  }

  lemma Product(x: nat, y: nat, k: nat)
    requires x <= y
    ensures 0 <= x * k <= y * k
  {
  }

  /** Every failure-free schedule drains: as long as rows remain, the steps taken number at most the
      effort at the start, with an allowance for each top-up begun while messages or ACKs were under
      way; the effort is bounded by the rows and the fetch limit. */
  lemma EveryScheduleDrains(w: World, states: seq<System>, actions: seq<PubAction>)
    requires Stretch(w, states, actions) && Draining(w, states[0]) && w.maxInFlight > 0 && w.maxBatch > 0
    ensures states[|actions|].db.rows == [] || |actions| <= Effort(w, states[0]) + Allowance(w, states, actions)
    ensures Effort(w, states[0]) <= 6 * |states[0].db.rows| * (FetchLimit(w) + 3) + Slack(w, states[0].link.conn)
  {
    hide Effort;
    hide Allowance;
    hide Draining;
    hide PubNext;
    hide Slack;
    StretchEffort(w, states, actions);
    EffortIsNat(w, states[|actions|]);
    EffortIsNat(w, states[0]);
  }
}
