/** The listener as one transition system: any number of scan loops, the durable store, the
    ACK-mode publisher, its connection and reader goroutine, the Adapter, and crashes
    (internal/scanner/loop.go, internal/database/buffer_repo.go, internal/publisher/publisher.go).

    Every step is one indivisible action of the code: a database transaction, a WebSocket write,
    a channel operation, or an update of the publisher's own memory. */
module Pipeline {
  import opened Decimal
  import opened Deposits
  import opened BufferStore

  /** What a run takes as given. `scan(c, k, b)` lists what scanner `k` extracts from block `b` of
      chain `c`; the order is not fixed, and the confirmation field is filled in by the loop. */
  datatype World = World(
    scan: (int, Kind, nat) -> seq<DepositEvent>,
    kst: Clock,
    minConf: int -> nat,
    maxBlocks: nat,
    maxInFlight: nat,
    maxBatch: nat)

  // ---------- state ----------

  datatype LoopPc =
    | Resting
    | Polled(latest: nat, maxConfirmed: nat)
    | Positioned(latest: nat, maxConfirmed: nat, cursor: nat)
    | Walking(latest: nat, block: nat, end: nat)
    | Scanned(latest: nat, block: nat, end: nat, deposits: seq<Deposit>)

  datatype Loop = Loop(chain: int, kind: Kind, pc: LoopPc)

  /** Where the publisher goroutine stands: in its select, inside topUp, between WriteMessage and
      out.add, or between out.take and the DELETE. */
  datatype Phase =
    | Selecting
    | Filling(todo: seq<Deposit>)
    | Wrote(sent: Deposit, todo: seq<Deposit>)
    | Taken(key: Key)

  /** One connection. `wire` holds messages on their way to the Adapter, `inbox` the ids it has
      received and not acknowledged, `acks` the ACKs on their way back, `queue` the ACK channel,
      `written` every key written and `arrived` every ACK read on this connection. */
  datatype Conn = Conn(
    out: map<string, Key>, phase: Phase, wire: seq<Deposit>, inbox: multiset<string>,
    acks: seq<string>, queue: seq<string>, written: set<Key>, arrived: set<string>)

  datatype Link = Down | Up(conn: Conn)

  /** `inits` records the first cursor each scanner was initialised to, `done` the blocks whose
      scan has been committed; both are history, not state of the program. */
  datatype System = System(
    db: Db, loops: map<nat, Loop>, link: Link, received: set<Deposit>,
    inits: map<(int, Kind), nat>, done: set<(int, Kind, nat)>)

  ghost predicate Init(s: System) {
    s == System(Db([], map[]), map[], Down, {}, map[], {})
  }

  function FreshConn(): Conn { Conn(map[], Selecting, [], multiset{}, [], [], {}, {}) }

  // ---------- scan loops ----------

  datatype LoopAction =
    | ReadHead(latest: nat)
    | ReadCursor
    | InitCursor(applied: bool)
    | StartWalk
    | Scan(events: seq<DepositEvent>, now: nat -> string)
    | Commit(applied: bool, goOn: bool)
    | GiveUp

  function Stamp(events: seq<DepositEvent>, confirmations: int): seq<DepositEvent> {
    seq(|events|, i requires 0 <= i < |events| => events[i].(confirmations := confirmations))
  }

  function WithPc(s: System, id: nat, pc: LoopPc): System
    requires id in s.loops
  {
    s.(loops := s.loops[id := s.loops[id].(pc := pc)])
  }

  ghost predicate LoopNext(w: World, s: System, s': System, id: nat, a: LoopAction) {
    id in s.loops &&
    var Loop(c, k, pc) := s.loops[id];
    match a
    case ReadHead(latest) =>
      && pc.Resting? && w.minConf(c) <= latest
      && s' == WithPc(s, id, Polled(latest, latest - w.minConf(c)))
    case ReadCursor =>
      && pc.Polled?
      && s' == WithPc(s, id, Positioned(pc.latest, pc.maxConfirmed, CursorOf(s.db.cursors, c, k)))
    case InitCursor(applied) =>
      && pc.Positioned? && pc.cursor == 0
      && s' == if applied then Initialised(WithPc(s, id, Resting), c, k, pc.maxConfirmed) else WithPc(s, id, Resting)
    case StartWalk =>
      && pc.Positioned? && pc.cursor != 0 && pc.cursor + 1 <= pc.maxConfirmed
      && var last := pc.cursor + w.maxBlocks;
         s' == WithPc(s, id, Walking(pc.latest, pc.cursor + 1,
                                     if last > pc.maxConfirmed then pc.maxConfirmed else last))
    case Scan(events, now) =>
      && pc.Walking? && pc.block <= pc.end <= pc.latest
      && multiset(events) == multiset(w.scan(c, k, pc.block))
      && s' == WithPc(s, id, Scanned(pc.latest, pc.block, pc.end,
                                     Converted(Stamp(events, pc.latest - pc.block), w.minConf(c), w.kst, now)))
    case Commit(applied, goOn) =>
      && pc.Scanned? && (goOn ==> applied && pc.block < pc.end)
      && var t := WithPc(s, id, if goOn then Walking(pc.latest, pc.block + 1, pc.end) else Resting);
         s' == if applied
               then t.(db := Saved(s.db, c, k, pc.block, pc.deposits), done := s.done + {(c, k, pc.block)})
               else t
    case GiveUp =>
      s' == WithPc(s, id, Resting)
  }

  /** The cursor-initialising transaction. The first non-zero initialisation is remembered. */
  function Initialised(s: System, c: int, k: Kind, m: nat): System {
    s.(db := Saved(s.db, c, k, m, []),
       inits := if m != 0 && (c, k) !in s.inits then s.inits[(c, k) := m] else s.inits)
  }

  // ---------- publisher, connection, Adapter ----------

  datatype PubAction =
    | Connect
    | Lose(got: set<Deposit>)
    | Fetch
    | SkipSent
    | Write
    | Record
    | EndFill
    | Receive
    | AckOne(id: string)
    | Echo(id: string)
    | Enqueue
    | Overflow
    | TakeAck
    | Unlist(applied: bool)

  function FetchLimit(w: World): nat {
    if w.maxInFlight > w.maxBatch then w.maxBatch else w.maxInFlight
  }

  function IdOf(d: Deposit): string { AckId(d.key) }

  ghost predicate Echoes(received: set<Deposit>, id: string) {
    exists d | d in received :: IdOf(d) == id
  }

  function MessagesIn(c: Conn): set<Deposit> {
    (set d | d in c.wire) + (if c.phase.Filling? then set d | d in c.phase.todo else {})
  }

  /** When a step can be taken on a live connection. */
  ghost predicate Enabled(w: World, s: System, c: Conn, a: PubAction) {
    var full := |c.out| >= w.maxInFlight;
    match a
    case Connect => false
    case Lose(got) => got <= MessagesIn(c)
    case Fetch => c.phase.Selecting? && !full
    case SkipSent => c.phase.Filling? && c.phase.todo != [] && !full && IdOf(c.phase.todo[0]) in c.out
    case Write => c.phase.Filling? && c.phase.todo != [] && !full && IdOf(c.phase.todo[0]) !in c.out
    case Record => c.phase.Wrote?
    case EndFill => c.phase.Filling? && (full || c.phase.todo == [])
    case Receive => c.wire != []
    case AckOne(id) => id in c.inbox
    case Echo(id) => Echoes(s.received, id)
    case Enqueue => c.acks != [] && |c.queue| < w.maxInFlight
    case Overflow => c.acks != [] && |c.queue| >= w.maxInFlight
    case TakeAck => c.phase.Selecting? && c.queue != []
    case Unlist(_) => c.phase.Taken?
  }

  /** What the step does to the connection. Lose is any error, timeout or shutdown; Echo is a
      repeated or stale ACK for something received at any earlier time; Overflow is the reader's
      default branch, which drops the ACK. */
  ghost function ConnAfter(w: World, s: System, c: Conn, a: PubAction): Link
    requires Enabled(w, s, c, a)
  {
    match a
    case Lose(_) => Down
    case Fetch => Up(c.(phase := Filling(Payloads(Prefix(s.db.rows, FetchLimit(w))))))
    case SkipSent => Up(c.(phase := Filling(c.phase.todo[1..])))
    case Write =>
      var d := c.phase.todo[0];
      Up(c.(phase := Wrote(d, c.phase.todo[1..]), wire := c.wire + [d], written := c.written + {d.key}))
    case Record => Up(c.(phase := Filling(c.phase.todo), out := c.out[IdOf(c.phase.sent) := c.phase.sent.key]))
    case EndFill => Up(c.(phase := Selecting))
    case Receive => Up(c.(wire := c.wire[1..], inbox := c.inbox + multiset{IdOf(c.wire[0])}))
    case AckOne(id) => Up(c.(inbox := c.inbox - multiset{id}, acks := c.acks + [id]))
    case Echo(id) => Up(c.(acks := c.acks + [id]))
    case Enqueue =>
      Up(c.(acks := c.acks[1..], queue := c.queue + [c.acks[0]], arrived := c.arrived + {c.acks[0]}))
    case Overflow => Up(c.(acks := c.acks[1..], arrived := c.arrived + {c.acks[0]}))
    case TakeAck =>
      var id := c.queue[0];
      if id in c.out then Up(c.(queue := c.queue[1..], phase := Taken(c.out[id]), out := c.out - {id}))
      else Up(c.(queue := c.queue[1..]))
    case Unlist(_) => Up(c.(phase := Selecting))
  }

  ghost function PubAfter(w: World, s: System, c: Conn, a: PubAction): System
    requires Enabled(w, s, c, a)
  {
    var received := match a
                    case Lose(got) => s.received + got
                    case Receive => s.received + {c.wire[0]}
                    case _ => s.received;
    var rows := if a == Unlist(true) then Delete(s.db.rows, c.phase.key) else s.db.rows;
    s.(link := ConnAfter(w, s, c, a), received := received, db := s.db.(rows := rows))
  }

  ghost predicate PubNext(w: World, s: System, s': System, a: PubAction) {
    match s.link
    case Down => a.Connect? && s' == s.(link := Up(FreshConn()))
    case Up(c) => Enabled(w, s, c, a) && s' == PubAfter(w, s, c, a)
  }

  // ---------- the whole system ----------

  datatype Action =
    | Spawn(id: nat, chain: int, kind: Kind)
    | Exit(id: nat)
    | ByLoop(id: nat, step: LoopAction)
    | ByPublisher(act: PubAction)
    | Crash(got: set<Deposit>)

  ghost predicate Next(w: World, s: System, s': System, a: Action) {
    match a
    case Spawn(id, c, k) =>
      id !in s.loops && s' == s.(loops := s.loops[id := Loop(c, k, Resting)])
    case Exit(id) =>
      id in s.loops && s' == s.(loops := s.loops - {id})
    case ByLoop(id, step) =>
      LoopNext(w, s, s', id, step)
    case ByPublisher(act) =>
      PubNext(w, s, s', act)
    case Crash(got) =>
      && (s.link.Up? ==> got <= MessagesIn(s.link.conn)) && (s.link.Down? ==> got == {})
      && s' == s.(loops := map[], link := Down, received := s.received + got)
  }

  ghost predicate IsRun(w: World, states: seq<System>, actions: seq<Action>) {
    && |states| == |actions| + 1
    && Init(states[0])
    && forall i | 0 <= i < |actions| :: Next(w, states[i], states[i + 1], actions[i])
  }

  lemma Extend(w: World, states: seq<System>, actions: seq<Action>, a: Action, t: System)
    returns (states': seq<System>, actions': seq<Action>)
    requires IsRun(w, states, actions) && Next(w, states[|actions|], t, a)
    ensures IsRun(w, states', actions') && states'[|actions'|] == t && actions' == actions + [a]
  {
    states', actions' := states + [t], actions + [a];
  }

  // ---------- paths, for tying the imperative code to the steps ----------

  ghost predicate IsPath(w: World, states: seq<System>, actions: seq<Action>) {
    && |states| == |actions| + 1
    && forall i | 0 <= i < |actions| :: Next(w, states[i], states[i + 1], actions[i])
  }

  /** The system can go from `s` to `t`. */
  ghost predicate Leads(w: World, s: System, t: System) {
    exists states: seq<System>, actions: seq<Action> ::
      IsPath(w, states, actions) && states[0] == s && states[|actions|] == t
  }

  lemma LeadsNowhere(w: World, s: System)
    ensures Leads(w, s, s)
  {
    assert IsPath(w, [s], []);
  }

  lemma LeadsOn(w: World, s: System, t: System, u: System, a: Action)
    requires Leads(w, s, t) && Next(w, t, u, a)
    ensures Leads(w, s, u)
  {
    var states: seq<System>, actions: seq<Action> :|
      IsPath(w, states, actions) && states[0] == s && states[|actions|] == t;
    assert IsPath(w, states + [u], actions + [a]);
    assert (states + [u])[|actions + [a]|] == u;
  }
}
