/** A zero cursor means "not initialised" (internal/scanner/loop.go). When loops overlap, one of them may
    initialise the cursor of a scanner that another has initialised since. This module states the guard
    on such a write that the stored cursor decides, proves that guarded runs lose nothing, and that
    every write the guard forbids can lose a deposit. */
module InitGuard {
  import opened Decimal
  import opened Deposits
  import opened BufferStore
  import opened Pipeline
  import opened NoLoss
  import opened ConfirmationGate

  /** The stored cursor is still zero, or the new one is not zero and not beyond it. */
  predicate Guard(stored: nat, m: nat) { stored == 0 || 0 < m <= stored }

  /** The step is an initialising write that takes effect. */
  ghost predicate Initialises(s: System, a: Action) {
    a.ByLoop? && a.step == InitCursor(true) && a.id in s.loops && s.loops[a.id].pc.Positioned?
  }

  ghost predicate Guarded(s: System, a: Action) {
    Initialises(s, a) ==>
      var l := s.loops[a.id];
      Guard(CursorOf(s.db.cursors, l.chain, l.kind), l.pc.maxConfirmed)
  }

  // ---------- the guard suffices ----------

  /** A scanner once initialised never shows a zero cursor again. */
  ghost predicate NonZero(inits: Inits, cursors: Cursors) {
    forall c, k | (c, k) in inits :: CursorOf(cursors, c, k) != 0
  }

  lemma NonZeroMoves(inits: Inits, cursors: Cursors, c: int, k: Kind, m: nat)
    requires NonZero(inits, cursors) && (m != 0 || (c, k) !in inits)
    ensures NonZero(inits, cursors[(c, k) := m])
    ensures m != 0 ==> NonZero(inits[(c, k) := m], cursors[(c, k) := m])
  {
    forall c', k' | (c', k') != (c, k)
      ensures CursorOf(cursors[(c, k) := m], c', k') == CursorOf(cursors, c', k')
    {
    }
  }

  lemma GuardedLoopStep(w: World, s: System, s': System, id: nat, a: LoopAction)
    requires Inv(w, s) && NonZero(s.inits, s.db.cursors) && LoopNext(w, s, s', id, a) && Guarded(s, ByLoop(id, a))
    ensures Benign(s, ByLoop(id, a)) && NonZero(s'.inits, s'.db.cursors)
  {
    var Loop(c, k, pc) := s.loops[id];
    assert LoopOk(w, s.inits, s.done, s.loops[id]);
    if a.InitCursor? {
      assert CursorOk(s.inits, s.done, c, k, CursorOf(s.db.cursors, c, k));
      if a.applied { NonZeroMoves(s.inits, s.db.cursors, c, k, pc.maxConfirmed); }
    } else if a.Commit? && a.applied {
      NonZeroMoves(s.inits, s.db.cursors, c, k, pc.block);
    }
  }

  lemma GuardedStep(w: World, s: System, s': System, a: Action)
    requires Inv(w, s) && NonZero(s.inits, s.db.cursors) && Next(w, s, s', a) && Guarded(s, a)
    ensures Benign(s, a) && NonZero(s'.inits, s'.db.cursors)
  {
    match a {
      case ByLoop(id, step) => GuardedLoopStep(w, s, s', id, step);
      case ByPublisher(act) => PublisherFrame(w, s, s', act);
      case _ =>
    }
  }

  lemma {:induction false} GuardedRunKeeps(w: World, states: seq<System>, actions: seq<Action>, i: nat)
    requires Coherent(w) && IsRun(w, states, actions) && i < |states|
    requires forall j | 0 <= j < |actions| :: Guarded(states[j], actions[j])
    ensures Inv(w, states[i]) && NonZero(states[i].inits, states[i].db.cursors)
    ensures i > 0 ==> Benign(states[i - 1], actions[i - 1])
  {
    if i > 0 {
      GuardedRunKeeps(w, states, actions, i - 1);
      GuardedStep(w, states[i - 1], states[i], actions[i - 1]);
      StepKeepsInv(w, states[i - 1], states[i], actions[i - 1]);
    }
  }

  /** However loops overlap, a run whose initialising writes are guarded loses nothing. */
  lemma GuardedRunsLoseNothing(w: World, states: seq<System>, actions: seq<Action>)
    requires Coherent(w) && IsRun(w, states, actions)
    requires forall i | 0 <= i < |actions| :: Guarded(states[i], actions[i])
    ensures forall s | s in states :: NothingLost(w, s)
  {
    forall i | 0 <= i < |states| ensures NothingLost(w, states[i]) {
      GuardedRunKeeps(w, states, actions, i);
      InvMeansSafe(w, states[i]);
    }
  }

  /** Three ways in which no initialising write does harm: the guard, one loop per scanner, or no
      uncommitted block passed. */
  ghost predicate SafeInits(states: seq<System>, actions: seq<Action>) {
    || (forall i | 0 <= i < |actions| && i < |states| :: Guarded(states[i], actions[i]))
    || (forall s | s in states :: Sole(s))
    || (forall i | 0 <= i < |actions| && i < |states| :: Benign(states[i], actions[i]))
  }

  lemma SafeInitsLoseNothing(w: World, states: seq<System>, actions: seq<Action>)
    requires Coherent(w) && IsRun(w, states, actions) && SafeInits(states, actions)
    ensures forall s | s in states :: NothingLost(w, s)
  {
    if forall i | 0 <= i < |actions| && i < |states| :: Guarded(states[i], actions[i]) {
      GuardedRunsLoseNothing(w, states, actions);
    } else if forall s | s in states :: Sole(s) {
      SingleLoopLosesNothing(w, states, actions);
    } else {
      NoDepositLost(w, states, actions);
    }
  }

  // ---------- every other write can lose a deposit ----------

  function LostEvent(c: int): DepositEvent {
    DepositEvent(Key(c, "0xab", 0), "a", "b", Some(5), "ETH", 0, 0, "t")
  }

  /** Block `b` holds one deposit and no other block any. */
  function LossWorld(c: int, k: Kind, b: nat): World {
    World((c', k', b') => if c' == c && k' == k && b' == b then [LostEvent(c)] else [],
          t => Some(t), _ => 0, 10, 10, 10)
  }

  lemma LossWorldOwes(c: int, k: Kind, b: nat)
    ensures Coherent(LossWorld(c, k, b))
    ensures Expected(LossWorld(c, k, b), c, k, b) != {}
  {
    var w := LossWorld(c, k, b);
    assert LostEvent(c) in w.scan(c, k, b);
    assert ExpectedCore(LostEvent(c), w.kst).value in Expected(w, c, k, b);
  }

  /** Guarded, or the write that takes the cursor of (c, k) from `stored` to `m`. */
  ghost predicate Tolerated(s: System, a: Action, c: int, k: Kind, stored: nat, m: nat) {
    || Guarded(s, a)
    || (Initialises(s, a) && CursorOf(s.db.cursors, c, k) == stored && s.loops[a.id].chain == c &&
        s.loops[a.id].kind == k && s.loops[a.id].pc.maxConfirmed == m)
  }

  ghost predicate TolerantRun(w: World, states: seq<System>, actions: seq<Action>, c: int, k: Kind, stored: nat,
                              m: nat) {
    && IsRun(w, states, actions)
    && forall i | 0 <= i < |actions| :: Tolerated(states[i], actions[i], c, k, stored, m)
  }

  lemma Goes(w: World, states: seq<System>, actions: seq<Action>, c: int, k: Kind, stored: nat, m: nat, a: Action,
             t: System)
    returns (states': seq<System>, actions': seq<Action>)
    requires TolerantRun(w, states, actions, c, k, stored, m)
    requires Next(w, states[|actions|], t, a) && Tolerated(states[|actions|], a, c, k, stored, m)
    ensures TolerantRun(w, states', actions', c, k, stored, m) && states'[|actions'|] == t
  {
    hide Next;
    hide Tolerated;
    states', actions' := states + [t], actions + [a];
  }

  /** The state after two loops of one scanner have read a zero cursor, at heads x and y, and the first
      has initialised it. */
  function BothRead(c: int, k: Kind, x: nat, y: nat): System {
    var s := System(Db([], map[]), map[0 := Loop(c, k, Resting), 1 := Loop(c, k, Positioned(y, y, 0))], Down, {},
                    map[], {});
    Initialised(s, c, k, x)
  }

  lemma ReachBothRead(w: World, c: int, k: Kind, x: nat, y: nat, stored: nat, m: nat)
    returns (states: seq<System>, actions: seq<Action>)
    requires w.minConf(c) == 0
    ensures TolerantRun(w, states, actions, c, k, stored, m) && states[|actions|] == BothRead(c, k, x, y)
  {
    var s0 := System(Db([], map[]), map[], Down, {}, map[], {});
    var s1 := s0.(loops := map[0 := Loop(c, k, Resting)]);
    var s2 := s1.(loops := s1.loops[1 := Loop(c, k, Resting)]);
    var s3 := WithPc(s2, 0, Polled(x, x));
    var s4 := WithPc(s2, 0, Positioned(x, x, 0));
    var s5 := WithPc(s4, 1, Polled(y, y));
    var s6 := WithPc(s4, 1, Positioned(y, y, 0));
    states, actions := [s0], [];
    hide TolerantRun;
    assert TolerantRun(w, states, actions, c, k, stored, m) by { NoStep(w, c, k, stored, m); }
    states, actions := Goes(w, states, actions, c, k, stored, m, Spawn(0, c, k), s1);
    states, actions := Goes(w, states, actions, c, k, stored, m, Spawn(1, c, k), s2);
    states, actions := Goes(w, states, actions, c, k, stored, m, ByLoop(0, ReadHead(x)), s3);
    states, actions := Goes(w, states, actions, c, k, stored, m, ByLoop(0, ReadCursor), s4);
    states, actions := Goes(w, states, actions, c, k, stored, m, ByLoop(1, ReadHead(y)), s5);
    states, actions := Goes(w, states, actions, c, k, stored, m, ByLoop(1, ReadCursor), s6);
    states, actions := Goes(w, states, actions, c, k, stored, m, ByLoop(0, InitCursor(true)), BothRead(c, k, x, y));
  }

  lemma NoStep(w: World, c: int, k: Kind, stored: nat, m: nat)
    ensures TolerantRun(w, [System(Db([], map[]), map[], Down, {}, map[], {})], [], c, k, stored, m)
  {
  }

  /** The second loop writes a later head: block stored + 1 is passed over. */
  lemma LaterHeadLoses(c: int, k: Kind, stored: nat, m: nat) returns (states: seq<System>, actions: seq<Action>)
    requires 0 < stored < m
    ensures TolerantRun(LossWorld(c, k, stored + 1), states, actions, c, k, stored, m)
    ensures !NothingLost(LossWorld(c, k, stored + 1), states[|actions|])
  {
    var w := LossWorld(c, k, stored + 1);
    LossWorldOwes(c, k, stored + 1);
    states, actions := ReachBothRead(w, c, k, stored, m, stored, m);
    var s := BothRead(c, k, stored, m);
    var t := Initialised(WithPc(s, 1, Resting), c, k, m);
    states, actions := Goes(w, states, actions, c, k, stored, m, ByLoop(1, InitCursor(true)), t);
    NothingHeld(w, t, c, k, stored + 1);
  }

  /** The second loop resets the cursor to zero, and the next poll of the first initialises it again. */
  lemma ResetLoses(c: int, k: Kind, stored: nat) returns (states: seq<System>, actions: seq<Action>)
    requires 0 < stored
    ensures TolerantRun(LossWorld(c, k, stored + 1), states, actions, c, k, stored, 0)
    ensures !NothingLost(LossWorld(c, k, stored + 1), states[|actions|])
  {
    var w := LossWorld(c, k, stored + 1);
    LossWorldOwes(c, k, stored + 1);
    states, actions := ReachBothRead(w, c, k, stored, 0, stored, 0);
    var s := BothRead(c, k, stored, 0);
    var t := Initialised(WithPc(s, 1, Resting), c, k, 0);
    var h := stored + 1;
    var t' := Initialised(t, c, k, h);
    hide TolerantRun;
    hide NothingLost;
    states, actions := Goes(w, states, actions, c, k, stored, 0, ByLoop(1, InitCursor(true)), t);
    states, actions := Goes(w, states, actions, c, k, stored, 0, ByLoop(0, ReadHead(h)), WithPc(t, 0, Polled(h, h)));
    states, actions := Goes(w, states, actions, c, k, stored, 0, ByLoop(0, ReadCursor),
                            WithPc(t, 0, Positioned(h, h, 0)));
    states, actions := Goes(w, states, actions, c, k, stored, 0, ByLoop(0, InitCursor(true)), t');
    NothingHeld(w, t', c, k, h);
  }

  lemma NothingHeld(w: World, s: System, c: int, k: Kind, b: nat)
    requires s.db.rows == [] && s.received == {} && Expected(w, c, k, b) != {}
    requires (c, k) in s.inits && s.inits[(c, k)] < b <= CursorOf(s.db.cursors, c, k)
    ensures !NothingLost(w, s)
  {
    var core :| core in Expected(w, c, k, b);
    assert !Held(s.db.rows, s.received, core);
    assert !HoldsBlock(w, s.db.rows, s.received, c, k, b);
  }

  ghost predicate Survives(w: World, states: seq<System>, actions: seq<Action>, c: int, k: Kind, stored: nat, m: nat) {
    Coherent(w) && TolerantRun(w, states, actions, c, k, stored, m) ==> forall s | s in states :: NothingLost(w, s)
  }

  /** The guard is exact. Allow, besides guarded writes, those that take a cursor from `stored` to `m`:
      then no run of any world loses a deposit if and only if the guard holds of `stored` and `m`. */
  lemma GuardIsExact(c: int, k: Kind, stored: nat, m: nat)
    ensures Guard(stored, m) <==> forall w, states, actions :: Survives(w, states, actions, c, k, stored, m)
  {
    hide Coherent;
    hide Next;
    hide NothingLost;
    if Guard(stored, m) {
      forall w, states, actions ensures Survives(w, states, actions, c, k, stored, m) {
        if Coherent(w) && TolerantRun(w, states, actions, c, k, stored, m) {
          GuardedRunsLoseNothing(w, states, actions);
        }
      }
    } else {
      var states, actions;
      if m == 0 {
        states, actions := ResetLoses(c, k, stored);
      } else {
        states, actions := LaterHeadLoses(c, k, stored, m);
      }
      var w := LossWorld(c, k, stored + 1);
      LossWorldOwes(c, k, stored + 1);
      assert states[|actions|] in states;
      assert !Survives(w, states, actions, c, k, stored, m);
    }
  }

  // ---------- any run that passes over an unscanned block ----------

  /** The same world but for one block, which holds `e` alone. */
  function Altered(w: World, c: int, k: Kind, b: nat, e: DepositEvent): World {
    w.(scan := (c': int, k': Kind, b': nat) => if c' == c && k' == k && b' == b then [e] else w.scan(c', k', b'))
  }

  ghost predicate Scans(s: System, a: Action, c: int, k: Kind, b: nat) {
    a.ByLoop? && a.step.Scan? && a.id in s.loops && s.loops[a.id].chain == c && s.loops[a.id].kind == k &&
    s.loops[a.id].pc.Walking? && s.loops[a.id].pc.block == b
  }

  lemma PublisherSameStep(w: World, w': World, s: System, s': System, a: PubAction)
    requires PubNext(w, s, s', a) && w' == w.(scan := w'.scan)
    ensures PubNext(w', s, s', a)
  {
    hide AckId;
    if s.link.Up? {
      var c := s.link.conn;
      assert Enabled(w', s, c, a);
      assert ConnAfter(w', s, c, a) == ConnAfter(w, s, c, a);
    }
  }

  lemma SameStep(w: World, s: System, s': System, a: Action, c: int, k: Kind, b: nat, e: DepositEvent)
    requires Next(w, s, s', a) && !Scans(s, a, c, k, b)
    ensures Next(Altered(w, c, k, b, e), s, s', a)
  {
    if a.ByPublisher? {
      PublisherSameStep(w, Altered(w, c, k, b, e), s, s', a.act);
    }
  }

  ghost predicate Unused(w: World, key: Key) {
    forall c, k, b, e | Emits(w, c, k, b, e) :: e.key != key
  }

  lemma AlteredIsCoherent(w: World, c: int, k: Kind, b: nat, e: DepositEvent)
    requires Coherent(w) && e.key.chainId == c && Unused(w, e.key)
    ensures Coherent(Altered(w, c, k, b, e))
  {
    var w' := Altered(w, c, k, b, e);
    forall c', k', b', e' | Emits(w', c', k', b', e') ensures (Emits(w, c', k', b', e') && e'.key != e.key) || e' == e {
      assert e' == e || Emits(w, c', k', b', e');
    }
  }

  /** What the listener holds has a key that some scan emitted. */
  lemma HeldIsUsed(w: World, states: seq<System>, actions: seq<Action>, i: nat, core: Deposit)
    requires Coherent(w) && IsRun(w, states, actions) && i < |states|
    requires Held(states[i].db.rows, states[i].received, core)
    ensures !Unused(w, core.key)
  {
    hide FormatUnits;
    RunKeepsGate(w, states, actions, i);
    var s := states[i];
    var d: Deposit;
    if r :| r in s.db.rows && Core(r.deposit) == core {
      d := r.deposit;
      assert GenuineAt(w, d, r.block);
    } else {
      d :| d in s.received && Core(d) == core;
    }
    assert Genuine(w, d);
    var k, b :| Core(d) in Expected(w, d.key.chainId, k, b);
    var e :| e in w.scan(d.key.chainId, k, b) && ExpectedCore(e, w.kst) == Some(Core(d));
    assert Emits(w, d.key.chainId, k, b, e);
  }

  /** Take any run that ends with an initialising write past a block no loop has scanned. Had that block
      held a deposit, the very same run would have lost it. */
  lemma UnscannedBlockIsLost(w: World, states: seq<System>, actions: seq<Action>, id: nat, b: nat, e: DepositEvent)
    requires Coherent(w) && IsRun(w, states, actions) && |actions| > 0
    requires var s := states[|actions| - 1];
             && actions[|actions| - 1] == ByLoop(id, InitCursor(true)) && Initialises(s, actions[|actions| - 1])
             && var Loop(c, k, pc) := s.loops[id];
                && (c, k) in s.inits && s.inits[(c, k)] < b <= pc.maxConfirmed
                && (forall i | 0 <= i < |actions| :: !Scans(states[i], actions[i], c, k, b))
                && e.key.chainId == c && Unused(w, e.key) && ExpectedCore(e, w.kst).Some?
    ensures var w' := Altered(w, states[|actions| - 1].loops[id].chain, states[|actions| - 1].loops[id].kind, b, e);
            Coherent(w') && IsRun(w', states, actions) && !NothingLost(w', states[|actions|])
  {
    hide FormatUnits;
    var n := |actions| - 1;
    var Loop(c, k, pc) := states[n].loops[id];
    var w' := Altered(w, c, k, b, e);
    AlteredIsCoherent(w, c, k, b, e);
    forall i | 0 <= i < |actions| ensures Next(w', states[i], states[i + 1], actions[i]) {
      SameStep(w, states[i], states[i + 1], actions[i], c, k, b, e);
    }
    var core := ExpectedCore(e, w.kst).value;
    assert e in w'.scan(c, k, b) && core in Expected(w', c, k, b);
    var t := states[n + 1];
    assert Next(w, states[n], t, actions[n]);
    assert CursorOf(t.db.cursors, c, k) == pc.maxConfirmed && t.inits == states[n].inits;
    if Held(t.db.rows, t.received, core) { HeldIsUsed(w, states, actions, n + 1, core); }
    assert !HoldsBlock(w', t.db.rows, t.received, c, k, b);
  }
}
