/** The supervisor (internal/supervisor/supervisor.go) and the shared RPC client of each pair of loops
    (cmd/listener/main.go) as a transition system: the reconcile goroutine, the log and trace goroutines
    of every pair, the goroutine that closes `done`, and cancellation from above. */
module Supervisor {
  import opened BufferStore

  // ---------- one pair of loops ----------

  /** Where a loop goroutine stands: running, about to close the client because it held the last
      reference, returned from its run, past its deferred cancel, past its deferred wg.Done. */
  datatype Stage = Alive | Releasing | Returned | Cancelled | Finished

  /** `refs` is the atomic counter, `closes` the number of calls of the client's close function. */
  datatype Runner = Runner(
    chain: int, hash: string, cancelled: bool, log: Stage, trace: Stage, refs: int, closes: nat, done: bool)

  function Started(chain: int, hash: string): Runner { Runner(chain, hash, false, Alive, Alive, 2, 0, false) }

  function StageOf(r: Runner, k: Kind): Stage { if k.LogKind? then r.log else r.trace }

  function WithStage(r: Runner, k: Kind, st: Stage): Runner {
    if k.LogKind? then r.(log := st) else r.(trace := st)
  }

  /** A loop may end at any time, by an error, a panic or its context; then its deferred calls run
      in order. The last step is the waiter's close of `done`. */
  datatype RunnerAction = Exit(k: Kind) | CloseClient(k: Kind) | CancelPair(k: Kind) | Leave(k: Kind) | CloseDone

  predicate CanStep(r: Runner, a: RunnerAction) {
    match a
    case Exit(k) => StageOf(r, k).Alive?
    case CloseClient(k) => StageOf(r, k).Releasing?
    case CancelPair(k) => StageOf(r, k).Returned?
    case Leave(k) => StageOf(r, k).Cancelled?
    case CloseDone => r.log.Finished? && r.trace.Finished? && !r.done
  }

  function StepRunner(r: Runner, a: RunnerAction): Runner {
    match a
    case Exit(k) => WithStage(r.(refs := r.refs - 1), k, if r.refs - 1 == 0 then Releasing else Returned)
    case CloseClient(k) => WithStage(r.(closes := r.closes + 1), k, Returned)
    case CancelPair(k) => WithStage(r.(cancelled := true), k, Cancelled)
    case Leave(k) => WithStage(r, k, Finished)
    case CloseDone => r.(done := true)
  }

  function Count(r: Runner, st: Stage): nat {
    (if r.log == st then 1 else 0) + (if r.trace == st then 1 else 0)
  }

  ghost predicate RunnerOk(r: Runner) {
    && r.refs == Count(r, Alive)
    && r.closes + Count(r, Releasing) == (if r.refs == 0 then 1 else 0)
    && (forall k | StageOf(r, k).Cancelled? || StageOf(r, k).Finished? :: r.cancelled)
    && (r.done ==> r.log.Finished? && r.trace.Finished?)
  }

  /** `done` means both loops ended and cancelled the pair and the client was closed once; the client
      is never closed twice and never while a loop runs. */
  ghost predicate Orderly(r: Runner) {
    && (r.done ==> r.cancelled && r.log.Finished? && r.trace.Finished? && r.closes == 1)
    && (r.log.Finished? || r.trace.Finished? ==> r.cancelled)
    && r.closes <= 1
    && (r.closes == 1 ==> !r.log.Alive? && !r.trace.Alive?)
  }

  lemma RunnerOkIsOrderly(r: Runner)
    requires RunnerOk(r)
    ensures Orderly(r)
  {
    assert StageOf(r, LogKind) == r.log && StageOf(r, TraceKind) == r.trace;
  }

  lemma RunnerStepKeeps(r: Runner, a: RunnerAction)
    requires RunnerOk(r) && CanStep(r, a)
    ensures RunnerOk(StepRunner(r, a)) && Later(r, StepRunner(r, a))
  {
    assert StageOf(r, LogKind) == r.log && StageOf(r, TraceKind) == r.trace;
    assert forall k :: StageOf(StepRunner(r, a), k) == StageOf(r, k) || (!a.CloseDone? && k == a.k);
  }

  /** What time never undoes. */
  ghost predicate Later(r: Runner, r': Runner) {
    r'.chain == r.chain && r'.hash == r.hash && (r.cancelled ==> r'.cancelled) && (r.done ==> r'.done)
  }

  // ---------- the whole supervisor ----------

  /** One reconcile: the active chains it read; what ran and how many pairs had been started when it
      began (history). */
  datatype Job = Job(active: map<int, string>, before: map<int, nat>, first: nat)

  datatype Pc =
    | Idle
    | Stopping(job: Job, todo: set<int>)
    | Starting(job: Job, todo: set<int>, failed: set<int>)
    | Waiting(job: Job, todo: set<int>, failed: set<int>, chain: int)
    | Launching(job: Job, todo: set<int>, failed: set<int>, chain: int)
    | Registering(job: Job, todo: set<int>, failed: set<int>, chain: int)
    | Sweeping(todo: set<int>)
    | Draining(held: set<nat>)
    | Halted

  /** `runners` lists every pair ever started, in order, and `running` maps chains to positions in it;
      `stopped` is the history of pairs dropped because their chain was deactivated. */
  datatype Sup = Sup(running: map<int, nat>, runners: seq<Runner>, pc: Pc, parentCancelled: bool, stopped: set<nat>)

  datatype Action =
    | ByRunner(id: nat, step: RunnerAction)
    | CancelParent
    | Begin(active: map<int, string>)
    | StopOne(c: int)
    | EndStopping
    | Consider(c: int)
    | WaitOver
    | StartFails
    | Launch
    | Register
    | End
    | Shutdown
    | SweepOne(c: int)
    | EndSweep
    | Drained(id: nat)
    | Halt

  ghost predicate Init(s: Sup) { s == Sup(map[], [], Idle, false, {}) }

  function Cancel(runners: seq<Runner>, id: nat): seq<Runner>
    requires id < |runners|
  {
    runners[id := runners[id].(cancelled := true)]
  }

  ghost predicate Registered(s: Sup, c: int) { c in s.running && s.running[c] < |s.runners| }

  ghost predicate Enabled(s: Sup, a: Action) {
    match a
    case ByRunner(id, step) => id < |s.runners| && CanStep(s.runners[id], step)
    case CancelParent => true
    case Begin(active) => s.pc.Idle?
    case StopOne(c) => s.pc.Stopping? && c in s.pc.todo && Registered(s, c)
    case EndStopping => s.pc.Stopping? && s.pc.todo == {}
    case Consider(c) =>
      s.pc.Starting? && c in s.pc.todo && c in s.pc.job.active && (c in s.running ==> Registered(s, c))
    case WaitOver => s.pc.Waiting? && Registered(s, s.pc.chain) && s.runners[s.running[s.pc.chain]].done
    case StartFails => s.pc.Launching?
    case Launch => s.pc.Launching? && s.pc.chain in s.pc.job.active
    case Register => s.pc.Registering? && s.runners != []
    case End => s.pc.Starting? && s.pc.todo == {}
    case Shutdown => s.pc.Idle? && s.parentCancelled
    case SweepOne(c) => s.pc.Sweeping? && c in s.pc.todo && Registered(s, c)
    case EndSweep => s.pc.Sweeping? && s.pc.todo == {}
    case Drained(id) => s.pc.Draining? && id in s.pc.held && id < |s.runners| && s.runners[id].done
    case Halt => s.pc.Draining? && s.pc.held == {}
  }

  ghost function After(s: Sup, a: Action): Sup
    requires Enabled(s, a)
  {
    var pc := s.pc;
    match a
    case ByRunner(id, step) => s.(runners := s.runners[id := StepRunner(s.runners[id], step)])
    case CancelParent => s.(parentCancelled := true)
    case Begin(active) => s.(pc := Stopping(Job(active, s.running, |s.runners|), s.running.Keys))
    case StopOne(c) =>
      var t := s.(pc := Stopping(pc.job, pc.todo - {c}));
      if c in pc.job.active then t
      else t.(runners := Cancel(s.runners, s.running[c]), running := s.running - {c},
              stopped := s.stopped + {s.running[c]})
    case EndStopping => s.(pc := Starting(pc.job, pc.job.active.Keys, {}))
    case Consider(c) => Considered(s, c)
    case WaitOver =>
      s.(running := s.running - {pc.chain}, pc := Launching(pc.job, pc.todo, pc.failed, pc.chain))
    case StartFails => s.(pc := Starting(pc.job, pc.todo, pc.failed + {pc.chain}))
    case Launch =>
      s.(runners := s.runners + [Started(pc.chain, pc.job.active[pc.chain])],
         pc := Registering(pc.job, pc.todo, pc.failed, pc.chain))
    case Register =>
      s.(running := s.running[pc.chain := |s.runners| - 1], pc := Starting(pc.job, pc.todo, pc.failed))
    case End => s.(pc := Idle)
    case Shutdown => s.(pc := Sweeping(s.running.Keys))
    case SweepOne(c) => s.(runners := Cancel(s.runners, s.running[c]), pc := Sweeping(pc.todo - {c}))
    case EndSweep => s.(running := map[], pc := Draining(set c | c in s.running :: s.running[c]))
    case Drained(id) => s.(pc := Draining(pc.held - {id}))
    case Halt => s.(pc := Halted)
  }

  /** One iteration of the second loop of reconcile, up to its wait or its start. */
  ghost function Considered(s: Sup, c: int): Sup
    requires s.pc.Starting? && c in s.pc.job.active && (c in s.running ==> Registered(s, c))
  {
    var Starting(job, todo, failed) := s.pc;
    var rest := todo - {c};
    if c !in s.running then s.(pc := Launching(job, rest, failed, c))
    else
      var id := s.running[c];
      if s.runners[id].done then s.(running := s.running - {c}, pc := Launching(job, rest, failed, c))
      else if s.runners[id].hash == job.active[c] then s.(pc := Starting(job, rest, failed))
      else s.(runners := Cancel(s.runners, id), pc := Waiting(job, rest, failed, c))
  }

  ghost predicate Next(s: Sup, s': Sup, a: Action) { Enabled(s, a) && s' == After(s, a) }

  ghost predicate IsRun(states: seq<Sup>, actions: seq<Action>) {
    && |states| == |actions| + 1 && Init(states[0])
    && forall i | 0 <= i < |actions| :: Next(states[i], states[i + 1], actions[i])
  }

  // ---------- invariant: lifecycle ----------

  ghost predicate MapOk(running: map<int, nat>, runners: seq<Runner>) {
    forall c | c in running :: running[c] < |runners| && runners[running[c]].chain == c
  }

  /** Every pair ever started is in the map, about to enter it, finished, or cancelled on its way out. */
  ghost predicate Accounted(s: Sup, id: nat)
    requires id < |s.runners|
  {
    var r := s.runners[id];
    || (r.chain in s.running && s.running[r.chain] == id)
    || r.done
    || (r.cancelled && id in s.stopped)
    || (s.pc.Registering? && id == |s.runners| - 1)
    || (s.pc.Draining? && r.cancelled && id in s.pc.held)
  }

  /** The pairs of a chain follow one another, unless the chain was deactivated in between. */
  ghost predicate InTurn(runners: seq<Runner>, stopped: set<nat>) {
    forall i, j | 0 <= i < j < |runners| && runners[i].chain == runners[j].chain :: runners[i].done || i in stopped
  }

  ghost predicate PcOk(s: Sup) {
    match s.pc
    case Waiting(_, _, _, c) => c in s.running && s.running[c] < |s.runners| && s.runners[s.running[c]].cancelled
    case Launching(_, _, _, c) => c !in s.running
    case Registering(_, _, _, c) => c !in s.running && s.runners != [] && s.runners[|s.runners| - 1].chain == c
    case Sweeping(todo) =>
      forall c | c in s.running && c !in todo :: s.running[c] < |s.runners| && s.runners[s.running[c]].cancelled
    case Draining(_) => s.running == map[]
    case Halted => s.running == map[]
    case _ => true
  }

  ghost predicate Inv(s: Sup) {
    && MapOk(s.running, s.runners)
    && (forall r | r in s.runners :: RunnerOk(r))
    && (forall id | 0 <= id < |s.runners| :: Accounted(s, id))
    && InTurn(s.runners, s.stopped)
    && PcOk(s)
  }

  /** Replacing one runner by a later state of itself. */
  lemma RunnerMoves(s: Sup, id: nat, r': Runner)
    requires Inv(s) && id < |s.runners| && RunnerOk(r') && Later(s.runners[id], r')
    ensures Inv(s.(runners := s.runners[id := r']))
  {
    var s' := s.(runners := s.runners[id := r']);
    hide RunnerOk;
    forall r | r in s'.runners ensures RunnerOk(r) {
      assert r == r' || r in s.runners;
    }
    forall i | 0 <= i < |s'.runners| ensures Accounted(s', i) {
      assert Accounted(s, i);
    }
  }

  lemma CancelKeeps(s: Sup, id: nat)
    requires Inv(s) && id < |s.runners|
    ensures Inv(s.(runners := Cancel(s.runners, id)))
  {
    assert s.runners[id] in s.runners;
    RunnerMoves(s, id, s.runners[id].(cancelled := true));
  }

  lemma StopOneKeeps(s: Sup, c: int)
    requires Inv(s) && Enabled(s, StopOne(c))
    ensures Inv(After(s, StopOne(c)))
  {
    hide RunnerOk;
    if c !in s.pc.job.active {
      var id := s.running[c];
      CancelKeeps(s, id);
      var t := s.(runners := Cancel(s.runners, id));
      var s' := After(s, StopOne(c));
      forall i | 0 <= i < |s'.runners| ensures Accounted(s', i) {
        assert Accounted(t, i);
      }
    } else {
      Accounts(s, After(s, StopOne(c)));
    }
  }

  /** Steps that leave the pairs alone and the map no smaller. */
  lemma Accounts(s: Sup, s': Sup)
    requires forall id | 0 <= id < |s.runners| :: Accounted(s, id)
    requires s'.runners == s.runners && s'.running == s.running && s'.stopped == s.stopped
    requires !s.pc.Registering? && !s.pc.Draining?
    ensures forall id | 0 <= id < |s'.runners| :: Accounted(s', id)
  {
    forall id | 0 <= id < |s'.runners| ensures Accounted(s', id) {
      assert Accounted(s, id);
    }
  }

  /** Dropping a finished pair from the map. */
  lemma DropDone(s: Sup, c: int, pc: Pc)
    requires Inv(s) && c in s.running && s.runners[s.running[c]].done
    requires pc.Launching? && pc.chain == c && !s.pc.Registering? && !s.pc.Draining?
    ensures Inv(s.(running := s.running - {c}, pc := pc))
  {
    hide RunnerOk;
    var s' := s.(running := s.running - {c}, pc := pc);
    forall id | 0 <= id < |s'.runners| ensures Accounted(s', id) {
      assert Accounted(s, id);
    }
  }

  lemma ConsiderKeeps(s: Sup, c: int)
    requires Inv(s) && Enabled(s, Consider(c))
    ensures Inv(After(s, Consider(c)))
  {
    hide RunnerOk;
    var s' := After(s, Consider(c));
    if c !in s.running {
      Accounts(s, s');
    } else if s.runners[s.running[c]].done {
      DropDone(s, c, s'.pc);
    } else if s.runners[s.running[c]].hash == s.pc.job.active[c] {
      Accounts(s, s');
    } else {
      CancelKeeps(s, s.running[c]);
      Accounts(s.(runners := s'.runners), s');
    }
  }

  /** A new pair starts only when every earlier pair of the chain is over or was deactivated. */
  lemma LaunchKeeps(s: Sup)
    requires Inv(s) && Enabled(s, Launch)
    ensures Inv(After(s, Launch))
  {
    var s' := After(s, Launch);
    var n := |s.runners|;
    assert RunnerOk(s'.runners[n]);
    hide RunnerOk;
    forall id | 0 <= id < |s'.runners| ensures Accounted(s', id) {
      if id < n { assert Accounted(s, id); }
    }
    forall i | 0 <= i < n && s.runners[i].chain == s.pc.chain ensures s.runners[i].done || i in s.stopped {
      assert Accounted(s, i);
    }
  }

  lemma RegisterKeeps(s: Sup)
    requires Inv(s) && Enabled(s, Register)
    ensures Inv(After(s, Register))
  {
    hide RunnerOk;
    var s' := After(s, Register);
    forall id | 0 <= id < |s'.runners| ensures Accounted(s', id) {
      assert Accounted(s, id);
    }
  }

  lemma ShutdownKeeps(s: Sup, a: Action)
    requires Inv(s) && Enabled(s, a) && (a.SweepOne? || a.EndSweep? || a.Drained? || a.Halt?)
    ensures Inv(After(s, a))
  {
    hide RunnerOk;
    var s' := After(s, a);
    if a.SweepOne? {
      CancelKeeps(s, s.running[a.c]);
      Accounts(s.(runners := s'.runners), s');
    } else {
      forall id | 0 <= id < |s'.runners| ensures Accounted(s', id) {
        assert Accounted(s, id);
      }
    }
  }

  lemma StepKeepsInv(s: Sup, s': Sup, a: Action)
    requires Inv(s) && Next(s, s', a)
    ensures Inv(s')
  {
    match a {
      case ByRunner(id, step) =>
        assert s.runners[id] in s.runners;
        RunnerStepKeeps(s.runners[id], step);
        RunnerMoves(s, id, s'.runners[id]);
      case StopOne(c) => StopOneKeeps(s, c);
      case Consider(c) => ConsiderKeeps(s, c);
      case WaitOver => DropDone(s, s.pc.chain, s'.pc);
      case Launch => LaunchKeeps(s);
      case Register => RegisterKeeps(s);
      case SweepOne(_) => ShutdownKeeps(s, a);
      case EndSweep => ShutdownKeeps(s, a);
      case Drained(_) => ShutdownKeeps(s, a);
      case Halt => ShutdownKeeps(s, a);
      case CancelParent => SamePc(s, s');
      case _ => Accounts(s, s');
    }
  }

  lemma SamePc(s: Sup, s': Sup)
    requires Inv(s) && s' == s.(parentCancelled := true)
    ensures Inv(s')
  {
    forall id | 0 <= id < |s'.runners| ensures Accounted(s', id) {
      assert Accounted(s, id);
    }
  }

  // ---------- theorems over whole runs ----------

  lemma {:induction false} RunKeepsInv(states: seq<Sup>, actions: seq<Action>, i: nat)
    requires IsRun(states, actions) && i < |states|
    ensures Inv(states[i])
  {
    if i > 0 {
      RunKeepsInv(states, actions, i - 1);
      StepKeepsInv(states[i - 1], states[i], actions[i - 1]);
    }
  }

  /** In every state of every run: each pair ever started is in the running map or has its context
      cancelled, save the one startChain is about to record; the deferred calls of every pair ran in
      order and its client was closed at most once. */
  lemma NoOrphan(states: seq<Sup>, actions: seq<Action>, s: Sup, id: nat)
    requires IsRun(states, actions) && s in states && id < |s.runners|
    ensures var r := s.runners[id];
            (r.chain in s.running && s.running[r.chain] == id) || r.cancelled ||
            (s.pc.Registering? && id == |s.runners| - 1)
    ensures Orderly(s.runners[id])
  {
    var i :| 0 <= i < |states| && states[i] == s;
    RunKeepsInv(states, actions, i);
    assert Accounted(s, id);
    assert s.runners[id] in s.runners;
    RunnerOkIsOrderly(s.runners[id]);
  }

  ghost predicate Live(r: Runner) { r.log.Alive? || r.trace.Alive? }

  /** When a pair replaces another of its chain, reloaded or dead, the older one has fully finished:
      two live pairs of one chain mean that the chain was deactivated in between. */
  lemma ReplacedPairIsOver(states: seq<Sup>, actions: seq<Action>, s: Sup, i: nat, j: nat)
    requires IsRun(states, actions) && s in states
    requires i < j < |s.runners| && s.runners[i].chain == s.runners[j].chain
    ensures i in s.stopped || (s.runners[i].done && !Live(s.runners[i]))
    ensures s.runners[i].cancelled
  {
    var n :| 0 <= n < |states| && states[n] == s;
    RunKeepsInv(states, actions, n);
    NoOrphan(states, actions, s, i);
    if i in s.stopped { StoppedAreCancelled(states, actions, n, i); }
  }

  lemma {:induction false} StoppedAreCancelled(states: seq<Sup>, actions: seq<Action>, n: nat, id: nat)
    requires IsRun(states, actions) && n < |states| && id in states[n].stopped
    ensures id < |states[n].runners| && states[n].runners[id].cancelled
  {
    if n > 0 && id in states[n - 1].stopped {
      StoppedAreCancelled(states, actions, n - 1, id);
    }
  }

  /** After shutdown every pair is cancelled, and all but the deactivated ones have finished. */
  lemma ShutdownIsComplete(states: seq<Sup>, actions: seq<Action>, s: Sup, id: nat)
    requires IsRun(states, actions) && s in states && s.pc.Halted? && id < |s.runners|
    ensures s.runners[id].cancelled && (s.runners[id].done || id in s.stopped)
  {
    var n :| 0 <= n < |states| && states[n] == s;
    RunKeepsInv(states, actions, n);
    assert Accounted(s, id);
    NoOrphan(states, actions, s, id);
  }

  lemma Extend(states: seq<Sup>, actions: seq<Action>, a: Action) returns (states': seq<Sup>, actions': seq<Action>)
    requires IsRun(states, actions) && Enabled(states[|actions|], a)
    ensures IsRun(states', actions') && states'[|actions'|] == After(states[|actions|], a)
  {
    states', actions' := states + [After(states[|actions|], a)], actions + [a];
  }

  /** A reconcile that finds chain 1 active and not running comes to start a pair. */
  lemma ComesToStart(states: seq<Sup>, actions: seq<Action>, s: Sup, job: Job)
    returns (states': seq<Sup>, actions': seq<Action>)
    requires IsRun(states, actions) && states[|actions|] == s && s.pc.Idle? && s.running == map[]
    requires job == Job(map[1 := ""], map[], |s.runners|)
    ensures IsRun(states', actions') && states'[|actions'|] == s.(pc := Launching(job, {}, {}, 1))
  {
    assert s.running.Keys == {} && job.active.Keys == {1} && {1} - {1} == {};
    hide IsRun;
    states', actions' := Goes(states, actions, Begin(job.active), s.(pc := Stopping(job, {})));
    states', actions' := Goes(states', actions', EndStopping, s.(pc := Starting(job, {1}, {})));
    states', actions' := Goes(states', actions', Consider(1), s.(pc := Launching(job, {}, {}, 1)));
  }

  lemma StartsOne(states: seq<Sup>, actions: seq<Action>, s: Sup) returns (states': seq<Sup>, actions': seq<Action>)
    requires IsRun(states, actions) && states[|actions|] == s && s.pc.Idle? && s.running == map[]
    ensures IsRun(states', actions')
    ensures states'[|actions'|] == s.(running := map[1 := |s.runners|], runners := s.runners + [Started(1, "")])
  {
    var job := Job(map[1 := ""], map[], |s.runners|);
    var t := s.(runners := s.runners + [Started(1, "")]);
    hide IsRun;
    states', actions' := ComesToStart(states, actions, s, job);
    states', actions' := Goes(states', actions', Launch, t.(pc := Registering(job, {}, {}, 1)));
    t := t.(running := s.running[1 := |s.runners|]);
    states', actions' := Goes(states', actions', Register, t.(pc := Starting(job, {}, {})));
    states', actions' := Goes(states', actions', End, t);
    assert t.running == map[1 := |s.runners|];
  }

  /** A reconcile that finds no chain active cancels and drops the only pair. */
  lemma StopsOne(states: seq<Sup>, actions: seq<Action>, s: Sup) returns (states': seq<Sup>, actions': seq<Action>)
    requires IsRun(states, actions) && states[|actions|] == s && s.pc.Idle?
    requires s.running == map[1 := 0] && |s.runners| == 1
    ensures IsRun(states', actions')
    ensures states'[|actions'|] == s.(running := map[], runners := Cancel(s.runners, 0), stopped := s.stopped + {0})
  {
    var job := Job(map[], s.running, 1);
    var t := s.(running := map[], runners := Cancel(s.runners, 0), stopped := s.stopped + {0});
    assert s.running.Keys == {1} && {1} - {1} == {} && s.running - {1} == map[] && job.active.Keys == {};
    hide IsRun;
    states', actions' := Goes(states, actions, Begin(map[]), s.(pc := Stopping(job, {1})));
    states', actions' := Goes(states', actions', StopOne(1), t.(pc := Stopping(job, {})));
    states', actions' := Goes(states', actions', EndStopping, t.(pc := Starting(job, {}, {})));
    states', actions' := Goes(states', actions', End, t);
  }

  lemma Goes(states: seq<Sup>, actions: seq<Action>, a: Action, t: Sup)
    returns (states': seq<Sup>, actions': seq<Action>)
    requires IsRun(states, actions) && Next(states[|actions|], t, a)
    ensures IsRun(states', actions') && states'[|actions'|] == t
  {
    hide Next;
    states', actions' := states + [t], actions + [a];
  }

  /** Deactivating a chain and reactivating it before its loops have ended does run two pairs at once:
      reconcile does not wait for a deactivated pair. */
  lemma ReactivationOverlaps() returns (states: seq<Sup>, actions: seq<Action>)
    ensures IsRun(states, actions)
    ensures var s := states[|actions|];
            |s.runners| == 2 && s.runners[0].chain == s.runners[1].chain && s.stopped == {0} &&
            Live(s.runners[0]) && Live(s.runners[1]) && s.pc.Idle?
  {
    var s := Sup(map[], [], Idle, false, {});
    states, actions := [s], [];
    states, actions := StartsOne(states, actions, s);
    s := states[|actions|];
    states, actions := StopsOne(states, actions, s);
    s := states[|actions|];
    states, actions := StartsOne(states, actions, s);
  }
}
