/** reconcile, startChain and stopAll as code, with the loop goroutines moving between any two of its
    statements. Every state it passes through is a state of some run of the transition system. */
module SupervisorLoop {
  import opened BufferStore
  import opened Supervisor
  import opened Reconcile

  ghost predicate Reachable(s: Sup) {
    exists states: seq<Sup>, actions: seq<Action> :: IsRun(states, actions) && states[|actions|] == s
  }

  lemma ReachOn(s: Sup, a: Action)
    requires Reachable(s) && Enabled(s, a)
    ensures Reachable(After(s, a))
  {
    hide After;
    hide Enabled;
    var states: seq<Sup>, actions: seq<Action> :| IsRun(states, actions) && states[|actions|] == s;
    var states', actions' := Extend(states, actions, a);
  }

  lemma ReachableIsSound(s: Sup)
    requires Reachable(s)
    ensures Inv(s) && JobInv(s)
  {
    var states: seq<Sup>, actions: seq<Action> :| IsRun(states, actions) && states[|actions|] == s;
    RunKeepsInv(states, actions, |actions|);
    RunKeepsJob(states, actions, |actions|);
  }

  // ---------- a pair always comes to its end ----------

  function StepsLeft(st: Stage): nat {
    match st
    case Alive => 4
    case Releasing => 3
    case Returned => 2
    case Cancelled => 1
    case Finished => 0
  }

  function Remaining(r: Runner): nat { StepsLeft(r.log) + StepsLeft(r.trace) + (if r.done then 0 else 1) }

  lemma StepsRunOut(r: Runner, a: RunnerAction)
    requires CanStep(r, a)
    ensures Remaining(StepRunner(r, a)) < Remaining(r)
  {
  }

  /** The next deferred call of a pair that is not done; there always is one. */
  function NextStep(r: Runner): (a: RunnerAction)
    requires !r.done
    ensures CanStep(r, a)
  {
    var k := if r.log.Finished? then TraceKind else LogKind;
    match StageOf(r, k)
    case Alive => Exit(k)
    case Releasing => CloseClient(k)
    case Returned => CancelPair(k)
    case Cancelled => Leave(k)
    case Finished => CloseDone
  }

  /** The pairs have only moved forward. */
  ghost predicate Ahead(runners: seq<Runner>, runners': seq<Runner>) {
    && |runners| <= |runners'|
    && forall i | 0 <= i < |runners| ::
         Later(runners[i], runners'[i]) && Remaining(runners'[i]) <= Remaining(runners[i])
  }

  lemma AheadSelf(runners: seq<Runner>)
    ensures Ahead(runners, runners)
  {
  }

  lemma AheadOn(a: seq<Runner>, b: seq<Runner>, c: seq<Runner>)
    requires Ahead(a, b) && Ahead(b, c)
    ensures Ahead(a, c)
  {
  }

  // ---------- stopping inactive chains ----------

  /** The pair is cancelled and remembered as deactivated. */
  ghost predicate Dropped(id: nat, runners: seq<Runner>, stopped: set<nat>) {
    id < |runners| && runners[id].cancelled && id in stopped
  }

  /** Inactive chains that are no longer to do have lost their entry, and their pair was dropped. */
  ghost predicate Pruned(before: map<int, nat>, running: map<int, nat>, active: map<int, string>, todo: set<int>,
                         runners: seq<Runner>, stopped: set<nat>) {
    && running == (map c | c in before && (c in active || c in todo) :: before[c])
    && (forall c | c in todo :: c in before)
    && forall c | c in before && c !in active && c !in todo :: Dropped(before[c], runners, stopped)
  }

  lemma PrunedStart(before: map<int, nat>, active: map<int, string>, runners: seq<Runner>, stopped: set<nat>)
    ensures Pruned(before, before, active, before.Keys, runners, stopped)
  {
  }

  lemma PrunedHas(before: map<int, nat>, running: map<int, nat>, active: map<int, string>, todo: set<int>,
                  runners: seq<Runner>, stopped: set<nat>, c: int)
    requires Pruned(before, running, active, todo, runners, stopped) && c in todo
    ensures c in running && c in before && running[c] == before[c]
  {
  }

  lemma PrunedNext(before: map<int, nat>, running: map<int, nat>, running': map<int, nat>, active: map<int, string>,
                   todo: set<int>, runners: seq<Runner>, runners': seq<Runner>, stopped: set<nat>,
                   stopped': set<nat>, c: int)
    requires Pruned(before, running, active, todo, runners, stopped) && c in todo && c in before
    requires running' == if c in active then running else running - {c}
    requires Ahead(runners, runners') && stopped <= stopped'
    requires c !in active ==> Dropped(before[c], runners', stopped')
    ensures Pruned(before, running', active, todo - {c}, runners', stopped')
  {
  }

  lemma PrunedEnd(before: map<int, nat>, running: map<int, nat>, active: map<int, string>, runners: seq<Runner>,
                  stopped: set<nat>)
    requires Pruned(before, running, active, {}, runners, stopped)
    ensures running == map c | c in before && c in active :: before[c]
    ensures forall c | c in before && c !in active :: Dropped(before[c], runners, stopped)
  {
  }

  lemma SomeMember(keys: set<int>)
    ensures keys == {} || exists c :: c in keys
  {
    if forall c :: c !in keys { assert keys == {}; }
  }

  /** Map iteration: any key may come next. */
  method AnyOf(keys: set<int>) returns (c: int)
    requires keys != {}
    ensures c in keys
  {
    SomeMember(keys);
    c :| c in keys;
  }

  class ChainSupervisor {
    var running: map<int, nat>
    var runners: seq<Runner>
    var parentCancelled: bool
    ghost var pc: Pc
    ghost var stopped: set<nat>

    constructor ()
      ensures Valid() && pc.Idle? && running == map[] && runners == [] && !parentCancelled
    {
      running, runners, parentCancelled, pc, stopped := map[], [], false, Idle, {};
      new;
      assert IsRun([State()], []);
    }

    ghost function State(): Sup
      reads this
    {
      Sup(running, runners, pc, parentCancelled, stopped)
    }

    ghost predicate Valid()
      reads this
    {
      Reachable(State())
    }

    /** One step of a loop goroutine or of a waiter. */
    method Advance(id: nat, a: RunnerAction)
      requires Valid() && id < |runners| && CanStep(runners[id], a)
      modifies this`runners
      ensures Valid() && Ahead(old(runners), runners) && |runners| == |old(runners)|
      ensures Remaining(runners[id]) < old(Remaining(runners[id]))
    {
      ReachableIsSound(State());
      assert runners[id] in runners;
      RunnerStepKeeps(runners[id], a);
      StepsRunOut(runners[id], a);
      ReachOn(State(), ByRunner(id, a));
      hide Reachable;
      runners := runners[id := StepRunner(runners[id], a)];
    }

    /** Whatever happens between two statements. */
    method Meanwhile()
      requires Valid()
      modifies this`runners, this`parentCancelled
      ensures Valid() && Ahead(old(runners), runners) && |runners| == |old(runners)|
    {
      hide Reachable;
      var n: int := *;
      for i := 0 to if n > 0 then n else 0
        invariant Valid() && Ahead(old(runners), runners) && |runners| == |old(runners)|
      {
        var id: nat, a: RunnerAction, outer: bool := *, *, *;
        if outer {
          ReachOn(State(), CancelParent);
          parentCancelled := true;
        } else if id < |runners| && CanStep(runners[id], a) {
          Advance(id, a);
        }
      }
    }

    /** Receive from `done`. */
    method AwaitDone(id: nat)
      requires Valid() && id < |runners|
      modifies this`runners, this`parentCancelled
      ensures Valid() && Ahead(old(runners), runners) && |runners| == |old(runners)|
      ensures runners[id].done
    {
      hide Reachable;
      while !runners[id].done
        invariant Valid() && Ahead(old(runners), runners) && |runners| == |old(runners)|
        decreases Remaining(runners[id])
      {
        Meanwhile();
        if !runners[id].done {
          Advance(id, NextStep(runners[id]));
        } else {
          break;
        }
      }
    }

    /** Build and start a pair, and record it; a failure leaves everything as it was. */
    method StartChain(chain: int, hash: string, starts: bool) returns (ok: bool)
      requires Valid() && pc.Launching? && pc.chain == chain && chain in pc.job.active && pc.job.active[chain] == hash
      modifies this
      ensures Valid() && Ahead(old(runners), runners) && ok == starts
      ensures pc == Starting(old(pc.job), old(pc.todo), old(pc.failed) + (if ok then {} else {chain}))
      ensures !ok ==> running == old(running) && runners == old(runners)
      ensures ok ==> running == old(running)[chain := |old(runners)|] && |runners| == |old(runners)| + 1
      ensures ok ==> runners[|old(runners)|].chain == chain && runners[|old(runners)|].hash == hash
    {
      hide Reachable;
      ok := starts;
      if !ok {
        ReachOn(State(), StartFails);
        pc := Starting(pc.job, pc.todo, pc.failed + {chain});
        return;
      }
      ReachOn(State(), Launch);
      runners, pc := runners + [Started(chain, hash)], Registering(pc.job, pc.todo, pc.failed, chain);
      var id := |runners| - 1;
      Meanwhile();
      ReachOn(State(), Register);
      running, pc := running[chain := id], Starting(pc.job, pc.todo, pc.failed);
    }

    /** Wait for the old pair of a reload and drop it. */
    method AwaitOld(chain: int, id: nat)
      requires Valid() && pc.Waiting? && pc.chain == chain && chain in running && running[chain] == id < |runners|
      modifies this
      ensures Valid() && Ahead(old(runners), runners) && |runners| == |old(runners)| && runners[id].done
      ensures running == old(running) - {chain}
      ensures pc == Launching(old(pc.job), old(pc.todo), old(pc.failed), chain)
    {
      hide Reachable;
      AwaitDone(id);
      ReachOn(State(), WaitOver);
      running := running - {chain};
      pc := Launching(pc.job, pc.todo, pc.failed, chain);
    }

    /** One iteration of the second loop. A live pair with the fingerprint read is kept; otherwise the
        old pair, if any, has finished and a new one runs, unless its start failed. Other chains keep
        their entries. */
    method Visit(chain: int, hash: string, starts: bool) returns (ok: bool)
      requires Valid() && pc.Starting? && chain in pc.todo && chain in pc.job.active && pc.job.active[chain] == hash
      modifies this
      ensures Valid() && Ahead(old(runners), runners)
      ensures pc == Starting(old(pc.job), old(pc.todo) - {chain}, old(pc.failed) + (if ok then {} else {chain}))
      ensures ok <==> old(Kept(chain, hash)) || starts
      ensures old(Kept(chain, hash)) ==> ok && running == old(running) && runners == old(runners)
      ensures !old(Kept(chain, hash)) ==>
                && running == (if ok then old(running)[chain := |old(runners)|] else old(running) - {chain})
                && (ok ==> |runners| > |old(runners)| && runners[|old(runners)|].hash == hash)
                && (chain in old(running) ==> old(running)[chain] < |runners| && runners[old(running)[chain]].done)
    {
      hide Reachable;
      ReachableIsSound(State());
      ReachOn(State(), Consider(chain));
      ghost var rest := pc.todo - {chain};
      if chain in running {
        var id := running[chain];
        if runners[id].done {
          running := running - {chain};
          pc := Launching(pc.job, rest, pc.failed, chain);
        } else if runners[id].hash == hash {
          pc := Starting(pc.job, rest, pc.failed);
          return true;
        } else {
          runners := Cancel(runners, id);
          pc := Waiting(pc.job, rest, pc.failed, chain);
          AwaitOld(chain, id);
        }
      } else {
        assert running - {chain} == running;
        pc := Launching(pc.job, rest, pc.failed, chain);
      }
      assert running == old(running) - {chain};
      assert running[chain := |runners|] == old(running)[chain := |runners|];
      ok := StartChain(chain, hash, starts);
    }

    /** The chain has a pair that is not done and has this fingerprint. */
    ghost predicate Kept(chain: int, hash: string)
      reads this
    {
      chain in running && running[chain] < |runners| && !runners[running[chain]].done &&
      runners[running[chain]].hash == hash
    }

    /** One iteration of the first loop. */
    method StopIfInactive(c: int, active: map<int, string>)
      requires Valid() && pc.Stopping? && c in pc.todo && c in running && pc.job.active == active
      modifies this
      ensures Valid() && Ahead(old(runners), runners) && |runners| == |old(runners)|
      ensures pc == Stopping(old(pc.job), old(pc.todo) - {c}) && old(stopped) <= stopped
      ensures running == if c in active then old(running) else old(running) - {c}
      ensures c !in active ==> Dropped(old(running)[c], runners, stopped)
    {
      hide Reachable;
      Meanwhile();
      ReachableIsSound(State());
      ReachOn(State(), StopOne(c));
      if c !in active {
        stopped := stopped + {running[c]};
        runners := Cancel(runners, running[c]);
        running := running - {c};
      }
      pc := Stopping(pc.job, pc.todo - {c});
    }

    /** Stop the pairs of inactive chains: their entries are gone and they are cancelled; the others stay. */
    method StopInactive(active: map<int, string>)
      requires Valid() && pc.Stopping? && pc.todo == running.Keys && pc.job.active == active
      modifies this
      ensures Valid() && Ahead(old(runners), runners) && |runners| == |old(runners)|
      ensures pc == Starting(old(pc.job), active.Keys, {})
      ensures running == map c | c in old(running) && c in active :: old(running)[c]
      ensures forall c | c in old(running) && c !in active :: Dropped(old(running)[c], runners, stopped)
    {
      hide Reachable;
      var todo: set<int> := running.Keys;
      PrunedStart(running, active, runners, stopped);
      hide Pruned;
      hide Ahead;
      AheadSelf(runners);
      while todo != {}
        invariant Valid() && Ahead(old(runners), runners) && |runners| == |old(runners)|
        invariant pc == Stopping(old(pc.job), todo)
        invariant Pruned(old(running), running, active, todo, runners, stopped)
        decreases todo
      {
        var c := AnyOf(todo);
        ghost var running0, runners0, stopped0 := running, runners, stopped;
        PrunedHas(old(running), running, active, todo, runners, stopped, c);
        StopIfInactive(c, active);
        PrunedNext(old(running), running0, running, active, todo, runners0, runners, stopped0, stopped, c);
        AheadOn(old(runners), runners0, runners);
        todo := todo - {c};
      }
      PrunedEnd(old(running), running, active, runners, stopped);
      ReachOn(State(), EndStopping);
      pc := Starting(pc.job, active.Keys, {});
    }

    /** One cycle; `answers` tells whether the active chains can be read and `starts(c)` whether a pair of the
        chain can be built. Unless reading the active chains fails, exactly those whose start did not fail are
        running afterwards, all with the fingerprint read; pairs that neither died nor changed are the
        same, and everything else running was started by this cycle. */
    method ReconcileOnce(active: map<int, string>, answers: bool, starts: int -> bool)
      returns (ok: bool, failed: set<int>)
      requires Valid() && pc.Idle?
      modifies this
      ensures Valid() && pc.Idle? && Ahead(old(runners), runners)
      ensures ok <==> answers
      ensures forall c | c in failed :: c in active && !starts(c)
      ensures !ok ==> running == old(running) && runners == old(runners)
      ensures ok ==> running.Keys == active.Keys - failed
      ensures ok ==> forall c | c in running :: running[c] < |runners| && runners[running[c]].hash == active[c]
      ensures ok ==> forall c | c in active && c in old(running) && old(running)[c] < |runners| &&
                                !runners[old(running)[c]].done && runners[old(running)[c]].hash == active[c] ::
                       c in running && running[c] == old(running)[c]
      ensures ok ==> forall c | c in running ::
                       running[c] >= |old(runners)| || (c in old(running) && running[c] == old(running)[c])
    {
      hide Reachable;
      ok, failed := answers, {};
      if !ok { return; }
      ReachOn(State(), Begin(active));
      pc := Stopping(Job(active, running, |runners|), running.Keys);
      ghost var job := pc.job;
      StopInactive(active);
      var todo: set<int> := active.Keys;
      while todo != {}
        invariant Valid() && Ahead(old(runners), runners) && pc == Starting(job, todo, failed)
        invariant forall c | c in todo :: c in active
        invariant forall c | c in failed :: c in active && !starts(c)
        decreases todo
      {
        var c := AnyOf(todo);
        Meanwhile();
        var started := Visit(c, active[c], starts(c));
        if !started { failed := failed + {c}; }
        todo := todo - {c};
      }
      Converges();
      ReachOn(State(), End);
      pc := Idle;
    }

    lemma Converges()
      requires Valid() && pc.Starting? && pc.todo == {}
      ensures var job := pc.job;
              && running.Keys == job.active.Keys - pc.failed
              && (forall c | c in running :: running[c] < |runners| && runners[running[c]].hash == job.active[c])
              && (forall c | c in job.active && c in job.before && job.before[c] < |runners| &&
                             !runners[job.before[c]].done && runners[job.before[c]].hash == job.active[c] ::
                    c in running && running[c] == job.before[c])
              && (forall c | c in running :: running[c] >= job.first || Untouched(running, job, c))
    {
      var states: seq<Sup>, actions: seq<Action> :| IsRun(states, actions) && states[|actions|] == State();
      ReconcileConverges(states, actions, State());
    }

    /** Cancel every pair and empty the map. */
    method Sweep() returns (held: set<nat>)
      requires Valid() && pc.Idle? && parentCancelled
      modifies this
      ensures Valid() && Ahead(old(runners), runners) && running == map[] && pc == Draining(held)
      ensures forall id | id in held :: id < |runners|
    {
      hide Reachable;
      ReachOn(State(), Shutdown);
      pc := Sweeping(running.Keys);
      var todo: set<int> := running.Keys;
      held := {};
      while todo != {}
        invariant Valid() && Ahead(old(runners), runners) && pc == Sweeping(todo)
        invariant forall c | c in todo :: c in running
        invariant held == set c | c in running && c !in todo :: running[c]
        decreases todo
      {
        var c := AnyOf(todo);
        Meanwhile();
        ReachableIsSound(State());
        ReachOn(State(), SweepOne(c));
        held := held + {running[c]};
        runners := Cancel(runners, running[c]);
        todo := todo - {c};
        pc := Sweeping(todo);
      }
      ReachableIsSound(State());
      ReachOn(State(), EndSweep);
      assert held == set c | c in running :: running[c];
      running, pc := map[], Draining(held);
    }

    /** Cancel every pair, empty the map, then wait for each: afterwards nothing but pairs of formerly
        deactivated chains can still be on its way out. */
    method StopAll()
      requires Valid() && pc.Idle? && parentCancelled
      modifies this
      ensures Valid() && pc.Halted? && running == map[] && Ahead(old(runners), runners)
      ensures forall id | 0 <= id < |runners| :: runners[id].cancelled && (runners[id].done || id in stopped)
    {
      hide Reachable;
      var held := Sweep();
      while held != {}
        invariant Valid() && Ahead(old(runners), runners) && pc == Draining(held) && running == map[]
        invariant forall id | id in held :: id < |runners|
        decreases held
      {
        var id :| id in held;
        AwaitDone(id);
        ReachOn(State(), Drained(id));
        held := held - {id};
        pc := Draining(held);
      }
      ReachOn(State(), Halt);
      pc := Halted;
      AllOver();
    }

    lemma AllOver()
      requires Valid() && pc.Halted?
      ensures forall id | 0 <= id < |runners| :: runners[id].cancelled && (runners[id].done || id in stopped)
    {
      var states: seq<Sup>, actions: seq<Action> :| IsRun(states, actions) && states[|actions|] == State();
      forall id | 0 <= id < |runners| ensures runners[id].cancelled && (runners[id].done || id in stopped) {
        ShutdownIsComplete(states, actions, State(), id);
      }
    }
  }
}
