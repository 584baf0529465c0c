/** What one reconcile achieves, for every map iteration order and whatever the loops do meanwhile. */
module Reconcile {
  import opened Supervisor

  /** Chain `c` needed a new pair: none was running, it died, or its configuration changed. */
  ghost predicate Changed(runners: seq<Runner>, job: Job, c: int) {
    c in job.before ==>
      job.before[c] < |runners| &&
      (runners[job.before[c]].done || c !in job.active || runners[job.before[c]].hash != job.active[c])
  }

  ghost predicate Current(running: map<int, nat>, runners: seq<Runner>, job: Job, c: int) {
    c in running && c in job.active && running[c] < |runners| && runners[running[c]].hash == job.active[c]
  }

  /** The entry of `c` is the one the reconcile began with. */
  ghost predicate Untouched(running: map<int, nat>, job: Job, c: int) {
    (c in running <==> c in job.before) && (c in running ==> running[c] == job.before[c])
  }

  ghost predicate JobShape(runners: seq<Runner>, job: Job) {
    job.first <= |runners| && forall c | c in job.before :: job.before[c] < job.first
  }

  /** While inactive chains are being stopped. */
  ghost predicate StoppingOk(running: map<int, nat>, runners: seq<Runner>, job: Job, todo: set<int>) {
    && |runners| == job.first
    && (forall c | c in running :: Untouched(running, job, c))
    && (forall c | c in job.before && (c in job.active || c in todo) :: c in running)
    && (forall c | c in running :: c in job.active || c in todo)
  }

  /** While active chains are being considered; `busy` is the one in hand. */
  ghost predicate StartingOk(running: map<int, nat>, runners: seq<Runner>, job: Job, todo: set<int>, failed: set<int>,
                             busy: set<int>) {
    && (forall c | c in running || c in todo || c in failed || c in busy :: c in job.active)
    && (forall c | c in failed :: c !in running && c !in todo && c !in busy)
    && (forall c | c in busy :: c !in todo)
    && (forall c | c in job.active && c !in todo && c !in failed && c !in busy :: Current(running, runners, job, c))
    && (forall c | c in todo :: Untouched(running, job, c))
    && (forall c | c in running :: running[c] >= job.first || Untouched(running, job, c))
    && (forall c | c in job.active && !Changed(runners, job, c) :: c in job.before && Untouched(running, job, c))
    && (forall i | job.first <= i < |runners| ::
          runners[i].chain in job.active && Changed(runners, job, runners[i].chain))
    && (forall c | c in failed + busy :: Changed(runners, job, c))
  }

  ghost predicate JobInv(s: Sup) {
    match s.pc
    case Stopping(job, todo) => JobShape(s.runners, job) && StoppingOk(s.running, s.runners, job, todo)
    case Starting(job, todo, failed) =>
      JobShape(s.runners, job) && StartingOk(s.running, s.runners, job, todo, failed, {})
    case Waiting(job, todo, failed, c) =>
      JobShape(s.runners, job) && StartingOk(s.running, s.runners, job, todo, failed, {c}) && c in s.running
    case Launching(job, todo, failed, c) =>
      JobShape(s.runners, job) && StartingOk(s.running, s.runners, job, todo, failed, {c}) && c !in s.running
    case Registering(job, todo, failed, c) =>
      && JobShape(s.runners, job) && StartingOk(s.running, s.runners, job, todo, failed, {c}) && c !in s.running
      && c in job.active && |s.runners| > job.first && s.runners[|s.runners| - 1].hash == job.active[c]
    case _ => true
  }

  lemma ChangedStays(runners: seq<Runner>, runners': seq<Runner>, job: Job, c: int)
    requires Changed(runners, job, c) && |runners| <= |runners'|
    requires forall i | 0 <= i < |runners| :: Later(runners[i], runners'[i])
    ensures Changed(runners', job, c)
  {
  }

  lemma RunnersMove(s: Sup, s': Sup)
    requires JobInv(s) && s'.pc == s.pc && s'.running == s.running && |s'.runners| == |s.runners|
    requires forall i | 0 <= i < |s.runners| :: Later(s.runners[i], s'.runners[i])
    ensures JobInv(s')
  {
    if !s.pc.Idle? && !s.pc.Stopping? && !s.pc.Sweeping? && !s.pc.Draining? && !s.pc.Halted? {
      var job := s.pc.job;
      forall c | Changed(s.runners, job, c) ensures Changed(s'.runners, job, c) {
        ChangedStays(s.runners, s'.runners, job, c);
      }
      hide Changed;
    }
  }

  /** The chain in hand needs a new pair. */
  lemma TakeInHand(running: map<int, nat>, running': map<int, nat>, runners: seq<Runner>, job: Job, todo: set<int>,
                   failed: set<int>, c: int)
    requires StartingOk(running, runners, job, todo, failed, {}) && c in todo && Changed(runners, job, c)
    requires running' == running || running' == running - {c}
    ensures StartingOk(running', runners, job, todo - {c}, failed, {c})
  {
    hide Changed;
  }

  lemma KeepAsIs(running: map<int, nat>, runners: seq<Runner>, job: Job, todo: set<int>, failed: set<int>, c: int)
    requires StartingOk(running, runners, job, todo, failed, {}) && c in todo && Current(running, runners, job, c)
    ensures StartingOk(running, runners, job, todo - {c}, failed, {})
  {
    hide Changed;
  }

  lemma ConsiderKeepsJob(s: Sup, c: int)
    requires Inv(s) && JobInv(s) && Enabled(s, Consider(c))
    ensures JobInv(After(s, Consider(c)))
  {
    var s' := After(s, Consider(c));
    var Starting(job, todo, failed) := s.pc;
    assert Untouched(s.running, job, c);
    var t := s.(runners := s'.runners);
    RunnersMove(s, t);
    if s'.pc.Starting? {
      KeepAsIs(s.running, s.runners, job, todo, failed, c);
    } else {
      assert Changed(t.runners, job, c);
      TakeInHand(s.running, s'.running, t.runners, job, todo, failed, c);
    }
  }

  lemma LaunchKeepsJob(s: Sup)
    requires JobInv(s) && Enabled(s, Launch)
    ensures JobInv(After(s, Launch))
  {
    var s' := After(s, Launch);
    var job := s.pc.job;
    forall c ensures Changed(s.runners, job, c) <==> Changed(s'.runners, job, c) {
    }
    hide Changed;
  }

  lemma StopKeepsJob(s: Sup, a: Action)
    requires JobInv(s) && Enabled(s, a) && (a.StopOne? || a.EndStopping?)
    ensures JobInv(After(s, a))
  {
  }

  /** The chain in hand is dropped, given up or registered. */
  lemma SettleKeepsJob(s: Sup, a: Action)
    requires JobInv(s) && Enabled(s, a) && (a.WaitOver? || a.StartFails? || a.Register?)
    ensures JobInv(After(s, a))
  {
    hide Changed;
  }

  lemma StepKeepsJob(s: Sup, s': Sup, a: Action)
    requires Inv(s) && JobInv(s) && Next(s, s', a)
    ensures JobInv(s')
  {
    match a {
      case ByRunner(id, step) =>
        assert s.runners[id] in s.runners;
        RunnerStepKeeps(s.runners[id], step);
        RunnersMove(s, s');
      case CancelParent => RunnersMove(s, s');
      case Consider(c) => ConsiderKeepsJob(s, c);
      case Launch => LaunchKeepsJob(s);
      case StopOne(_) => StopKeepsJob(s, a);
      case EndStopping => StopKeepsJob(s, a);
      case WaitOver => SettleKeepsJob(s, a);
      case StartFails => SettleKeepsJob(s, a);
      case Register => SettleKeepsJob(s, a);
      case _ => hide StartingOk;
    }
  }

  lemma {:induction false} RunKeepsJob(states: seq<Sup>, actions: seq<Action>, i: nat)
    requires IsRun(states, actions) && i < |states|
    ensures JobInv(states[i])
  {
    if i > 0 {
      RunKeepsJob(states, actions, i - 1);
      RunKeepsInv(states, actions, i - 1);
      StepKeepsJob(states[i - 1], states[i], actions[i - 1]);
    }
  }

  // ---------- convergence ----------

  /** When a reconcile returns: exactly the active chains whose start did not fail are running, all with
      the fingerprint just read; a pair that did not die and whose fingerprint did not change is still
      the same pair; every other entry is a pair started by this reconcile. */
  lemma ReconcileConverges(states: seq<Sup>, actions: seq<Action>, s: Sup)
    requires IsRun(states, actions) && s in states && s.pc.Starting? && s.pc.todo == {}
    ensures s.running.Keys == s.pc.job.active.Keys - s.pc.failed
    ensures forall c | c in s.running ::
              s.running[c] < |s.runners| && s.runners[s.running[c]].hash == s.pc.job.active[c]
    ensures var job := s.pc.job;
            forall c | c in job.active && c in job.before && job.before[c] < |s.runners| &&
                       !s.runners[job.before[c]].done && s.runners[job.before[c]].hash == job.active[c] ::
              c in s.running && s.running[c] == job.before[c]
    ensures forall c | c in s.running :: s.running[c] >= s.pc.job.first || Untouched(s.running, s.pc.job, c)
  {
    var i :| 0 <= i < |states| && states[i] == s;
    RunKeepsJob(states, actions, i);
    var job := s.pc.job;
    assert forall c | c in job.active && c !in s.pc.failed :: Current(s.running, s.runners, job, c);
    forall c ensures c in s.running.Keys <==> c in job.active.Keys - s.pc.failed {
      assert c in s.running ==> c in job.active && c !in s.pc.failed;
    }
    forall c | c in job.active && c in job.before && job.before[c] < |s.runners| &&
               !s.runners[job.before[c]].done && s.runners[job.before[c]].hash == job.active[c]
      ensures c in s.running && s.running[c] == job.before[c]
    {
      assert !Changed(s.runners, job, c);
    }
  }

  // ---------- repeating it does nothing ----------

  /** Every chain of the job was running with its current fingerprint, and none has died. */
  ghost predicate Settled(runners: seq<Runner>, job: Job) {
    && (forall c | c in job.before :: c in job.active)
    && forall c | c in job.active :: c in job.before && !Changed(runners, job, c)
  }

  ghost predicate Reconciling(pc: Pc) {
    pc.Stopping? || pc.Starting? || pc.Waiting? || pc.Launching? || pc.Registering?
  }

  lemma SettledIsQuiet(s: Sup)
    requires Inv(s) && JobInv(s) && Reconciling(s.pc) && Settled(s.runners, s.pc.job)
    ensures s.running == s.pc.job.before && |s.runners| == s.pc.job.first
    ensures s.pc.Starting? ==> s.pc.failed == {}
    ensures s.pc.Stopping? || s.pc.Starting?
  {
    var job := s.pc.job;
    forall c: int ensures (c in s.running <==> c in job.before) && (c in s.running ==> s.running[c] == job.before[c]) {
      assert c in s.running || c in job.before ==> c in job.active && Untouched(s.running, job, c);
    }
    if !s.pc.Stopping? {
      forall c ensures c !in s.pc.failed {
        assert c in s.pc.failed ==> c in job.active && Changed(s.runners, job, c);
      }
      StartedMeansChanged(s, job);
    }
  }

  lemma StartedMeansChanged(s: Sup, job: Job)
    requires JobInv(s) && Reconciling(s.pc) && !s.pc.Stopping? && s.pc.job == job
    ensures |s.runners| > job.first ==> exists c :: c in job.active && Changed(s.runners, job, c)
  {
    if |s.runners| > job.first {
      assert Changed(s.runners, job, s.runners[job.first].chain);
    }
  }

  lemma {:induction false} RunnersPersist(states: seq<Sup>, actions: seq<Action>, i: nat, j: nat)
    requires IsRun(states, actions) && i <= j < |states|
    ensures |states[i].runners| <= |states[j].runners|
    ensures forall n | 0 <= n < |states[i].runners| :: Later(states[i].runners[n], states[j].runners[n])
  {
    hide Next;
    if i < j {
      RunnersPersist(states, actions, i, j - 1);
      StepGrows(states[j - 1], states[j], actions[j - 1]);
    }
  }

  lemma StepGrows(s: Sup, s': Sup, a: Action)
    requires Next(s, s', a)
    ensures |s.runners| <= |s'.runners| && forall n | 0 <= n < |s.runners| :: Later(s.runners[n], s'.runners[n])
  {
  }

  /** After a reconcile without failed starts, a reconcile that reads the same chains starts nothing,
      stops nothing and reloads nothing for as long as none of the pairs dies: at every moment of it the
      map is what the first one left. */
  lemma RepeatedReconcileIsQuiet(states: seq<Sup>, actions: seq<Action>, i: nat, j: nat)
    requires IsRun(states, actions) && i <= j < |states|
    requires states[i].pc.Starting? && states[i].pc.todo == {} == states[i].pc.failed
    requires Reconciling(states[j].pc) && states[j].pc.job.active == states[i].pc.job.active
    requires states[j].pc.job.before == states[i].running
    requires forall c | c in states[i].running && states[i].running[c] < |states[j].runners| ::
               !states[j].runners[states[i].running[c]].done
    ensures states[j].running == states[i].running && |states[j].runners| == states[j].pc.job.first
  {
    var s, t := states[i], states[j];
    ReconcileConverges(states, actions, s);
    RunnersPersist(states, actions, i, j);
    RunKeepsInv(states, actions, j);
    RunKeepsJob(states, actions, j);
    forall c | c in t.pc.job.active ensures c in t.pc.job.before && !Changed(t.runners, t.pc.job, c) {
      assert c in s.running.Keys;
    }
    assert forall c | c in s.running :: c in s.running.Keys;
    SettledIsQuiet(t);
  }
}
