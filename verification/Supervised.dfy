/** The supervisor and the pipeline as one system: scan loops exist only as the goroutines of pairs that
    the supervisor has started and whose run has not returned. If no chain is reactivated while loops of
    its deactivated pair still run, each scanner has one loop at a time and nothing is lost. */
module Supervised {
  import opened Decimal
  import opened Deposits
  import opened BufferStore
  import opened Pipeline
  import opened NoLoss
  import opened EndToEnd
  import S = Supervisor

  datatype Joint = Joint(sup: S.Sup, sys: System)

  // ---------- loops belong to pairs ----------

  function LoopId(i: nat, k: Kind): (id: nat)
    ensures Owner(id) == i && Side(id) == k
  {
    2 * i + if k.LogKind? then 0 else 1
  }

  function Owner(id: nat): nat { id / 2 }

  function Side(id: nat): Kind { if id % 2 == 0 then LogKind else TraceKind }

  lemma LoopIdDetermined(id: nat, id': nat)
    requires Owner(id) == Owner(id') && Side(id) == Side(id')
    ensures id == id'
  {
  }

  /** The loop is the goroutine of a pair that was started and has not returned. */
  ghost predicate Attached(runners: seq<S.Runner>, id: nat, l: Loop) {
    && Owner(id) < |runners| && l.kind == Side(id)
    && l.chain == runners[Owner(id)].chain && S.StageOf(runners[Owner(id)], Side(id)).Alive?
  }

  ghost predicate AllAttached(j: Joint) {
    forall id | id in j.sys.loops :: Attached(j.sup.runners, id, j.sys.loops[id])
  }

  // ---------- joint steps ----------

  datatype JointAction =
    | Oversee(act: S.Action)
    | Start(i: nat, k: Kind)
    | Return(i: nat, k: Kind)
    | Proceed(step: Action)
    | Die(got: set<Deposit>)

  ghost predicate IsReturn(a: S.Action) { a.ByRunner? && a.step.Exit? }

  /** The supervisor or a waiting goroutine moves; a loop goroutine begins to poll; a loop goroutine
      returns; a loop, the publisher or the Adapter moves; or the whole process dies and starts anew. */
  ghost predicate JointNext(w: World, j: Joint, j': Joint, a: JointAction) {
    match a
    case Oversee(act) => !IsReturn(act) && S.Next(j.sup, j'.sup, act) && j'.sys == j.sys
    case Start(i, k) =>
      && i < |j.sup.runners| && S.StageOf(j.sup.runners[i], k).Alive? && j'.sup == j.sup
      && Next(w, j.sys, j'.sys, Spawn(LoopId(i, k), j.sup.runners[i].chain, k))
    case Return(i, k) =>
      && S.Next(j.sup, j'.sup, S.ByRunner(i, S.Exit(k)))
      && (if LoopId(i, k) in j.sys.loops then Next(w, j.sys, j'.sys, Exit(LoopId(i, k))) else j'.sys == j.sys)
    case Proceed(act) => (act.ByLoop? || act.ByPublisher?) && Next(w, j.sys, j'.sys, act) && j'.sup == j.sup
    case Die(got) => Next(w, j.sys, j'.sys, Crash(got)) && S.Init(j'.sup)
  }

  ghost predicate IsJointRun(w: World, js: seq<Joint>, actions: seq<JointAction>) {
    && |js| == |actions| + 1 && S.Init(js[0].sup) && Init(js[0].sys)
    && forall i | 0 <= i < |actions| :: JointNext(w, js[i], js[i + 1], actions[i])
  }

  // ---------- loops stay attached ----------

  /** Every loop goroutine that had not returned still has not. */
  ghost predicate StillAlive(runners: seq<S.Runner>, runners': seq<S.Runner>, i: nat, k: Kind) {
    i < |runners| && S.StageOf(runners[i], k).Alive? ==>
      i < |runners'| && runners'[i].chain == runners[i].chain && S.StageOf(runners'[i], k).Alive?
  }

  lemma OverseeKeepsAlive(s: S.Sup, s': S.Sup, a: S.Action, i: nat, k: Kind)
    requires S.Next(s, s', a) && !IsReturn(a)
    ensures StillAlive(s.runners, s'.runners, i, k)
  {
  }

  lemma ReturnKeepsAlive(s: S.Sup, s': S.Sup, i: nat, k: Kind, i': nat, k': Kind)
    requires S.Next(s, s', S.ByRunner(i, S.Exit(k))) && (i, k) != (i', k')
    ensures StillAlive(s.runners, s'.runners, i', k')
  {
  }

  lemma StepKeepsAttached(w: World, j: Joint, j': Joint, a: JointAction)
    requires AllAttached(j) && JointNext(w, j, j', a)
    ensures AllAttached(j')
  {
    forall id | id in j'.sys.loops ensures Attached(j'.sup.runners, id, j'.sys.loops[id]) {
      match a {
        case Oversee(act) =>
          assert Attached(j.sup.runners, id, j.sys.loops[id]);
          OverseeKeepsAlive(j.sup, j'.sup, act, Owner(id), Side(id));
        case Start(i, k) =>
          assert id in j.sys.loops ==> Attached(j.sup.runners, id, j.sys.loops[id]);
        case Return(i, k) =>
          assert id in j.sys.loops && id != LoopId(i, k) && Attached(j.sup.runners, id, j.sys.loops[id]);
          OtherLoop(id, i, k);
          ReturnKeepsAlive(j.sup, j'.sup, i, k, Owner(id), Side(id));
        case Proceed(act) =>
          ProceedKeepsLoop(w, j.sys, j'.sys, act, id);
          assert Attached(j.sup.runners, id, j.sys.loops[id]);
        case Die(_) =>
      }
    }
  }

  lemma OtherLoop(id: nat, i: nat, k: Kind)
    requires id != LoopId(i, k)
    ensures (i, k) != (Owner(id), Side(id))
  {
    if (i, k) == (Owner(id), Side(id)) { LoopIdDetermined(id, LoopId(i, k)); }
  }

  lemma ProceedKeepsLoop(w: World, s: System, s': System, a: Action, id: nat)
    requires (a.ByLoop? || a.ByPublisher?) && Next(w, s, s', a) && id in s'.loops
    ensures id in s.loops && s'.loops[id].chain == s.loops[id].chain && s'.loops[id].kind == s.loops[id].kind
  {
    if a.ByPublisher? { PublisherFrame(w, s, s', a.act); }
  }

  // ---------- one loop per scanner ----------

  /** A chain that was deactivated got a new pair only after the loops of the old one had returned. */
  ghost predicate RestartedAfterEnd(s: S.Sup) {
    forall i, i' | 0 <= i < i' < |s.runners| && s.runners[i].chain == s.runners[i'].chain && i in s.stopped ::
      !S.Live(s.runners[i])
  }

  lemma OnePairAlive(s: S.Sup, i: nat, i': nat)
    requires S.Inv(s) && RestartedAfterEnd(s) && i < i' < |s.runners| && s.runners[i].chain == s.runners[i'].chain
    ensures !S.Live(s.runners[i])
  {
    assert s.runners[i] in s.runners;
  }

  lemma AttachedIsSole(j: Joint)
    requires S.Inv(j.sup) && AllAttached(j) && RestartedAfterEnd(j.sup)
    ensures Sole(j.sys)
  {
    forall a, b | a in j.sys.loops && b in j.sys.loops && j.sys.loops[a].chain == j.sys.loops[b].chain &&
                  j.sys.loops[a].kind == j.sys.loops[b].kind
      ensures a == b
    {
      assert Attached(j.sup.runners, a, j.sys.loops[a]) && Attached(j.sup.runners, b, j.sys.loops[b]);
      assert S.Live(j.sup.runners[Owner(a)]) && S.Live(j.sup.runners[Owner(b)]);
      if Owner(a) < Owner(b) {
        OnePairAlive(j.sup, Owner(a), Owner(b));
      } else if Owner(b) < Owner(a) {
        OnePairAlive(j.sup, Owner(b), Owner(a));
      } else {
        LoopIdDetermined(a, b);
      }
    }
  }

  // ---------- nothing is lost ----------

  ghost predicate JointInv(w: World, j: Joint) {
    S.Inv(j.sup) && AllAttached(j) && Inv(w, j.sys) && ZeroIsNew(j.sys)
  }

  lemma SystemStep(w: World, s: System, s': System, a: Action)
    requires Coherent(w) && Inv(w, s) && ZeroIsNew(s) && Sole(s) && Next(w, s, s', a)
    ensures Inv(w, s') && ZeroIsNew(s')
  {
    SoleStepIsBenign(w, s, s', a);
    StepKeepsInv(w, s, s', a);
  }

  lemma JointStepKeeps(w: World, j: Joint, j': Joint, a: JointAction)
    requires Coherent(w) && JointInv(w, j) && RestartedAfterEnd(j.sup) && JointNext(w, j, j', a)
    ensures JointInv(w, j')
  {
    StepKeepsAttached(w, j, j', a);
    AttachedIsSole(j);
    hide Inv;
    hide ZeroIsNew;
    hide AllAttached;
    hide Sole;
    hide Next;
    hide S.Next;
    match a {
      case Oversee(act) => S.StepKeepsInv(j.sup, j'.sup, act);
      case Start(i, k) => SystemStep(w, j.sys, j'.sys, Spawn(LoopId(i, k), j.sup.runners[i].chain, k));
      case Return(i, k) =>
        S.StepKeepsInv(j.sup, j'.sup, S.ByRunner(i, S.Exit(k)));
        if LoopId(i, k) in j.sys.loops { SystemStep(w, j.sys, j'.sys, Exit(LoopId(i, k))); }
      case Proceed(act) => SystemStep(w, j.sys, j'.sys, act);
      case Die(got) => SystemStep(w, j.sys, j'.sys, Crash(got));
    }
  }

  lemma {:induction false} JointRunKeeps(w: World, js: seq<Joint>, actions: seq<JointAction>, i: nat)
    requires Coherent(w) && IsJointRun(w, js, actions) && (forall j | j in js :: RestartedAfterEnd(j.sup)) && i < |js|
    ensures JointInv(w, js[i])
  {
    if i > 0 {
      JointRunKeeps(w, js, actions, i - 1);
      assert js[i - 1] in js;
      JointStepKeeps(w, js[i - 1], js[i], actions[i - 1]);
    }
  }

  /** The supervised listener: over all reconciles, reloads, deaths, panics, crashes and restarts, as long
      as no chain is reactivated before the loops of its deactivated pair have returned, there is one
      loop per scanner and no deposit is lost. */
  lemma SupervisedListenerLosesNothing(w: World, js: seq<Joint>, actions: seq<JointAction>, j: Joint)
    requires Coherent(w) && IsJointRun(w, js, actions) && (forall j | j in js :: RestartedAfterEnd(j.sup)) && j in js
    ensures Sole(j.sys) && NothingLost(w, j.sys)
  {
    var i :| 0 <= i < |js| && js[i] == j;
    JointRunKeeps(w, js, actions, i);
    AttachedIsSole(j);
    InvMeansSafe(w, j.sys);
  }

  /** End to end for the supervised listener. */
  lemma SupervisedDepositIsSafe(u: Universe, cfg: Settings, js: seq<Joint>, actions: seq<JointAction>, j: Joint,
                                c: int, k: Kind, b: nat, e: DepositEvent)
    requires Orderly(u) && IsJointRun(WorldOf(u, cfg), js, actions)
    requires (forall j | j in js :: RestartedAfterEnd(j.sup)) && j in js
    requires (c, k) in j.sys.inits && j.sys.inits[(c, k)] < b <= CursorOf(j.sys.db.cursors, c, k)
    requires e in ScanOf(u, c, k, b) && cfg.kst(e.txTime).Some?
    ensures Safe(j.sys, e, cfg.kst)
  {
    OrderlyIsCoherent(u, cfg);
    SupervisedListenerLosesNothing(WorldOf(u, cfg), js, actions, j);
    NothingLostIsSafe(u, cfg, j.sys, c, k, b, e);
  }
}
