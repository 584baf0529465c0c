/** With one loop per scanner the cursor of a scanner, once initialised, moves one block at a time. */
module Contiguity {
  import opened Deposits
  import opened BufferStore
  import opened Pipeline
  import opened NoLoss

  /** What a loop has read of the cursor is still what is stored. */
  ghost predicate UpToDate(cursors: Cursors, l: Loop) {
    match l.pc
    case Positioned(_, _, cursor) => cursor == CursorOf(cursors, l.chain, l.kind)
    case Walking(_, block, _) => block == CursorOf(cursors, l.chain, l.kind) + 1
    case Scanned(_, block, _, _) => block == CursorOf(cursors, l.chain, l.kind) + 1
    case _ => true
  }

  ghost predicate AllUpToDate(s: System) {
    forall id | id in s.loops :: UpToDate(s.db.cursors, s.loops[id])
  }

  /** The step commits block `b` of the scanner. */
  ghost predicate Commits(s: System, a: Action, c: int, k: Kind, b: nat) {
    && a.ByLoop? && a.step.Commit? && a.step.applied && a.id in s.loops
    && s.loops[a.id].chain == c && s.loops[a.id].kind == k && s.loops[a.id].pc.Scanned? && s.loops[a.id].pc.block == b
  }

  /** The cursor stays, rises to the block just committed, or leaves zero. */
  ghost predicate Moves(s: System, s': System, a: Action, c: int, k: Kind) {
    var from, to := CursorOf(s.db.cursors, c, k), CursorOf(s'.db.cursors, c, k);
    to == from || (to == from + 1 && Commits(s, a, c, k, to)) || from == 0
  }

  lemma LoopMoves(w: World, s: System, s': System, id: nat, a: LoopAction)
    requires Sole(s) && AllUpToDate(s) && LoopNext(w, s, s', id, a)
    ensures AllUpToDate(s')
    ensures forall c, k :: Moves(s, s', ByLoop(id, a), c, k)
  {
    var Loop(c, k, pc) := s.loops[id];
    assert UpToDate(s.db.cursors, s.loops[id]);
    assert forall c', k' | (c', k') != (c, k) :: CursorOf(s'.db.cursors, c', k') == CursorOf(s.db.cursors, c', k');
    forall j | j in s'.loops ensures UpToDate(s'.db.cursors, s'.loops[j]) {
      if j != id {
        assert s'.loops[j] == s.loops[j] && UpToDate(s.db.cursors, s.loops[j]);
        assert (s.loops[j].chain, s.loops[j].kind) != (c, k);
      }
    }
  }

  lemma StepMoves(w: World, s: System, s': System, a: Action)
    requires Sole(s) && AllUpToDate(s) && Next(w, s, s', a)
    ensures AllUpToDate(s') && forall c, k :: Moves(s, s', a, c, k)
  {
    match a {
      case ByLoop(id, step) => LoopMoves(w, s, s', id, step);
      case ByPublisher(act) => PublisherFrame(w, s, s', act);
      case _ =>
    }
  }

  lemma {:induction false} RunIsUpToDate(w: World, states: seq<System>, actions: seq<Action>, i: nat)
    requires IsRun(w, states, actions) && (forall s | s in states :: Sole(s)) && i < |states|
    ensures AllUpToDate(states[i])
  {
    if i > 0 {
      RunIsUpToDate(w, states, actions, i - 1);
      assert states[i - 1] in states;
      StepMoves(w, states[i - 1], states[i], actions[i - 1]);
    }
  }

  /** Whatever heads are read, every committed block is the one after the cursor, and it becomes the
      cursor. */
  lemma CommitsAreContiguous(w: World, states: seq<System>, actions: seq<Action>, i: nat, c: int, k: Kind, b: nat)
    requires IsRun(w, states, actions) && forall s | s in states :: Sole(s)
    requires i < |actions| && Commits(states[i], actions[i], c, k, b)
    ensures CursorOf(states[i].db.cursors, c, k) + 1 == b == CursorOf(states[i + 1].db.cursors, c, k)
  {
    RunIsUpToDate(w, states, actions, i);
    assert UpToDate(states[i].db.cursors, states[i].loops[actions[i].id]);
    assert Next(w, states[i], states[i + 1], actions[i]);
  }

  lemma CursorAdvances(w: World, states: seq<System>, actions: seq<Action>, j: nat, c: int, k: Kind)
    requires IsRun(w, states, actions) && (forall s | s in states :: Sole(s)) && j < |actions|
    ensures Moves(states[j], states[j + 1], actions[j], c, k)
  {
    RunIsUpToDate(w, states, actions, j);
    assert states[j] in states;
    StepMoves(w, states[j], states[j + 1], actions[j]);
  }

  ghost predicate CommittedBetween(states: seq<System>, actions: seq<Action>, i: nat, j: nat, c: int, k: Kind, b: nat) {
    exists n | i <= n < j && n < |states| && n < |actions| :: Commits(states[n], actions[n], c, k, b)
  }

  /** So a cursor that is not zero never moves back and never skips a block. */
  lemma {:induction false} CursorNeverSkips(
    w: World, states: seq<System>, actions: seq<Action>, i: nat, j: nat, c: int, k: Kind)
    requires IsRun(w, states, actions) && forall s | s in states :: Sole(s)
    requires i <= j < |states| && CursorOf(states[i].db.cursors, c, k) != 0
    ensures CursorOf(states[i].db.cursors, c, k) <= CursorOf(states[j].db.cursors, c, k)
    ensures forall b | CursorOf(states[i].db.cursors, c, k) < b <= CursorOf(states[j].db.cursors, c, k) ::
              CommittedBetween(states, actions, i, j, c, k, b)
  {
    if i < j {
      CursorNeverSkips(w, states, actions, i, j - 1, c, k);
      CursorAdvances(w, states, actions, j - 1, c, k);
      hide Next;
      hide Commits;
      var from, mid, to := CursorOf(states[i].db.cursors, c, k), CursorOf(states[j - 1].db.cursors, c, k),
                           CursorOf(states[j].db.cursors, c, k);
      forall b | from < b <= to ensures CommittedBetween(states, actions, i, j, c, k, b) {
        if b <= mid {
          assert CommittedBetween(states, actions, i, j - 1, c, k, b);
        } else {
          assert Commits(states[j - 1], actions[j - 1], c, k, b);
        }
      }
    }
  }
}
