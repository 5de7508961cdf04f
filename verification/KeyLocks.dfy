/** core/file_store.py: R2FileStore's reference-counted per-key locks. Sections under
    `_key_locks_lock` never suspend, so each is one step. */
module KeyLocks {
  import opened Lists
  import opened AsyncLock

  type Key = string

  /** The `serial`-th lock made, for `key`. */
  datatype LockId = LockId(key: Key, serial: nat)

  /** `_key_locks` and `_key_lock_refs`. */
  datatype Table = Table(locks: map<Key, LockId>, refs: map<Key, nat>, next: nat)

  /** `Leaving`: past the lock, the shielded decrement not yet run. */
  datatype Phase = Waiting | Inside | Leaving

  datatype Call = Call(key: Key, lock: LockId, phase: Phase)

  /** `calls`: tasks somewhere in `_serialize_key`. */
  datatype State = State(table: Table, lockOf: map<LockId, Lock>, calls: map<Task, Call>)

  const Start := State(Table(map[], map[], 0), map[], map[])

  // ----- the table -----

  function RefsOf(tb: Table, key: Key): nat {
    if key in tb.refs then tb.refs[key] else 0
  }

  function Checkout(tb: Table, key: Key): Table {
    var tb1 := if key in tb.locks then tb
               else tb.(locks := tb.locks[key := LockId(key, tb.next)], next := tb.next + 1);
    tb1.(refs := tb1.refs[key := RefsOf(tb, key) + 1])
  }

  function GiveBack(tb: Table, key: Key): Table {
    if RefsOf(tb, key) <= 1 then tb.(refs := tb.refs - {key})
    else tb.(refs := tb.refs[key := RefsOf(tb, key) - 1])
  }

  function Idle(tb: Table): set<Key> {
    set k | k in tb.locks && RefsOf(tb, k) == 0
  }

  function PruneTable(tb: Table): Table {
    tb.(locks := tb.locks - Idle(tb), refs := tb.refs - Idle(tb))
  }

  // ----- steps -----

  datatype Action =
    | Enter(t: Task, key: Key)
    | Cancel(id: LockId, i: nat)
    | Resume(id: LockId, i: nat)
    | Leave(t: Task)
    | Decrement(t: Task)
    | Prune

  function LockState(s: State, id: LockId): Lock {
    if id in s.lockOf then s.lockOf[id] else NewLock
  }

  predicate At(s: State, id: LockId, i: nat) {
    id in s.lockOf && i < |s.lockOf[id].waiters|
  }

  predicate In(s: State, t: Task, phase: Phase) {
    t in s.calls && s.calls[t].phase == phase
  }

  function EnterStep(s: State, t: Task, key: Key): State {
    var tb := Checkout(s.table, key);
    var id := tb.locks[key];
    var l := Acquire(LockState(s, id), t);
    State(tb, s.lockOf[id := l],
          s.calls[t := Call(key, id, if l.owner == Some(t) then Inside else Waiting)])
  }

  function ResumeStep(s: State, id: LockId, i: nat): State
    requires At(s, id, i) && Runnable(s.lockOf[id].waiters[i])
  {
    var w := s.lockOf[id].waiters[i];
    var s1 := s.(lockOf := s.lockOf[id := ResumeAt(s.lockOf[id], i)]);
    if w.task !in s.calls then s1 else
    s1.(calls := s.calls[w.task := s.calls[w.task].(phase := if w.wait.Woken? then Inside else Leaving)])
  }

  function Step(s: State, a: Action): State {
    match a
    case Enter(t, key) => if t in s.calls then s else EnterStep(s, t, key)
    case Cancel(id, i) => if At(s, id, i) then s.(lockOf := s.lockOf[id := CancelAt(s.lockOf[id], i)]) else s
    case Resume(id, i) => if At(s, id, i) && Runnable(s.lockOf[id].waiters[i]) then ResumeStep(s, id, i) else s
    case Leave(t) =>
      if !In(s, t, Inside) || s.calls[t].lock !in s.lockOf then s else
      var c := s.calls[t];
      s.(lockOf := s.lockOf[c.lock := Release(s.lockOf[c.lock])], calls := s.calls[t := c.(phase := Leaving)])
    case Decrement(t) =>
      if !In(s, t, Leaving) then s else
      s.(table := GiveBack(s.table, s.calls[t].key), calls := s.calls - {t})
    case Prune => s.(table := PruneTable(s.table))
  }

  function Run(actions: seq<Action>): State {
    if actions == [] then Start else Step(Run(actions[..|actions| - 1]), actions[|actions| - 1])
  }

  // ----- invariant -----

  function Users(s: State, key: Key): set<Task> {
    set t | t in s.calls && s.calls[t].key == key
  }

  ghost predicate CallOk(s: State, t: Task) {
    t in s.calls ==>
      var c := s.calls[t];
      && c.key in s.table.locks && s.table.locks[c.key] == c.lock
      && c.lock in s.lockOf && c.lock.key == c.key
      && (c.phase.Inside? <==> s.lockOf[c.lock].owner == Some(t))
      && (c.phase.Waiting? <==> Queued(s.lockOf[c.lock], t))
  }

  ghost predicate LockOk(s: State, id: LockId) {
    id in s.lockOf ==>
      var l := s.lockOf[id];
      && LockInv(l) && id.serial < s.table.next
      && (l.owner.Some? ==> l.owner.value in s.calls && s.calls[l.owner.value].lock == id)
      && (forall u :: Queued(l, u) ==> u in s.calls && s.calls[u].lock == id)
  }

  ghost predicate KeyOk(s: State, key: Key) {
    && (key in s.table.locks ==>
          var id := s.table.locks[key];
          id.key == key && id.serial < s.table.next)
    && RefsOf(s.table, key) == |Users(s, key)|
    && (key in s.table.refs ==> s.table.refs[key] > 0)
  }

  ghost predicate Inv(s: State) {
    (forall t :: CallOk(s, t)) && (forall id :: LockOk(s, id)) && forall key :: KeyOk(s, key)
  }

  lemma OneMore(s: State, t: Task, c: Call, key: Key)
    requires t !in s.calls
    ensures |Users(s.(calls := s.calls[t := c]), key)| == |Users(s, key)| + if c.key == key then 1 else 0
  {
    var s2 := s.(calls := s.calls[t := c]);
    assert Users(s2, key) == Users(s, key) + if c.key == key then {t} else {};
  }

  lemma OneLess(s: State, t: Task, key: Key)
    requires t in s.calls
    ensures |Users(s.(calls := s.calls - {t}), key)| == |Users(s, key)| - if s.calls[t].key == key then 1 else 0
  {
    var s2 := s.(calls := s.calls - {t});
    assert Users(s2, key) == Users(s, key) - if s.calls[t].key == key then {t} else {};
  }

  lemma SameUsers(s: State, t: Task, c: Call, key: Key)
    requires t in s.calls && c.key == s.calls[t].key
    ensures Users(s.(calls := s.calls[t := c]), key) == Users(s, key)
  {
  }

  lemma EnterLock(s: State, t: Task, key: Key)
    requires Inv(s) && t !in s.calls
    ensures var s2 := EnterStep(s, t, key);
            var id := s2.table.locks[key];
            && id.key == key && id.serial < s2.table.next && id in s2.lockOf && LockInv(s2.lockOf[id])
            && LockInv(LockState(s, id)) && !Queued(LockState(s, id), t) && LockState(s, id).owner != Some(t)
            && (key !in s.table.locks ==> id !in s.lockOf)
  {
    var id := EnterStep(s, t, key).table.locks[key];
    assert KeyOk(s, key) && LockOk(s, id);
    AcquireInv(LockState(s, id), t);
  }

  lemma EnterKeeps(s: State, t: Task, key: Key)
    requires Inv(s) && t !in s.calls
    ensures Inv(EnterStep(s, t, key))
  {
    var s2 := EnterStep(s, t, key);
    var id := s2.table.locks[key];
    EnterLock(s, t, key);
    AcquireInv(LockState(s, id), t);
    forall u ensures CallOk(s2, u) {
      assert CallOk(s, u);
    }
    forall l ensures LockOk(s2, l) {
      assert LockOk(s, l);
    }
    forall k ensures KeyOk(s2, k) {
      assert KeyOk(s, k);
      OneMore(s, t, s2.calls[t], k);
      assert Users(s2, k) == Users(s.(calls := s2.calls), k);
    }
  }

  lemma CancelKeeps(s: State, id: LockId, i: nat)
    requires Inv(s) && At(s, id, i)
    ensures Inv(Step(s, Cancel(id, i)))
  {
    var s2 := Step(s, Cancel(id, i));
    assert LockOk(s, id);
    CancelInv(s.lockOf[id], i);
    forall u ensures CallOk(s2, u) {
      assert CallOk(s, u);
    }
    forall l ensures LockOk(s2, l) {
      assert LockOk(s, l);
    }
    forall k ensures KeyOk(s2, k) {
      assert KeyOk(s, k);
      assert Users(s2, k) == Users(s, k);
    }
  }

  lemma ResumeKeeps(s: State, id: LockId, i: nat)
    requires Inv(s) && At(s, id, i) && Runnable(s.lockOf[id].waiters[i])
    ensures Inv(ResumeStep(s, id, i))
  {
    var s2 := ResumeStep(s, id, i);
    var t := s.lockOf[id].waiters[i].task;
    assert LockOk(s, id);
    assert Queued(s.lockOf[id], t);
    assert CallOk(s, t);
    ResumeInv(s.lockOf[id], i);
    forall u ensures CallOk(s2, u) {
      assert CallOk(s, u);
    }
    forall l ensures LockOk(s2, l) {
      assert LockOk(s, l);
    }
    forall k ensures KeyOk(s2, k) {
      assert KeyOk(s, k);
      SameUsers(s, t, s2.calls[t], k);
      assert Users(s2, k) == Users(s.(calls := s2.calls), k);
    }
  }

  lemma LeaveKeeps(s: State, t: Task)
    requires Inv(s) && In(s, t, Inside)
    ensures Inv(Step(s, Leave(t)))
  {
    var s2 := Step(s, Leave(t));
    assert CallOk(s, t);
    assert LockOk(s, s.calls[t].lock);
    ReleaseInv(s.lockOf[s.calls[t].lock]);
    forall u ensures CallOk(s2, u) {
      assert CallOk(s, u);
    }
    forall l ensures LockOk(s2, l) {
      assert LockOk(s, l);
    }
    forall k ensures KeyOk(s2, k) {
      assert KeyOk(s, k);
      SameUsers(s, t, s2.calls[t], k);
      assert Users(s2, k) == Users(s.(calls := s2.calls), k);
    }
  }

  lemma DecrementKeeps(s: State, t: Task)
    requires Inv(s) && In(s, t, Leaving)
    ensures Inv(Step(s, Decrement(t)))
  {
    var s2 := Step(s, Decrement(t));
    assert CallOk(s, t);
    assert KeyOk(s, s.calls[t].key);
    assert t in Users(s, s.calls[t].key);
    forall u ensures CallOk(s2, u) {
      assert CallOk(s, u);
    }
    forall l ensures LockOk(s2, l) {
      assert LockOk(s, l);
    }
    forall k ensures KeyOk(s2, k) {
      assert KeyOk(s, k);
      OneLess(s, t, k);
      assert Users(s2, k) == Users(s.(calls := s2.calls), k);
    }
  }

  lemma PruneKeeps(s: State)
    requires Inv(s)
    ensures Inv(Step(s, Prune))
  {
    var s2 := Step(s, Prune);
    forall u ensures CallOk(s2, u) {
      assert CallOk(s, u);
      if u in s.calls {
        assert KeyOk(s, s.calls[u].key);
        assert u in Users(s, s.calls[u].key);
      }
    }
    forall l ensures LockOk(s2, l) {
      assert LockOk(s, l);
    }
    forall k ensures KeyOk(s2, k) {
      assert KeyOk(s, k);
      assert Users(s2, k) == Users(s, k);
    }
  }

  lemma StepKeeps(s: State, a: Action)
    requires Inv(s)
    ensures Inv(Step(s, a))
  {
    match a
    case Enter(t, key) => if t !in s.calls { EnterKeeps(s, t, key); }
    case Cancel(id, i) => if At(s, id, i) { CancelKeeps(s, id, i); }
    case Resume(id, i) => if At(s, id, i) && Runnable(s.lockOf[id].waiters[i]) { ResumeKeeps(s, id, i); }
    case Leave(t) => if In(s, t, Inside) { LeaveKeeps(s, t); }
    case Decrement(t) => if In(s, t, Leaving) { DecrementKeeps(s, t); }
    case Prune => PruneKeeps(s);
  }

  lemma {:induction false} RunInvariant(actions: seq<Action>)
    ensures Inv(Run(actions))
  {
    if actions == [] {
      forall k ensures KeyOk(Start, k) {
        assert Users(Start, k) == {};
      }
    } else {
      RunInvariant(actions[..|actions| - 1]);
      StepKeeps(Run(actions[..|actions| - 1]), actions[|actions| - 1]);
    }
  }

  // ----- in every run -----

  /** Everybody using a key has the same lock object, and it is the one in the table:
      a later comer will use it too. */
  lemma OneLockPerKey(actions: seq<Action>, t: Task, u: Task)
    requires t in Run(actions).calls && u in Run(actions).calls
    requires Run(actions).calls[t].key == Run(actions).calls[u].key
    ensures var s := Run(actions);
            && s.calls[t].key in s.table.locks
            && s.calls[t].lock == s.calls[u].lock == s.table.locks[s.calls[t].key]
  {
    RunInvariant(actions);
    assert CallOk(Run(actions), t) && CallOk(Run(actions), u);
  }

  /** At most one task fetches a key at a time. */
  lemma MutualExclusion(actions: seq<Action>, t: Task, u: Task)
    requires In(Run(actions), t, Inside) && In(Run(actions), u, Inside)
    requires Run(actions).calls[t].key == Run(actions).calls[u].key
    ensures t == u
  {
    RunInvariant(actions);
    assert CallOk(Run(actions), t) && CallOk(Run(actions), u);
  }

  /** The count is the number of tasks waiting, inside or yet to decrement. */
  lemma CountIsUsers(actions: seq<Action>, key: Key)
    ensures RefsOf(Run(actions).table, key) == |Users(Run(actions), key)|
  {
    RunInvariant(actions);
    assert KeyOk(Run(actions), key);
  }

  /** A prune leaves exactly the keys somebody is using. */
  lemma PruneDropsExactlyIdle(actions: seq<Action>, key: Key)
    ensures key in Step(Run(actions), Prune).table.locks <==> Users(Run(actions), key) != {}
  {
    var s := Run(actions);
    RunInvariant(actions);
    assert KeyOk(s, key);
    if Users(s, key) != {} {
      var t :| t in Users(s, key);
      assert CallOk(s, t);
    }
  }

  /** Nobody waits forever on a lock nobody holds. */
  lemma WaitersAreWoken(actions: seq<Action>, t: Task)
    requires In(Run(actions), t, Waiting)
    ensures var l := LockState(Run(actions), Run(actions).calls[t].lock);
            l.owner.Some? || exists i :: 0 <= i < |l.waiters| && Runnable(l.waiters[i])
  {
    RunInvariant(actions);
    var s := Run(actions);
    assert CallOk(s, t) && LockOk(s, s.calls[t].lock);
    var l := LockState(s, s.calls[t].lock);
    if l.owner.None? {
      assert l.waiters != [] && Runnable(l.waiters[0]);
    }
  }

  // ----- and getting through it -----

  lemma RunSnoc(actions: seq<Action>, a: Action)
    ensures Run(actions + [a]) == Step(Run(actions), a)
  {
    assert (actions + [a])[..|actions|] == actions;
  }

  /** A lock that is held or waited for has a user. */
  lemma LockInUse(s: State, id: LockId)
    requires Inv(s) && id in s.lockOf && (s.lockOf[id].owner.Some? || s.lockOf[id].waiters != [])
    ensures Users(s, id.key) != {}
  {
    var l := s.lockOf[id];
    var t := if l.owner.Some? then l.owner.value else l.waiters[0].task;
    assert LockOk(s, id);
    assert l.owner.None? ==> Queued(l, t);
    assert CallOk(s, t);
    assert t in Users(s, id.key);
  }

  /** Whoever comes for a key nobody uses is inside at once. */
  lemma EntersAlone(actions: seq<Action>, t: Task, key: Key)
    requires t !in Run(actions).calls && Users(Run(actions), key) == {}
    ensures In(Run(actions + [Enter(t, key)]), t, Inside)
  {
    var s := Run(actions);
    RunInvariant(actions);
    RunSnoc(actions, Enter(t, key));
    EnterLock(s, t, key);
    var id := EnterStep(s, t, key).table.locks[key];
    if id in s.lockOf && (s.lockOf[id].owner.Some? || s.lockOf[id].waiters != []) {
      LockInUse(s, id);
    }
    AcquireInv(LockState(s, id), t);
  }

  /** Whoever is inside leaves the lock free, and is gone with its decrement. */
  lemma LeavesForGood(actions: seq<Action>, t: Task)
    requires In(Run(actions), t, Inside)
    ensures var id := Run(actions).calls[t].lock;
            var s2 := Run(actions + [Leave(t)]);
            In(s2, t, Leaving) && LockState(s2, id).owner.None?
    ensures t !in Run(actions + [Leave(t)] + [Decrement(t)]).calls
  {
    RunInvariant(actions);
    RunSnoc(actions, Leave(t));
    RunSnoc(actions + [Leave(t)], Decrement(t));
    assert CallOk(Run(actions), t) && LockOk(Run(actions), Run(actions).calls[t].lock);
    ReleaseInv(Run(actions).lockOf[Run(actions).calls[t].lock]);
  }

  lemma WaiterCalls(s: State, id: LockId, i: nat)
    requires Inv(s) && At(s, id, i)
    ensures var t := s.lockOf[id].waiters[i].task; t in s.calls && s.calls[t].lock == id && In(s, t, Waiting)
  {
    var t := s.lockOf[id].waiters[i].task;
    assert LockOk(s, id) && Queued(s.lockOf[id], t);
    assert CallOk(s, t);
  }

  /** A waiter that was woken gets in when it runs; one that is cancelled runs and leaves,
      and was not inside. */
  lemma WaiterRuns(actions: seq<Action>, id: LockId, i: nat)
    requires At(Run(actions), id, i)
    ensures var w := Run(actions).lockOf[id].waiters[i];
            w.wait.Woken? ==> In(Run(actions + [Resume(id, i)]), w.task, Inside)
    ensures var w := Run(actions).lockOf[id].waiters[i];
            In(Run(actions + [Cancel(id, i)] + [Resume(id, i)]), w.task, Leaving)
  {
    var s := Run(actions);
    RunInvariant(actions);
    WaiterCalls(s, id, i);
    assert LockOk(s, id);
    RunSnoc(actions, Resume(id, i));
    RunSnoc(actions, Cancel(id, i));
    RunSnoc(actions + [Cancel(id, i)], Resume(id, i));
    CancelInv(s.lockOf[id], i);
  }

  // ----- the object -----

  class KeyLockTable {
    var keyLocks: map<Key, LockId>
    var keyLockRefs: map<Key, nat>
    var next: nat

    ghost function Abs(): Table
      reads this
    {
      Table(keyLocks, keyLockRefs, next)
    }

    constructor ()
      ensures Abs() == Start.table
    {
      keyLocks, keyLockRefs, next := map[], map[], 0;
    }

    /** The entry half of `_serialize_key`. */
    method CheckOut(key: Key) returns (lock: LockId)
      modifies this
      ensures Abs() == Checkout(old(Abs()), key) && key in keyLocks && lock == keyLocks[key]
    {
      if key !in keyLocks {
        keyLocks := keyLocks[key := LockId(key, next)];
        next := next + 1;
      }
      lock := keyLocks[key];
      keyLockRefs := keyLockRefs[key := (if key in keyLockRefs then keyLockRefs[key] else 0) + 1];
    }

    method ReleaseSerializeKey(key: Key)
      modifies this
      ensures Abs() == GiveBack(old(Abs()), key)
    {
      var users: int := if key in keyLockRefs then keyLockRefs[key] else 0;
      var remaining := users - 1;
      if remaining <= 0 {
        keyLockRefs := keyLockRefs - {key};
      } else {
        keyLockRefs := keyLockRefs[key := remaining];
      }
    }

    method FindIdle() returns (idle: set<Key>)
      ensures idle == Idle(Abs())
    {
      idle := {};
      var todo := keyLocks.Keys;
      while todo != {}
        invariant todo <= keyLocks.Keys
        invariant forall k :: k in idle <==> k in keyLocks && k !in todo && RefsOf(Abs(), k) == 0
      {
        var k :| k in todo;
        if k !in keyLockRefs || keyLockRefs[k] == 0 {
          idle := idle + {k};
        }
        todo := todo - {k};
      }
    }

    method PruneIdleKeyLocks() returns (dropped: nat)
      modifies this
      ensures Abs() == PruneTable(old(Abs())) && dropped == |Idle(old(Abs()))|
    {
      var idle := FindIdle();
      dropped := |idle|;
      keyLocks, keyLockRefs := keyLocks - idle, keyLockRefs - idle;
    }
  }
}
