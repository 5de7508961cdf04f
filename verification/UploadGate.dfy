/** core/ratelimit.py: PerTokenUploadGate. A blocking per-token lock whose idle test is
    `not lock.locked()`, which does not see a waiter that has been woken and not yet
    run. Here: when that matters, exactly. */
module UploadGate {
  import opened Lists
  import opened AsyncLock

  type Name = string

  datatype LockId = LockId(name: Name, serial: nat)

  datatype Call = Call(name: Name, lock: LockId, inside: bool)

  /** `locks` is the gate's table; `calls` the tasks waiting at or inside a gate. */
  datatype State = State(locks: map<Name, LockId>, next: nat, lockOf: map<LockId, Lock>, calls: map<Task, Call>)

  const Start := State(map[], 0, map[], map[])

  datatype Action =
    | Enter(t: Task, name: Name)
    | Cancel(id: LockId, i: nat)
    | Resume(id: LockId, i: nat)
    | Leave(t: Task)

  function LockState(s: State, id: LockId): Lock {
    if id in s.lockOf then s.lockOf[id] else NewLock
  }

  function IdFor(s: State, name: Name): LockId {
    if name in s.locks then s.locks[name] else LockId(name, s.next)
  }

  predicate At(s: State, id: LockId, i: nat) {
    id in s.lockOf && i < |s.lockOf[id].waiters|
  }

  predicate Inside(s: State, t: Task) {
    t in s.calls && s.calls[t].inside
  }

  function EnterStep(s: State, t: Task, name: Name): State {
    var id := IdFor(s, name);
    var l := Acquire(LockState(s, id), t);
    State(s.locks[name := id], if name in s.locks then s.next else s.next + 1,
          s.lockOf[id := l], s.calls[t := Call(name, id, l.owner == Some(t))])
  }

  /** A cancelled waiter leaves without cleaning up: it never entered. */
  function ResumeStep(s: State, id: LockId, i: nat): State
    requires At(s, id, i) && Runnable(s.lockOf[id].waiters[i])
  {
    var w := s.lockOf[id].waiters[i];
    var s1 := s.(lockOf := s.lockOf[id := ResumeAt(s.lockOf[id], i)]);
    if !w.wait.Woken? then s1.(calls := s.calls - {w.task})
    else if w.task !in s.calls then s1
    else s1.(calls := s.calls[w.task := s.calls[w.task].(inside := true)])
  }

  /** Release, then the eviction test; nothing suspends in between. */
  function LeaveStep(s: State, t: Task): State
    requires Inside(s, t)
  {
    var c := s.calls[t];
    var l := Release(LockState(s, c.lock));
    State(if c.name in s.locks && s.locks[c.name] == c.lock then s.locks - {c.name} else s.locks,
          s.next, s.lockOf[c.lock := l], s.calls - {t})
  }

  function Step(s: State, a: Action): State {
    match a
    case Enter(t, name) => if t in s.calls then s else EnterStep(s, t, name)
    case Cancel(id, i) => if At(s, id, i) then s.(lockOf := s.lockOf[id := CancelAt(s.lockOf[id], i)]) else s
    case Resume(id, i) => if At(s, id, i) && Runnable(s.lockOf[id].waiters[i]) then ResumeStep(s, id, i) else s
    case Leave(t) => if Inside(s, t) then LeaveStep(s, t) else s
  }

  function RunFrom(s: State, actions: seq<Action>): State {
    if actions == [] then s else Step(RunFrom(s, actions[..|actions| - 1]), actions[|actions| - 1])
  }

  // ----- what always holds -----

  ghost predicate CallOk(s: State, t: Task) {
    t in s.calls ==>
      var c := s.calls[t];
      && c.lock in s.lockOf && c.lock.name == c.name
      && (c.inside <==> s.lockOf[c.lock].owner == Some(t))
      && (!c.inside <==> Queued(s.lockOf[c.lock], t))
  }

  ghost predicate LockOk(s: State, id: LockId) {
    id in s.lockOf ==>
      var l := s.lockOf[id];
      && LockInv(l) && id.serial < s.next
      && (l.owner.Some? ==> l.owner.value in s.calls && s.calls[l.owner.value].lock == id)
      && (forall u :: Queued(l, u) ==> u in s.calls && s.calls[u].lock == id)
  }

  ghost predicate NameOk(s: State, name: Name) {
    name in s.locks ==>
      var id := s.locks[name];
      id.name == name && id.serial < s.next && id in s.lockOf
  }

  /** Each lock by itself is sound, whatever the table does. */
  ghost predicate Inv(s: State) {
    (forall t :: CallOk(s, t)) && (forall id :: LockOk(s, id)) && forall name :: NameOk(s, name)
  }

  lemma EnterKeeps(s: State, t: Task, name: Name)
    requires Inv(s) && t !in s.calls
    ensures Inv(EnterStep(s, t, name))
  {
    var s2 := EnterStep(s, t, name);
    var id := IdFor(s, name);
    assert NameOk(s, name) && LockOk(s, id);
    AcquireInv(LockState(s, id), t);
    forall u ensures CallOk(s2, u) {
      assert CallOk(s, u);
    }
    forall l ensures LockOk(s2, l) {
      assert LockOk(s, l);
    }
    forall n ensures NameOk(s2, n) {
      assert NameOk(s, n);
    }
  }

  lemma CancelKeeps(s: State, id: LockId, i: nat)
    requires Inv(s) && At(s, id, i)
    ensures Inv(Step(s, Cancel(id, i)))
  {
    var s2 := Step(s, Cancel(id, i));
    assert LockOk(s, id);
    CancelInv(s.lockOf[id], i);
    forall u ensures CallOk(s2, u) {
      assert CallOk(s, u);
    }
    forall l ensures LockOk(s2, l) {
      assert LockOk(s, l);
    }
    forall n ensures NameOk(s2, n) {
      assert NameOk(s, n);
    }
  }

  lemma ResumeKeeps(s: State, id: LockId, i: nat)
    requires Inv(s) && At(s, id, i) && Runnable(s.lockOf[id].waiters[i])
    ensures Inv(ResumeStep(s, id, i))
  {
    var s2 := ResumeStep(s, id, i);
    var t := s.lockOf[id].waiters[i].task;
    assert LockOk(s, id);
    assert Queued(s.lockOf[id], t);
    assert CallOk(s, t);
    ResumeInv(s.lockOf[id], i);
    forall u ensures CallOk(s2, u) {
      assert CallOk(s, u);
    }
    forall l ensures LockOk(s2, l) {
      assert LockOk(s, l);
    }
    forall n ensures NameOk(s2, n) {
      assert NameOk(s, n);
    }
  }

  lemma LeaveKeeps(s: State, t: Task)
    requires Inv(s) && Inside(s, t)
    ensures Inv(LeaveStep(s, t))
  {
    var s2 := LeaveStep(s, t);
    assert CallOk(s, t);
    assert LockOk(s, s.calls[t].lock);
    ReleaseInv(s.lockOf[s.calls[t].lock]);
    forall u ensures CallOk(s2, u) {
      assert CallOk(s, u);
    }
    forall l ensures LockOk(s2, l) {
      assert LockOk(s, l);
    }
    forall n ensures NameOk(s2, n) {
      assert NameOk(s, n);
    }
  }

  lemma StepKeeps(s: State, a: Action)
    requires Inv(s)
    ensures Inv(Step(s, a))
  {
    match a
    case Enter(t, name) => if t !in s.calls { EnterKeeps(s, t, name); }
    case Cancel(id, i) => if At(s, id, i) { CancelKeeps(s, id, i); }
    case Resume(id, i) => if At(s, id, i) && Runnable(s.lockOf[id].waiters[i]) { ResumeKeeps(s, id, i); }
    case Leave(t) => if Inside(s, t) { LeaveKeeps(s, t); }
  }

  /** Leaving frees the lock and drops it from the table if it is still the token's own;
      no other token's entry is touched. */
  lemma LeaveEvicts(s: State, t: Task)
    requires Inv(s) && Inside(s, t)
    ensures var c, s2 := s.calls[t], Step(s, Leave(t));
            && t !in s2.calls && s2.lockOf[c.lock].owner.None?
            && (c.name in s2.locks <==> c.name in s.locks && s.locks[c.name] != c.lock)
            && (forall n :: n in s2.locks ==> n in s.locks && s2.locks[n] == s.locks[n])
            && (forall n :: n in s.locks && n != c.name ==> n in s2.locks)
  {
    assert CallOk(s, t) && LockOk(s, s.calls[t].lock);
    ReleaseInv(s.lockOf[s.calls[t].lock]);
  }

  /** A woken waiter is inside once it runs; a cancelled one runs and is gone, without
      having been inside. */
  lemma WaiterRuns(s: State, id: LockId, i: nat)
    requires Inv(s) && At(s, id, i)
    ensures var w := s.lockOf[id].waiters[i];
            && (w.wait.Woken? ==> Inside(Step(s, Resume(id, i)), w.task))
            && w.task !in Step(Step(s, Cancel(id, i)), Resume(id, i)).calls
  {
    var t := s.lockOf[id].waiters[i].task;
    assert LockOk(s, id) && Queued(s.lockOf[id], t);
    assert CallOk(s, t);
    CancelInv(s.lockOf[id], i);
  }

  // ----- when the gate excludes -----

  /** Holders and live waiters of a name all use the lock in the table. */
  ghost predicate Attached(s: State) {
    forall id :: id in s.lockOf && (s.lockOf[id].owner.Some? || !AllCancelled(s.lockOf[id].waiters)) ==>
      id.name in s.locks && s.locks[id.name] == id
  }

  ghost predicate Exclusive(s: State) {
    forall t, u :: Inside(s, t) && Inside(s, u) && s.calls[t].name == s.calls[u].name ==> t == u
  }

  lemma AttachedExcludes(s: State)
    requires Inv(s) && Attached(s)
    ensures Exclusive(s)
  {
    forall t, u | Inside(s, t) && Inside(s, u) && s.calls[t].name == s.calls[u].name
      ensures t == u
    {
      assert CallOk(s, t) && CallOk(s, u);
    }
  }

  /** Leaving is safe when nobody alive is queued behind. */
  predicate QuietLeave(s: State, t: Task) {
    Inside(s, t) ==> AllCancelled(LockState(s, s.calls[t].lock).waiters)
  }

  lemma StepAttached(s: State, a: Action)
    requires Inv(s) && Attached(s)
    requires a.Leave? ==> QuietLeave(s, a.t)
    ensures Attached(Step(s, a))
  {
    match a
    case Enter(t, name) => assert NameOk(s, name); assert LockOk(s, IdFor(s, name));
    case Cancel(id, i) =>
    case Resume(id, i) =>
      if At(s, id, i) && Runnable(s.lockOf[id].waiters[i]) {
        ResumeStaysDead(s.lockOf[id], i);
      }
    case Leave(t) =>
      if Inside(s, t) {
        assert CallOk(s, t);
        var c := s.calls[t];
        assert Release(s.lockOf[c.lock]).waiters == s.lockOf[c.lock].waiters;
      }
  }

  lemma ResumeStaysDead(l: Lock, i: nat)
    requires i < |l.waiters| && Runnable(l.waiters[i])
    ensures l.owner.None? && AllCancelled(l.waiters) ==>
              ResumeAt(l, i).owner.None? && AllCancelled(ResumeAt(l, i).waiters)
  {
  }

  ghost predicate AllQuiet(actions: seq<Action>) {
    forall i :: 0 <= i < |actions| && actions[i].Leave? ==> QuietLeave(RunFrom(Start, actions[..i]), actions[i].t)
  }

  /** As long as nobody leaves with a live waiter behind, at most one task per token
      is inside. */
  lemma {:induction false} QuietRunsExclude(actions: seq<Action>)
    requires AllQuiet(actions)
    ensures var s := RunFrom(Start, actions); Inv(s) && Attached(s) && Exclusive(s)
  {
    var s := RunFrom(Start, actions);
    if actions != [] {
      var n := |actions| - 1;
      forall i | 0 <= i < n && actions[..n][i].Leave?
        ensures QuietLeave(RunFrom(Start, actions[..n][..i]), actions[..n][i].t)
      {
        assert actions[..n][..i] == actions[..i];
      }
      QuietRunsExclude(actions[..n]);
      StepKeeps(RunFrom(Start, actions[..n]), actions[n]);
      StepAttached(RunFrom(Start, actions[..n]), actions[n]);
    }
    AttachedExcludes(s);
  }

  // ----- when it does not -----

  /** A free lock with a live waiter ends up held, once its queue has run. */
  ghost predicate Pending(s: State, id: LockId, name: Name) {
    id in s.lockOf && id.name == name && s.lockOf[id].owner.None? && !AllCancelled(s.lockOf[id].waiters)
      && forall i :: 0 <= i < |s.lockOf[id].waiters| ==> !s.lockOf[id].waiters[i].wait.WokenGaveUp?
  }

  /** Running the cancelled heads off the queue, then the woken one. */
  lemma {:induction false} SomebodyGetsIn(s: State, id: LockId, name: Name, other: Task) returns (actions: seq<Action>)
    requires Inv(s) && Pending(s, id, name)
    requires Inside(s, other) && s.calls[other].name == name && s.calls[other].lock != id
    ensures !Exclusive(RunFrom(s, actions))
    decreases |s.lockOf[id].waiters|
  {
    assert LockOk(s, id) && CallOk(s, other);
    var l := s.lockOf[id];
    var w := l.waiters[0];
    assert Queued(l, w.task);
    assert CallOk(s, w.task);
    var s2 := Step(s, Resume(id, 0));
    actions := [Resume(id, 0)];
    assert actions[..0] == [];
    assert RunFrom(s, actions) == s2;
    ResumeKeeps(s, id, 0);
    ResumeInv(l, 0);
    if w.wait.Woken? {
      assert Inside(s2, w.task) && Inside(s2, other) && s2.calls[w.task].name == name;
    } else {
      HeadGone(l);
      assert Inside(s2, other);
      var more := SomebodyGetsIn(s2, id, name, other);
      RunFromConcat(s, actions, more);
      actions := actions + more;
    }
  }

  lemma HeadGone(l: Lock)
    requires LockInv(l) && l.owner.None? && !AllCancelled(l.waiters) && l.waiters[0].wait.GaveUp?
    requires forall i :: 0 <= i < |l.waiters| ==> !l.waiters[i].wait.WokenGaveUp?
    ensures var l2 := ResumeAt(l, 0);
            && l2.owner.None? && !AllCancelled(l2.waiters) && |l2.waiters| == |l.waiters| - 1
            && forall i :: 0 <= i < |l2.waiters| ==> !l2.waiters[i].wait.WokenGaveUp?
  {
    var l2 := ResumeAt(l, 0);
    var k :| 0 <= k < |l.waiters| && !Cancelled(l.waiters[k]);
    assert !Cancelled(l2.waiters[k - 1]);
  }

  lemma {:induction false} RunFromConcat(s: State, a: seq<Action>, b: seq<Action>)
    ensures RunFrom(s, a + b) == RunFrom(RunFrom(s, a), b)
  {
    if b == [] {
      assert a + b == a;
    } else {
      var n := |b| - 1;
      assert (a + b)[..|a + b| - 1] == a + b[..n];
      RunFromConcat(s, a, b[..n]);
    }
  }

  lemma LeaveThenEnter(s: State, t: Task, newcomer: Task)
    requires Inv(s) && Attached(s) && Inside(s, t) && !QuietLeave(s, t) && newcomer !in s.calls
    ensures var c := s.calls[t];
            var s1 := Step(s, Leave(t));
            var s2 := Step(s1, Enter(newcomer, c.name));
            && Inv(s2) && Pending(s2, c.lock, c.name)
            && Inside(s2, newcomer) && s2.calls[newcomer].name == c.name && s2.calls[newcomer].lock != c.lock
  {
    var c := s.calls[t];
    var s1 := Step(s, Leave(t));
    assert CallOk(s, t) && LockOk(s, c.lock);
    LeaveKeeps(s, t);
    assert c.name !in s1.locks;
    EnterKeeps(s1, newcomer, c.name);
    assert IdFor(s1, c.name).serial == s1.next;
    assert c.lock.serial < s1.next;
    assert LockOk(s1, IdFor(s1, c.name));
    ReleasedIsPending(s.lockOf[c.lock]);
  }

  lemma ReleasedIsPending(l: Lock)
    requires LockInv(l) && l.owner.Some? && !AllCancelled(l.waiters)
    ensures var l2 := Release(l);
            && l2.owner.None? && !AllCancelled(l2.waiters)
            && forall i :: 0 <= i < |l2.waiters| ==> !l2.waiters[i].wait.WokenGaveUp?
  {
    var k :| 0 <= k < |l.waiters| && !Cancelled(l.waiters[k]);
    assert !Cancelled(Release(l).waiters[k]);
  }

  /** Whenever a task leaves with a live waiter behind it, a newcomer gets a second
      lock and both end up inside: release has unlocked the lock, so the eviction
      test drops it although the waiter it woke is about to take it. */
  lemma NoisyLeaveBreaks(s: State, t: Task, newcomer: Task) returns (actions: seq<Action>)
    requires Inv(s) && Attached(s) && Inside(s, t) && !QuietLeave(s, t) && newcomer !in s.calls
    ensures !Exclusive(RunFrom(s, [Leave(t), Enter(newcomer, s.calls[t].name)] + actions))
  {
    var c := s.calls[t];
    LeaveThenEnter(s, t, newcomer);
    var first := [Leave(t), Enter(newcomer, c.name)];
    assert first[..1] == [Leave(t)] && first[..1][..0] == [];
    assert RunFrom(s, first[..1]) == Step(s, Leave(t));
    actions := SomebodyGetsIn(RunFrom(s, first), c.lock, c.name, newcomer);
    RunFromConcat(s, first, actions);
  }

  lemma TwoUploads(name: Name)
    ensures var s := Step(Step(Start, Enter(0, name)), Enter(1, name));
            var id := LockId(name, 0);
            && s.locks == map[name := id] && s.next == 1
            && s.lockOf == map[id := Lock(Some(0), [Waiter(1, Parked)])]
            && s.calls == map[0 := Call(name, id, true), 1 := Call(name, id, false)]
  {
    var s1 := Step(Start, Enter(0, name));
    assert s1.lockOf == map[LockId(name, 0) := Lock(Some(0), [])];
    assert [] + [Waiter(1, Parked)] == [Waiter(1, Parked)];
  }

  /** The shortest such run: A enters, B queues, A leaves, C enters, B resumes. */
  lemma ThreeUploads(name: Name)
    ensures var id := LockId(name, 0);
            var s := RunFrom(Start, [Enter(0, name), Enter(1, name), Leave(0), Enter(2, name), Resume(id, 0)]);
            Inside(s, 1) && Inside(s, 2) && s.calls[1].name == s.calls[2].name
  {
    var id := LockId(name, 0);
    var s2 := Step(Step(Start, Enter(0, name)), Enter(1, name));
    TwoUploads(name);
    var s3 := Step(s2, Leave(0));
    assert s3.lockOf[id] == Lock(None, [Waiter(1, Woken)]);
    assert s3.locks == map[];
    var s4 := Step(s3, Enter(2, name));
    assert s4.lockOf[id] == Lock(None, [Waiter(1, Woken)]);
    var s5 := Step(s4, Resume(id, 0));
    assert Inside(s5, 1) && Inside(s5, 2);
    FiveSteps(Enter(0, name), Enter(1, name), Leave(0), Enter(2, name), Resume(id, 0));
  }

  lemma TwoSteps(s: State, a: Action, b: Action)
    ensures RunFrom(s, [a, b]) == Step(Step(s, a), b)
  {
    assert [a][..0] == [];
    assert RunFrom(s, [a]) == Step(RunFrom(s, []), a);
    assert [a, b][..1] == [a];
  }

  lemma FiveSteps(a: Action, b: Action, c: Action, d: Action, e: Action)
    ensures RunFrom(Start, [a, b, c, d, e]) == Step(Step(Step(Step(Step(Start, a), b), c), d), e)
  {
    TwoSteps(Start, a, b);
    TwoSteps(Step(Step(Start, a), b), c, d);
    RunFromConcat(Start, [a, b], [c, d]);
    assert [a, b, c, d, e][..4] == [a, b] + [c, d];
  }

  // ----- the object -----

  /** `lockOf` holds the lock objects, in the table or not. */
  class PerTokenUploadGate {
    var locks: map<Name, LockId>
    var next: nat
    var lockOf: map<LockId, Lock>
    ghost var calls: map<Task, Call>

    ghost function Abs(): State
      reads this
    {
      State(locks, next, lockOf, calls)
    }

    constructor ()
      ensures Abs() == Start
    {
      locks, next, lockOf, calls := map[], 0, map[], map[];
    }

    /** Entry up to the first suspension: find or make the lock, then acquire it or
        queue. */
    method EnterGate(t: Task, name: Name) returns (lock: LockId, inside: bool)
      requires Inv(Abs()) && t !in calls
      modifies this
      ensures Inv(Abs()) && Abs() == EnterStep(old(Abs()), t, name)
      ensures t in calls && calls[t] == Call(name, lock, inside)
    {
      ghost var s := Abs();
      EnterKeeps(s, t, name);
      assert NameOk(s, name) && LockOk(s, IdFor(s, name));
      if name !in locks {
        locks := locks[name := LockId(name, next)];
        lockOf := lockOf[locks[name] := NewLock];
        next := next + 1;
      }
      lock := locks[name];
      lockOf := lockOf[lock := Acquire(lockOf[lock], t)];
      inside := lockOf[lock].owner == Some(t);
      calls := calls[t := Call(name, lock, inside)];
      assert lock == IdFor(s, name) && locks == s.locks[name := lock];
      assert lockOf == s.lockOf[lock := Acquire(LockState(s, lock), t)];
      assert Abs() == EnterStep(s, t, name);
    }

    /** Exit: release the lock, then evict it if it is still the table's and reports
        itself unlocked, which at that point it always does. */
    method LeaveGate(t: Task, name: Name, lock: LockId)
      requires Inv(Abs()) && t in calls && calls[t] == Call(name, lock, true)
      modifies this
      ensures Inv(Abs()) && Abs() == LeaveStep(old(Abs()), t)
    {
      LeaveKeeps(Abs(), t);
      assert CallOk(Abs(), t) && LockOk(Abs(), lock);
      lockOf := lockOf[lock := Release(lockOf[lock])];
      calls := calls - {t};
      var locked := lockOf[lock].owner.Some?;
      if name in locks && locks[name] == lock && !locked {
        locks := locks - {name};
      }
    }
  }
}
