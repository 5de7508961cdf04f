/** core/ratelimit.py: `PerTokenConcurrency`, the single-flight limiter. The mutex
    sections contain no suspension point that can block, so each is one step; the
    context manager's `lock.release()` and its later cleanup are two. */
module RateLimit {
  import opened Lists

  type Name = string
  type StreamTag = string

  /** An asyncio.Lock: the `serial`-th one made, for `name`. */
  datatype LockId = LockId(name: Name, serial: nat)

  datatype Owner = Context(task: nat) | Stream(id: StreamTag)

  /** `owner` is defined on the locked locks; `leaving` are context exits that have
      released their lock and not yet run their cleanup. */
  datatype State = State(
    locks: map<Name, LockId>, holders: map<Name, StreamTag>, owner: map<LockId, Owner>,
    leaving: multiset<LockId>, nextLock: nat)

  const Idle := State(map[], map[], map[], multiset{}, 0)

  /** `session_key`: NUL-separated, so it determines both parts. */
  function SessionKey(token: string, session: string): Name {
    token + ['\0'] + session
  }

  /** `_locks.get(name)` or a lock made on the spot. */
  function WithLock(s: State, name: Name): State {
    if name in s.locks then s
    else s.(locks := s.locks[name := LockId(name, s.nextLock)], nextLock := s.nextLock + 1)
  }

  function Acquire(s: State, name: Name, who: Owner): (State, bool) {
    var s1 := WithLock(s, name);
    var lock := s1.locks[name];
    if lock in s1.owner then (s1, false)
    else
      var s2 := s1.(owner := s1.owner[lock := who]);
      (if who.Stream? then s2.(holders := s2.holders[name := who.id]) else s2, true)
  }

  function ExitContext(s: State, lock: LockId): State {
    if lock in s.owner && s.owner[lock].Context?
    then s.(owner := s.owner - {lock}, leaving := s.leaving + multiset{lock})
    else s
  }

  function Cleanup(s: State, lock: LockId): State {
    if lock !in s.leaving then s else
    var s1 := s.(leaving := s.leaving - multiset{lock});
    if lock.name in s.locks && s.locks[lock.name] == lock && lock !in s.owner
    then s1.(locks := s.locks - {lock.name})
    else s1
  }

  function ReleaseBy(s: State, name: Name, id: StreamTag): State {
    if name !in s.holders || s.holders[name] != id then s else
    var s1 := s.(holders := s.holders - {name});
    if name !in s.locks then s1 else
    s1.(owner := s.owner - {s.locks[name]}, locks := s.locks - {name})
  }

  datatype Action =
    | EnterContext(name: Name, task: nat)
    | LeaveContext(lock: LockId)
    | RunCleanup(lock: LockId)
    | AcquireWithId(name: Name, id: StreamTag)
    | ReleaseId(name: Name, id: StreamTag)

  function Step(s: State, a: Action): State {
    match a
    case EnterContext(name, task) => Acquire(s, name, Context(task)).0
    case LeaveContext(lock) => ExitContext(s, lock)
    case RunCleanup(lock) => Cleanup(s, lock)
    case AcquireWithId(name, id) => Acquire(s, name, Stream(id)).0
    case ReleaseId(name, id) => ReleaseBy(s, name, id)
  }

  function Run(actions: seq<Action>): State {
    if actions == [] then Idle else Step(Run(actions[..|actions| - 1]), actions[|actions| - 1])
  }

  // ----- invariant -----

  ghost predicate LockOk(s: State, lock: LockId) {
    && (lock in s.owner ==> lock.name in s.locks && s.locks[lock.name] == lock)
    && (lock in s.owner && s.owner[lock].Stream? ==>
          lock.name in s.holders && s.holders[lock.name] == s.owner[lock].id)
    && (lock in s.owner || lock in s.leaving ==> lock.serial < s.nextLock)
  }

  ghost predicate NameOk(s: State, name: Name) {
    && (name in s.locks ==>
          var lock := s.locks[name];
          lock.name == name && lock.serial < s.nextLock && (lock in s.owner || lock in s.leaving))
    && (name in s.holders ==>
          name in s.locks && s.locks[name] in s.owner && s.owner[s.locks[name]] == Stream(s.holders[name]))
  }

  ghost predicate Inv(s: State) {
    (forall lock :: LockOk(s, lock)) && (forall name :: NameOk(s, name))
  }

  lemma AcquireKeeps(s: State, name: Name, who: Owner)
    requires Inv(s)
    ensures Inv(Acquire(s, name, who).0)
  {
    var s2 := Acquire(s, name, who).0;
    assert NameOk(s, name) && LockOk(s, LockId(name, s.nextLock));
    forall lock ensures LockOk(s2, lock) {
      assert LockOk(s, lock);
    }
    forall n ensures NameOk(s2, n) {
      assert NameOk(s, n);
    }
  }

  lemma ExitKeeps(s: State, lock: LockId)
    requires Inv(s)
    ensures Inv(ExitContext(s, lock))
  {
    var s2 := ExitContext(s, lock);
    forall l ensures LockOk(s2, l) {
      assert LockOk(s, l);
    }
    forall n ensures NameOk(s2, n) {
      assert NameOk(s, n);
    }
  }

  lemma CleanupKeeps(s: State, lock: LockId)
    requires Inv(s)
    ensures Inv(Cleanup(s, lock))
  {
    var s2 := Cleanup(s, lock);
    forall l ensures LockOk(s2, l) {
      assert LockOk(s, l);
    }
    forall n ensures NameOk(s2, n) {
      assert NameOk(s, n);
    }
  }

  lemma ReleaseKeeps(s: State, name: Name, id: StreamTag)
    requires Inv(s)
    ensures Inv(ReleaseBy(s, name, id))
  {
    var s2 := ReleaseBy(s, name, id);
    assert NameOk(s, name);
    forall l ensures LockOk(s2, l) {
      assert LockOk(s, l);
    }
    forall n ensures NameOk(s2, n) {
      assert NameOk(s, n);
    }
  }

  lemma StepKeeps(s: State, a: Action)
    requires Inv(s)
    ensures Inv(Step(s, a))
  {
    match a
    case EnterContext(name, task) => AcquireKeeps(s, name, Context(task));
    case LeaveContext(lock) => ExitKeeps(s, lock);
    case RunCleanup(lock) => CleanupKeeps(s, lock);
    case AcquireWithId(name, id) => AcquireKeeps(s, name, Stream(id));
    case ReleaseId(name, id) => ReleaseKeeps(s, name, id);
  }

  lemma {:induction false} RunInvariant(actions: seq<Action>)
    ensures Inv(Run(actions))
  {
    if actions != [] {
      RunInvariant(actions[..|actions| - 1]);
      StepKeeps(Run(actions[..|actions| - 1]), actions[|actions| - 1]);
    }
  }

  // ----- what single flight means, in every run -----

  ghost predicate Held(s: State, name: Name) {
    exists lock :: lock in s.owner && lock.name == name
  }

  /** At most one holder per name; every locked lock is the one in the table; a
      recorded stream really holds its lock. */
  lemma SingleFlight(actions: seq<Action>)
    ensures var s := Run(actions);
            && (forall l1, l2 :: l1 in s.owner && l2 in s.owner && l1.name == l2.name ==> l1 == l2)
            && (forall lock :: lock in s.owner ==> lock.name in s.locks && s.locks[lock.name] == lock)
            && (forall name :: name in s.holders ==>
                  name in s.locks && s.locks[name] in s.owner && s.owner[s.locks[name]] == Stream(s.holders[name]))
  {
    var s := Run(actions);
    RunInvariant(actions);
    forall lock | lock in s.owner
      ensures lock.name in s.locks && s.locks[lock.name] == lock
    {
      assert LockOk(s, lock);
    }
    forall name | name in s.holders
      ensures name in s.locks && s.locks[name] in s.owner && s.owner[s.locks[name]] == Stream(s.holders[name])
    {
      assert NameOk(s, name);
    }
  }

  /** Acquisition is refused exactly when somebody holds the name, and then nothing
      about who holds what has changed. */
  lemma RefusedIffHeld(s: State, name: Name, who: Owner)
    requires Inv(s)
    ensures !Acquire(s, name, who).1 <==> Held(s, name)
    ensures !Acquire(s, name, who).1 ==> Acquire(s, name, who).0 == s
    ensures Acquire(s, name, who).1 ==>
              var s2 := Acquire(s, name, who).0;
              && name in s2.locks && s2.owner == s.owner[s2.locks[name] := who]
              && (forall n :: n != name ==> (n in s2.holders <==> n in s.holders))
  {
    assert NameOk(s, name);
    forall lock | lock in s.owner && lock.name == name
      ensures name in s.locks && s.locks[name] == lock
    {
      assert LockOk(s, lock);
    }
    assert LockOk(s, LockId(name, s.nextLock));
  }

  /** Releasing by the holder frees the name and nothing else; by anyone else it is
      a no-op. */
  lemma ReleaseFreesOwnOnly(s: State, name: Name, id: StreamTag)
    requires Inv(s)
    ensures var s2 := ReleaseBy(s, name, id);
            if name in s.holders && s.holders[name] == id
            then !Held(s2, name) && name !in s2.holders && name !in s2.locks
                 && (forall n :: n != name ==> (Held(s2, n) <==> Held(s, n)))
                 && s2.holders == s.holders - {name}
            else s2 == s
  {
    var s2 := ReleaseBy(s, name, id);
    assert NameOk(s, name);
    if name in s.holders && s.holders[name] == id {
      forall lock | lock in s2.owner
        ensures lock.name != name
      {
        assert LockOk(s, lock);
      }
      forall n | n != name
        ensures Held(s2, n) <==> Held(s, n)
      {
        if Held(s, n) {
          var lock :| lock in s.owner && lock.name == n;
          assert lock in s2.owner;
        }
      }
    }
  }

  /** A stream that acquires and releases leaves no trace but a used serial. */
  lemma AcquireReleaseRoundTrip(s: State, name: Name, id: StreamTag)
    requires Inv(s) && name !in s.locks
    ensures var (s1, ok) := Acquire(s, name, Stream(id));
            ok && ReleaseBy(s1, name, id) == s.(nextLock := s.nextLock + 1)
  {
    assert NameOk(s, name);
    assert LockOk(s, LockId(name, s.nextLock));
    var s1 := Acquire(s, name, Stream(id)).0;
    assert s1.locks - {name} == s.locks;
    assert s1.holders - {name} == s.holders;
    assert s1.owner - {LockId(name, s.nextLock)} == s.owner;
  }

  /** Leaving the context that holds a lock frees its name, changes nobody else's
      holding, and the next one to come gets in. Its later cleanup changes no holding. */
  lemma LeavingFrees(s: State, lock: LockId, who: Owner)
    requires Inv(s) && lock in s.owner && s.owner[lock].Context?
    ensures var s2 := ExitContext(s, lock);
            && !Held(s2, lock.name)
            && (forall n :: n != lock.name ==> (Held(s2, n) <==> Held(s, n)))
            && (forall l :: l in s.owner && l.name != lock.name ==> l in s2.owner && s2.owner[l] == s.owner[l])
            && s2.holders == s.holders && s2.locks == s.locks
            && Acquire(s2, lock.name, who).1
            && Cleanup(s2, lock).owner == s2.owner && Cleanup(s2, lock).holders == s2.holders
            && Acquire(Cleanup(s2, lock), lock.name, who).1
  {
    var s2 := ExitContext(s, lock);
    forall l | l in s.owner && l.name == lock.name
      ensures l == lock
    {
      assert LockOk(s, l) && LockOk(s, lock);
    }
    forall n | n != lock.name
      ensures Held(s2, n) <==> Held(s, n)
    {
      if Held(s, n) {
        var l :| l in s.owner && l.name == n;
        assert l in s2.owner;
      }
    }
    ExitKeeps(s, lock);
    CleanupKeeps(s2, lock);
    RefusedIffHeld(s2, lock.name, who);
    RefusedIffHeld(Cleanup(s2, lock), lock.name, who);
  }

  lemma RunSnoc(actions: seq<Action>, a: Action)
    ensures Run(actions + [a]) == Step(Run(actions), a)
  {
    assert (actions + [a])[..|actions|] == actions;
  }

  /** In every run a context that got in can leave, and the next to come gets in, whether
      or not the one that left has cleaned up. */
  lemma ContextGivesBack(actions: seq<Action>, name: Name, task: nat, who: Owner)
    requires !Held(Run(actions), name)
    ensures var entered := Run(actions + [EnterContext(name, task)]);
            name in entered.locks && Held(entered, name) && entered.owner[entered.locks[name]] == Context(task)
    ensures var left := actions + [EnterContext(name, task)] + [LeaveContext(Run(actions + [EnterContext(name, task)]).locks[name])];
            && !Held(Run(left), name) && Acquire(Run(left), name, who).1
            && Acquire(Run(left + [RunCleanup(Run(actions + [EnterContext(name, task)]).locks[name])]), name, who).1
  {
    RunInvariant(actions);
    RunSnoc(actions, EnterContext(name, task));
    RefusedIffHeld(Run(actions), name, Context(task));
    var entered := Run(actions + [EnterContext(name, task)]);
    var lock := entered.locks[name];
    RunInvariant(actions + [EnterContext(name, task)]);
    assert NameOk(entered, name);
    LeavingFrees(entered, lock, who);
    RunSnoc(actions + [EnterContext(name, task)], LeaveContext(lock));
    RunSnoc(actions + [EnterContext(name, task)] + [LeaveContext(lock)], RunCleanup(lock));
  }

  /** A context that enters, leaves and cleans up leaves no trace but a used serial. */
  lemma ContextRoundTrip(s: State, name: Name, task: nat)
    requires Inv(s) && name !in s.locks
    ensures var (s1, ok) := Acquire(s, name, Context(task));
            && ok && name in s1.locks
            && Cleanup(ExitContext(s1, s1.locks[name]), s1.locks[name]) == s.(nextLock := s.nextLock + 1)
  {
    var lock := LockId(name, s.nextLock);
    assert LockOk(s, lock);
    var s1 := Acquire(s, name, Context(task)).0;
    assert s1.locks - {name} == s.locks;
    assert s1.owner - {lock} == s.owner;
    assert s.leaving + multiset{lock} - multiset{lock} == s.leaving;
  }

  /** No leak: once every context exit has cleaned up, the table holds exactly the
      names somebody holds. */
  lemma NoIdleLocks(actions: seq<Action>, name: Name)
    requires Run(actions).leaving == multiset{}
    ensures name in Run(actions).locks <==> Held(Run(actions), name)
  {
    var s := Run(actions);
    RunInvariant(actions);
    assert NameOk(s, name);
    if Held(s, name) {
      var lock :| lock in s.owner && lock.name == name;
      assert LockOk(s, lock);
    }
  }

  lemma TokenNotLonger(t1: string, s1: string, t2: string, s2: string)
    requires '\0' !in t2 && SessionKey(t1, s1) == SessionKey(t2, s2)
    ensures |t2| <= |t1|
  {
    assert SessionKey(t1, s1)[|t1|] == '\0';
    assert forall i :: 0 <= i < |t2| ==> SessionKey(t2, s2)[i] == t2[i] && t2[i] in t2;
  }

  /** Different (token, session) pairs never share a lock. */
  lemma SessionKeyInjective(t1: string, s1: string, t2: string, s2: string)
    requires '\0' !in t1 && '\0' !in t2
    requires SessionKey(t1, s1) == SessionKey(t2, s2)
    ensures t1 == t2 && s1 == s2
  {
    TokenNotLonger(t1, s1, t2, s2);
    TokenNotLonger(t2, s2, t1, s1);
    assert t1 == SessionKey(t1, s1)[..|t1|] == t2;
    assert s1 == SessionKey(t1, s1)[|t1| + 1..] == s2;
  }

  // ----- the object -----

  class PerTokenConcurrency {
    var locks: map<Name, LockId>
    var holders: map<Name, StreamTag>
    var owner: map<LockId, Owner>
    ghost var leaving: multiset<LockId>
    var nextLock: nat

    ghost function Abs(): State
      reads this
    {
      State(locks, holders, owner, leaving, nextLock)
    }

    constructor ()
      ensures Abs() == Idle
    {
      locks, holders, owner, leaving, nextLock := map[], map[], map[], multiset{}, 0;
    }

    method LockFor(name: Name) returns (lock: LockId)
      modifies this`locks, this`nextLock
      ensures Abs() == WithLock(old(Abs()), name)
      ensures name in locks && lock == locks[name]
    {
      if name !in locks {
        locks := locks[name := LockId(name, nextLock)];
        nextLock := nextLock + 1;
      }
      lock := locks[name];
    }

    /** The entry half of the `acquire` context manager. */
    method EnterContext(name: Name, task: nat) returns (acquired: bool)
      modifies this
      ensures (Abs(), acquired) == Acquire(old(Abs()), name, Context(task))
    {
      var lock := LockFor(name);
      acquired := false;
      if lock !in owner {
        owner := owner[lock := Context(task)];
        acquired := true;
      }
    }

    /** The exit half: release, then (a later step) drop the idle lock. */
    method LeaveContext(lock: LockId)
      requires lock in owner && owner[lock].Context?
      modifies this
      ensures Abs() == ExitContext(old(Abs()), lock)
    {
      owner := owner - {lock};
      leaving := leaving + multiset{lock};
    }

    method RunCleanup(lock: LockId)
      requires lock in leaving
      modifies this
      ensures Abs() == Cleanup(old(Abs()), lock)
    {
      leaving := leaving - multiset{lock};
      if lock.name in locks && locks[lock.name] == lock && lock !in owner {
        locks := locks - {lock.name};
      }
    }

    method AcquireWithId(name: Name, id: StreamTag) returns (acquired: bool)
      modifies this
      ensures (Abs(), acquired) == Acquire(old(Abs()), name, Stream(id))
    {
      var lock := LockFor(name);
      if lock in owner {
        return false;
      }
      owner := owner[lock := Stream(id)];
      holders := holders[name := id];
      return true;
    }

    method CurrentStreamId(name: Name) returns (id: Option<StreamTag>)
      ensures id == if name in holders then Some(holders[name]) else None
    {
      id := if name in holders then Some(holders[name]) else None;
    }

    method Release(name: Name, id: StreamTag)
      modifies this
      ensures Abs() == ReleaseBy(old(Abs()), name, id)
    {
      if name !in holders || holders[name] != id {
        return;
      }
      holders := holders - {name};
      if name !in locks {
        return;
      }
      var lock := locks[name];
      owner := owner - {lock};
      if lock !in owner {
        locks := locks - {name};
      }
    }
  }
}
