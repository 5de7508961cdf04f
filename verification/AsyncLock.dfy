/** asyncio.Lock as core/file_store.py and core/ratelimit.py rely on it: a flag and a
    queue of waiters. Releasing wakes the head without handing the lock over; the
    woken task takes it when it next runs. */
module AsyncLock {
  import opened Lists

  type Task = nat

  /** The future a waiter awaits: pending, completed, cancelled; or completed and the
      task then cancelled before it ran. */
  datatype Wait = Parked | Woken | GaveUp | WokenGaveUp

  datatype Waiter = Waiter(task: Task, wait: Wait)

  /** `owner` is who took the lock; it is locked while there is one. */
  datatype Lock = Lock(owner: Option<Task>, waiters: seq<Waiter>)

  const NewLock := Lock(None, [])

  predicate Cancelled(w: Waiter) { w.wait.GaveUp? }

  /** Has its task got something to run? */
  predicate Runnable(w: Waiter) { !w.wait.Parked? }

  predicate AllCancelled(ws: seq<Waiter>) {
    forall i :: 0 <= i < |ws| ==> Cancelled(ws[i])
  }

  function WakeFirst(l: Lock): Lock {
    if l.waiters != [] && l.waiters[0].wait.Parked?
    then l.(waiters := [l.waiters[0].(wait := Woken)] + l.waiters[1..])
    else l
  }

  function RemoveWaiter(l: Lock, i: nat): Lock
    requires i < |l.waiters|
  {
    l.(waiters := l.waiters[..i] + l.waiters[i + 1..])
  }

  /** `acquire` up to its first suspension. */
  function Acquire(l: Lock, t: Task): Lock {
    if l.owner.None? && AllCancelled(l.waiters) then l.(owner := Some(t))
    else l.(waiters := l.waiters + [Waiter(t, Parked)])
  }

  function CancelAt(l: Lock, i: nat): Lock
    requires i < |l.waiters|
  {
    var w := l.waiters[i];
    match w.wait
    case Parked => l.(waiters := l.waiters[i := w.(wait := GaveUp)])
    case Woken => l.(waiters := l.waiters[i := w.(wait := WokenGaveUp)])
    case _ => l
  }

  /** A runnable waiter resumes: it leaves the queue, and takes the lock or, if it was
      cancelled, passes the wakeup on. */
  function ResumeAt(l: Lock, i: nat): Lock
    requires i < |l.waiters| && Runnable(l.waiters[i])
  {
    var rest := RemoveWaiter(l, i);
    if l.waiters[i].wait.Woken? then rest.(owner := Some(l.waiters[i].task))
    else if l.owner.None? then WakeFirst(rest)
    else rest
  }

  function Release(l: Lock): Lock {
    WakeFirst(l.(owner := None))
  }

  // ----- what the lock guarantees -----

  /** Only the head can have been woken, and only while the lock is free; a free lock
      with waiters has a head that is about to run. */
  ghost predicate LockInv(l: Lock) {
    && (forall i :: 0 <= i < |l.waiters| && (l.waiters[i].wait.Woken? || l.waiters[i].wait.WokenGaveUp?) ==>
          i == 0 && l.owner.None?)
    && (l.owner.None? && l.waiters != [] ==> Runnable(l.waiters[0]))
    && (forall i, j :: 0 <= i < j < |l.waiters| ==> l.waiters[i].task != l.waiters[j].task)
    && (l.owner.Some? ==> !Queued(l, l.owner.value))
  }

  predicate Queued(l: Lock, t: Task) {
    exists i :: 0 <= i < |l.waiters| && l.waiters[i].task == t
  }

  lemma AcquireInv(l: Lock, t: Task)
    requires LockInv(l) && !Queued(l, t) && l.owner != Some(t)
    ensures LockInv(Acquire(l, t))
    ensures Acquire(l, t).owner == Some(t) <==> l.owner.None? && AllCancelled(l.waiters)
    ensures forall u :: u != t ==> (Queued(Acquire(l, t), u) <==> Queued(l, u))
    ensures Queued(Acquire(l, t), t) <==> Acquire(l, t).owner != Some(t)
    // waiters queue in the order they came
    ensures l.waiters <= Acquire(l, t).waiters
  {
    var l2 := Acquire(l, t);
    if l2.owner != Some(t) {
      assert l2.waiters[|l.waiters|].task == t;
      assert l.waiters == [] ==> l.owner.Some?;
    }
    forall u | u != t
      ensures Queued(l2, u) <==> Queued(l, u)
    {
      if Queued(l, u) {
        var i :| 0 <= i < |l.waiters| && l.waiters[i].task == u;
        assert l2.waiters[i].task == u;
      }
    }
  }

  lemma CancelInv(l: Lock, i: nat)
    requires LockInv(l) && i < |l.waiters|
    ensures LockInv(CancelAt(l, i)) && CancelAt(l, i).owner == l.owner
    ensures forall u :: Queued(CancelAt(l, i), u) <==> Queued(l, u)
    // it will run, and leave without the lock; nobody else is touched
    ensures Runnable(CancelAt(l, i).waiters[i]) && ResumeAt(CancelAt(l, i), i).owner == l.owner
    ensures forall j :: 0 <= j < |l.waiters| && j != i ==> CancelAt(l, i).waiters[j] == l.waiters[j]
  {
    SameTasks(l, CancelAt(l, i));
  }

  lemma SameTasks(l: Lock, l2: Lock)
    requires |l.waiters| == |l2.waiters|
    requires forall i :: 0 <= i < |l.waiters| ==> l.waiters[i].task == l2.waiters[i].task
    ensures forall u :: Queued(l2, u) <==> Queued(l, u)
  {
    forall u
      ensures Queued(l2, u) <==> Queued(l, u)
    {
      if Queued(l, u) {
        var i :| 0 <= i < |l.waiters| && l.waiters[i].task == u;
        assert l2.waiters[i].task == u;
      }
      if Queued(l2, u) {
        var i :| 0 <= i < |l2.waiters| && l2.waiters[i].task == u;
        assert l.waiters[i].task == u;
      }
    }
  }

  lemma RemoveQueued(l: Lock, i: nat)
    requires LockInv(l) && i < |l.waiters|
    ensures forall u :: Queued(RemoveWaiter(l, i), u) <==> Queued(l, u) && u != l.waiters[i].task
  {
    var l2 := RemoveWaiter(l, i);
    forall u
      ensures Queued(l2, u) <==> Queued(l, u) && u != l.waiters[i].task
    {
      if Queued(l, u) && u != l.waiters[i].task {
        var j :| 0 <= j < |l.waiters| && l.waiters[j].task == u;
        assert l2.waiters[if j < i then j else j - 1].task == u;
      }
      if Queued(l2, u) {
        var j :| 0 <= j < |l2.waiters| && l2.waiters[j].task == u;
        assert l.waiters[if j < i then j else j + 1].task == u;
      }
    }
  }

  lemma RemovedDistinct(l: Lock, i: nat)
    requires LockInv(l) && i < |l.waiters|
    ensures var rest := RemoveWaiter(l, i);
            && (forall j, k :: 0 <= j < k < |rest.waiters| ==> rest.waiters[j].task != rest.waiters[k].task)
            && (forall j :: 0 <= j < |rest.waiters| ==> rest.waiters[j] == l.waiters[if j < i then j else j + 1])
  {
  }

  lemma HeadTakes(l: Lock)
    requires LockInv(l) && l.waiters != [] && l.waiters[0].wait.Woken?
    ensures LockInv(ResumeAt(l, 0))
  {
    var rest := RemoveWaiter(l, 0);
    RemovedDistinct(l, 0);
    RemoveQueued(l, 0);
    SameTasks(rest, rest.(owner := Some(l.waiters[0].task)));
  }

  lemma WokenRestInv(rest: Lock)
    requires rest.owner.None?
    requires forall i :: 0 <= i < |rest.waiters| ==> !rest.waiters[i].wait.Woken? && !rest.waiters[i].wait.WokenGaveUp?
    requires forall i, j :: 0 <= i < j < |rest.waiters| ==> rest.waiters[i].task != rest.waiters[j].task
    ensures LockInv(WakeFirst(rest))
  {
  }

  lemma HeadGivesUp(l: Lock)
    requires LockInv(l) && l.waiters != [] && (l.waiters[0].wait.GaveUp? || l.waiters[0].wait.WokenGaveUp?)
    ensures LockInv(ResumeAt(l, 0))
  {
    var rest := RemoveWaiter(l, 0);
    RemovedDistinct(l, 0);
    if l.owner.None? {
      WokenRestInv(rest);
    } else {
      RemoveQueued(l, 0);
    }
  }

  /** The head leaves. */
  lemma HeadLeaves(l: Lock)
    requires LockInv(l) && l.waiters != [] && Runnable(l.waiters[0])
    ensures LockInv(ResumeAt(l, 0))
  {
    if l.waiters[0].wait.Woken? {
      HeadTakes(l);
    } else {
      HeadGivesUp(l);
    }
  }

  /** Anyone behind the head can only have been cancelled. */
  lemma LaterLeaves(l: Lock, i: nat)
    requires LockInv(l) && 0 < i < |l.waiters| && Runnable(l.waiters[i])
    ensures LockInv(ResumeAt(l, i)) && ResumeAt(l, i).owner == l.owner
  {
    var rest := RemoveWaiter(l, i);
    RemovedDistinct(l, i);
    RemoveQueued(l, i);
    SameTasks(rest, WakeFirst(rest));
    assert rest.waiters[0] == l.waiters[0];
  }

  lemma ResumeQueued(l: Lock, i: nat)
    requires LockInv(l) && i < |l.waiters| && Runnable(l.waiters[i])
    ensures forall u :: Queued(ResumeAt(l, i), u) <==> Queued(l, u) && u != l.waiters[i].task
  {
    var rest := RemoveWaiter(l, i);
    RemoveQueued(l, i);
    if l.waiters[i].wait.Woken? {
      SameTasks(rest, rest.(owner := Some(l.waiters[i].task)));
    } else {
      SameTasks(rest, WakeFirst(rest));
    }
  }

  /** A woken waiter takes a lock nobody holds. */
  lemma ResumeInv(l: Lock, i: nat)
    requires LockInv(l) && i < |l.waiters| && Runnable(l.waiters[i])
    ensures var l2 := ResumeAt(l, i);
            && LockInv(l2)
            && (forall u :: Queued(l2, u) <==> Queued(l, u) && u != l.waiters[i].task)
            && (l.waiters[i].wait.Woken? ==> l.owner.None? && l2.owner == Some(l.waiters[i].task))
            && (!l.waiters[i].wait.Woken? ==> l2.owner == l.owner)
  {
    if i == 0 {
      HeadLeaves(l);
    } else {
      LaterLeaves(l, i);
    }
    ResumeQueued(l, i);
  }

  lemma ReleaseInv(l: Lock)
    requires LockInv(l) && l.owner.Some?
    ensures LockInv(Release(l)) && Release(l).owner.None?
    ensures forall u :: Queued(Release(l), u) <==> Queued(l, u)
  {
    SameTasks(l, Release(l));
  }
}
