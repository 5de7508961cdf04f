/** core/quota.py: reserve-at-start, refund-unless-committed. The storage primitives
    `try_reserve_daily_usage` and `refund_daily_usage` are atomic; a refund may
    also fail. */
module Quota {
  import opened Lists

  datatype Day = Day(name: string, day: int)

  /** `Refunding` is a reservation that has marked itself settled and whose storage
      call has not happened yet; `Stuck` one whose storage call failed. */
  datatype Status = Open | Committed | Refunding | Refunded | Stuck

  datatype Reservation = Reservation(day: Day, count: nat, remaining: nat, status: Status)

  datatype State = State(counts: map<Day, nat>, made: seq<Reservation>)

  datatype Action =
    | Reserve(day: Day, quota: nat)
    | Commit(i: nat)
    | Close(i: nat)
    | Refund(i: nat)
    | RefundFails(i: nat)

  function CountOf(counts: map<Day, nat>, day: Day): nat {
    if day in counts then counts[day] else 0
  }

  /** `try_reserve_daily_usage`. */
  function TryReserve(counts: map<Day, nat>, day: Day, quota: nat): (map<Day, nat>, Option<nat>) {
    var current := CountOf(counts, day);
    if current >= quota then (counts, None) else (counts[day := current + 1], Some(current + 1))
  }

  /** `refund_daily_usage`: floored at zero. */
  function RefundOne(counts: map<Day, nat>, day: Day): map<Day, nat> {
    if CountOf(counts, day) > 0 then counts[day := CountOf(counts, day) - 1] else counts
  }

  function WithStatus(s: State, i: nat, status: Status): State
    requires i < |s.made|
  {
    s.(made := s.made[i := s.made[i].(status := status)])
  }

  predicate Is(s: State, i: nat, status: Status) {
    i < |s.made| && s.made[i].status == status
  }

  function Step(s: State, a: Action): State {
    match a
    case Reserve(day, quota) =>
      var (counts, count) := TryReserve(s.counts, day, quota);
      if count.None? then s else
      State(counts, s.made + [Reservation(day, count.value, quota - count.value, Open)])
    case Commit(i) => if Is(s, i, Open) then WithStatus(s, i, Committed) else s
    case Close(i) => if Is(s, i, Open) then WithStatus(s, i, Refunding) else s
    case Refund(i) =>
      if Is(s, i, Refunding)
      then WithStatus(s, i, Refunded).(counts := RefundOne(s.counts, s.made[i].day))
      else s
    case RefundFails(i) => if Is(s, i, Refunding) then WithStatus(s, i, Stuck) else s
  }

  function Run(actions: seq<Action>): State {
    if actions == [] then State(map[], []) else
    Step(Run(actions[..|actions| - 1]), actions[|actions| - 1])
  }

  // ----- conservation -----

  /** Does the reservation still hold its unit of `day`? */
  function Unit(r: Reservation, day: Day): nat {
    if r.day == day && !r.status.Refunded? then 1 else 0
  }

  function Units(made: seq<Reservation>, day: Day): nat {
    if made == [] then 0 else Units(made[..|made| - 1], day) + Unit(made[|made| - 1], day)
  }

  lemma {:induction false} UnitsUpdate(made: seq<Reservation>, i: nat, r: Reservation, day: Day)
    requires i < |made|
    ensures Units(made[i := r], day) == Units(made, day) - Unit(made[i], day) + Unit(r, day)
  {
    var n := |made| - 1;
    if i < n {
      assert made[i := r][..n] == made[..n][i := r];
      UnitsUpdate(made[..n], i, r, day);
    } else {
      assert made[i := r][..n] == made[..n];
    }
  }

  lemma {:induction false} UnitsPositive(made: seq<Reservation>, i: nat)
    requires i < |made| && !made[i].status.Refunded?
    ensures Units(made, made[i].day) > 0
  {
    if i < |made| - 1 {
      UnitsPositive(made[..|made| - 1], i);
    }
  }

  ghost predicate Balanced(s: State) {
    forall day :: BalancedOn(s, day)
  }

  ghost predicate BalancedOn(s: State, day: Day) {
    CountOf(s.counts, day) == Units(s.made, day)
  }

  lemma ReserveBalanced(s: State, on: Day, quota: nat, day: Day)
    requires BalancedOn(s, day)
    ensures BalancedOn(Step(s, Reserve(on, quota)), day)
  {
    var s2 := Step(s, Reserve(on, quota));
    if s2 != s {
      assert s2.made[..|s2.made| - 1] == s.made;
    }
  }

  lemma StatusBalanced(s: State, i: nat, status: Status, day: Day)
    requires i < |s.made| && BalancedOn(s, day)
    requires !s.made[i].status.Refunded? && !status.Refunded?
    ensures BalancedOn(WithStatus(s, i, status), day)
  {
    UnitsUpdate(s.made, i, s.made[i].(status := status), day);
  }

  lemma RefundBalanced(s: State, i: nat, day: Day)
    requires Is(s, i, Refunding) && BalancedOn(s, day) && BalancedOn(s, s.made[i].day)
    ensures BalancedOn(Step(s, Refund(i)), day)
  {
    UnitsUpdate(s.made, i, s.made[i].(status := Refunded), day);
    UnitsPositive(s.made, i);
  }

  lemma StepBalanced(s: State, a: Action)
    requires Balanced(s)
    ensures Balanced(Step(s, a))
  {
    forall day ensures BalancedOn(Step(s, a), day) {
      assert BalancedOn(s, day);
      match a
      case Reserve(on, quota) => ReserveBalanced(s, on, quota, day);
      case Commit(i) => if Is(s, i, Open) { StatusBalanced(s, i, Committed, day); }
      case Close(i) => if Is(s, i, Open) { StatusBalanced(s, i, Refunding, day); }
      case Refund(i) =>
        if Is(s, i, Refunding) {
          assert BalancedOn(s, s.made[i].day);
          RefundBalanced(s, i, day);
        }
      case RefundFails(i) => if Is(s, i, Refunding) { StatusBalanced(s, i, Stuck, day); }
    }
  }

  /** In every run: the day's count is the number of units held by open, committed
      (or stuck) reservations, and a refund always takes one off it. */
  lemma {:induction false} Conservation(actions: seq<Action>)
    ensures Balanced(Run(actions))
  {
    if actions != [] {
      Conservation(actions[..|actions| - 1]);
      StepBalanced(Run(actions[..|actions| - 1]), actions[|actions| - 1]);
    }
  }

  lemma RefundIsNeverLost(actions: seq<Action>, i: nat)
    requires Is(Run(actions), i, Refunding)
    ensures var s := Run(actions);
            var day := s.made[i].day;
            CountOf(Step(s, Refund(i)).counts, day) == CountOf(s.counts, day) - 1
  {
    Conservation(actions);
    var s := Run(actions);
    UnitsPositive(s.made, i);
    assert BalancedOn(s, s.made[i].day);
  }

  /** Requests for `day` never quote a quota above `quota`. */
  ghost predicate QuotaAtMost(actions: seq<Action>, day: Day, quota: nat) {
    forall a :: a in actions && a.Reserve? && a.day == day ==> a.quota <= quota
  }

  lemma {:induction false} NeverOverQuota(actions: seq<Action>, day: Day, quota: nat)
    requires QuotaAtMost(actions, day, quota)
    ensures CountOf(Run(actions).counts, day) <= quota
  {
    if actions != [] {
      var front := actions[..|actions| - 1];
      assert actions == front + [actions[|actions| - 1]];
      NeverOverQuota(front, day, quota);
      assert actions[|actions| - 1] in actions;
    }
  }

  /** Once settled, a reservation stays settled the same way: it is charged once
      or refunded once, whatever is called on it later. */
  lemma {:induction false} SettledForGood(actions: seq<Action>, more: seq<Action>, i: nat)
    requires i < |Run(actions).made|
    ensures i < |Run(actions + more).made|
    ensures var before, after := Run(actions).made[i], Run(actions + more).made[i];
            && after.(status := before.status) == before
            && (before.status.Committed? || before.status.Refunded? || before.status.Stuck? ==> after == before)
            && (before.status.Refunding? ==> after.status.Refunding? || after.status.Refunded? || after.status.Stuck?)
  {
    if more == [] {
      assert actions + more == actions;
    } else {
      var n := |more| - 1;
      SettledForGood(actions, more[..n], i);
      assert (actions + more)[..|actions + more| - 1] == actions + more[..n];
    }
  }

  lemma RunSnoc(actions: seq<Action>, a: Action)
    ensures Run(actions + [a]) == Step(Run(actions), a)
  {
    assert (actions + [a])[..|actions|] == actions;
  }

  /** A reservation committed while it was open is charged for good: whatever is called
      on it later in the run, it is never refunded. */
  lemma CommitSticks(actions: seq<Action>, more: seq<Action>, i: nat)
    requires Is(Run(actions), i, Open)
    ensures Is(Run(actions + [Commit(i)] + more), i, Committed)
  {
    RunSnoc(actions, Commit(i));
    SettledForGood(actions + [Commit(i)], more, i);
  }

  /** One closed while open gives its unit back, to its own day alone; one that does not
      reserve takes nothing, and one that does takes one. */
  lemma OneUnitEach(s: State, i: nat, day: Day, quota: nat)
    requires Balanced(s)
    ensures Is(s, i, Open) ==>
              var s2 := Step(Step(s, Close(i)), Refund(i));
              && Is(s2, i, Refunded)
              && CountOf(s2.counts, s.made[i].day) == CountOf(s.counts, s.made[i].day) - 1
              && forall d :: d != s.made[i].day ==> CountOf(s2.counts, d) == CountOf(s.counts, d)
    ensures Is(s, i, Refunding) ==> Is(Step(s, RefundFails(i)), i, Stuck) && Step(s, RefundFails(i)).counts == s.counts
    ensures var s2, c := Step(s, Reserve(day, quota)), CountOf(s.counts, day);
            if c >= quota then s2 == s
            else
              && s2.made == s.made + [Reservation(day, c + 1, quota - (c + 1), Open)]
              && CountOf(s2.counts, day) == c + 1
              && forall d :: d != day ==> CountOf(s2.counts, d) == CountOf(s.counts, d)
  {
    if Is(s, i, Open) {
      UnitsPositive(s.made, i);
      assert BalancedOn(s, s.made[i].day);
    }
  }

  // ----- the objects -----

  class DailyUsage {
    var counts: map<Day, nat>

    constructor ()
      ensures counts == map[]
    {
      counts := map[];
    }

    /** `works` says whether the storage call goes through; one that raises reserves
        nothing. */
    method TryReserveDailyUsage(day: Day, quota: nat, works: bool) returns (count: Option<nat>, raised: bool)
      modifies this
      ensures raised == !works
      ensures works ==> (counts, count) == TryReserve(old(counts), day, quota)
      ensures !works ==> counts == old(counts) && count.None?
    {
      raised := !works;
      if raised {
        return None, true;
      }
      var current := if day in counts then counts[day] else 0;
      if current >= quota {
        return None, false;
      }
      counts := counts[day := current + 1];
      return Some(current + 1), false;
    }

    /** `works` says whether the storage call goes through. */
    method RefundDailyUsage(day: Day, works: bool) returns (raised: bool)
      modifies this
      ensures counts == if works then RefundOne(old(counts), day) else old(counts)
      ensures raised == !works
    {
      raised := !works;
      if works && day in counts && counts[day] > 0 {
        counts := counts[day := counts[day] - 1];
      }
    }
  }

  class QuotaReservation {
    const storage: DailyUsage
    const day: Day
    const count: nat
    const remaining: nat
    var settled: bool

    constructor (storage: DailyUsage, day: Day, count: nat, quota: nat)
      ensures this.storage == storage && this.day == day && this.count == count && !settled
      ensures this.remaining == if count < quota then quota - count else 0
    {
      this.storage, this.day, this.count, settled := storage, day, count, false;
      this.remaining := if count < quota then quota - count else 0;
    }

    /** What the storage call raises goes to the caller. */
    static method Open(storage: DailyUsage, day: Day, quota: nat, works: bool)
      returns (r: QuotaReservation?, raised: bool)
      modifies storage
      ensures raised == !works
      ensures storage.counts == if works then TryReserve(old(storage.counts), day, quota).0 else old(storage.counts)
      ensures r == null <==> raised || old(CountOf(storage.counts, day)) >= quota
      ensures r != null ==>
                && fresh(r) && r.storage == storage && r.day == day && !r.settled
                && r.count == CountOf(storage.counts, day) && r.remaining == quota - r.count
    {
      var count;
      count, raised := storage.TryReserveDailyUsage(day, quota, works);
      if count.None? {
        return null, raised;
      }
      r := new QuotaReservation(storage, day, count.value, quota);
    }

    method Commit()
      modifies this
      ensures settled
    {
      settled := true;
    }

    /** Marks itself settled before touching storage, so a failed refund is not
        retried. */
    method Close(works: bool) returns (raised: bool)
      modifies this, storage
      ensures settled
      ensures storage.counts == if old(settled) || !works then old(storage.counts)
                                else RefundOne(old(storage.counts), day)
      ensures raised <==> !old(settled) && !works
    {
      if settled {
        return false;
      }
      settled := true;
      raised := storage.RefundDailyUsage(day, works);
    }
  }
}
