/** core/stream_buffer.py: that subscribers get on. StreamProtocol says what is delivered;
    this says that it can always be delivered, and by which steps. */
module StreamLiveness {
  import opened Lists
  import opened StreamBuffer
  import opened InMemoryStreams
  import opened StreamProtocol

  // ----- what a subscriber still has to do -----

  /** Nothing is left to do: it has finished, or it sleeps on an event that nobody has set
      or is about to set. */
  predicate AtRest(w: World, s: Sub) {
    s.phase.Finished? || (s.phase.Parked? && s.phase.event !in w.buf.signalled + w.wakes)
  }

  /** Its event has been set, or is about to be. */
  predicate Due(w: World, event: EventId) {
    event in w.buf.signalled + w.wakes
  }

  function Owed(w: World, s: Sub): nat {
    if s.stream in w.buf.entries then |w.buf.entries[s.stream].chunks| else 0
  }

  /** An upper bound on the steps to rest. */
  function StepsLeft(w: World, s: Sub): nat {
    match s.phase
    case Finished(_) => 0
    case Fetching => 2 + Owed(w, s)
    case Parked(event) =>
      if event in w.buf.signalled then 3 + Owed(w, s) else if event in w.wakes then 4 + Owed(w, s) else 0
    case Yielding(pending, wake, terminalSeen) =>
      1 + |pending| + if !terminalSeen && Due(w, wake) then 4 + Owed(w, s) else 0
  }

  /** What subscriber `i` does next, or the waker for it. */
  function NextStep(s: Sub, i: nat, w: World): Action {
    match s.phase
    case Fetching => Turn(i)
    case Yielding(pending, _, _) => if pending != [] then Deliver(i) else EndBatch(i)
    case Parked(event) => if event in w.buf.signalled then Wake(i) else Fire(event)
    case Finished(_) => Turn(i)
  }

  /** Only this subscriber, and the waker, have moved. */
  ghost predicate OnlySub(w: World, w2: World, i: nat) {
    && w2.hist == w.hist && w2.buf.entries == w.buf.entries && w2.buf.order == w.buf.order
    && w2.sweeping == w.sweeping && w2.owed == w.owed && w2.audited == w.audited
    && w.buf.signalled <= w2.buf.signalled && w2.wakes <= w.wakes
    && |w2.subs| == |w.subs|
    && (forall j :: 0 <= j < |w.subs| && j != i ==> w2.subs[j] == w.subs[j])
    && (i < |w.subs| ==> w2.subs[i].stream == w.subs[i].stream && w2.subs[i].after == w.subs[i].after
                         && w2.subs[i].known == w.subs[i].known)
  }

  lemma FetchingMoves(w: World, caps: Caps, i: nat)
    requires 0 < caps.maxPerToken && i < |w.subs| && StreamOk(w, w.subs[i].stream) && w.subs[i].phase.Fetching?
    requires WellFormed(w.buf)
    ensures var w2 := Step(w, caps, Turn(i));
            OnlySub(w, w2, i) && StepsLeft(w2, w2.subs[i]) < StepsLeft(w, w.subs[i])
  {
  }

  lemma YieldingMoves(w: World, caps: Caps, i: nat)
    requires 0 < caps.maxPerToken && i < |w.subs| && w.subs[i].phase.Yielding?
    ensures var w2 := Step(w, caps, NextStep(w.subs[i], i, w));
            OnlySub(w, w2, i) && StepsLeft(w2, w2.subs[i]) < StepsLeft(w, w.subs[i])
  {
  }

  lemma ParkedMoves(w: World, caps: Caps, i: nat)
    requires 0 < caps.maxPerToken && i < |w.subs| && w.subs[i].phase.Parked? && !AtRest(w, w.subs[i])
    ensures var w2 := Step(w, caps, NextStep(w.subs[i], i, w));
            OnlySub(w, w2, i) && StepsLeft(w2, w2.subs[i]) < StepsLeft(w, w.subs[i])
  {
  }

  /** Each step brings it closer. */
  lemma NextMoves(w: World, caps: Caps, i: nat)
    requires 0 < caps.maxPerToken && 0 < caps.maxGlobal && Inv(w, caps)
    requires i < |w.subs| && !AtRest(w, w.subs[i])
    ensures var w2 := Step(w, caps, NextStep(w.subs[i], i, w));
            OnlySub(w, w2, i) && StepsLeft(w2, w2.subs[i]) < StepsLeft(w, w.subs[i])
  {
    match w.subs[i].phase
    case Fetching =>
      assert StreamOk(w, w.subs[i].stream);
      FetchingMoves(w, caps, i);
    case Yielding(_, _, _) => YieldingMoves(w, caps, i);
    case Parked(_) => ParkedMoves(w, caps, i);
  }

  lemma OnlySubTrans(w: World, w1: World, w2: World, i: nat)
    requires OnlySub(w, w1, i) && OnlySub(w1, w2, i)
    ensures OnlySub(w, w2, i)
  {
  }

  predicate Delivers(a: Action) {
    a.Turn? || a.Deliver? || a.EndBatch? || a.Wake? || a.Fire?
  }

  lemma OneMove(caps: Caps, actions: seq<Action>, i: nat) returns (a: Action)
    requires 0 < caps.maxPerToken && 0 < caps.maxGlobal && i < |Run(caps, actions).subs|
    requires !AtRest(Run(caps, actions), Run(caps, actions).subs[i])
    ensures var w, w2 := Run(caps, actions), Run(caps, actions + [a]);
            OnlySub(w, w2, i) && StepsLeft(w2, w2.subs[i]) < StepsLeft(w, w.subs[i])
    ensures Delivers(a)
  {
    a := NextStep(Run(caps, actions).subs[i], i, Run(caps, actions));
    RunInvariant(caps, actions);
    NextMoves(Run(caps, actions), caps, i);
    RunSnoc(caps, actions, a);
  }

  lemma {:induction false} ComesToRest(caps: Caps, actions: seq<Action>, i: nat) returns (more: seq<Action>)
    requires 0 < caps.maxPerToken && 0 < caps.maxGlobal && i < |Run(caps, actions).subs|
    ensures var w, w2 := Run(caps, actions), Run(caps, actions + more);
            OnlySub(w, w2, i) && AtRest(w2, w2.subs[i]) && |more| <= StepsLeft(w, w.subs[i])
    ensures forall a :: a in more ==> Delivers(a)
    decreases StepsLeft(Run(caps, actions), Run(caps, actions).subs[i])
  {
    var w := Run(caps, actions);
    if AtRest(w, w.subs[i]) {
      more := [];
      assert actions + [] == actions;
    } else {
      var a := OneMove(caps, actions, i);
      var rest := ComesToRest(caps, actions + [a], i);
      more := [a] + rest;
      Associates(actions, [a], rest);
      OnlySubTrans(w, Run(caps, actions + [a]), Run(caps, actions + more), i);
    }
  }

  lemma RestIsDone(caps: Caps, actions: seq<Action>, i: nat)
    requires 0 < caps.maxPerToken && 0 < caps.maxGlobal && i < |Run(caps, actions).subs|
    requires AtRest(Run(caps, actions), Run(caps, actions).subs[i])
    ensures var w := Run(caps, actions);
            var s := w.subs[i];
            && (s.phase.Finished? || (Active(w.buf, s.stream) && s.got == Since(Hist(w, s.stream), s.after)))
            && (s.known && s.stream in w.buf.entries ==> s.got == Since(Hist(w, s.stream), s.after))
            && (s.known && Closed(w.buf, s.stream) ==> s.phase == Finished(true))
  {
    RunInvariant(caps, actions);
    var w := Run(caps, actions);
    assert SubOk(w, w.subs[i]) && StreamOk(w, w.subs[i].stream);
  }

  /** From every state of every run each subscriber can get on, by its own turns and the
      waking that is due, in a bounded number of steps: until it has finished, or has
      everything a live stream holds. One whose stream is listed then has all of it. */
  lemma EverybodyGetsOn(caps: Caps, actions: seq<Action>, i: nat) returns (more: seq<Action>)
    requires 0 < caps.maxPerToken && 0 < caps.maxGlobal && i < |Run(caps, actions).subs|
    ensures forall a :: a in more ==> Delivers(a)
    ensures |more| <= StepsLeft(Run(caps, actions), Run(caps, actions).subs[i])
    ensures OnlySub(Run(caps, actions), Run(caps, actions + more), i)
    ensures var w := Run(caps, actions + more);
            var s := w.subs[i];
            && (s.phase.Finished? || (Active(w.buf, s.stream) && s.got == Since(Hist(w, s.stream), s.after)))
            && (s.known && s.stream in w.buf.entries ==> s.got == Since(Hist(w, s.stream), s.after))
            && (s.known && Closed(w.buf, s.stream) ==> s.phase == Finished(true))
  {
    more := ComesToRest(caps, actions, i);
    RestIsDone(caps, actions + more, i);
  }

  // ----- and that the other steps do something -----

  lemma CreateLists(w: World, caps: Caps, sid: StreamId, token: string, session: string)
    requires 0 < caps.maxPerToken && 0 < caps.maxGlobal && Inv(w, caps) && sid !in w.hist
    ensures var w2 := CreateIn(w, caps, sid, token, session);
            var full := |w.buf.order| == caps.maxGlobal && forall s :: s in w.buf.entries ==> Active(w.buf, s);
            if full then w2 == w else Active(w2.buf, sid) && sid in w2.hist
  {
    assert StreamOk(w, sid);
    FullMeansAllLive(w.buf, sid, token, session, caps.maxPerToken, caps.maxGlobal);
  }

  /** In every run a new stream is listed, and live, exactly unless the table is full of
      live streams. */
  lemma CreatedUnlessFull(caps: Caps, actions: seq<Action>, sid: StreamId, token: string, session: string)
    requires 0 < caps.maxPerToken && 0 < caps.maxGlobal && sid !in Run(caps, actions).hist
    ensures var w, w2 := Run(caps, actions), Run(caps, actions + [CreateStream(sid, token, session)]);
            var full := |w.buf.order| == caps.maxGlobal && forall s :: s in w.buf.entries ==> Active(w.buf, s);
            if full then w2 == w else Active(w2.buf, sid) && sid in w2.hist
  {
    RunInvariant(caps, actions);
    RunSnoc(caps, actions, CreateStream(sid, token, session));
    CreateLists(Run(caps, actions), caps, sid, token, session);
  }

  /** Whoever subscribes starts with nothing, at its own cursor. */
  lemma SubscribeStarts(caps: Caps, actions: seq<Action>, sid: StreamId, after: int)
    requires 0 < caps.maxPerToken
    ensures var subs, subs2 := Run(caps, actions).subs, Run(caps, actions + [Subscribe(sid, after)]).subs;
            |subs2| == |subs| + 1 && subs <= subs2
    ensures var s := Run(caps, actions + [Subscribe(sid, after)]).subs[|Run(caps, actions).subs|];
            s.stream == sid && s.after == after && s.got == [] && s.phase.Fetching?
            && (s.known <==> sid in Run(caps, actions).hist)
  {
    RunSnoc(caps, actions, Subscribe(sid, after));
    Subscribed(Run(caps, actions), caps, sid, after);
  }

  lemma Subscribed(w: World, caps: Caps, sid: StreamId, after: int)
    requires 0 < caps.maxPerToken
    ensures Step(w, caps, Subscribe(sid, after)).subs == w.subs + [Sub(sid, after, sid in w.hist, after, [], Fetching)]
  {
  }

  /** What the sweeper listed and then takes is gone, and its audit due if it was there. */
  lemma SweptGoes(caps: Caps, actions: seq<Action>, sid: StreamId)
    requires 0 < caps.maxPerToken && sid in Run(caps, actions).sweeping
    ensures var w, w2 := Run(caps, actions), Run(caps, actions + [SweepEvict(sid)]);
            && sid !in w2.buf.entries && sid !in w2.sweeping
            && (sid in w.buf.entries ==> sid in w2.owed)
  {
    RunSnoc(caps, actions, SweepEvict(sid));
  }

  /** An audit that is due is written once. */
  lemma DueIsAudited(caps: Caps, actions: seq<Action>, sid: StreamId)
    requires 0 < caps.maxPerToken && sid in Run(caps, actions).owed
    ensures var w, w2 := Run(caps, actions), Run(caps, actions + [AuditEviction(sid)]);
            w2.audited == w.audited + [sid] && sid !in w2.owed
  {
    RunSnoc(caps, actions, AuditEviction(sid));
  }
}
