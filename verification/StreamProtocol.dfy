/** core/stream_buffer.py: one driver, any number of subscribers, a sweeper and two
    caps, interleaved arbitrarily. The critical section of an operation and the
    `Event.set()` that follows it are separate steps, as are the turns of the
    subscribe loop, so every schedule of the event loop is among these runs. */
module StreamProtocol {
  import opened Lists
  import opened StreamBuffer
  import opened InMemoryStreams

  datatype Phase =
    | Fetching
    | Yielding(pending: seq<Chunk>, wake: EventId, terminalSeen: bool)
    | Parked(event: EventId)
    | Finished(complete: bool)

  /** One `iter_subscribe` call: where it started, its `last_seq`, what it yielded;
      `known` says whether the stream had been created when it subscribed. */
  datatype Sub = Sub(stream: StreamId, after: int, known: bool, last: int, got: seq<Chunk>, phase: Phase)

  datatype Caps = Caps(maxPerToken: nat, maxGlobal: nat)

  /** `hist` remembers the chunks of every stream ever created, `wakes` the events
      an append or close still has to set, `sweeping` the sweeper's stale list, `owed`
      the evictions whose audit row is still to be written. */
  datatype World = World(
    buf: Buffer, hist: map<StreamId, seq<Chunk>>, subs: seq<Sub>,
    wakes: set<EventId>, sweeping: set<StreamId>, owed: set<StreamId>, audited: seq<StreamId>)

  datatype Action =
    | CreateStream(sid: StreamId, token: string, session: string)
    | AppendChunk(sid: StreamId, num: nat, text: string)
    | CloseStream(sid: StreamId, state: StreamState, final: Final, now: int)
    | Fire(event: EventId)
    | ManualEvict(sid: StreamId)
    | SweepCollect(cutoff: int)
    | SweepEvict(sid: StreamId)
    | AuditEviction(sid: StreamId)
    | Subscribe(sid: StreamId, after: int)
    | Turn(i: nat)
    | Deliver(i: nat)
    | EndBatch(i: nat)
    | Wake(i: nat)

  function Defer(w: World, event: Option<EventId>): set<EventId> {
    if event.None? then w.wakes else w.wakes + {event.value}
  }

  /** The driver numbers its chunks upwards (StreamHandle.next_seq). */
  ghost predicate InSequence(w: World, sid: StreamId, num: nat) {
    sid in w.hist ==> forall c :: c in w.hist[sid] ==> c.num < num
  }

  function EvictIn(w: World, sid: StreamId): World {
    if sid in w.buf.entries then
      w.(buf := Evict(w.buf, sid), owed := w.owed + {sid})
    else w
  }

  /** Evictions are audited after the buffer's lock is released, in any order. */
  function AuditIn(w: World, sid: StreamId): World {
    if sid in w.owed then w.(owed := w.owed - {sid}, audited := w.audited + [sid]) else w
  }

  /** Stream ids are random and never reused (`_new_stream_id`). */
  function CreateIn(w: World, caps: Caps, sid: StreamId, token: string, session: string): World
    requires 0 < caps.maxPerToken
  {
    if sid in w.hist then w else
    match Create(w.buf, sid, token, session, caps.maxPerToken, caps.maxGlobal)
    case Reused => w
    case Full => w
    case Fresh(after, tokenVictims, globalVictims) =>
      w.(buf := after, hist := w.hist[sid := []], owed := w.owed + Elements(tokenVictims + globalVictims))
  }

  ghost function AppendIn(w: World, sid: StreamId, num: nat, text: string): World {
    if !InSequence(w, sid, num) || !Active(w.buf, sid) || sid !in w.hist then w else
    var (buf, event) := Append(w.buf, sid, num, text);
    w.(buf := buf, hist := w.hist[sid := w.hist[sid] + [Chunk(num, text)]], wakes := Defer(w, event))
  }

  function CloseIn(w: World, sid: StreamId, state: StreamState, final: Final, now: int): World {
    if !Terminal(state) then w else
    var (buf, event) := Close(w.buf, sid, state, final, now);
    w.(buf := buf, wakes := Defer(w, event))
  }

  function NewSub(w: World, sid: StreamId, after: int): Sub {
    Sub(sid, after, sid in w.hist, after, [], Fetching)
  }

  function TurnOf(w: World, s: Sub): Sub {
    match Poll(w.buf, s.stream, s.last)
    case Gone => s.(phase := Finished(false))
    case Batch(pending, wake, terminalSet) => s.(phase := Yielding(pending, wake, terminalSet))
  }

  function DeliverOne(s: Sub): Sub
    requires s.phase.Yielding? && s.phase.pending != []
  {
    var c := s.phase.pending[0];
    s.(got := s.got + [c], last := if c.num > s.last then c.num else s.last,
       phase := s.phase.(pending := s.phase.pending[1..]))
  }

  function BatchEnd(s: Sub): Sub
    requires s.phase.Yielding?
  {
    s.(phase := if s.phase.terminalSeen then Finished(true) else Parked(s.phase.wake))
  }

  predicate CanTurn(w: World, s: Sub) { s.phase.Fetching? }
  predicate CanDeliver(w: World, s: Sub) { s.phase.Yielding? && s.phase.pending != [] }
  predicate CanEnd(w: World, s: Sub) { s.phase.Yielding? && s.phase.pending == [] }
  predicate CanWake(w: World, s: Sub) { s.phase.Parked? && s.phase.event in w.buf.signalled }

  ghost function Step(w: World, caps: Caps, a: Action): World
    requires 0 < caps.maxPerToken
  {
    match a
    case CreateStream(sid, token, session) => CreateIn(w, caps, sid, token, session)
    case AppendChunk(sid, num, text) => AppendIn(w, sid, num, text)
    case CloseStream(sid, state, final, now) => CloseIn(w, sid, state, final, now)
    case Fire(event) => FireIn(w, event)
    case ManualEvict(sid) => EvictIn(w, sid)
    case SweepCollect(cutoff) => CollectIn(w, cutoff)
    case SweepEvict(sid) => if sid in w.sweeping then EvictIn(w, sid).(sweeping := w.sweeping - {sid}) else w
    case AuditEviction(sid) => AuditIn(w, sid)
    case Subscribe(sid, after) => w.(subs := w.subs + [NewSub(w, sid, after)])
    case Turn(i) =>
      if i < |w.subs| && CanTurn(w, w.subs[i]) then w.(subs := w.subs[i := TurnOf(w, w.subs[i])]) else w
    case Deliver(i) =>
      if i < |w.subs| && CanDeliver(w, w.subs[i]) then w.(subs := w.subs[i := DeliverOne(w.subs[i])]) else w
    case EndBatch(i) =>
      if i < |w.subs| && CanEnd(w, w.subs[i]) then w.(subs := w.subs[i := BatchEnd(w.subs[i])]) else w
    case Wake(i) =>
      if i < |w.subs| && CanWake(w, w.subs[i]) then w.(subs := w.subs[i := w.subs[i].(phase := Fetching)]) else w
  }

  const Start := World(Buffer(map[], [], {}, 0), map[], [], {}, {}, {}, [])

  ghost function Run(caps: Caps, actions: seq<Action>): World
    requires 0 < caps.maxPerToken
  {
    if actions == [] then Start else
    Step(Run(caps, actions[..|actions| - 1]), caps, actions[|actions| - 1])
  }

  // ----- the invariant -----

  ghost function Hist(w: World, sid: StreamId): seq<Chunk> {
    if sid in w.hist then w.hist[sid] else []
  }

  /** The stream's chunks can no longer change. */
  ghost predicate Frozen(w: World, sid: StreamId) {
    sid in w.hist && !Active(w.buf, sid)
  }

  /** What the world knows about one stream. A live entry's current event is
      unset and nobody is about to set it, so a caught-up subscriber really
      sleeps; an entry that left the table was audited or is about to be; the sweeper's list
      holds dead streams only. */
  ghost predicate StreamOk(w: World, sid: StreamId) {
    && (sid in w.buf.entries ==> sid in w.hist && w.buf.entries[sid].chunks == w.hist[sid])
    && (sid in w.hist ==> Increasing(w.hist[sid]))
    && (Active(w.buf, sid) ==> w.buf.entries[sid].newChunk !in w.buf.signalled + w.wakes)
    && (sid in w.audited || sid in w.owed <==> sid in w.hist && sid !in w.buf.entries)
    && !(sid in w.audited && sid in w.owed)
    && (sid in w.sweeping ==> Frozen(w, sid))
  }

  ghost predicate TableOk(w: World, caps: Caps) {
    && WellFormed(w.buf)
    && |w.buf.order| <= caps.maxGlobal
    && (forall e :: e in w.buf.signalled + w.wakes ==> e.serial < w.buf.nextEvent)
    && Distinct(w.audited)
  }

  ghost predicate StreamsOk(w: World) {
    forall sid :: StreamOk(w, sid)
  }

  /** Someone holding `wake` after seeing `seen` will be woken if there is more. */
  ghost predicate WakeOk(w: World, s: Sub, wake: EventId, seen: seq<Chunk>) {
    || wake in w.buf.signalled
    || wake in w.wakes
    || (Active(w.buf, s.stream) && w.buf.entries[s.stream].newChunk == wake
        && seen == Since(w.buf.entries[s.stream].chunks, s.after))
  }

  /** The stream existed and is gone for good. */
  ghost predicate Departed(w: World, sid: StreamId) {
    sid in w.hist && sid !in w.buf.entries
  }

  ghost predicate SubOk(w: World, s: Sub) {
    && (s.known ==> s.stream in w.hist)
    && s.got <= Since(Hist(w, s.stream), s.after)
    && s.last == Cursor(s.after, s.got)
    && match s.phase
       case Fetching => true
       case Yielding(pending, wake, terminalSeen) =>
         && s.got + pending <= Since(Hist(w, s.stream), s.after)
         && (if terminalSeen
             then s.got + pending == Since(Hist(w, s.stream), s.after) && Frozen(w, s.stream)
             else WakeOk(w, s, wake, s.got + pending))
       case Parked(event) => WakeOk(w, s, event, s.got)
       case Finished(complete) =>
         && (complete ==> s.got == Since(Hist(w, s.stream), s.after) && Frozen(w, s.stream))
         && (!complete && s.known ==> Departed(w, s.stream))
  }

  ghost predicate SubsOk(w: World) {
    forall i :: 0 <= i < |w.subs| ==> SubOk(w, w.subs[i])
  }

  ghost predicate Inv(w: World, caps: Caps) {
    TableOk(w, caps) && StreamsOk(w) && SubsOk(w)
  }

  // ----- how the buffer side may change under a subscriber -----

  ghost predicate StreamEvolves(w: World, w2: World, sid: StreamId) {
    && Hist(w, sid) <= Hist(w2, sid)
    && (sid in w.hist ==> sid in w2.hist)
    && (Frozen(w, sid) ==> Frozen(w2, sid) && Hist(w2, sid) == Hist(w, sid))
    && (Departed(w, sid) ==> Departed(w2, sid))
    && (Active(w.buf, sid) ==>
          var e := w.buf.entries[sid];
          || e.newChunk in w2.buf.signalled
          || e.newChunk in w2.wakes
          || (Active(w2.buf, sid) && w2.buf.entries[sid] == e))
  }

  ghost predicate Evolves(w: World, w2: World) {
    && w2.subs == w.subs
    && w.buf.signalled <= w2.buf.signalled
    && (forall e :: e in w.wakes ==> e in w2.wakes || e in w2.buf.signalled)
    && (forall sid :: StreamEvolves(w, w2, sid))
  }

  lemma SubSurvives(w: World, w2: World, s: Sub)
    requires SubOk(w, s) && StreamEvolves(w, w2, s.stream)
    requires w.buf.signalled <= w2.buf.signalled
    requires forall e :: e in w.wakes ==> e in w2.wakes || e in w2.buf.signalled
    ensures SubOk(w2, s)
  {
    var h, h2 := Hist(w, s.stream), Hist(w2, s.stream);
    assert h2 == h + h2[|h|..];
    SincePrefix(h, h2[|h|..], s.after);
  }

  lemma SubsSurvive(w: World, w2: World)
    requires SubsOk(w) && Evolves(w, w2)
    ensures SubsOk(w2)
  {
    forall i | 0 <= i < |w2.subs|
      ensures SubOk(w2, w2.subs[i])
    {
      assert StreamEvolves(w, w2, w.subs[i].stream);
      SubSurvives(w, w2, w.subs[i]);
    }
  }

  // ----- each buffer action keeps the invariant -----

  ghost predicate Kept(w: World, w2: World, caps: Caps) {
    TableOk(w2, caps) && StreamsOk(w2) && Evolves(w, w2)
  }

  lemma EvictTable(w: World, caps: Caps, sid: StreamId)
    requires TableOk(w, caps) && StreamOk(w, sid)
    ensures TableOk(EvictIn(w, sid), caps)
  {
    if sid in w.buf.entries {
      EvictWellFormed(w.buf, sid);
      EvictionMakesRoom(w.buf, [sid]);
      assert EvictAll(w.buf, [sid]) == Evict(w.buf, sid) by {
        assert [sid][..0] == [];
      }
    }
  }

  lemma EvictStream(w: World, sid: StreamId, id: StreamId)
    requires WellFormed(w.buf) && StreamOk(w, id)
    ensures StreamOk(EvictIn(w, sid), id) && StreamEvolves(w, EvictIn(w, sid), id)
  {
  }

  lemma EvictKeeps(w: World, caps: Caps, sid: StreamId)
    requires TableOk(w, caps) && StreamsOk(w)
    ensures Kept(w, EvictIn(w, sid), caps)
  {
    assert StreamOk(w, sid);
    EvictTable(w, caps, sid);
    forall id ensures StreamOk(EvictIn(w, sid), id) && StreamEvolves(w, EvictIn(w, sid), id) {
      EvictStream(w, sid, id);
    }
  }

  lemma EvolvesTrans(w: World, w1: World, w2: World)
    requires Evolves(w, w1) && Evolves(w1, w2)
    ensures Evolves(w, w2)
  {
    forall id ensures StreamEvolves(w, w2, id) {
      assert StreamEvolves(w, w1, id) && StreamEvolves(w1, w2, id);
    }
  }

  function EvictsIn(w: World, victims: seq<StreamId>): World {
    if victims == [] then w else EvictIn(EvictsIn(w, victims[..|victims| - 1]), victims[|victims| - 1])
  }

  lemma {:induction false} EvictsKeep(w: World, caps: Caps, victims: seq<StreamId>)
    requires TableOk(w, caps) && StreamsOk(w)
    ensures Kept(w, EvictsIn(w, victims), caps)
  {
    if victims != [] {
      var n := |victims| - 1;
      EvictsKeep(w, caps, victims[..n]);
      EvictKeeps(EvictsIn(w, victims[..n]), caps, victims[n]);
      EvolvesTrans(w, EvictsIn(w, victims[..n]), EvictsIn(w, victims));
    }
  }

  lemma {:induction false} EvictsAsOne(w: World, victims: seq<StreamId>)
    requires Distinct(victims) && forall v :: v in victims ==> v in w.buf.entries
    ensures EvictsIn(w, victims) == w.(buf := EvictAll(w.buf, victims), owed := w.owed + Elements(victims))
  {
    if victims == [] {
      assert w.owed + Elements(victims) == w.owed;
    } else {
      var n := |victims| - 1;
      EvictsAsOne(w, victims[..n]);
      EvictAllEntries(w.buf, victims[..n]);
      assert victims[n] in EvictAll(w.buf, victims[..n]).entries;
      ElementsSnoc(victims);
      assert w.owed + Elements(victims[..n]) + {victims[n]} == w.owed + Elements(victims);
    }
  }

  function InsertIn(w: World, sid: StreamId, token: string, session: string): World {
    w.(buf := Insert(w.buf, sid, token, session), hist := w.hist[sid := []])
  }

  lemma InsertKeeps(w: World, caps: Caps, sid: StreamId, token: string, session: string)
    requires TableOk(w, caps) && StreamsOk(w)
    requires sid !in w.hist && |w.buf.order| < caps.maxGlobal
    ensures Kept(w, InsertIn(w, sid, token, session), caps)
  {
    assert StreamOk(w, sid);
    InsertWellFormed(w.buf, sid, token, session);
    forall id
      ensures StreamOk(InsertIn(w, sid, token, session), id) && StreamEvolves(w, InsertIn(w, sid, token, session), id)
    {
      assert StreamOk(w, id);
    }
  }

  lemma CreateKeeps(w: World, caps: Caps, sid: StreamId, token: string, session: string)
    requires 0 < caps.maxPerToken && 0 < caps.maxGlobal
    requires TableOk(w, caps) && StreamsOk(w)
    ensures Kept(w, CreateIn(w, caps, sid, token, session), caps)
  {
    var r := Create(w.buf, sid, token, session, caps.maxPerToken, caps.maxGlobal);
    if sid !in w.hist && r.Fresh? {
      CreateMakesRoom(w.buf, sid, token, session, caps.maxPerToken, caps.maxGlobal);
      FreshKeeps(w, caps, r, sid, token, session);
    }
  }

  lemma FreshKeeps(w: World, caps: Caps, r: Created, sid: StreamId, token: string, session: string)
    requires 0 < caps.maxPerToken
    requires TableOk(w, caps) && StreamsOk(w) && sid !in w.hist
    requires RoomMade(w.buf, r, sid, token, session, caps.maxPerToken, caps.maxGlobal)
    ensures Kept(w, w.(buf := r.after, hist := w.hist[sid := []],
                       owed := w.owed + Elements(r.tokenVictims + r.globalVictims)), caps)
  {
    var victims := r.tokenVictims + r.globalVictims;
    var room := EvictsIn(w, victims);
    VictimsAreClosed(w.buf, r, sid, token, session, caps.maxPerToken, caps.maxGlobal);
    assert Distinct(victims) by {
      OwnedClosedLaws(w.buf, token);
    }
    EvictsAsOne(w, victims);
    EvictsKeep(w, caps, victims);
    InsertKeeps(room, caps, sid, token, session);
    EvolvesTrans(w, room, InsertIn(room, sid, token, session));
  }

  lemma AppendStream(w: World, sid: StreamId, num: nat, text: string, id: StreamId)
    requires WellFormed(w.buf) && StreamOk(w, id)
    requires forall e :: e in w.buf.signalled + w.wakes ==> e.serial < w.buf.nextEvent
    ensures StreamOk(AppendIn(w, sid, num, text), id)
    ensures StreamEvolves(w, AppendIn(w, sid, num, text), id)
  {
  }

  lemma AppendTable(w: World, caps: Caps, sid: StreamId, num: nat, text: string)
    requires TableOk(w, caps)
    ensures TableOk(AppendIn(w, sid, num, text), caps)
  {
  }

  lemma AppendKeeps(w: World, caps: Caps, sid: StreamId, num: nat, text: string)
    requires TableOk(w, caps) && StreamsOk(w)
    ensures Kept(w, AppendIn(w, sid, num, text), caps)
  {
    var w2 := AppendIn(w, sid, num, text);
    AppendTable(w, caps, sid, num, text);
    forall id ensures StreamOk(w2, id) && StreamEvolves(w, w2, id) {
      AppendStream(w, sid, num, text, id);
    }
  }

  lemma CloseStreamOk(w: World, sid: StreamId, state: StreamState, final: Final, now: int, id: StreamId)
    requires WellFormed(w.buf) && StreamOk(w, id)
    ensures StreamOk(CloseIn(w, sid, state, final, now), id)
    ensures StreamEvolves(w, CloseIn(w, sid, state, final, now), id)
  {
  }

  lemma CloseTable(w: World, caps: Caps, sid: StreamId, state: StreamState, final: Final, now: int)
    requires TableOk(w, caps)
    ensures TableOk(CloseIn(w, sid, state, final, now), caps)
  {
  }

  lemma CloseKeeps(w: World, caps: Caps, sid: StreamId, state: StreamState, final: Final, now: int)
    requires TableOk(w, caps) && StreamsOk(w)
    ensures Kept(w, CloseIn(w, sid, state, final, now), caps)
  {
    var w2 := CloseIn(w, sid, state, final, now);
    CloseTable(w, caps, sid, state, final, now);
    forall id ensures StreamOk(w2, id) && StreamEvolves(w, w2, id) {
      CloseStreamOk(w, sid, state, final, now, id);
    }
  }

  lemma AuditKeeps(w: World, caps: Caps, sid: StreamId)
    requires TableOk(w, caps) && StreamsOk(w)
    ensures Kept(w, AuditIn(w, sid), caps)
  {
    var w2 := AuditIn(w, sid);
    assert StreamOk(w, sid);
    forall id ensures StreamOk(w2, id) && StreamEvolves(w, w2, id) {
      assert StreamOk(w, id);
    }
  }

  function FireIn(w: World, event: EventId): World {
    if event in w.wakes then w.(buf := Signal(w.buf, Some(event)), wakes := w.wakes - {event}) else w
  }

  lemma FireKeeps(w: World, caps: Caps, event: EventId)
    requires TableOk(w, caps) && StreamsOk(w)
    ensures Kept(w, FireIn(w, event), caps)
  {
    forall id ensures StreamOk(FireIn(w, event), id) && StreamEvolves(w, FireIn(w, event), id) {
      assert StreamOk(w, id);
    }
  }

  function CollectIn(w: World, cutoff: int): World {
    w.(sweeping := w.sweeping + set sid | sid in w.buf.entries && Expired(w.buf, sid, cutoff))
  }

  lemma CollectKeeps(w: World, caps: Caps, cutoff: int)
    requires TableOk(w, caps) && StreamsOk(w)
    ensures Kept(w, CollectIn(w, cutoff), caps)
  {
    forall id ensures StreamOk(CollectIn(w, cutoff), id) && StreamEvolves(w, CollectIn(w, cutoff), id) {
      assert StreamOk(w, id);
    }
  }

  lemma DropSweptKeeps(w: World, caps: Caps, sid: StreamId)
    requires TableOk(w, caps) && StreamsOk(w)
    ensures Kept(w, w.(sweeping := w.sweeping - {sid}), caps)
  {
    var w2 := w.(sweeping := w.sweeping - {sid});
    forall id ensures StreamOk(w2, id) && StreamEvolves(w, w2, id) {
      assert StreamOk(w, id);
    }
  }

  lemma SweepEvictKeeps(w: World, caps: Caps, sid: StreamId)
    requires TableOk(w, caps) && StreamsOk(w)
    ensures Kept(w, EvictIn(w, sid).(sweeping := w.sweeping - {sid}), caps)
  {
    EvictKeeps(w, caps, sid);
    DropSweptKeeps(EvictIn(w, sid), caps, sid);
    EvolvesTrans(w, EvictIn(w, sid), EvictIn(w, sid).(sweeping := w.sweeping - {sid}));
  }

  // ----- each turn of a subscriber keeps it -----

  lemma TurnKeeps(w: World, caps: Caps, s: Sub)
    requires StreamOk(w, s.stream) && WellFormed(w.buf) && SubOk(w, s) && s.phase.Fetching?
    ensures SubOk(w, TurnOf(w, s))
  {
    if s.stream in w.buf.entries {
      var e := w.buf.entries[s.stream];
      SinceRest(e.chunks, s.after, s.got);
    }
  }

  lemma DeliverKeeps(w: World, caps: Caps, s: Sub)
    requires StreamOk(w, s.stream) && SubOk(w, s) && CanDeliver(w, s)
    ensures SubOk(w, DeliverOne(s))
  {
    var pending := s.phase.pending;
    var all := Since(Hist(w, s.stream), s.after);
    var s2 := DeliverOne(s);
    assert s2.got + s2.phase.pending == s.got + pending;
    assert pending[0].num > s.last by {
      SinceIncreasing(Hist(w, s.stream), s.after);
      SinceMember(Hist(w, s.stream), s.after);
      assert pending[0] == (s.got + pending)[|s.got|] == all[|s.got|];
      assert pending[0] in all;
      assert s.got != [] ==> s.got[|s.got| - 1] == all[|s.got| - 1];
    }
  }

  lemma BatchEndKeeps(w: World, s: Sub)
    requires SubOk(w, s) && CanEnd(w, s)
    ensures SubOk(w, BatchEnd(s))
  {
    assert s.got + s.phase.pending == s.got;
  }

  lemma SubscribeKeeps(w: World, sid: StreamId, after: int)
    ensures SubOk(w, NewSub(w, sid, after))
  {
  }

  lemma SubsDoNotMatter(w: World, caps: Caps, subs: seq<Sub>)
    requires TableOk(w, caps) && StreamsOk(w)
    ensures TableOk(w.(subs := subs), caps) && StreamsOk(w.(subs := subs))
    ensures forall s :: SubOk(w, s) ==> SubOk(w.(subs := subs), s)
  {
    var w2 := w.(subs := subs);
    forall id ensures StreamOk(w2, id) && StreamEvolves(w, w2, id) {
      assert StreamOk(w, id);
    }
    forall s | SubOk(w, s) ensures SubOk(w2, s) {
      assert StreamEvolves(w, w2, s.stream);
      SubSurvives(w, w2, s);
    }
  }

  lemma OneSubMoves(w: World, caps: Caps, i: nat, s2: Sub)
    requires Inv(w, caps) && i < |w.subs| && SubOk(w, s2)
    ensures Inv(w.(subs := w.subs[i := s2]), caps)
  {
    SubsDoNotMatter(w, caps, w.subs[i := s2]);
  }

  lemma SubActionKeeps(w: World, caps: Caps, a: Action)
    requires 0 < caps.maxPerToken
    requires Inv(w, caps)
    requires a.Subscribe? || a.Turn? || a.Deliver? || a.EndBatch? || a.Wake?
    ensures Inv(Step(w, caps, a), caps)
  {
    match a
    case Subscribe(sid, after) =>
      SubscribeKeeps(w, sid, after);
      SubsDoNotMatter(w, caps, w.subs + [NewSub(w, sid, after)]);
    case Turn(i) =>
      if i < |w.subs| && CanTurn(w, w.subs[i]) {
        TurnKeeps(w, caps, w.subs[i]);
        OneSubMoves(w, caps, i, TurnOf(w, w.subs[i]));
      }
    case Deliver(i) =>
      if i < |w.subs| && CanDeliver(w, w.subs[i]) {
        DeliverKeeps(w, caps, w.subs[i]);
        OneSubMoves(w, caps, i, DeliverOne(w.subs[i]));
      }
    case EndBatch(i) =>
      if i < |w.subs| && CanEnd(w, w.subs[i]) {
        BatchEndKeeps(w, w.subs[i]);
        OneSubMoves(w, caps, i, BatchEnd(w.subs[i]));
      }
    case Wake(i) =>
      if i < |w.subs| && CanWake(w, w.subs[i]) {
        OneSubMoves(w, caps, i, w.subs[i].(phase := Fetching));
      }
  }

  lemma BufferActionKeeps(w: World, caps: Caps, a: Action)
    requires 0 < caps.maxPerToken && 0 < caps.maxGlobal
    requires Inv(w, caps)
    requires !(a.Subscribe? || a.Turn? || a.Deliver? || a.EndBatch? || a.Wake?)
    ensures Inv(Step(w, caps, a), caps)
  {
    var w2 := Step(w, caps, a);
    match a {
      case CreateStream(sid, token, session) => CreateKeeps(w, caps, sid, token, session);
      case AppendChunk(sid, num, text) => AppendKeeps(w, caps, sid, num, text);
      case CloseStream(sid, state, final, now) => CloseKeeps(w, caps, sid, state, final, now);
      case Fire(event) => FireKeeps(w, caps, event);
      case ManualEvict(sid) => EvictKeeps(w, caps, sid);
      case SweepCollect(cutoff) => CollectKeeps(w, caps, cutoff);
      case SweepEvict(sid) => SweepEvictKeeps(w, caps, sid);
      case AuditEviction(sid) => AuditKeeps(w, caps, sid);
    }
    SubsSurvive(w, w2);
  }

  lemma StepKeeps(w: World, caps: Caps, a: Action)
    requires 0 < caps.maxPerToken && 0 < caps.maxGlobal && Inv(w, caps)
    ensures Inv(Step(w, caps, a), caps)
  {
    if a.Subscribe? || a.Turn? || a.Deliver? || a.EndBatch? || a.Wake? {
      SubActionKeeps(w, caps, a);
    } else {
      BufferActionKeeps(w, caps, a);
    }
  }

  // ----- theorems over every run -----

  lemma {:induction false} RunInvariant(caps: Caps, actions: seq<Action>)
    requires 0 < caps.maxPerToken && 0 < caps.maxGlobal
    ensures Inv(Run(caps, actions), caps)
  {
    if actions != [] {
      RunInvariant(caps, actions[..|actions| - 1]);
      StepKeeps(Run(caps, actions[..|actions| - 1]), caps, actions[|actions| - 1]);
    }
  }

  /** In-order, gap-free, exactly-once delivery to every subscriber of every run;
      a subscriber that saw the stream end got all of it. */
  lemma DeliveredExactlyOnce(caps: Caps, actions: seq<Action>, i: nat)
    requires 0 < caps.maxPerToken && 0 < caps.maxGlobal
    requires i < |Run(caps, actions).subs|
    ensures var w := Run(caps, actions);
            var s := w.subs[i];
            var owed := Since(Hist(w, s.stream), s.after);
            && s.got <= owed
            && Increasing(s.got)
            && (s.phase == Finished(true) ==> s.got == owed && !Active(w.buf, s.stream))
  {
    RunInvariant(caps, actions);
    var w := Run(caps, actions);
    var s := w.subs[i];
    assert SubOk(w, s) && StreamOk(w, s.stream);
    SinceIncreasing(Hist(w, s.stream), s.after);
  }

  ghost predicate WorkLeft(w: World, s: Sub) {
    !Active(w.buf, s.stream) || s.got != Since(Hist(w, s.stream), s.after)
  }

  /** No lost wakeup, and no spurious one either: the event a subscriber sleeps on
      is set or about to be set exactly when there is something for it to do. */
  lemma NoLostWakeup(caps: Caps, actions: seq<Action>, i: nat)
    requires 0 < caps.maxPerToken && 0 < caps.maxGlobal
    requires i < |Run(caps, actions).subs| && Run(caps, actions).subs[i].phase.Parked?
    ensures var w := Run(caps, actions);
            var s := w.subs[i];
            && (WorkLeft(w, s) ==> s.phase.event in w.buf.signalled + w.wakes)
            && (s.phase.event !in w.buf.signalled + w.wakes ==>
                  Active(w.buf, s.stream) && w.buf.entries[s.stream].newChunk == s.phase.event)
            && (Active(w.buf, s.stream) && w.buf.entries[s.stream].newChunk == s.phase.event ==>
                  s.phase.event !in w.buf.signalled + w.wakes && !WorkLeft(w, s))
  {
    RunInvariant(caps, actions);
    var w := Run(caps, actions);
    var s := w.subs[i];
    assert SubOk(w, s) && StreamOk(w, s.stream);
  }

  ghost predicate Quiet(w: World) {
    && w.wakes == {}
    && forall i :: 0 <= i < |w.subs| ==>
         var s := w.subs[i];
         !CanTurn(w, s) && !CanDeliver(w, s) && !CanEnd(w, s) && !CanWake(w, s)
  }

  /** Once nothing can move any more, everybody has everything: each subscriber
      either finished or sleeps on a live stream whose chunks it has all received. */
  lemma QuietMeansDelivered(caps: Caps, actions: seq<Action>, i: nat)
    requires 0 < caps.maxPerToken && 0 < caps.maxGlobal
    requires Quiet(Run(caps, actions)) && i < |Run(caps, actions).subs|
    ensures var w := Run(caps, actions);
            var s := w.subs[i];
            || s.phase.Finished?
            || (s.phase.Parked? && Active(w.buf, s.stream) && s.got == Since(Hist(w, s.stream), s.after))
  {
    RunInvariant(caps, actions);
    var w := Run(caps, actions);
    var s := w.subs[i];
    assert SubOk(w, s) && StreamOk(w, s.stream);
    assert !CanTurn(w, s) && !CanDeliver(w, s) && !CanEnd(w, s) && !CanWake(w, s);
  }

  /** Caps, the sweeper and closes never remove a live stream, in any state of any run. */
  lemma LiveStreamSurvives(caps: Caps, actions: seq<Action>, a: Action, sid: StreamId)
    requires 0 < caps.maxPerToken && 0 < caps.maxGlobal
    requires Active(Run(caps, actions).buf, sid)
    requires a != ManualEvict(sid)
    ensures sid in Step(Run(caps, actions), caps, a).buf.entries
    ensures (forall state, final, now :: a != CloseStream(sid, state, final, now)) ==>
              Active(Step(Run(caps, actions), caps, a).buf, sid)
  {
    var w := Run(caps, actions);
    RunInvariant(caps, actions);
    assert StreamOk(w, sid);
    if a.CreateStream? && a.sid !in w.hist {
      var r := Create(w.buf, a.sid, a.token, a.session, caps.maxPerToken, caps.maxGlobal);
      if r.Fresh? {
        CreateKeepsLive(w.buf, a.sid, a.token, a.session, caps.maxPerToken, caps.maxGlobal, sid);
      }
    }
  }

  /** The table stays within its global cap; no eviction is audited twice, and every
      stream that ever left the table was audited, or its audit is still owed. */
  lemma CapsAndAudits(caps: Caps, actions: seq<Action>)
    requires 0 < caps.maxPerToken && 0 < caps.maxGlobal
    ensures var w := Run(caps, actions);
            && |w.buf.entries| <= caps.maxGlobal
            && Distinct(w.audited)
            && (forall sid :: sid in w.hist && sid !in w.buf.entries <==> sid in w.audited || sid in w.owed)
            && (forall sid :: !(sid in w.audited && sid in w.owed))
            && (w.owed == {} ==> forall sid :: sid in w.audited <==> sid in w.hist && sid !in w.buf.entries)
  {
    RunInvariant(caps, actions);
    var w := Run(caps, actions);
    OrderLength(w.buf);
    forall sid
      ensures sid in w.hist && sid !in w.buf.entries <==> sid in w.audited || sid in w.owed
      ensures !(sid in w.audited && sid in w.owed)
    {
      assert StreamOk(w, sid);
    }
  }

  lemma BufferEvolves(w: World, caps: Caps, a: Action, sid: StreamId)
    requires 0 < caps.maxPerToken && 0 < caps.maxGlobal && Inv(w, caps)
    requires !(a.Subscribe? || a.Turn? || a.Deliver? || a.EndBatch? || a.Wake?)
    ensures StreamEvolves(w, Step(w, caps, a), sid)
  {
    match a {
      case CreateStream(id, token, session) => CreateKeeps(w, caps, id, token, session);
      case AppendChunk(id, num, text) => AppendKeeps(w, caps, id, num, text);
      case CloseStream(id, state, final, now) => CloseKeeps(w, caps, id, state, final, now);
      case Fire(event) => FireKeeps(w, caps, event);
      case ManualEvict(id) => EvictKeeps(w, caps, id);
      case SweepCollect(cutoff) => CollectKeeps(w, caps, cutoff);
      case SweepEvict(id) => SweepEvictKeeps(w, caps, id);
      case AuditEviction(id) => AuditKeeps(w, caps, id);
    }
  }

  /** What a reader saw earlier stays a prefix of what is there later, and an ended
      stream is never extended or reopened. */
  lemma StepEvolves(w: World, caps: Caps, a: Action, sid: StreamId)
    requires 0 < caps.maxPerToken && 0 < caps.maxGlobal && Inv(w, caps)
    ensures StreamEvolves(w, Step(w, caps, a), sid)
  {
    if !(a.Subscribe? || a.Turn? || a.Deliver? || a.EndBatch? || a.Wake?) {
      BufferEvolves(w, caps, a, sid);
    } else {
      var w2 := Step(w, caps, a);
      assert w2 == w.(subs := w2.subs);
    }
  }

  ghost predicate Grows(w: World, w2: World, sid: StreamId) {
    && (sid in w.hist ==> sid in w2.hist)
    && Hist(w, sid) <= Hist(w2, sid)
    && (Frozen(w, sid) ==> Frozen(w2, sid) && Hist(w2, sid) == Hist(w, sid))
    && (Departed(w, sid) ==> Departed(w2, sid))
  }

  lemma GrowsOn(w: World, w1: World, w2: World, sid: StreamId)
    requires Grows(w, w1, sid) && StreamEvolves(w1, w2, sid)
    ensures Grows(w, w2, sid)
  {
  }

  lemma {:induction false} HistoryOnlyGrows(caps: Caps, before: seq<Action>, more: seq<Action>, sid: StreamId)
    requires 0 < caps.maxPerToken && 0 < caps.maxGlobal
    ensures Grows(Run(caps, before), Run(caps, before + more), sid)
  {
    if more == [] {
      assert before + more == before;
    } else {
      var n := |more| - 1;
      var w, w1 := Run(caps, before), Run(caps, before + more[..n]);
      HistoryOnlyGrows(caps, before, more[..n], sid);
      RunInvariant(caps, before + more[..n]);
      StepEvolves(w1, caps, more[n], sid);
      GrowsOn(w, w1, Step(w1, caps, more[n]), sid);
      assert (before + more)[..|before + more| - 1] == before + more[..n];
    }
  }

  // ----- what a run's schedule says about a stream -----

  /** The appends that found the stream live and in sequence, as chunks. */
  ghost function Accepted(caps: Caps, actions: seq<Action>, sid: StreamId): seq<Chunk>
    requires 0 < caps.maxPerToken
  {
    if actions == [] then [] else
    var n := |actions| - 1;
    var w, a := Run(caps, actions[..n]), actions[n];
    Accepted(caps, actions[..n], sid)
      + if a.AppendChunk? && a.sid == sid && Active(w.buf, sid) && InSequence(w, sid, a.num)
        then [Chunk(a.num, a.text)] else []
  }

  /** The position of the last close that found the stream in the table. */
  ghost function LastClose(caps: Caps, actions: seq<Action>, sid: StreamId): (j: Option<nat>)
    requires 0 < caps.maxPerToken
    ensures j.Some? ==> j.value < |actions| && actions[j.value].CloseStream?
  {
    if actions == [] then None else
    var n := |actions| - 1;
    var a := actions[n];
    if a.CloseStream? && a.sid == sid && Terminal(a.state) && sid in Run(caps, actions[..n]).buf.entries
    then Some(n)
    else LastClose(caps, actions[..n], sid)
  }

  /** A step other than its own close leaves a listed stream's closing as it is; a
      stream that was not listed is listed open. */
  lemma ClosingStays(w: World, caps: Caps, a: Action, sid: StreamId)
    requires 0 < caps.maxPerToken && 0 < caps.maxGlobal && Inv(w, caps)
    requires !(a.CloseStream? && a.sid == sid) && sid in Step(w, caps, a).buf.entries
    ensures var e2 := Step(w, caps, a).buf.entries[sid];
            if sid in w.buf.entries
            then e2.closedAt == w.buf.entries[sid].closedAt && e2.final == w.buf.entries[sid].final
                 && (e2.state == w.buf.entries[sid].state || (Active(w.buf, sid) && !Terminal(e2.state)))
            else sid !in w.hist && e2.closedAt.None? && e2.final.None? && !Terminal(e2.state)
  {
    if a.CreateStream? && a.sid !in w.hist {
      CreatedBeside(w, caps, a.sid, a.token, a.session, sid);
    }
  }

  lemma CreatedBeside(w: World, caps: Caps, id: StreamId, token: string, session: string, sid: StreamId)
    requires 0 < caps.maxPerToken && sid in CreateIn(w, caps, id, token, session).buf.entries
    ensures var e2 := CreateIn(w, caps, id, token, session).buf.entries[sid];
            if id == sid && id !in w.hist && id !in w.buf.entries
            then e2.token == token && e2.session == session && e2.state.Pending? && e2.chunks == []
                 && e2.closedAt.None? && e2.final.None?
            else sid in w.buf.entries && e2 == w.buf.entries[sid]
  {
    var tv := TokenVictims(w.buf, token, caps.maxPerToken);
    EvictAllSignals(w.buf, tv);
  }

  lemma {:induction false} ClosedWasCreated(caps: Caps, actions: seq<Action>, sid: StreamId)
    requires 0 < caps.maxPerToken && 0 < caps.maxGlobal && LastClose(caps, actions, sid).Some?
    ensures sid in Run(caps, actions).hist
  {
    var n := |actions| - 1;
    var w := Run(caps, actions[..n]);
    RunInvariant(caps, actions[..n]);
    assert StreamOk(w, sid);
    if sid !in w.buf.entries || LastClose(caps, actions, sid) != Some(n) {
      ClosedWasCreated(caps, actions[..n], sid);
    }
    StepEvolves(w, caps, actions[n], sid);
  }

  /** In every run a listed stream is in the state its last close gave it, with that
      close's final frame and time; it is live, with neither, if there was none. */
  lemma {:induction false} ClosedByTheLast(caps: Caps, actions: seq<Action>, sid: StreamId)
    requires 0 < caps.maxPerToken && 0 < caps.maxGlobal && sid in Run(caps, actions).buf.entries
    ensures var e := Run(caps, actions).buf.entries[sid];
            var j := LastClose(caps, actions, sid);
            if j.None? then e.closedAt.None? && e.final.None? && !Terminal(e.state)
            else var a := actions[j.value];
                 Terminal(a.state) && e.state == a.state && e.final == Some(a.final) && e.closedAt == Some(a.now)
  {
    var n := |actions| - 1;
    var w, a := Run(caps, actions[..n]), actions[n];
    RunInvariant(caps, actions[..n]);
    if a.CloseStream? && a.sid == sid {
      if sid in w.buf.entries && !Terminal(a.state) {
        ClosedByTheLast(caps, actions[..n], sid);
      }
    } else {
      ClosingStays(w, caps, a, sid);
      if sid in w.buf.entries {
        ClosedByTheLast(caps, actions[..n], sid);
      } else if LastClose(caps, actions[..n], sid).Some? {
        ClosedWasCreated(caps, actions[..n], sid);
      }
    }
  }

  /** The last close that found the stream was before `cutoff`. */
  ghost predicate ClosedBefore(caps: Caps, actions: seq<Action>, sid: StreamId, cutoff: int)
    requires 0 < caps.maxPerToken
  {
    var j := LastClose(caps, actions, sid);
    j.Some? && actions[j.value].now < cutoff
  }

  /** A sweep lists exactly the streams whose last close was before its cutoff. */
  lemma SweepListsExpired(caps: Caps, actions: seq<Action>, cutoff: int, sid: StreamId)
    requires 0 < caps.maxPerToken && 0 < caps.maxGlobal
    ensures var w := Run(caps, actions);
            sid in Step(w, caps, SweepCollect(cutoff)).sweeping <==>
              sid in w.sweeping || (sid in w.buf.entries && ClosedBefore(caps, actions, sid, cutoff))
  {
    if sid in Run(caps, actions).buf.entries {
      ClosedByTheLast(caps, actions, sid);
    }
  }

  /** So whatever stream the sweeper takes, it had found its last close before its cutoff. */
  lemma {:induction false} SweptWasExpired(caps: Caps, actions: seq<Action>, sid: StreamId)
    requires 0 < caps.maxPerToken && 0 < caps.maxGlobal && sid in Run(caps, actions).sweeping
    ensures exists k :: 0 <= k < |actions| && actions[k].SweepCollect?
                        && ClosedBefore(caps, actions[..k], sid, actions[k].cutoff)
  {
    var n := |actions| - 1;
    var w, a := Run(caps, actions[..n]), actions[n];
    if sid in w.sweeping {
      SweptWasExpired(caps, actions[..n], sid);
      var k :| 0 <= k < n && actions[..n][k].SweepCollect?
               && ClosedBefore(caps, actions[..n][..k], sid, actions[..n][k].cutoff);
      assert actions[..n][..k] == actions[..k];
    } else {
      SweepListsExpired(caps, actions[..n], a.cutoff, sid);
    }
  }

  /** What a step adds to a stream's chunks. */
  lemma HistoryStep(w: World, caps: Caps, a: Action, sid: StreamId)
    requires 0 < caps.maxPerToken && StreamOk(w, sid)
    ensures Hist(Step(w, caps, a), sid) ==
            Hist(w, sid)
              + if a.AppendChunk? && a.sid == sid && Active(w.buf, sid) && InSequence(w, sid, a.num)
                then [Chunk(a.num, a.text)] else []
  {
    if a.CreateStream? {
      assert sid !in w.hist ==> Hist(w, sid) == [] == Hist(Step(w, caps, a), sid);
    }
  }

  /** In every run a stream's chunks are the appends that found it live, in order. */
  lemma {:induction false} HistoryIsAccepted(caps: Caps, actions: seq<Action>, sid: StreamId)
    requires 0 < caps.maxPerToken && 0 < caps.maxGlobal
    ensures Hist(Run(caps, actions), sid) == Accepted(caps, actions, sid)
  {
    if actions != [] {
      var n := |actions| - 1;
      var w := Run(caps, actions[..n]);
      HistoryIsAccepted(caps, actions[..n], sid);
      RunInvariant(caps, actions[..n]);
      HistoryStep(w, caps, actions[n], sid);
    }
  }

  ghost predicate LiveStateOk(w: World, sid: StreamId) {
    Active(w.buf, sid) ==> (w.buf.entries[sid].state.Pending? <==> w.buf.entries[sid].chunks == [])
  }

  lemma LiveStateStep(w: World, caps: Caps, a: Action, sid: StreamId)
    requires 0 < caps.maxPerToken && StreamOk(w, sid) && LiveStateOk(w, sid)
    ensures LiveStateOk(Step(w, caps, a), sid)
  {
    if a.CreateStream? && sid in Step(w, caps, a).buf.entries {
      CreatedBeside(w, caps, a.sid, a.token, a.session, sid);
    }
  }

  /** In every run a live stream is pending until its first chunk and streaming from then
      on. */
  lemma {:induction false} PendingUntilFirstChunk(caps: Caps, actions: seq<Action>, sid: StreamId)
    requires 0 < caps.maxPerToken && 0 < caps.maxGlobal
    ensures LiveStateOk(Run(caps, actions), sid)
  {
    if actions != [] {
      var n := |actions| - 1;
      PendingUntilFirstChunk(caps, actions[..n], sid);
      RunInvariant(caps, actions[..n]);
      LiveStateStep(Run(caps, actions[..n]), caps, actions[n], sid);
    }
  }

  /** The stream belongs to this token and session for as long as it is listed. */
  ghost predicate BelongsTo(w: World, sid: StreamId, token: string, session: string) {
    && sid in w.hist
    && (sid in w.buf.entries ==> w.buf.entries[sid].token == token && w.buf.entries[sid].session == session)
  }

  lemma BelongsStays(w: World, caps: Caps, a: Action, sid: StreamId, token: string, session: string)
    requires 0 < caps.maxPerToken && 0 < caps.maxGlobal && Inv(w, caps) && BelongsTo(w, sid, token, session)
    ensures BelongsTo(Step(w, caps, a), sid, token, session)
  {
    StepEvolves(w, caps, a, sid);
    if a.CreateStream? && sid in Step(w, caps, a).buf.entries {
      CreatedBeside(w, caps, a.sid, a.token, a.session, sid);
    }
  }

  lemma CreatorStarts(w: World, caps: Caps, sid: StreamId, token: string, session: string)
    requires 0 < caps.maxPerToken && Inv(w, caps) && sid !in w.hist
    requires sid in CreateIn(w, caps, sid, token, session).hist
    ensures BelongsTo(CreateIn(w, caps, sid, token, session), sid, token, session)
  {
    assert StreamOk(w, sid);
    if sid in CreateIn(w, caps, sid, token, session).buf.entries {
      CreatedBeside(w, caps, sid, token, session, sid);
    }
  }

  lemma RunSnoc(caps: Caps, actions: seq<Action>, a: Action)
    requires 0 < caps.maxPerToken
    ensures Run(caps, actions + [a]) == Step(Run(caps, actions), caps, a)
  {
    assert (actions + [a])[..|actions|] == actions;
  }

  lemma {:induction false} BelongsForGood(caps: Caps, before: seq<Action>, more: seq<Action>, sid: StreamId,
                                          token: string, session: string)
    requires 0 < caps.maxPerToken && 0 < caps.maxGlobal && BelongsTo(Run(caps, before), sid, token, session)
    ensures BelongsTo(Run(caps, before + more), sid, token, session)
  {
    if more == [] {
      assert before + more == before;
    } else {
      var n := |more| - 1;
      BelongsForGood(caps, before, more[..n], sid, token, session);
      RunInvariant(caps, before + more[..n]);
      BelongsStays(Run(caps, before + more[..n]), caps, more[n], sid, token, session);
      assert (before + more)[..|before + more| - 1] == before + more[..n];
    }
  }

  /** Whoever a stream was created for keeps it in every run that follows. */
  lemma CreatorKeepsIt(caps: Caps, before: seq<Action>, more: seq<Action>, sid: StreamId, token: string,
                       session: string)
    requires 0 < caps.maxPerToken && 0 < caps.maxGlobal
    requires sid !in Run(caps, before).hist
    requires sid in Run(caps, before + [CreateStream(sid, token, session)]).hist
    ensures BelongsTo(Run(caps, before + [CreateStream(sid, token, session)] + more), sid, token, session)
  {
    var start := before + [CreateStream(sid, token, session)];
    RunSnoc(caps, before, CreateStream(sid, token, session));
    RunInvariant(caps, before);
    CreatorStarts(Run(caps, before), caps, sid, token, session);
    BelongsForGood(caps, start, more, sid, token, session);
  }
}
