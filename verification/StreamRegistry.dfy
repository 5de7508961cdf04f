/** core/stream_registry.py: who owns a stream's lock and buffer entry, and the
    close pipeline that gives both back. */
module StreamRegistry {
  import opened Lists
  import opened StreamBuffer
  import opened InMemoryStreams
  import opened RateLimit
  import opened Quota

  /** How one awaited step may end; `effect` says whether its effect took place. */
  datatype StepOutcome = Works | Raises(effect: bool) | Cancelled(effect: bool)

  predicate Happens(o: StepOutcome) {
    o.Works? || o.effect
  }

  /** The environment of one `_close`: what becomes of each awaited step. The
      shielded release cannot lose its effect, but its awaiter can be cancelled. */
  datatype Plan = Plan(
    persist: StepOutcome, event: StepOutcome, buffer: StepOutcome, releaseCancelled: bool, audit: StepOutcome)

  predicate Uncancelled(p: Plan) {
    !p.persist.Cancelled? && !p.event.Cancelled? && !p.buffer.Cancelled? && !p.releaseCancelled && !p.audit.Cancelled?
  }

  /** Steps 1-3 stop at the first cancellation. */
  predicate ReachesEvent(p: Plan, persists: bool) { !(persists && p.persist.Cancelled?) }
  predicate ReachesBuffer(p: Plan, persists: bool) { ReachesEvent(p, persists) && !p.event.Cancelled? }
  predicate ReachesAudit(p: Plan, persists: bool) {
    ReachesBuffer(p, persists) && !p.buffer.Cancelled? && !p.releaseCancelled
  }

  predicate StepsCancelled(p: Plan, persists: bool) {
    !ReachesBuffer(p, persists) || p.buffer.Cancelled?
  }

  /** Does a cancellation leave `_close`? */
  predicate EscapesCancelled(p: Plan, persists: bool) {
    StepsCancelled(p, persists) || p.releaseCancelled || p.audit.Cancelled?
  }

  /** The buffer after the close section and its wake, if that step took place. */
  function Closing(b: Buffer, happens: bool, sid: StreamId, state: StreamState, final: Final, now: int): Buffer
    requires Terminal(state)
  {
    if !happens then b else
    var (after, woken) := StreamBuffer.Close(b, sid, state, final, now);
    Signal(after, woken)
  }

  // ----- what others can see -----

  /** Something said about a stream, and the state it was said to have ended in. */
  datatype Note = Note(stream: StreamId, state: StreamState)

  /** The gateway as seen from outside: the streams whose turn is stored, the ended
      events, the buffer, the session locks, the driver table and the audit log. */
  datatype Scene = Scene(
    turns: seq<StreamId>, ended: seq<Note>, buf: Buffer, locks: RateLimit.State,
    drivers: map<StreamId, string>, audits: seq<Note>)

  /** What one close was asked to do. */
  datatype Ticket = Ticket(
    sid: StreamId, token: string, session: string, state: StreamState, final: Final, now: int, persists: bool)

  function KeyOf(k: Ticket): Name { SessionKey(k.token, k.session) }

  function Store(s: Scene, k: Ticket): Scene { s.(turns := s.turns + [k.sid]) }

  function Announce(s: Scene, k: Ticket): Scene { s.(ended := s.ended + [Note(k.sid, k.state)]) }

  function Shut(s: Scene, k: Ticket): Scene
    requires Terminal(k.state)
  {
    s.(buf := Closing(s.buf, true, k.sid, k.state, k.final, k.now))
  }

  function Free(s: Scene, k: Ticket): Scene { s.(locks := ReleaseBy(s.locks, KeyOf(k), k.sid)) }

  function Forget(s: Scene, k: Ticket): Scene { s.(drivers := s.drivers - {k.sid}) }

  function Audit(s: Scene, k: Ticket): Scene { s.(audits := s.audits + [Note(k.sid, k.state)]) }

  predicate Announces(p: Plan, k: Ticket) { ReachesEvent(p, k.persists) && Happens(p.event) }

  predicate Shuts(p: Plan, k: Ticket) { ReachesBuffer(p, k.persists) && Happens(p.buffer) }

  predicate Audits(p: Plan, k: Ticket) { ReachesAudit(p, k.persists) && Happens(p.audit) }

  function Persisting(s: Scene, k: Ticket, p: Plan): Scene {
    if k.persists && Happens(p.persist) then Store(s, k) else s
  }

  function Announcing(s: Scene, k: Ticket, p: Plan): Scene {
    if Announces(p, k) then Announce(s, k) else s
  }

  function Shutting(s: Scene, k: Ticket, p: Plan): Scene
    requires Terminal(k.state)
  {
    if Shuts(p, k) then Shut(s, k) else s
  }

  function Forgetting(s: Scene, k: Ticket, p: Plan): Scene {
    if p.releaseCancelled then s else Forget(s, k)
  }

  function Auditing(s: Scene, k: Ticket, p: Plan): Scene {
    if Audits(p, k) then Audit(s, k) else s
  }

  /** The scenes between the awaits of one close, the first and the last included. */
  function Scenes(s: Scene, k: Ticket, p: Plan): (t: seq<Scene>)
    requires Terminal(k.state)
    ensures |t| == 7
  {
    var s1 := Persisting(s, k, p);
    var s2 := Announcing(s1, k, p);
    var s3 := Shutting(s2, k, p);
    var s4 := Free(s3, k);
    var s5 := Forgetting(s4, k, p);
    [s, s1, s2, s3, s4, s5, Auditing(s5, k, p)]
  }

  lemma SevenMore<T>(h: seq<T>, t: seq<T>)
    requires |t| == 7
    ensures h + [t[0]] + [t[1]] + [t[2]] + [t[3]] + [t[4]] + [t[5]] + [t[6]] == h + t
  {
  }

  /** What a close leaves, whatever the state it found. */
  lemma LastScene(s: Scene, k: Ticket, p: Plan)
    requires Terminal(k.state)
    ensures var last := Scenes(s, k, p)[6];
            && last.buf == Closing(s.buf, Shuts(p, k), k.sid, k.state, k.final, k.now)
            && last.locks == ReleaseBy(s.locks, KeyOf(k), k.sid)
            && last.drivers == if p.releaseCancelled then s.drivers else s.drivers - {k.sid}
  {
  }

  /** A live stream that holds its session's lock and of which nothing was said yet. */
  ghost predicate Running(s: Scene, k: Ticket) {
    && Active(s.buf, k.sid) && k.sid in s.drivers
    && RateLimit.Inv(s.locks) && KeyOf(k) in s.locks.holders && s.locks.holders[KeyOf(k)] == k.sid
    && k.sid !in s.turns && (forall n :: n in s.ended + s.audits ==> n.stream != k.sid)
  }

  predicate Stored(x: Scene, k: Ticket) { k.sid in x.turns }

  predicate Told(x: Scene, k: Ticket) { exists n :: n in x.ended && n.stream == k.sid }

  predicate Live(x: Scene, k: Ticket) { Active(x.buf, k.sid) }

  ghost predicate Locked(x: Scene, k: Ticket) { Held(x.locks, KeyOf(k)) }

  predicate Audited(x: Scene, k: Ticket) { exists n :: n in x.audits && n.stream == k.sid }

  lemma FreeUnlocks(s: Scene, k: Ticket)
    requires Running(s, k)
    ensures Locked(s, k) && !Locked(Free(s, k), k)
    ensures forall n :: n != KeyOf(k) ==> (Held(Free(s, k).locks, n) <==> Held(s.locks, n))
  {
    assert NameOk(s.locks, KeyOf(k));
    ReleaseFreesOwnOnly(s.locks, KeyOf(k), k.sid);
    assert s.locks.locks[KeyOf(k)] in s.locks.owner;
  }

  lemma ShutEnds(s: Scene, k: Ticket)
    requires Terminal(k.state) && Active(s.buf, k.sid)
    ensures !Live(Shut(s, k), k) && k.sid in Shut(s, k).buf.entries && Shut(s, k).buf.entries[k.sid].state == k.state
  {
  }

  /** Which effects a scene of a close shows, by its position. */
  lemma SceneShows(s: Scene, k: Ticket, p: Plan, i: nat)
    requires Terminal(k.state) && Running(s, k) && i < 7
    ensures var x := Scenes(s, k, p)[i];
            && (Stored(x, k) <==> i >= 1 && k.persists && Happens(p.persist))
            && (Told(x, k) <==> i >= 2 && Announces(p, k))
            && (Live(x, k) <==> !(i >= 3 && Shuts(p, k)))
            && (Locked(x, k) <==> i < 4)
            && (k.sid in x.drivers <==> !(i >= 5 && !p.releaseCancelled))
            && (Audited(x, k) <==> i >= 6 && Audits(p, k))
  {
    FreeUnlocks(s, k);
    ShutEnds(s, k);
    SceneTold(s, k, p, i);
  }

  lemma SceneTold(s: Scene, k: Ticket, p: Plan, i: nat)
    requires Terminal(k.state) && Running(s, k) && i < 7
    ensures var x := Scenes(s, k, p)[i];
            && x.ended == (if i >= 2 && Announces(p, k) then s.ended + [Note(k.sid, k.state)] else s.ended)
            && x.audits == (if i >= 6 && Audits(p, k) then s.audits + [Note(k.sid, k.state)] else s.audits)
            && (Told(x, k) <==> i >= 2 && Announces(p, k))
            && (Audited(x, k) <==> i >= 6 && Audits(p, k))
  {
    var x := Scenes(s, k, p)[i];
    if i >= 2 && Announces(p, k) {
      assert x.ended[|s.ended|] == Note(k.sid, k.state);
    }
    if i >= 6 && Audits(p, k) {
      assert x.audits[|s.audits|] == Note(k.sid, k.state);
    }
  }

  /** What anybody looking in between two awaits of a close can count on: who was told
      that the stream ended finds the turn stored; who finds the buffer closed, that
      everybody was told; who gets the session's lock, the buffer closed; and who finds
      the driver gone or the audit written, the lock free. Each can only fail if the
      step in question did, or was cut off. */
  lemma ObserverOrder(s: Scene, k: Ticket, p: Plan, x: Scene)
    requires Terminal(k.state) && Running(s, k) && x in Scenes(s, k, p)
    ensures Told(x, k) ==> Stored(x, k) || !k.persists || !Happens(p.persist)
    ensures !Live(x, k) ==> Told(x, k) || !Happens(p.event)
    ensures !Locked(x, k) ==> !Live(x, k) || !Shuts(p, k)
    ensures k.sid !in x.drivers ==> !Locked(x, k)
    ensures Audited(x, k) ==> k.sid !in x.drivers && (Shuts(p, k) <==> !Live(x, k))
  {
    var i :| 0 <= i < 7 && Scenes(s, k, p)[i] == x;
    SceneShows(s, k, p, i);
  }

  /** The lock is ever free while the stream is still live, if and only if closing the
      buffer failed or was cut off. */
  lemma FreeWhileLive(s: Scene, k: Ticket, p: Plan)
    requires Terminal(k.state) && Running(s, k)
    ensures (exists x :: x in Scenes(s, k, p) && !Locked(x, k) && Live(x, k)) <==> !Shuts(p, k)
  {
    SceneShows(s, k, p, 6);
    var last := Scenes(s, k, p)[6];
    assert last in Scenes(s, k, p);
    forall x | x in Scenes(s, k, p) && !Locked(x, k) && Live(x, k)
      ensures !Shuts(p, k)
    {
      ObserverOrder(s, k, p, x);
    }
  }

  /** However it goes, the session's lock ends up free, and no other is touched. */
  lemma CloseFreesLock(s: Scene, k: Ticket, p: Plan)
    requires Terminal(k.state) && Running(s, k)
    ensures var last := Scenes(s, k, p)[6];
            && !Locked(last, k)
            && forall n :: n != KeyOf(k) ==> (Held(last.locks, n) <==> Held(s.locks, n))
  {
    FreeUnlocks(s, k);
  }

  /** Without cancellation a failing step costs its own effect and no other, and event,
      buffer and audit agree on how the stream ended. */
  lemma FailuresAreIsolated(s: Scene, k: Ticket, p: Plan)
    requires Terminal(k.state) && Running(s, k) && Uncancelled(p)
    ensures var last := Scenes(s, k, p)[6];
            && !Locked(last, k) && k.sid !in last.drivers
            && (Stored(last, k) <==> k.persists && Happens(p.persist))
            && last.ended == s.ended + (if Happens(p.event) then [Note(k.sid, k.state)] else [])
            && (if Happens(p.buffer) then k.sid in last.buf.entries && last.buf.entries[k.sid].state == k.state
                else last.buf == s.buf)
            && last.audits == s.audits + (if Happens(p.audit) then [Note(k.sid, k.state)] else [])
  {
    SceneShows(s, k, p, 6);
    SceneTold(s, k, p, 6);
    ShutEnds(s, k);
  }

  /** How opening a stream goes, once its session's lock is taken: it may fail in a way
      other than a full table, leaving the table alone, or be cancelled while the entry
      is created (before or after it exists) or while the opening is audited. */
  datatype Opening = Opens | CreateRaises | CreateCancelled(made: bool) | AuditCancelled

  /** The cancellation is one that happens: a full table is refused before it could. */
  predicate OpenCut(o: Opening, created: Created) {
    match o
    case CreateCancelled(made) => !made || !created.Full?
    case AuditCancelled => !created.Full?
    case _ => false
  }

  /** The table once opening has got as far as it does. */
  function TableAfter(o: Opening, created: Created, before: Buffer): Buffer {
    if o.CreateRaises? || o == CreateCancelled(false) || !created.Fresh? then before else created.after
  }

  class StreamHandle {
    const streamId: StreamId
    const token: string
    const session: string
    var nextSeq: nat
    var used: bool
    var userMessageEmitted: bool
    var reservation: QuotaReservation?

    constructor (streamId: StreamId, token: string, session: string)
      ensures this.streamId == streamId && this.token == token && this.session == session
      ensures nextSeq == 0 && !used && !userMessageEmitted && reservation == null
    {
      this.streamId, this.token, this.session := streamId, token, session;
      nextSeq, used, userMessageEmitted, reservation := 0, false, false, null;
    }
  }

  class Registry {
    const buffer: InMemoryBuffer
    const concurrency: PerTokenConcurrency
    var turns: seq<StreamId>
    var ended: seq<Note>
    var drivers: map<StreamId, string>
    var audits: seq<Note>
    var filesReleased: seq<StreamId>
    /** The scenes between the awaits of all closes so far. */
    ghost var seen: seq<Scene>

    ghost predicate Valid()
      reads this, buffer
    {
      buffer.Valid()
    }

    ghost function Abs(): Scene
      reads this`turns, this`ended, this`drivers, this`audits, buffer, concurrency
    {
      Scene(turns, ended, buffer.Abs(), concurrency.Abs(), drivers, audits)
    }

    constructor (buffer: InMemoryBuffer, concurrency: PerTokenConcurrency)
      requires buffer.Valid()
      ensures this.buffer == buffer && this.concurrency == concurrency
      ensures Valid() && drivers == map[] && turns == [] && ended == [] && audits == [] && filesReleased == []
      ensures seen == []
    {
      this.buffer, this.concurrency := buffer, concurrency;
      turns, ended, drivers, audits, filesReleased, seen := [], [], map[], [], [], [];
    }

    /** No handle if the session or the table is busy or the entry cannot be made, and
        then the lock is given back. A cancellation is not caught: it leaves the lock
        taken, and the entry if it got that far. */
    method Open(streamId: StreamId, token: string, session: string, opening: Opening)
      returns (h: StreamHandle?, cancelled: bool)
      requires Valid()
      modifies buffer, concurrency
      ensures Valid()
      ensures var key := SessionKey(token, session);
              var (locked, acquired) := Acquire(old(concurrency.Abs()), key, Stream(streamId));
              var created := StreamBuffer.Create(old(buffer.Abs()), streamId, token, session,
                                                 buffer.maxPerToken, buffer.maxGlobal);
              && (cancelled <==> acquired && OpenCut(opening, created))
              && (h != null <==> acquired && opening.Opens? && !created.Full?)
              && (h != null ==>
                    && fresh(h) && h.streamId == streamId && h.token == token && h.session == session
                    && h.nextSeq == 0 && !h.used && !h.userMessageEmitted && h.reservation == null)
              && (h != null || cancelled ==>
                    && concurrency.Abs() == locked
                    && buffer.Abs() == TableAfter(opening, created, old(buffer.Abs())))
              // cancelled before the entry was made, or after; a full table is refused before that
              && (cancelled <==>
                    && acquired
                    && (opening == CreateCancelled(false)
                        || ((opening == CreateCancelled(true) || opening.AuditCancelled?) && !created.Full?)))
              && (cancelled ==>
                    (streamId in buffer.entries <==>
                       streamId in old(buffer.entries) || opening != CreateCancelled(false)))
              && (h != null ==> streamId in buffer.entries)
              && (h == null && !cancelled ==>
                    && buffer.Abs() == old(buffer.Abs())
                    && concurrency.Abs() == if acquired then ReleaseBy(locked, key, streamId) else locked)
    {
      var key := SessionKey(token, session);
      var acquired := concurrency.AcquireWithId(key, streamId);
      if !acquired {
        return null, false;
      }
      if opening.CreateRaises? {
        concurrency.Release(key, streamId);
        return null, false;
      }
      if opening == CreateCancelled(false) {
        return null, true;
      }
      var outcome := buffer.Create(streamId, token, session);
      if outcome.BufferFull? {
        concurrency.Release(key, streamId);
        return null, false;
      }
      if !opening.Opens? {
        return null, true;
      }
      h := new StreamHandle(streamId, token, session);
      cancelled := false;
    }

    method RegisterDriver(streamId: StreamId, token: string)
      modifies this`drivers
      ensures drivers == old(drivers)[streamId := token]
    {
      drivers := drivers[streamId := token];
    }

    /** Refused on a closed handle. */
    method Append(h: StreamHandle, text: string) returns (seqno: Option<nat>)
      requires Valid()
      modifies h`nextSeq, buffer
      ensures Valid()
      ensures h.used ==> seqno.None? && h.nextSeq == old(h.nextSeq) && buffer.Abs() == old(buffer.Abs())
      ensures !h.used ==>
                && seqno == Some(old(h.nextSeq)) && h.nextSeq == old(h.nextSeq) + 1
                && (var (after, woken) := StreamBuffer.Append(old(buffer.Abs()), h.streamId, old(h.nextSeq), text);
                    buffer.Abs() == Signal(after, woken))
    {
      if h.used {
        return None;
      }
      var n := h.nextSeq;
      h.nextSeq := n + 1;
      buffer.AppendChunk(h.streamId, n, text);
      return Some(n);
    }

    /** A snapshot for the token that owns the stream; a foreign stream looks missing. */
    method Fetch(streamId: StreamId, token: string) returns (snapshot: Option<Snapshot>)
      requires Valid()
      ensures snapshot.Some? <==> streamId in buffer.entries && buffer.entries[streamId].token == token
      ensures snapshot.Some? ==>
                var e := buffer.entries[streamId];
                && snapshot.value.token == token && snapshot.value.session == e.session
                && snapshot.value.state == e.state && snapshot.value.chunks == e.chunks
                && snapshot.value.final == e.final
    {
      snapshot := buffer.FetchSince(streamId, -1);
      if snapshot.Some? && snapshot.value.token != token {
        return None;
      }
      if snapshot.Some? {
        SinceAll(buffer.entries[streamId].chunks, -1);
      }
    }

    /** What one close is asked to do. */
    ghost function TicketOf(h: StreamHandle, state: StreamState, final: Final, now: int, persists: bool): Ticket {
      Ticket(h.streamId, h.token, h.session, state, final, now, persists)
    }

    /** Whoever runs between two awaits sees this. */
    ghost method Look()
      modifies this`seen
      ensures seen == old(seen) + [Abs()]
    {
      seen := seen + [Abs()];
    }

    /** Step 1, for a stream that delivered something. */
    method PersistStep(h: StreamHandle, ghost k: Ticket, persists: bool, plan: Plan)
      requires k.sid == h.streamId && k.persists == persists
      modifies this`turns, this`seen
      ensures Abs() == Persisting(old(Abs()), k, plan) && seen == old(seen) + [Abs()]
    {
      if persists && Happens(plan.persist) {
        turns := turns + [h.streamId];
      }
      Look();
    }

    /** Step 2, unless step 1 was cancelled. */
    method AnnounceStep(h: StreamHandle, ghost k: Ticket, state: StreamState, cancelled: bool, plan: Plan)
      requires k.sid == h.streamId && k.state == state && cancelled == !ReachesEvent(plan, k.persists)
      modifies this`ended, this`seen
      ensures Abs() == Announcing(old(Abs()), k, plan) && seen == old(seen) + [Abs()]
    {
      if !cancelled && Happens(plan.event) {
        ended := ended + [Note(h.streamId, state)];
      }
      Look();
    }

    /** Step 3, unless step 1 or 2 was cancelled. */
    method ShutStep(h: StreamHandle, ghost k: Ticket, state: StreamState, final: Final, now: int, cancelled: bool,
                    plan: Plan)
      requires Valid() && Terminal(state) && k == TicketOf(h, state, final, now, k.persists)
      requires cancelled == !ReachesBuffer(plan, k.persists)
      modifies this`seen, buffer
      ensures Valid() && buffer.audits == old(buffer.audits)
      ensures Abs() == Shutting(old(Abs()), k, plan) && seen == old(seen) + [Abs()]
    {
      if !cancelled && Happens(plan.buffer) {
        buffer.Close(h.streamId, state, final, now);
      }
      Look();
    }

    /** Steps 1-3, up to the first cancellation. */
    method CloseSteps(h: StreamHandle, state: StreamState, final: Final, now: int, persists: bool, plan: Plan)
      returns (cancelled: bool)
      requires Valid() && Terminal(state)
      modifies this`turns, this`ended, this`seen, buffer
      ensures Valid()
      ensures cancelled <==> StepsCancelled(plan, persists)
      ensures buffer.audits == old(buffer.audits)
      ensures var t := Scenes(old(Abs()), TicketOf(h, state, final, now, persists), plan);
              Abs() == t[3] && seen == old(seen) + [t[0]] + [t[1]] + [t[2]] + [t[3]]
    {
      ghost var k := TicketOf(h, state, final, now, persists);
      Look();
      PersistStep(h, k, persists, plan);
      cancelled := persists && plan.persist.Cancelled?;
      AnnounceStep(h, k, state, cancelled, plan);
      cancelled := cancelled || plan.event.Cancelled?;
      ShutStep(h, k, state, final, now, cancelled, plan);
      cancelled := cancelled || plan.buffer.Cancelled?;
    }

    /** Step 4: the `finally`. */
    method GiveBack(h: StreamHandle, ghost k: Ticket, plan: Plan)
      requires k.sid == h.streamId && k.token == h.token && k.session == h.session
      modifies this`drivers, this`seen, concurrency
      ensures Abs() == Forgetting(Free(old(Abs()), k), k, plan)
      ensures seen == old(seen) + [Free(old(Abs()), k)] + [Abs()]
    {
      concurrency.Release(SessionKey(h.token, h.session), h.streamId);
      Look();
      if !plan.releaseCancelled {
        drivers := drivers - {h.streamId};
      }
      Look();
    }

    /** Step 5. */
    method AuditStep(h: StreamHandle, ghost k: Ticket, state: StreamState, persists: bool, plan: Plan)
      requires k.sid == h.streamId && k.state == state && k.persists == persists
      modifies this`audits, this`seen
      ensures Abs() == Auditing(old(Abs()), k, plan) && seen == old(seen) + [Abs()]
    {
      if ReachesAudit(plan, persists) && Happens(plan.audit) {
        audits := audits + [Note(h.streamId, state)];
      }
      Look();
    }

    /** All five steps. */
    method RunSteps(h: StreamHandle, state: StreamState, final: Final, now: int, persists: bool, plan: Plan)
      returns (cancelled: bool)
      requires Valid() && Terminal(state)
      modifies this`turns, this`ended, this`drivers, this`audits, this`seen, buffer, concurrency
      ensures Valid() && buffer.audits == old(buffer.audits)
      ensures cancelled == EscapesCancelled(plan, persists)
      ensures var t := Scenes(old(Abs()), TicketOf(h, state, final, now, persists), plan);
              Abs() == t[6] && seen == old(seen) + t
    {
      ghost var k := TicketOf(h, state, final, now, persists);
      SevenMore(seen, Scenes(Abs(), k, plan));
      cancelled := CloseSteps(h, state, final, now, persists, plan);
      GiveBack(h, k, plan);
      AuditStep(h, k, state, persists, plan);
      cancelled := cancelled || plan.releaseCancelled || plan.audit.Cancelled?;
    }

    /** `_close`. Whatever happens to steps 1-3, the `finally` gives the session
        lock back, once, under this stream's own name; a second close does
        nothing at all. */
    method Close(h: StreamHandle, state: StreamState, final: Final, now: int, persists: bool, plan: Plan)
      returns (cancelled: bool)
      requires Valid() && Terminal(state)
      modifies this`turns, this`ended, this`drivers, this`audits, this`seen, buffer, concurrency, h`used
      ensures Valid() && h.used && buffer.audits == old(buffer.audits)
      ensures cancelled ==> !old(h.used) && EscapesCancelled(plan, persists)
      ensures old(h.used) ==> Abs() == old(Abs()) && seen == old(seen)
      ensures !old(h.used) ==>
                var t := Scenes(old(Abs()), TicketOf(h, state, final, now, persists), plan);
                Abs() == t[6] && seen == old(seen) + t
      ensures concurrency.Abs() ==
              if old(h.used) then old(concurrency.Abs())
              else ReleaseBy(old(concurrency.Abs()), SessionKey(h.token, h.session), h.streamId)
      ensures drivers == if old(h.used) || plan.releaseCancelled then old(drivers) else old(drivers) - {h.streamId}
      ensures buffer.Abs() ==
              Closing(old(buffer.Abs()), !old(h.used) && ReachesBuffer(plan, persists) && Happens(plan.buffer),
                      h.streamId, state, final, now)
    {
      if h.used {
        return false;
      }
      h.used := true;
      LastScene(Abs(), TicketOf(h, state, final, now, persists), plan);
      cancelled := RunSteps(h, state, final, now, persists, plan);
    }
  }
}
