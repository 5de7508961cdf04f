/** core/stream_buffer.py: the in-memory stream buffer. An entry object never
    escapes the buffer's lock, so entries are values held by the buffer object;
    an asyncio.Event is an identity plus membership in `signalled`. */
module StreamBuffer {
  import opened Lists

  type StreamId = string

  /** An asyncio.Event: the `serial`-th one made, for an entry of `stream`. */
  datatype EventId = EventId(stream: StreamId, serial: nat)

  datatype StreamState = Pending | Streaming | ClosedOk | ClosedIncomplete | ClosedFailed

  predicate Terminal(s: StreamState) {
    s.ClosedOk? || s.ClosedIncomplete? || s.ClosedFailed?
  }

  datatype Chunk = Chunk(num: nat, text: string)

  datatype Final = Delivered(remaining: nat, dailyQuota: nat, incomplete: bool) | Error(code: string)

  datatype Entry = Entry(
    token: string, session: string, state: StreamState, chunks: seq<Chunk>, final: Option<Final>,
    closedAt: Option<int>, newChunk: EventId, terminalSet: bool)

  datatype Buffer = Buffer(
    entries: map<StreamId, Entry>, order: seq<StreamId>, signalled: set<EventId>, nextEvent: nat)

  // ----- chunk sequences -----

  ghost predicate Increasing(chunks: seq<Chunk>) {
    forall i, j :: 0 <= i < j < |chunks| ==> chunks[i].num < chunks[j].num
  }

  /** The chunks with sequence number above `after`. */
  function Since(chunks: seq<Chunk>, after: int): (r: seq<Chunk>)
    ensures |r| <= |chunks|
  {
    if chunks == [] then [] else
    var n := |chunks| - 1;
    var front := Since(chunks[..n], after);
    if chunks[n].num > after then front + [chunks[n]] else front
  }

  /** The cursor a reader holds after receiving `got`, having started at `after`. */
  function Cursor(after: int, got: seq<Chunk>): int {
    if got == [] then after else got[|got| - 1].num
  }

  lemma {:induction false} SinceMember(chunks: seq<Chunk>, after: int)
    ensures forall c :: c in Since(chunks, after) <==> c in chunks && c.num > after
  {
    if chunks != [] {
      var n := |chunks| - 1;
      SinceMember(chunks[..n], after);
      assert chunks == chunks[..n] + [chunks[n]];
    }
  }

  lemma SinceAppend(chunks: seq<Chunk>, c: Chunk, after: int)
    ensures Since(chunks + [c], after) == Since(chunks, after) + (if c.num > after then [c] else [])
  {
    assert (chunks + [c])[..|chunks|] == chunks;
  }

  /** One iteration of a loop that picks the chunks past `after`. */
  lemma SinceStep(chunks: seq<Chunk>, i: nat, after: int)
    requires i < |chunks|
    ensures Since(chunks[..i + 1], after) ==
            if chunks[i].num > after then Since(chunks[..i], after) + [chunks[i]] else Since(chunks[..i], after)
  {
    assert chunks[..i + 1] == chunks[..i] + [chunks[i]];
    SinceAppend(chunks[..i], chunks[i], after);
  }

  lemma {:induction false} SinceNone(chunks: seq<Chunk>, after: int)
    requires forall c :: c in chunks ==> c.num <= after
    ensures Since(chunks, after) == []
  {
    if chunks != [] {
      SinceNone(chunks[..|chunks| - 1], after);
    }
  }

  lemma {:induction false} SinceAll(chunks: seq<Chunk>, after: int)
    requires forall c :: c in chunks ==> c.num > after
    ensures Since(chunks, after) == chunks
  {
    if chunks != [] {
      var n := |chunks| - 1;
      SinceAll(chunks[..n], after);
      assert chunks == chunks[..n] + [chunks[n]];
    }
  }

  lemma {:induction false} SinceIncreasing(chunks: seq<Chunk>, after: int)
    requires Increasing(chunks)
    ensures Increasing(Since(chunks, after))
  {
    if chunks != [] {
      SinceIncreasing(chunks[..|chunks| - 1], after);
      SinceMember(chunks[..|chunks| - 1], after);
    }
  }

  lemma {:induction false} SincePrefix(chunks: seq<Chunk>, more: seq<Chunk>, after: int)
    ensures Since(chunks, after) <= Since(chunks + more, after)
  {
    if more == [] {
      assert chunks + more == chunks;
    } else {
      var n := |more| - 1;
      SincePrefix(chunks, more[..n], after);
      SinceAppend(chunks + more[..n], more[n], after);
      assert chunks + more == chunks + more[..n] + [more[n]];
    }
  }

  lemma {:induction false} SinceConcat(chunks: seq<Chunk>, more: seq<Chunk>, after: int)
    ensures Since(chunks + more, after) == Since(chunks, after) + Since(more, after)
  {
    if more == [] {
      assert chunks + more == chunks;
    } else {
      var n := |more| - 1;
      SinceConcat(chunks, more[..n], after);
      assert chunks + more == chunks + more[..n] + [more[n]];
      SinceAppend(chunks + more[..n], more[n], after);
    }
  }

  ghost predicate SplitsAt(chunks: seq<Chunk>, r: nat, after: int) {
    && r <= |chunks|
    && (forall i :: 0 <= i < r ==> chunks[i].num <= after)
    && (forall i :: r <= i < |chunks| ==> chunks[i].num > after)
  }

  lemma SinceAtSplit(chunks: seq<Chunk>, r: nat, after: int)
    requires SplitsAt(chunks, r, after)
    ensures Since(chunks, after) == chunks[r..]
  {
    SinceNone(chunks[..r], after);
    SinceAll(chunks[r..], after);
    SinceConcat(chunks[..r], chunks[r..], after);
    assert chunks == chunks[..r] + chunks[r..];
  }

  lemma {:induction false} SplitExists(chunks: seq<Chunk>, after: int) returns (r: nat)
    requires Increasing(chunks)
    ensures SplitsAt(chunks, r, after)
  {
    r := 0;
    while r < |chunks| && chunks[r].num <= after
      invariant r <= |chunks| && forall i :: 0 <= i < r ==> chunks[i].num <= after
    {
      r := r + 1;
    }
  }

  lemma SplitMoves(chunks: seq<Chunk>, r: nat, after: int, k: nat)
    requires Increasing(chunks) && SplitsAt(chunks, r, after) && r + k <= |chunks|
    ensures SplitsAt(chunks, r + k, if k == 0 then after else chunks[r + k - 1].num)
  {
  }

  /** Reading on from the cursor reached by the first `k` received chunks yields
      exactly the rest: the step behind "no gap, no repeat". */
  lemma SinceFromCursor(chunks: seq<Chunk>, after: int, k: nat)
    requires Increasing(chunks)
    requires k <= |Since(chunks, after)|
    ensures Since(chunks, Cursor(after, Since(chunks, after)[..k])) == Since(chunks, after)[k..]
  {
    var r := SplitExists(chunks, after);
    SinceAtSplit(chunks, r, after);
    SplitMoves(chunks, r, after, k);
    var cursor := if k == 0 then after else chunks[r + k - 1].num;
    assert cursor == Cursor(after, chunks[r..][..k]);
    SinceAtSplit(chunks, r + k, cursor);
    assert chunks[r..][k..] == chunks[r + k..];
  }

  /** The same, for chunks received so far as a prefix of what is owed. */
  lemma SinceRest(chunks: seq<Chunk>, after: int, got: seq<Chunk>)
    requires Increasing(chunks) && got <= Since(chunks, after)
    ensures got + Since(chunks, Cursor(after, got)) == Since(chunks, after)
    ensures Cursor(Cursor(after, got), Since(chunks, Cursor(after, got))) == Cursor(after, Since(chunks, after))
  {
    SinceFromCursor(chunks, after, |got|);
    CursorRest(after, Since(chunks, after), got, Since(chunks, Cursor(after, got)));
  }

  lemma CursorRest(after: int, owed: seq<Chunk>, got: seq<Chunk>, rest: seq<Chunk>)
    requires got <= owed && rest == owed[|got|..]
    ensures got + rest == owed && Cursor(Cursor(after, got), rest) == Cursor(after, owed)
  {
  }

  // ----- the buffer's operations on values -----

  ghost predicate WellFormed(b: Buffer) {
    && Distinct(b.order)
    && (forall sid :: sid in b.order <==> sid in b.entries)
    && (forall sid :: sid in b.entries ==>
          var e := b.entries[sid];
          && e.newChunk.stream == sid && e.newChunk.serial < b.nextEvent
          && (e.terminalSet <==> Terminal(e.state))
          && (e.closedAt.Some? <==> Terminal(e.state))
          && (e.final.Some? <==> Terminal(e.state)))
  }

  function Evict(b: Buffer, sid: StreamId): Buffer {
    if sid in b.entries then
      b.(entries := b.entries - {sid}, order := Without(b.order, {sid}),
         signalled := b.signalled + {b.entries[sid].newChunk})
    else b
  }

  function EvictAll(b: Buffer, victims: seq<StreamId>): Buffer {
    if victims == [] then b else
    Evict(EvictAll(b, victims[..|victims| - 1]), victims[|victims| - 1])
  }

  predicate Active(b: Buffer, sid: StreamId) {
    sid in b.entries && !Terminal(b.entries[sid].state)
  }

  predicate Closed(b: Buffer, sid: StreamId) {
    sid in b.entries && Terminal(b.entries[sid].state)
  }

  predicate OwnedBy(b: Buffer, token: string, sid: StreamId) {
    sid in b.entries && b.entries[sid].token == token
  }

  function OwnedIn(b: Buffer, token: string, sids: seq<StreamId>): seq<StreamId> {
    Filter(sid => OwnedBy(b, token, sid), sids)
  }

  function Owned(b: Buffer, token: string): seq<StreamId> {
    OwnedIn(b, token, b.order)
  }

  function ClosedIn(b: Buffer, sids: seq<StreamId>): seq<StreamId> {
    Filter(sid => Closed(b, sid), sids)
  }

  function AllClosed(b: Buffer): seq<StreamId> {
    ClosedIn(b, b.order)
  }

  function OwnedClosed(b: Buffer, token: string): seq<StreamId> {
    ClosedIn(b, Owned(b, token))
  }

  /** What the per-token cap removes: just enough of the token's closed entries,
      oldest first, to leave room for one more. */
  function TokenVictims(b: Buffer, token: string, maxPerToken: nat): (v: seq<StreamId>)
    requires maxPerToken > 0
    ensures v <= OwnedClosed(b, token)
  {
    var closed := OwnedClosed(b, token);
    var excess := |Owned(b, token)| - maxPerToken + 1;
    if excess <= 0 then [] else if excess <= |closed| then closed[..excess] else closed
  }

  datatype Created =
    | Reused
    | Full
    | Fresh(after: Buffer, tokenVictims: seq<StreamId>, globalVictims: seq<StreamId>)

  function NewEntry(token: string, session: string, event: EventId): Entry {
    Entry(token, session, Pending, [], None, None, event, false)
  }

  function Insert(b: Buffer, sid: StreamId, token: string, session: string): Buffer {
    Buffer(b.entries[sid := NewEntry(token, session, EventId(sid, b.nextEvent))], b.order + [sid],
           b.signalled, b.nextEvent + 1)
  }

  function Create(b: Buffer, sid: StreamId, token: string, session: string,
                  maxPerToken: nat, maxGlobal: nat): Created
    requires maxPerToken > 0
  {
    if sid in b.entries then Reused else
    var tokenVictims := TokenVictims(b, token, maxPerToken);
    var b1 := EvictAll(b, tokenVictims);
    if |b1.order| < maxGlobal then
      Fresh(Insert(b1, sid, token, session), tokenVictims, [])
    else if AllClosed(b1) == [] then Full
    else
      var victim := AllClosed(b1)[0];
      Fresh(Insert(Evict(b1, victim), sid, token, session), tokenVictims, [victim])
  }

  /** The part of append_chunk under the lock; the result names the event the
      caller sets after releasing it. */
  function Append(b: Buffer, sid: StreamId, num: nat, text: string): (Buffer, Option<EventId>) {
    if !Active(b, sid) then (b, None) else
    var e := b.entries[sid];
    (b.(entries := b.entries[sid := e.(chunks := e.chunks + [Chunk(num, text)], state := Streaming,
                                       newChunk := EventId(sid, b.nextEvent))],
        nextEvent := b.nextEvent + 1),
     Some(e.newChunk))
  }

  function Close(b: Buffer, sid: StreamId, state: StreamState, final: Final, now: int)
    : (Buffer, Option<EventId>)
    requires Terminal(state)
  {
    if sid !in b.entries then (b, None) else
    var e := b.entries[sid];
    (b.(entries := b.entries[sid := e.(state := state, final := Some(final), closedAt := Some(now),
                                       terminalSet := true)]),
     Some(e.newChunk))
  }

  function Signal(b: Buffer, event: Option<EventId>): Buffer {
    if event.None? then b else b.(signalled := b.signalled + {event.value})
  }

  predicate Expired(b: Buffer, sid: StreamId, cutoff: int) {
    sid in b.entries && b.entries[sid].closedAt.Some? && b.entries[sid].closedAt.value < cutoff
  }

  // ----- laws of the operations -----

  lemma EvictAllSnoc(b: Buffer, victims: seq<StreamId>, sid: StreamId)
    ensures EvictAll(b, victims + [sid]) == Evict(EvictAll(b, victims), sid)
  {
    assert (victims + [sid])[..|victims|] == victims;
  }

  lemma FirstClosed(b: Buffer, live: seq<StreamId>, sid: StreamId, rest: seq<StreamId>)
    requires ClosedIn(b, live) == [] && Closed(b, sid)
    ensures [sid] <= ClosedIn(b, live + [sid] + rest)
  {
    FilterSnoc(s => Closed(b, s), live, sid);
    FilterConcat(s => Closed(b, s), live + [sid], rest);
  }

  lemma ScanStep(b: Buffer, token: string, sids: seq<StreamId>, sid: StreamId)
    ensures var mine := OwnedIn(b, token, sids);
            && OwnedIn(b, token, sids + [sid]) == (if OwnedBy(b, token, sid) then mine + [sid] else mine)
            && ClosedIn(b, sids + [sid]) == (if Closed(b, sid) then ClosedIn(b, sids) + [sid] else ClosedIn(b, sids))
            && ClosedIn(b, mine + [sid]) == (if Closed(b, sid) then ClosedIn(b, mine) + [sid] else ClosedIn(b, mine))
  {
    FilterSnoc(s => OwnedBy(b, token, s), sids, sid);
    FilterSnoc(s => Closed(b, s), sids, sid);
    FilterSnoc(s => Closed(b, s), OwnedIn(b, token, sids), sid);
  }

  lemma OrderLength(b: Buffer)
    requires WellFormed(b)
    ensures |b.order| == |b.entries|
  {
    DistinctCardinality(b.order, b.entries.Keys);
  }

  lemma EvictWellFormed(b: Buffer, sid: StreamId)
    requires WellFormed(b)
    ensures WellFormed(Evict(b, sid))
  {
    if sid in b.entries {
      WithoutDistinct(b.order, {sid});
      WithoutMember(b.order, {sid});
    }
  }

  lemma EvictOrder(b: Buffer, sid: StreamId)
    requires WellFormed(b)
    ensures Evict(b, sid).order == Without(b.order, {sid})
    ensures Evict(b, sid).entries == b.entries - {sid}
  {
    if sid !in b.entries {
      WithoutNothing(b.order, {sid});
      assert b.entries - {sid} == b.entries;
    }
  }

  lemma {:induction false} EvictAllWellFormed(b: Buffer, victims: seq<StreamId>)
    requires WellFormed(b)
    ensures WellFormed(EvictAll(b, victims))
  {
    if victims != [] {
      var n := |victims| - 1;
      EvictAllWellFormed(b, victims[..n]);
      EvictWellFormed(EvictAll(b, victims[..n]), victims[n]);
    }
  }

  lemma {:induction false} EvictAllOrder(b: Buffer, victims: seq<StreamId>)
    requires WellFormed(b)
    ensures EvictAll(b, victims).order == Without(b.order, Elements(victims))
  {
    if victims == [] {
      WithoutNothing(b.order, Elements(victims));
    } else {
      var n := |victims| - 1;
      var b1 := EvictAll(b, victims[..n]);
      EvictAllWellFormed(b, victims[..n]);
      EvictAllOrder(b, victims[..n]);
      EvictOrder(b1, victims[n]);
      WithoutTwice(b.order, Elements(victims[..n]), {victims[n]});
      ElementsSnoc(victims);
    }
  }

  lemma {:induction false} EvictAllSignals(b: Buffer, victims: seq<StreamId>)
    ensures b.signalled <= EvictAll(b, victims).signalled
    ensures forall v :: v in victims && v in b.entries ==>
              b.entries[v].newChunk in EvictAll(b, victims).signalled
    ensures forall v :: v in EvictAll(b, victims).entries ==>
              v in b.entries && EvictAll(b, victims).entries[v] == b.entries[v]
    ensures forall v :: v in b.entries && v !in victims ==> v in EvictAll(b, victims).entries
  {
    if victims != [] {
      var n := |victims| - 1;
      EvictAllSignals(b, victims[..n]);
      assert victims == victims[..n] + [victims[n]];
    }
  }

  // ----- caps -----

  function OwnedSet(b: Buffer, token: string): set<StreamId> {
    set sid | sid in b.entries && b.entries[sid].token == token
  }

  lemma OwnedCount(b: Buffer, token: string)
    requires WellFormed(b)
    ensures Distinct(Owned(b, token)) && |Owned(b, token)| == |OwnedSet(b, token)|
    ensures Elements(Owned(b, token)) == OwnedSet(b, token)
  {
    FilterDistinct(sid => OwnedBy(b, token, sid), b.order);
    FilterMember(sid => OwnedBy(b, token, sid), b.order);
    DistinctCardinality(Owned(b, token), OwnedSet(b, token));
  }

  lemma OwnedClosedLaws(b: Buffer, token: string)
    requires WellFormed(b)
    ensures Distinct(OwnedClosed(b, token))
    ensures forall sid :: sid in OwnedClosed(b, token) <==> sid in OwnedSet(b, token) && Closed(b, sid)
  {
    OwnedCount(b, token);
    FilterDistinct(sid => Closed(b, sid), Owned(b, token));
    FilterMember(sid => Closed(b, sid), Owned(b, token));
    assert forall sid :: sid in Owned(b, token) <==> sid in Elements(Owned(b, token));
  }

  /** Only closed entries of the token are evicted, and afterwards the token has
      room for one more or nothing but live streams. */
  lemma TokenCap(b: Buffer, token: string, maxPerToken: nat)
    requires WellFormed(b) && maxPerToken > 0
    ensures var v := TokenVictims(b, token, maxPerToken);
            var left := OwnedSet(b, token) - Elements(v);
            && (forall sid :: sid in v ==> sid in OwnedSet(b, token) && Closed(b, sid))
            && (|left| < maxPerToken || forall sid :: sid in left ==> Active(b, sid))
  {
    var closed := OwnedClosed(b, token);
    var v := TokenVictims(b, token, maxPerToken);
    var owned := OwnedSet(b, token);
    OwnedCount(b, token);
    OwnedClosedLaws(b, token);
    assert forall sid :: sid in v ==> sid in closed;
    assert |Elements(v)| == |v| by {
      assert Distinct(v);
      DistinctCardinality(v, Elements(v));
    }
    assert Elements(v) <= owned;
    assert |owned - Elements(v)| == |owned| - |v|;
  }

  lemma EvictAllOwned(b: Buffer, victims: seq<StreamId>, token: string)
    ensures OwnedSet(EvictAll(b, victims), token) == OwnedSet(b, token) - Elements(victims)
    ensures EvictAll(b, victims).entries == b.entries - Elements(victims)
  {
    EvictAllEntries(b, victims);
  }

  lemma {:induction false} EvictAllEntries(b: Buffer, victims: seq<StreamId>)
    ensures EvictAll(b, victims).entries == b.entries - Elements(victims)
    ensures EvictAll(b, victims).nextEvent == b.nextEvent
  {
    if victims == [] {
      assert b.entries - Elements(victims) == b.entries;
    } else {
      EvictAllEntries(b, victims[..|victims| - 1]);
      ElementsSnoc(victims);
    }
  }

  /** The global cap never needs a victim once the per-token cap has taken one. */
  lemma EvictionMakesRoom(b: Buffer, victims: seq<StreamId>)
    requires WellFormed(b)
    requires forall v :: v in victims ==> v in b.entries
    ensures |EvictAll(b, victims).order| <= |b.order|
    ensures victims != [] ==> |EvictAll(b, victims).order| < |b.order|
  {
    EvictAllWellFormed(b, victims);
    EvictAllEntries(b, victims);
    OrderLength(b);
    OrderLength(EvictAll(b, victims));
    var left := b.entries.Keys - Elements(victims);
    assert EvictAll(b, victims).entries.Keys == left;
    SubsetCardinality(left, b.entries.Keys);
    if victims != [] {
      SubsetCardinality(left, b.entries.Keys - {victims[0]});
    }
  }

  lemma AllClosedLaws(b: Buffer)
    requires WellFormed(b)
    ensures forall sid :: sid in AllClosed(b) <==> Closed(b, sid)
  {
    FilterMember(sid => Closed(b, sid), b.order);
  }

  /** What a successful create may do to the table: it drops closed entries only,
      oldest first, and leaves both caps respected. */
  ghost predicate CapsKept(b: Buffer, r: Created, sid: StreamId, token: string, maxPerToken: nat, maxGlobal: nat)
    requires r.Fresh?
  {
    var gone := Elements(r.tokenVictims) + Elements(r.globalVictims);
    && |r.after.order| <= maxGlobal
    && r.after.order == Without(b.order, gone) + [sid]
    && (forall s :: s in gone ==> Closed(b, s))
    && r.tokenVictims <= OwnedClosed(b, token)
    && r.globalVictims <= AllClosed(b)
    && |r.globalVictims| <= 1
    && (r.globalVictims != [] ==> r.tokenVictims == [] && |b.order| == maxGlobal)
    && WithinTokenCap(b, OwnedSet(r.after, token), sid, maxPerToken)
  }

  lemma InsertWellFormed(b: Buffer, sid: StreamId, token: string, session: string)
    requires WellFormed(b) && sid !in b.entries
    ensures WellFormed(Insert(b, sid, token, session))
    ensures OwnedSet(Insert(b, sid, token, session), token) == OwnedSet(b, token) + {sid}
  {
  }

  /** The table from which create inserts, once both caps have been served. */
  ghost predicate RoomMade(b: Buffer, r: Created, sid: StreamId, token: string, session: string,
                           maxPerToken: nat, maxGlobal: nat)
    requires maxPerToken > 0
  {
    && r.Fresh?
    && r.tokenVictims == TokenVictims(b, token, maxPerToken)
    && r.after == Insert(EvictAll(b, r.tokenVictims + r.globalVictims), sid, token, session)
    && |EvictAll(b, r.tokenVictims + r.globalVictims).order| < maxGlobal
    && sid !in b.entries
    && r.globalVictims <= AllClosed(b)
    && |r.globalVictims| <= 1
    && (r.globalVictims != [] ==> r.tokenVictims == [] && |b.order| == maxGlobal)
  }

  lemma OneVictim(b: Buffer, victim: StreamId)
    requires WellFormed(b) && victim in b.entries
    ensures EvictAll(b, [victim]) == Evict(b, victim) && |Evict(b, victim).order| < |b.order|
  {
    assert [victim][..0] == [];
    assert EvictAll(b, [victim]) == Evict(EvictAll(b, []), victim);
    EvictionMakesRoom(b, [victim]);
  }

  lemma CreateMakesRoom(b: Buffer, sid: StreamId, token: string, session: string, maxPerToken: nat, maxGlobal: nat)
    requires WellFormed(b) && 0 < maxPerToken && 0 < maxGlobal && |b.order| <= maxGlobal
    requires Create(b, sid, token, session, maxPerToken, maxGlobal).Fresh?
    ensures RoomMade(b, Create(b, sid, token, session, maxPerToken, maxGlobal), sid, token, session,
                     maxPerToken, maxGlobal)
  {
    var tv := TokenVictims(b, token, maxPerToken);
    TokenCap(b, token, maxPerToken);
    EvictionMakesRoom(b, tv);
    if |EvictAll(b, tv).order| < maxGlobal {
      assert tv + [] == tv;
    } else {
      assert tv == [] && EvictAll(b, tv) == b;
      var victim := AllClosed(b)[0];
      assert tv + [victim] == [victim];
      AllClosedLaws(b);
      assert victim in AllClosed(b);
      OneVictim(b, victim);
    }
  }

  /** A create never touches a live stream. */
  lemma CreateKeepsLive(b: Buffer, sid: StreamId, token: string, session: string, maxPerToken: nat, maxGlobal: nat,
                        live: StreamId)
    requires WellFormed(b) && 0 < maxPerToken && 0 < maxGlobal && |b.order| <= maxGlobal
    requires Create(b, sid, token, session, maxPerToken, maxGlobal).Fresh?
    requires Active(b, live)
    ensures Active(Create(b, sid, token, session, maxPerToken, maxGlobal).after, live)
  {
    var r := Create(b, sid, token, session, maxPerToken, maxGlobal);
    CreateMakesRoom(b, sid, token, session, maxPerToken, maxGlobal);
    VictimsAreClosed(b, r, sid, token, session, maxPerToken, maxGlobal);
    EvictAllSignals(b, r.tokenVictims + r.globalVictims);
    assert live !in r.tokenVictims + r.globalVictims;
  }

  ghost predicate WithinTokenCap(b: Buffer, owned: set<StreamId>, sid: StreamId, maxPerToken: nat) {
    |owned| <= maxPerToken || forall s :: s in owned && s != sid ==> Active(b, s)
  }

  lemma FewerOwnedStaysWithinCap(b: Buffer, left: set<StreamId>, room: set<StreamId>, sid: StreamId, maxPerToken: nat)
    requires room <= left
    requires |left| < maxPerToken || forall s :: s in left ==> Active(b, s)
    ensures WithinTokenCap(b, room + {sid}, sid, maxPerToken)
  {
    SubsetCardinality(room, left);
  }

  lemma RoomRespectsTokenCap(b: Buffer, r: Created, sid: StreamId, token: string, session: string,
                             maxPerToken: nat, maxGlobal: nat)
    requires WellFormed(b) && 0 < maxPerToken
    requires RoomMade(b, r, sid, token, session, maxPerToken, maxGlobal)
    ensures WellFormed(r.after)
    ensures WithinTokenCap(b, OwnedSet(r.after, token), sid, maxPerToken)
  {
    var victims := r.tokenVictims + r.globalVictims;
    var room := EvictAll(b, victims);
    var left := OwnedSet(b, token) - Elements(r.tokenVictims);
    TokenCap(b, token, maxPerToken);
    EvictAllWellFormed(b, victims);
    EvictAllEntries(b, victims);
    InsertWellFormed(room, sid, token, session);
    EvictAllOwned(b, victims, token);
    FewerOwnedStaysWithinCap(b, left, OwnedSet(room, token), sid, maxPerToken);
  }

  lemma VictimsAreClosed(b: Buffer, r: Created, sid: StreamId, token: string, session: string,
                         maxPerToken: nat, maxGlobal: nat)
    requires WellFormed(b) && 0 < maxPerToken
    requires RoomMade(b, r, sid, token, session, maxPerToken, maxGlobal)
    ensures forall s :: s in r.tokenVictims + r.globalVictims ==> Closed(b, s)
  {
    TokenCap(b, token, maxPerToken);
    AllClosedLaws(b);
  }

  lemma CreateKeepsCaps(b: Buffer, sid: StreamId, token: string, session: string, maxPerToken: nat, maxGlobal: nat)
    requires WellFormed(b) && 0 < maxPerToken && 0 < maxGlobal && |b.order| <= maxGlobal
    requires Create(b, sid, token, session, maxPerToken, maxGlobal).Fresh?
    ensures var r := Create(b, sid, token, session, maxPerToken, maxGlobal);
            WellFormed(r.after) && CapsKept(b, r, sid, token, maxPerToken, maxGlobal)
  {
    CreateMakesRoom(b, sid, token, session, maxPerToken, maxGlobal);
    RoomKeepsCaps(b, Create(b, sid, token, session, maxPerToken, maxGlobal), sid, token, session,
                  maxPerToken, maxGlobal);
  }

  lemma RoomKeepsCaps(b: Buffer, r: Created, sid: StreamId, token: string, session: string,
                      maxPerToken: nat, maxGlobal: nat)
    requires WellFormed(b) && 0 < maxPerToken
    requires RoomMade(b, r, sid, token, session, maxPerToken, maxGlobal)
    ensures WellFormed(r.after) && CapsKept(b, r, sid, token, maxPerToken, maxGlobal)
  {
    var victims := r.tokenVictims + r.globalVictims;
    VictimsAreClosed(b, r, sid, token, session, maxPerToken, maxGlobal);
    RoomRespectsTokenCap(b, r, sid, token, session, maxPerToken, maxGlobal);
    assert r.after.order == Without(b.order, Elements(r.tokenVictims) + Elements(r.globalVictims)) + [sid] by {
      EvictAllOrder(b, victims);
      assert Elements(victims) == Elements(r.tokenVictims) + Elements(r.globalVictims);
    }
  }

  /** BufferFullError: every entry is live, the table is at its cap, and no
      eviction has happened, so there is nothing to undo. */
  lemma FullMeansAllLive(b: Buffer, sid: StreamId, token: string, session: string, maxPerToken: nat, maxGlobal: nat)
    requires WellFormed(b) && 0 < maxPerToken && |b.order| <= maxGlobal
    requires sid !in b.entries
    ensures Create(b, sid, token, session, maxPerToken, maxGlobal).Full? <==>
              |b.order| == maxGlobal && forall s :: s in b.entries ==> Active(b, s)
    ensures Create(b, sid, token, session, maxPerToken, maxGlobal).Full? ==>
              TokenVictims(b, token, maxPerToken) == []
  {
    var tv := TokenVictims(b, token, maxPerToken);
    TokenCap(b, token, maxPerToken);
    EvictionMakesRoom(b, tv);
    AllClosedLaws(b);
    if tv == [] {
      assert EvictAll(b, tv) == b;
      if AllClosed(b) == [] {
        assert forall s :: s in b.entries ==> s !in AllClosed(b) && Active(b, s);
      } else {
        assert Closed(b, AllClosed(b)[0]);
      }
    } else {
      assert Closed(b, tv[0]);
    }
  }
}
