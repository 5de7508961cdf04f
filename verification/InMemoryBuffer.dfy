/** core/stream_buffer.py: `InMemoryBuffer`. Each method is one section under the
    buffer's lock (plus the wake that follows it) and is proved against the
    value-level operation of the same name. */
module InMemoryStreams {
  import opened Lists
  import opened StreamBuffer

  datatype Reason = TtlExpired | PerTokenCap | GlobalCap | Manual

  datatype Audit = Audit(stream: StreamId, reason: Reason)

  datatype CreateOutcome = Stored | AlreadyThere | BufferFull

  datatype Snapshot = Snapshot(
    token: string, session: string, state: StreamState, chunks: seq<Chunk>, final: Option<Final>)

  /** What one turn of the subscribe loop reads under the lock. */
  datatype Polled = Gone | Batch(pending: seq<Chunk>, wake: EventId, terminalSet: bool)

  function Tagged(sids: seq<StreamId>, reason: Reason): (r: seq<Audit>)
    ensures |r| == |sids|
    ensures forall i :: 0 <= i < |sids| ==> r[i] == Audit(sids[i], reason)
  {
    seq(|sids|, i requires 0 <= i < |sids| => Audit(sids[i], reason))
  }

  function Poll(b: Buffer, sid: StreamId, last: int): Polled {
    if sid !in b.entries then Gone else
    var e := b.entries[sid];
    Batch(Since(e.chunks, last), e.newChunk, e.terminalSet)
  }

  class InMemoryBuffer {
    const maxPerToken: nat
    const maxGlobal: nat
    var entries: map<StreamId, Entry>
    var order: seq<StreamId>
    var signalled: set<EventId>
    var nextEvent: nat
    var audits: seq<Audit>

    ghost function Abs(): Buffer
      reads this
    {
      Buffer(entries, order, signalled, nextEvent)
    }

    ghost predicate Valid()
      reads this
    {
      && 0 < maxPerToken && 0 < maxGlobal
      && WellFormed(Abs())
      && |order| <= maxGlobal
    }

    constructor (maxPerToken: int, maxGlobal: int)
      ensures Valid() && Abs() == Buffer(map[], [], {}, 0) && audits == []
      ensures this.maxPerToken == (if maxPerToken < 1 then 1 else maxPerToken)
      ensures this.maxGlobal == (if maxGlobal < 1 then 1 else maxGlobal)
    {
      this.maxPerToken := if maxPerToken < 1 then 1 else maxPerToken;
      this.maxGlobal := if maxGlobal < 1 then 1 else maxGlobal;
      entries, order, signalled, nextEvent, audits := map[], [], {}, 0, [];
    }

    method EvictLocked(sid: StreamId)
      modifies this`entries, this`order, this`signalled
      ensures Abs() == Evict(old(Abs()), sid)
    {
      if sid in entries {
        var event := entries[sid].newChunk;
        entries := entries - {sid};
        order := Without(order, {sid});
        signalled := signalled + {event};
      }
    }

    method ScanOwned(token: string) returns (total: nat, closed: seq<StreamId>)
      requires Valid()
      ensures total == |Owned(Abs(), token)|
      ensures closed == OwnedClosed(Abs(), token)
    {
      ghost var b := Abs();
      total, closed := 0, [];
      for i := 0 to |order|
        invariant total == |OwnedIn(b, token, order[..i])|
        invariant closed == ClosedIn(b, OwnedIn(b, token, order[..i]))
      {
        var sid := order[i];
        TakeSnoc(order, i);
        ScanStep(b, token, order[..i], sid);
        assert sid in entries;
        if entries[sid].token == token {
          total := total + 1;
          if Terminal(entries[sid].state) {
            closed := closed + [sid];
          }
        }
      }
      assert order[..|order|] == order;
    }

    method OldestClosed() returns (found: Option<StreamId>)
      requires Valid()
      ensures found == if AllClosed(Abs()) == [] then None else Some(AllClosed(Abs())[0])
    {
      ghost var b := Abs();
      found := None;
      for i := 0 to |order|
        invariant ClosedIn(b, order[..i]) == []
      {
        var sid := order[i];
        TakeSnoc(order, i);
        ScanStep(b, "", order[..i], sid);
        assert sid in entries;
        if Terminal(entries[sid].state) {
          SplitAround(order, i);
          FirstClosed(b, order[..i], sid, order[i + 1..]);
          return Some(sid);
        }
      }
      assert order[..|order|] == order;
    }

    method ServeTokenCap(token: string) returns (victims: seq<StreamId>)
      requires Valid()
      modifies this`entries, this`order, this`signalled
      ensures victims == TokenVictims(old(Abs()), token, maxPerToken)
      ensures Abs() == EvictAll(old(Abs()), victims)
    {
      ghost var b := Abs();
      var total, closed := ScanOwned(token);
      ghost var all, owned := closed, total;
      victims := [];
      while total >= maxPerToken && closed != []
        invariant |victims| <= |all| && victims == all[..|victims|] && closed == all[|victims|..]
        invariant total == owned - |victims|
        invariant victims == [] || total >= maxPerToken - 1
        invariant Abs() == EvictAll(b, victims)
        decreases |closed|
      {
        var victim := closed[0];
        closed := closed[1..];
        EvictAllSnoc(b, victims, victim);
        victims := victims + [victim];
        EvictLocked(victim);
        total := total - 1;
      }
    }

    /** The global-cap loop: it stops as soon as there is room, and gives up
        (without having removed anything) when every entry is live. */
    method ServeGlobalCap() returns (victims: seq<StreamId>, full: bool)
      requires Valid()
      modifies this`entries, this`order, this`signalled
      ensures Valid()
      ensures old(|order|) < maxGlobal ==> victims == [] && !full && Abs() == old(Abs())
      ensures old(|order|) >= maxGlobal && AllClosed(old(Abs())) == [] ==> full && Abs() == old(Abs())
      ensures old(|order|) >= maxGlobal && AllClosed(old(Abs())) != [] ==>
                && !full
                && victims == [AllClosed(old(Abs()))[0]]
                && Abs() == Evict(old(Abs()), victims[0])
      ensures !full ==> |order| < maxGlobal
    {
      ghost var b := Abs();
      victims, full := [], false;
      while |order| >= maxGlobal
        invariant Valid()
        invariant victims == [] ==> Abs() == b
        invariant victims != [] ==>
                    && AllClosed(b) != [] && |b.order| >= maxGlobal && |order| < maxGlobal
                    && victims == [AllClosed(b)[0]] && Abs() == Evict(b, victims[0])
        decreases |order|
      {
        var oldest := OldestClosed();
        if oldest.None? {
          return victims, true;
        }
        AllClosedLaws(b);
        assert oldest.value in AllClosed(b);
        assert EvictAll(b, [oldest.value]) == Evict(b, oldest.value) by {
          assert [oldest.value][..0] == [];
        }
        EvictionMakesRoom(b, [oldest.value]);
        EvictWellFormed(b, oldest.value);
        EvictLocked(oldest.value);
        victims := victims + [oldest.value];
      }
    }

    method Store(sid: StreamId, token: string, session: string)
      requires WellFormed(Abs()) && sid !in entries && |order| < maxGlobal && 0 < maxPerToken
      modifies this`entries, this`order, this`nextEvent
      ensures Valid()
      ensures Abs() == Insert(old(Abs()), sid, token, session)
    {
      InsertWellFormed(Abs(), sid, token, session);
      entries := entries[sid := NewEntry(token, session, EventId(sid, nextEvent))];
      order := order + [sid];
      nextEvent := nextEvent + 1;
    }

    /** Both caps in order; `tokenVictims` and `globalVictims` are already gone. */
    method MakeRoom(sid: StreamId, token: string, ghost session: string)
      returns (tokenVictims: seq<StreamId>, globalVictims: seq<StreamId>, full: bool)
      requires Valid() && sid !in entries
      modifies this`entries, this`order, this`signalled
      ensures Valid() && sid !in entries
      ensures full ==> Abs() == old(Abs())
      ensures !full ==> |order| < maxGlobal
      ensures StreamBuffer.Create(old(Abs()), sid, token, session, maxPerToken, maxGlobal) ==
              if full then Full else Fresh(Insert(Abs(), sid, token, session), tokenVictims, globalVictims)
    {
      ghost var b := Abs();
      TokenCap(b, token, maxPerToken);
      tokenVictims := ServeTokenCap(token);
      EvictionMakesRoom(b, tokenVictims);
      EvictAllWellFormed(b, tokenVictims);
      EvictAllEntries(b, tokenVictims);
      globalVictims, full := ServeGlobalCap();
    }

    method Create(sid: StreamId, token: string, session: string) returns (outcome: CreateOutcome)
      requires Valid()
      modifies this
      ensures Valid()
      ensures match StreamBuffer.Create(old(Abs()), sid, token, session, maxPerToken, maxGlobal)
              case Reused => outcome == AlreadyThere && Abs() == old(Abs()) && audits == old(audits)
              case Full => outcome == BufferFull && Abs() == old(Abs()) && audits == old(audits)
              case Fresh(after, tokenVictims, globalVictims) =>
                && outcome == Stored
                && Abs() == after
                && audits == old(audits) + Tagged(tokenVictims, PerTokenCap) + Tagged(globalVictims, GlobalCap)
    {
      if sid in entries {
        return AlreadyThere;
      }
      var perToken, global, full := MakeRoom(sid, token, session);
      if full {
        return BufferFull;
      }
      Store(sid, token, session);
      audits := audits + Tagged(perToken, PerTokenCap) + Tagged(global, GlobalCap);
      return Stored;
    }

    method AppendChunk(sid: StreamId, num: nat, text: string)
      requires Valid()
      modifies this`entries, this`signalled, this`nextEvent
      ensures Valid()
      ensures var (after, woken) := Append(old(Abs()), sid, num, text);
              Abs() == Signal(after, woken)
    {
      if sid !in entries || Terminal(entries[sid].state) {
        return;
      }
      var e := entries[sid];
      var old_event := e.newChunk;
      entries := entries[sid := e.(chunks := e.chunks + [Chunk(num, text)], state := Streaming,
                                   newChunk := EventId(sid, nextEvent))];
      nextEvent := nextEvent + 1;
      signalled := signalled + {old_event};
    }

    method Close(sid: StreamId, state: StreamState, final: Final, now: int)
      requires Valid() && Terminal(state)
      modifies this`entries, this`signalled
      ensures Valid()
      ensures var (after, woken) := StreamBuffer.Close(old(Abs()), sid, state, final, now);
              Abs() == Signal(after, woken)
    {
      if sid in entries {
        var e := entries[sid];
        entries := entries[sid := e.(state := state, final := Some(final), closedAt := Some(now), terminalSet := true)];
        signalled := signalled + {e.newChunk};
      }
    }

    /** `fetch_since`: a copy of the entry, restricted to chunks past `after`. */
    method FetchSince(sid: StreamId, after: int) returns (r: Option<Snapshot>)
      requires Valid()
      ensures r.None? <==> sid !in entries
      ensures r.Some? ==>
                var e := entries[sid];
                r.value == Snapshot(e.token, e.session, e.state, Since(e.chunks, after), e.final)
    {
      if sid !in entries {
        return None;
      }
      var e := entries[sid];
      var chunks: seq<Chunk>;
      if after < 0 {
        chunks := e.chunks;
        SinceAll(e.chunks, after);
      } else {
        chunks := Newer(e.chunks, after);
      }
      return Some(Snapshot(e.token, e.session, e.state, chunks, e.final));
    }

    static method Newer(chunks: seq<Chunk>, last: int) returns (r: seq<Chunk>)
      ensures r == Since(chunks, last)
    {
      r := [];
      for i := 0 to |chunks|
        invariant r == Since(chunks[..i], last)
      {
        SinceStep(chunks, i, last);
        if chunks[i].num > last {
          r := r + [chunks[i]];
        }
      }
      assert chunks[..|chunks|] == chunks;
    }

    /** The locked section of the subscribe loop. */
    method PollOnce(sid: StreamId, last: int) returns (r: Polled)
      requires Valid()
      ensures r == Poll(Abs(), sid, last)
    {
      if sid !in entries {
        return Gone;
      }
      var pending := Newer(entries[sid].chunks, last);
      return Batch(pending, entries[sid].newChunk, entries[sid].terminalSet);
    }

    /** First half of the sweep: which entries have outlived the grace period. */
    method SweepCollect(cutoff: int) returns (due: seq<StreamId>)
      requires Valid()
      ensures Distinct(due)
      ensures forall sid :: sid in due <==> Expired(Abs(), sid, cutoff)
    {
      due := [];
      for i := 0 to |order|
        invariant Distinct(due)
        invariant forall sid :: sid in due <==> sid in order[..i] && Expired(Abs(), sid, cutoff)
      {
        var sid := order[i];
        assert order[..i + 1] == order[..i] + [sid];
        assert sid !in order[..i];
        if entries[sid].closedAt.Some? && entries[sid].closedAt.value < cutoff {
          due := due + [sid];
        }
      }
      assert order[..|order|] == order;
    }

    /** `_do_evict`: re-checks that the entry is still there before auditing. */
    method DoEvict(sid: StreamId, reason: Reason)
      requires Valid()
      modifies this`entries, this`order, this`signalled, this`audits
      ensures Valid()
      ensures Abs() == Evict(old(Abs()), sid)
      ensures audits == old(audits) + (if sid in old(entries) then [Audit(sid, reason)] else [])
    {
      if sid !in entries {
        return;
      }
      EvictWellFormed(Abs(), sid);
      EvictionMakesRoom(Abs(), [sid]);
      assert EvictAll(Abs(), [sid]) == Evict(Abs(), sid) by {
        assert [sid][..0] == [];
      }
      EvictLocked(sid);
      audits := audits + [Audit(sid, reason)];
    }
  }
}
