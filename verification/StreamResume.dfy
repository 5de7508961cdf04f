/** handlers/chat_stream.py: the resume handler. It replays a snapshot, follows the
    live tail, and closes with the terminal frame; here with what it may claim
    about the reply the original request streamed. */
module StreamResume {
  import opened Lists
  import opened StreamBuffer
  import opened InMemoryStreams
  import P = StreamProtocol

  datatype Frame =
    | ChunkFrame(num: int, text: string)
    | Done(num: int, remaining: nat, dailyQuota: nat, incomplete: bool)
    | ErrorFrame(code: string, num: int)

  /** `StreamRegistry.fetch`: a missing stream and a foreign one look the same. */
  function Fetch(b: Buffer, sid: StreamId, token: string): Option<Snapshot> {
    if sid !in b.entries || b.entries[sid].token != token then None else
    var e := b.entries[sid];
    Some(Snapshot(e.token, e.session, e.state, Since(e.chunks, -1), e.final))
  }

  function ChunkFrames(chunks: seq<Chunk>): (frames: seq<Frame>)
    ensures |frames| == |chunks|
    ensures forall i :: 0 <= i < |chunks| ==> frames[i] == ChunkFrame(chunks[i].num, chunks[i].text)
  {
    seq(|chunks|, i requires 0 <= i < |chunks| => ChunkFrame(chunks[i].num, chunks[i].text))
  }

  /** The closing frame for a snapshot, numbered `num`. The last case is the one the
      source calls unreachable. */
  function ClosingFrame(s: Snapshot, num: int): Frame {
    match s.state
    case ClosedOk => DoneFrom(s.final, num, false)
    case ClosedIncomplete => DoneFrom(s.final, num, true)
    case ClosedFailed =>
      ErrorFrame(if s.final.Some? && s.final.value.Error? then s.final.value.code else "internal_error", num)
    case _ => ErrorFrame("internal_error", num)
  }

  function DoneFrom(final: Option<Final>, num: int, incomplete: bool): Frame {
    if final.Some? && final.value.Delivered?
    then Done(num, final.value.remaining, final.value.dailyQuota, incomplete)
    else Done(num, 0, 0, incomplete)
  }

  function Max(a: int, b: int): int { if a > b then a else b }

  /** Cursor bookkeeping of the write loops: `last_replayed` after `sent`. */
  function Replayed(last: int, sent: seq<Chunk>): int {
    if sent == [] then last else Max(Replayed(last, sent[..|sent| - 1]), sent[|sent| - 1].num)
  }

  /** Everything the handler writes, given what it reads from the buffer. */
  function Frames(after: int, snapshot: Snapshot, tail: seq<Chunk>, closing: Option<Snapshot>): seq<Frame> {
    var replay := Since(snapshot.chunks, after);
    ChunkFrames(replay) + AfterReplay(Replayed(after, replay), snapshot, tail, closing)
  }

  function AfterReplay(last: int, snapshot: Snapshot, tail: seq<Chunk>, closing: Option<Snapshot>): seq<Frame> {
    if Terminal(snapshot.state) then [ClosingFrame(snapshot, last + 1)]
    else ChunkFrames(tail) + AfterTail(Replayed(last, tail), closing)
  }

  function AfterTail(last: int, closing: Option<Snapshot>): seq<Frame> {
    if closing.None? then [ErrorFrame("stream_not_found", last + 1)] else
    var late := Since(closing.value.chunks, last);
    ChunkFrames(late) + [ClosingFrame(closing.value, Replayed(last, late) + 1)]
  }

  lemma ChunkFramesSnoc(sent: seq<Chunk>, c: Chunk)
    ensures ChunkFrames(sent + [c]) == ChunkFrames(sent) + [ChunkFrame(c.num, c.text)]
  {
  }

  lemma FramesSoFar(chunks: seq<Chunk>, i: nat, after: int)
    requires i <= |chunks|
    ensures ChunkFrames(Since(chunks[..i], after)) <= ChunkFrames(Since(chunks, after))
  {
    SincePrefix(chunks[..i], chunks[i..], after);
    assert chunks == chunks[..i] + chunks[i..];
  }

  lemma ReplayedSnoc(last: int, sent: seq<Chunk>, c: Chunk)
    ensures Replayed(last, sent + [c]) == Max(Replayed(last, sent), c.num)
  {
    assert (sent + [c])[..|sent|] == sent;
  }

  lemma WroteOne(before: seq<Frame>, sent: seq<Chunk>, c: Chunk)
    ensures before + ChunkFrames(sent) + [ChunkFrame(c.num, c.text)] == before + ChunkFrames(sent + [c])
  {
    ChunkFramesSnoc(sent, c);
    Associates(before, ChunkFrames(sent), [ChunkFrame(c.num, c.text)]);
  }

  lemma PrefixUnder(before: seq<Frame>, a: seq<Frame>, b: seq<Frame>)
    requires a <= b
    ensures before + a <= before + b
  {
  }

  lemma Joined(before: seq<Frame>, a: seq<Frame>, b: seq<Frame>)
    ensures before + a + b == before + (a + b)
    ensures before + a <= before + (a + b)
  {
  }

  /** The SSE response. `budget` is how many more frames the peer will take. */
  class Connection {
    var frames: seq<Frame>
    var budget: nat

    /** Of `want`, everything was written, or the peer left part way. */
    ghost predicate Wrote(before: seq<Frame>, want: seq<Frame>)
      reads this
    {
      frames <= before + want && (frames == before + want || budget == 0)
    }

    constructor (budget: nat)
      ensures this.budget == budget && frames == []
    {
      this.budget, frames := budget, [];
    }

    method Write(f: Frame) returns (ok: bool)
      modifies this
      ensures ok <==> old(budget) > 0
      ensures ok ==> frames == old(frames) + [f] && budget == old(budget) - 1
      ensures !ok ==> frames == old(frames) && budget == 0
    {
      ok := budget > 0;
      if ok {
        frames, budget := frames + [f], budget - 1;
      }
    }

    /** One chunk of a write loop, with the cursor update that follows it. */
    method WriteChunk(c: Chunk, start: int) returns (ok: bool, last: int)
      modifies this
      ensures ok ==> frames == old(frames) + [ChunkFrame(c.num, c.text)] && last == Max(start, c.num)
      ensures !ok ==> frames == old(frames) && budget == 0
    {
      last := start;
      ok := Write(ChunkFrame(c.num, c.text));
      if ok && c.num > last {
        last := c.num;
      }
    }

    /** Writes the chunks past `after`, advancing `last_replayed`; stops at the
        first frame the peer does not take. */
    method WriteSince(chunks: seq<Chunk>, after: int, start: int) returns (ok: bool, last: int)
      modifies this
      ensures Wrote(old(frames), ChunkFrames(Since(chunks, after)))
      ensures ok ==> frames == old(frames) + ChunkFrames(Since(chunks, after))
      ensures ok ==> last == Replayed(start, Since(chunks, after))
      ensures !ok ==> budget == 0
    {
      last, ok := start, true;
      ghost var before := frames;
      ghost var sent := [];
      assert before + ChunkFrames([]) == before;
      for i := 0 to |chunks|
        invariant sent == Since(chunks[..i], after)
        invariant frames == before + ChunkFrames(sent)
        invariant last == Replayed(start, sent)
      {
        SinceStep(chunks, i, after);
        if chunks[i].num > after {
          ok, last := WriteChunk(chunks[i], last);
          if !ok {
            FramesSoFar(chunks, i, after);
            PrefixUnder(before, ChunkFrames(sent), ChunkFrames(Since(chunks, after)));
            return;
          }
          WroteOne(before, sent, chunks[i]);
          ReplayedSnoc(start, sent, chunks[i]);
          sent := sent + [chunks[i]];
        }
      }
      assert chunks[..|chunks|] == chunks;
    }

    /** Writes the live tail, one frame per yielded chunk. */
    method WriteTail(tail: seq<Chunk>, start: int) returns (ok: bool, last: int)
      modifies this
      ensures Wrote(old(frames), ChunkFrames(tail))
      ensures ok ==> frames == old(frames) + ChunkFrames(tail) && last == Replayed(start, tail)
      ensures !ok ==> budget == 0
    {
      last, ok := start, true;
      for i := 0 to |tail|
        invariant frames == old(frames) + ChunkFrames(tail)[..i]
        invariant last == Replayed(start, tail[..i])
      {
        ok, last := WriteChunk(tail[i], last);
        if !ok {
          return;
        }
        assert tail[..i + 1] == tail[..i] + [tail[i]];
        ReplayedSnoc(start, tail[..i], tail[i]);
      }
      assert tail[..|tail|] == tail;
    }

    method Finish(last: int, closing: Option<Snapshot>)
      modifies this
      ensures Wrote(old(frames), AfterTail(last, closing))
    {
      if closing.None? {
        var _ := Write(ErrorFrame("stream_not_found", last + 1));
      } else {
        ghost var late := Since(closing.value.chunks, last);
        Joined(frames, ChunkFrames(late), [ClosingFrame(closing.value, Replayed(last, late) + 1)]);
        var ok, last2 := WriteSince(closing.value.chunks, last, last);
        if ok {
          ok := Write(ClosingFrame(closing.value, last2 + 1));
        }
      }
    }

    method FollowTail(last: int, snapshot: Snapshot, tail: seq<Chunk>, closing: Option<Snapshot>)
      modifies this
      ensures Wrote(old(frames), AfterReplay(last, snapshot, tail, closing))
    {
      if Terminal(snapshot.state) {
        var _ := Write(ClosingFrame(snapshot, last + 1));
      } else {
        Joined(frames, ChunkFrames(tail), AfterTail(Replayed(last, tail), closing));
        var ok, last2 := WriteTail(tail, last);
        if ok {
          Finish(last2, closing);
        }
      }
    }

    /** The handler's body. `snapshot` is the first fetch, `tail` what the
        subscription yields before it ends, `closing` the second fetch. */
    method Resume(after: int, snapshot: Snapshot, tail: seq<Chunk>, closing: Option<Snapshot>)
      modifies this
      ensures Wrote(old(frames), Frames(Clamp(after), snapshot, tail, closing))
    {
      ghost var replay := Since(snapshot.chunks, Clamp(after));
      Joined(frames, ChunkFrames(replay), AfterReplay(Replayed(Clamp(after), replay), snapshot, tail, closing));
      var ok, last := WriteSince(snapshot.chunks, Clamp(after), Clamp(after));
      if ok {
        FollowTail(last, snapshot, tail, closing);
      }
    }
  }

  /** `after_seq` below the -1 sentinel is read as -1. */
  function Clamp(after: int): (from: int)
    ensures from >= -1 && (after >= -1 ==> from == after)
  {
    if after < -1 then -1 else after
  }

  // ----- resume equals original -----

  lemma {:induction false} ReplayedIsCursor(after: int, sent: seq<Chunk>)
    requires Increasing(sent) && forall c :: c in sent ==> c.num > after
    ensures Replayed(after, sent) == Cursor(after, sent)
  {
    if sent != [] {
      var n := |sent| - 1;
      ReplayedIsCursor(after, sent[..n]);
      assert sent[n] in sent;
    }
  }

  lemma ReplayedSince(chunks: seq<Chunk>, after: int)
    requires Increasing(chunks)
    ensures Replayed(after, Since(chunks, after)) == Cursor(after, Since(chunks, after))
  {
    SinceIncreasing(chunks, after);
    SinceMember(chunks, after);
    ReplayedIsCursor(after, Since(chunks, after));
  }

  lemma ReplayIsPrefix(early: seq<Chunk>, all: seq<Chunk>, after: int)
    requires early <= all
    ensures Since(early, after) <= Since(all, after)
  {
    assert all == early + all[|early|..];
    SincePrefix(early, all[|early|..], after);
  }

  /** A replay of an earlier snapshot followed by the subscription that starts where
      it ended is, chunk for chunk, everything past the client's cursor. */
  lemma ReplayThenTail(early: seq<Chunk>, all: seq<Chunk>, after: int)
    requires early <= all && Increasing(early) && Increasing(all)
    ensures var replay := Since(early, after);
            var last := Replayed(after, replay);
            && replay + Since(all, last) == Since(all, after)
            && Replayed(last, Since(all, last)) == Cursor(after, Since(all, after))
  {
    ReplayIsPrefix(early, all, after);
    ReplayedSince(early, after);
    SinceRest(all, after, Since(early, after));
    ReplayedSince(all, Cursor(after, Since(early, after)));
  }

  lemma NothingLate(all: seq<Chunk>, after: int)
    requires Increasing(all)
    ensures Since(all, Cursor(after, Since(all, after))) == []
  {
    var owed := Since(all, after);
    SinceFromCursor(all, after, |owed|);
    assert owed[..|owed|] == owed;
  }

  function WholeReply(all: seq<Chunk>, after: int, end: Snapshot): seq<Frame> {
    ChunkFrames(Since(all, after)) + [ClosingFrame(end, Cursor(after, Since(all, after)) + 1)]
  }

  /** Attached after the end: one snapshot says it all. */
  lemma FramesOfEnded(after: int, snapshot: Snapshot, tail: seq<Chunk>, closing: Option<Snapshot>)
    requires Increasing(snapshot.chunks) && Terminal(snapshot.state)
    ensures Frames(after, snapshot, tail, closing) == WholeReply(snapshot.chunks, after, snapshot)
  {
    ReplayedSince(snapshot.chunks, after);
  }

  /** Attached while live, read to the end. */
  lemma FramesOfLive(after: int, snapshot: Snapshot, tail: seq<Chunk>, closing: Snapshot)
    requires snapshot.chunks <= closing.chunks && Increasing(closing.chunks)
    requires !Terminal(snapshot.state)
    requires tail == Since(closing.chunks, Replayed(after, Since(snapshot.chunks, after)))
    ensures Frames(after, snapshot, tail, Some(closing)) == WholeReply(closing.chunks, after, closing)
  {
    var last := ClosingFrame(closing, Cursor(after, Since(closing.chunks, after)) + 1);
    FramesOpened(after, snapshot, tail, closing);
    assert Since(snapshot.chunks, after) + tail == Since(closing.chunks, after) by {
      TailCompletes(snapshot.chunks, closing.chunks, after);
    }
    FramesClosed(Frames(after, snapshot, tail, Some(closing)), Since(snapshot.chunks, after), tail,
                 Since(closing.chunks, after), last);
  }

  lemma FramesClosed(frames: seq<Frame>, replay: seq<Chunk>, tail: seq<Chunk>, owed: seq<Chunk>, last: Frame)
    requires frames == ChunkFrames(replay) + (ChunkFrames(tail) + [last]) && replay + tail == owed
    ensures frames == ChunkFrames(owed) + [last]
  {
    ChunkFramesJoin(replay, tail, [last]);
  }

  lemma FramesOpened(after: int, snapshot: Snapshot, tail: seq<Chunk>, closing: Snapshot)
    requires snapshot.chunks <= closing.chunks && Increasing(closing.chunks)
    requires !Terminal(snapshot.state)
    requires tail == Since(closing.chunks, Replayed(after, Since(snapshot.chunks, after)))
    ensures Frames(after, snapshot, tail, Some(closing)) ==
            ChunkFrames(Since(snapshot.chunks, after))
              + (ChunkFrames(tail) + [ClosingFrame(closing, Cursor(after, Since(closing.chunks, after)) + 1)])
  {
    TailCompletes(snapshot.chunks, closing.chunks, after);
    FramesUnfold(after, snapshot, tail, closing);
    NothingAfterCursor(closing, after);
  }

  lemma TailCompletes(early: seq<Chunk>, all: seq<Chunk>, after: int)
    requires early <= all && Increasing(all)
    ensures var replay := Since(early, after);
            var tail := Since(all, Replayed(after, replay));
            && replay + tail == Since(all, after)
            && Replayed(Replayed(after, replay), tail) == Cursor(after, Since(all, after))
  {
    assert Increasing(early);
    ReplayThenTail(early, all, after);
  }

  lemma FramesUnfold(after: int, snapshot: Snapshot, tail: seq<Chunk>, closing: Snapshot)
    requires !Terminal(snapshot.state)
    ensures var replay := Since(snapshot.chunks, after);
            Frames(after, snapshot, tail, Some(closing)) ==
            ChunkFrames(replay)
              + (ChunkFrames(tail) + AfterTail(Replayed(Replayed(after, replay), tail), Some(closing)))
  {
  }

  lemma NothingAfterCursor(closing: Snapshot, after: int)
    requires Increasing(closing.chunks)
    ensures var cursor := Cursor(after, Since(closing.chunks, after));
            AfterTail(cursor, Some(closing)) == [ClosingFrame(closing, cursor + 1)]
  {
    var cursor := Cursor(after, Since(closing.chunks, after));
    NothingLate(closing.chunks, after);
    NothingToAdd([ClosingFrame(closing, cursor + 1)]);
  }

  lemma NothingToAdd(frames: seq<Frame>)
    ensures ChunkFrames([]) + frames == frames
  {
  }

  lemma ChunkFramesJoin(a: seq<Chunk>, b: seq<Chunk>, rest: seq<Frame>)
    ensures ChunkFrames(a) + (ChunkFrames(b) + rest) == ChunkFrames(a + b) + rest
  {
    assert ChunkFrames(a + b) == ChunkFrames(a) + ChunkFrames(b);
  }

  lemma FetchWhole(w: P.World, sid: StreamId)
    requires P.StreamOk(w, sid) && sid in w.buf.entries
    ensures var e := w.buf.entries[sid];
            Fetch(w.buf, sid, e.token) == Some(Snapshot(e.token, e.session, e.state, P.Hist(w, sid), e.final))
    ensures Increasing(P.Hist(w, sid))
  {
    SinceAll(w.buf.entries[sid].chunks, -1);
  }

  /** Over every run: a client that attaches to a live stream (snapshot after
      `before`), follows it to the end of its subscription (`mid`), and reads the
      closing snapshot (`late`) receives exactly the chunks past its cursor and
      the closing frame of a terminal state: the "should be unreachable" answer
      is never given. If the entry was evicted meanwhile it gets `stream_not_found`. */
  lemma ResumeEqualsOriginal(caps: P.Caps, before: seq<P.Action>, mid: seq<P.Action>, late: seq<P.Action>,
                             sid: StreamId, i: nat, after: int)
    requires 0 < caps.maxPerToken && 0 < caps.maxGlobal && after >= -1
    requires Active(P.Run(caps, before).buf, sid)
    requires i < |P.Run(caps, before + mid).subs|
    requires var s := P.Run(caps, before + mid).subs[i];
             && s.stream == sid && s.known && s.phase.Finished?
             && s.after == Replayed(after, Since(P.Hist(P.Run(caps, before), sid), after))
    ensures var w, w1, w2 := P.Run(caps, before), P.Run(caps, before + mid), P.Run(caps, before + mid + late);
            var token := w.buf.entries[sid].token;
            var snapshot := Fetch(w.buf, sid, token).value;
            var frames := closing => Frames(after, snapshot, w1.subs[i].got, closing);
            && (sid in w2.buf.entries ==>
                  var end := Fetch(w2.buf, sid, token);
                  end.Some? && Terminal(end.value.state) && frames(end) == WholeReply(P.Hist(w2, sid), after, end.value))
            && (sid !in w2.buf.entries ==> Fetch(w2.buf, sid, token) == None)
  {
    var w, w1, w2 := P.Run(caps, before), P.Run(caps, before + mid), P.Run(caps, before + mid + late);
    P.RunInvariant(caps, before);
    P.RunInvariant(caps, before + mid);
    P.RunInvariant(caps, before + mid + late);
    P.HistoryOnlyGrows(caps, before, mid, sid);
    P.HistoryOnlyGrows(caps, before + mid, late, sid);
    var token, session := w.buf.entries[sid].token, w.buf.entries[sid].session;
    assert P.StreamOk(w, sid);
    P.BelongsForGood(caps, before, mid, sid, token, session);
    P.BelongsForGood(caps, before + mid, late, sid, token, session);
    var s := w1.subs[i];
    assert P.SubOk(w1, s);
    FetchWhole(w, sid);
    if sid in w2.buf.entries {
      FetchWhole(w2, sid);
      FramesOfLive(after, Fetch(w.buf, sid, token).value, s.got, Fetch(w2.buf, sid, token).value);
    }
  }

  lemma CutShort(after: int, snapshot: Snapshot, tail: seq<Chunk>)
    requires !Terminal(snapshot.state)
    ensures var replay := Since(snapshot.chunks, after);
            Frames(after, snapshot, tail, None) ==
            ChunkFrames(replay + tail)
              + [ErrorFrame("stream_not_found", Replayed(Replayed(after, replay), tail) + 1)]
  {
    var replay := Since(snapshot.chunks, after);
    ChunkFramesJoin(replay, tail, [ErrorFrame("stream_not_found", Replayed(Replayed(after, replay), tail) + 1)]);
  }

  lemma PrefixReplayed(last: int, owed: seq<Chunk>, tail: seq<Chunk>)
    requires Increasing(owed) && (forall c :: c in owed ==> c.num > last) && tail <= owed
    ensures Replayed(last, tail) == Cursor(last, tail)
  {
    forall c | c in tail
      ensures c.num > last
    {
      var i :| 0 <= i < |tail| && tail[i] == c;
      assert owed[i] == c;
    }
    ReplayedIsCursor(last, tail);
  }

  lemma PrefixJoin(a: seq<Chunk>, tail: seq<Chunk>, rest: seq<Chunk>, after: int)
    requires tail <= rest
    ensures a + tail <= a + rest && Cursor(Cursor(after, a), tail) == Cursor(after, a + tail)
  {
  }

  lemma TailCursor(early: seq<Chunk>, all: seq<Chunk>, after: int, tail: seq<Chunk>)
    requires early <= all && Increasing(all)
    requires tail <= Since(all, Replayed(after, Since(early, after)))
    ensures var received := Since(early, after) + tail;
            && received <= Since(all, after)
            && Replayed(Replayed(after, Since(early, after)), tail) == Cursor(after, received)
  {
    var replay := Since(early, after);
    var last := Replayed(after, replay);
    TailCompletes(early, all, after);
    SinceIncreasing(all, last);
    SinceMember(all, last);
    PrefixReplayed(last, Since(all, last), tail);
    assert last == Cursor(after, replay) by {
      assert Increasing(early);
      ReplayedSince(early, after);
    }
    PrefixJoin(replay, tail, Since(all, last), after);
  }

  /** What `snapshot` and `tail` brought the client is a prefix of what `all` holds past its
      cursor, and the frame that follows says, under the next number, that the stream is
      not there. */
  ghost predicate ToldMissing(after: int, snapshot: Snapshot, tail: seq<Chunk>, all: seq<Chunk>) {
    var received := Since(snapshot.chunks, after) + tail;
    && received <= Since(all, after)
    && Frames(after, snapshot, tail, None) ==
       ChunkFrames(received) + [ErrorFrame("stream_not_found", Cursor(after, received) + 1)]
  }

  lemma EvictedFrames(after: int, snapshot: Snapshot, all: seq<Chunk>, tail: seq<Chunk>)
    requires !Terminal(snapshot.state) && snapshot.chunks <= all && Increasing(all)
    requires tail <= Since(all, Replayed(after, Since(snapshot.chunks, after)))
    ensures ToldMissing(after, snapshot, tail, all)
  {
    TailCursor(snapshot.chunks, all, after, tail);
    CutShort(after, snapshot, tail);
  }

  lemma SubFine(caps: P.Caps, actions: seq<P.Action>, i: nat)
    requires 0 < caps.maxPerToken && 0 < caps.maxGlobal && i < |P.Run(caps, actions).subs|
    ensures var w := P.Run(caps, actions);
            P.SubOk(w, w.subs[i]) && P.StreamOk(w, w.subs[i].stream)
  {
    P.RunInvariant(caps, actions);
  }

  lemma StreamFine(caps: P.Caps, actions: seq<P.Action>, sid: StreamId)
    requires 0 < caps.maxPerToken && 0 < caps.maxGlobal
    ensures P.StreamOk(P.Run(caps, actions), sid)
  {
    P.RunInvariant(caps, actions);
  }

  lemma AttachedStays(caps: P.Caps, before: seq<P.Action>, mid: seq<P.Action>, sid: StreamId)
    requires 0 < caps.maxPerToken && 0 < caps.maxGlobal && Active(P.Run(caps, before).buf, sid)
    ensures P.StreamOk(P.Run(caps, before), sid) && sid in P.Run(caps, before + mid).hist
    ensures P.Hist(P.Run(caps, before), sid) <= P.Hist(P.Run(caps, before + mid), sid)
  {
    StreamFine(caps, before, sid);
    P.HistoryOnlyGrows(caps, before, mid, sid);
  }

  lemma SnapshotIsHist(caps: P.Caps, actions: seq<P.Action>, sid: StreamId, token: string, snapshot: Snapshot)
    requires 0 < caps.maxPerToken && 0 < caps.maxGlobal
    requires Fetch(P.Run(caps, actions).buf, sid, token) == Some(snapshot)
    ensures snapshot.chunks == P.Hist(P.Run(caps, actions), sid)
    ensures !Terminal(snapshot.state) ==> Active(P.Run(caps, actions).buf, sid)
  {
    StreamFine(caps, actions, sid);
    FetchWhole(P.Run(caps, actions), sid);
  }

  lemma SnapshotGrew(caps: P.Caps, before: seq<P.Action>, mid: seq<P.Action>, sid: StreamId, token: string,
                     snapshot: Snapshot)
    returns (all: seq<Chunk>)
    requires 0 < caps.maxPerToken && 0 < caps.maxGlobal
    requires Fetch(P.Run(caps, before).buf, sid, token) == Some(snapshot) && !Terminal(snapshot.state)
    ensures all == P.Hist(P.Run(caps, before + mid), sid) && sid in P.Run(caps, before + mid).hist
    ensures snapshot.chunks <= all
  {
    SnapshotIsHist(caps, before, sid, token, snapshot);
    AttachedStays(caps, before, mid, sid);
    all := P.Hist(P.Run(caps, before + mid), sid);
  }

  lemma SubGot(caps: P.Caps, actions: seq<P.Action>, i: nat, sid: StreamId, last: int)
    requires 0 < caps.maxPerToken && 0 < caps.maxGlobal && i < |P.Run(caps, actions).subs|
    requires P.Run(caps, actions).subs[i].stream == sid && P.Run(caps, actions).subs[i].after == last
    requires sid in P.Run(caps, actions).hist
    ensures P.Run(caps, actions).subs[i].got <= Since(P.Hist(P.Run(caps, actions), sid), last)
    ensures Increasing(P.Hist(P.Run(caps, actions), sid))
  {
    SubFine(caps, actions, i);
  }

  /** The same attachment if the entry was evicted before the closing read: the client,
      which fetched `snapshot` from a live stream and followed it, has received a prefix
      of what was past its cursor, and is told with the next number that the stream is
      not there. */
  lemma ResumeOfEvicted(caps: P.Caps, before: seq<P.Action>, mid: seq<P.Action>, sid: StreamId, token: string,
                        snapshot: Snapshot, i: nat, after: int)
    requires 0 < caps.maxPerToken && 0 < caps.maxGlobal && after >= -1
    requires Fetch(P.Run(caps, before).buf, sid, token) == Some(snapshot) && !Terminal(snapshot.state)
    requires i < |P.Run(caps, before + mid).subs| && P.Run(caps, before + mid).subs[i].stream == sid
    requires P.Run(caps, before + mid).subs[i].after == Replayed(after, Since(snapshot.chunks, after))
    ensures ToldMissing(after, snapshot, P.Run(caps, before + mid).subs[i].got, P.Hist(P.Run(caps, before + mid), sid))
  {
    var all := SnapshotGrew(caps, before, mid, sid, token, snapshot);
    SubGot(caps, before + mid, i, sid, Replayed(after, Since(snapshot.chunks, after)));
    EvictedFrames(after, snapshot, all, P.Run(caps, before + mid).subs[i].got);
  }

  /** In every run that follows the creation of a stream for `token`: any other token is
      told exactly what it would be told of a stream that never was, and `token` itself
      reads the whole stream for as long as the entry is there. */
  lemma OnlyTheOwnerReads(caps: P.Caps, before: seq<P.Action>, more: seq<P.Action>, sid: StreamId, token: string,
                          session: string, other: string, unknown: StreamId)
    requires 0 < caps.maxPerToken && 0 < caps.maxGlobal
    requires sid !in P.Run(caps, before).hist
    requires sid in P.Run(caps, before + [P.CreateStream(sid, token, session)]).hist
    ensures var w := P.Run(caps, before + [P.CreateStream(sid, token, session)] + more);
            && (other != token ==> Fetch(w.buf, sid, other) == None)
            && (other != token && unknown !in w.hist ==> Fetch(w.buf, sid, other) == Fetch(w.buf, unknown, other))
            && (Fetch(w.buf, sid, token).Some? <==> sid in w.buf.entries)
            && (sid in w.buf.entries ==>
                  Fetch(w.buf, sid, token) ==
                  Some(Snapshot(token, session, w.buf.entries[sid].state, P.Hist(w, sid), w.buf.entries[sid].final)))
  {
    var actions := before + [P.CreateStream(sid, token, session)] + more;
    var w := P.Run(caps, actions);
    P.CreatorKeepsIt(caps, before, more, sid, token, session);
    P.RunInvariant(caps, actions);
    assert P.StreamOk(w, unknown);
    if sid in w.buf.entries {
      FetchWhole(w, sid);
    }
  }

  /** What the client had up to its cursor, then what it is sent, is the reply. */
  lemma {:induction false} NothingLostAtTheCursor(all: seq<Chunk>, k: int)
    requires Increasing(all)
    ensures Filter((c: Chunk) => c.num <= k, all) + Since(all, k) == all
  {
    if all != [] {
      var n := |all| - 1;
      NothingLostAtTheCursor(all[..n], k);
      if all[n].num <= k {
        SinceNone(all, k);
        SinceNone(all[..n], k);
      }
      assert all == all[..n] + [all[n]];
    }
  }

  /** Chunks numbered from 0 without gaps, as `StreamRegistry.append` does. */
  ghost predicate Numbered(chunks: seq<Chunk>) {
    forall i :: 0 <= i < |chunks| ==> chunks[i].num == i
  }

  /** The resumed closing frame carries the same number as the original one, which
      is the chunk count, exactly for honest cursors. */
  lemma ClosingNumberMatches(all: seq<Chunk>, after: int)
    requires Numbered(all) && after >= -1
    ensures Cursor(after, Since(all, after)) + 1 == |all| <==> after < |all|
  {
    var owed := Since(all, after);
    SinceMember(all, after);
    if owed == [] {
      assert all == [] || all[|all| - 1] !in owed;
    } else {
      assert owed[|owed| - 1] in owed;
      SinceLast(all, after);
    }
  }

  lemma SinceLast(all: seq<Chunk>, after: int)
    requires Increasing(all) && Since(all, after) != []
    ensures Since(all, after)[|Since(all, after)| - 1] == all[|all| - 1]
  {
    if all[|all| - 1].num <= after {
      SinceNone(all, after);
    }
  }
}
