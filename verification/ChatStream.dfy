/** handlers/chat_stream.py: the POST handler, from opening the stream to whichever
    terminal branch ends it. The request runs alone here; how its appends and its
    close interleave with everybody else is StreamProtocol's subject. */
module ChatStream {
  import opened Lists
  import opened StreamBuffer
  import opened InMemoryStreams
  import opened StreamRegistry
  import opened StreamResume
  import R = RateLimit
  import opened Quota

  /** How the provider's stream stops: end of stream, `RuntimeError("llm_timeout")`,
      `RuntimeError("empty_reply")`, any other RuntimeError, any other exception,
      cancellation. */
  datatype Ending = EndOfStream | TimedOut | EmptyReply | CallFailed | OtherError | Cancel

  datatype Pull = Piece(text: string) | Heartbeat | Stop(ending: Ending)

  datatype Handshake = Opened | PeerDropped | HandshakeFailed | HandshakeCancelled

  datatype Verdict = Complete | Incomplete | Failed(code: string)

  /** How a request ends: refused, cancelled while opening, its reservation raising, over
      quota, its handshake aborted, or run. */
  datatype Exit = Busy | OpenCancelled | ReserveRaised | OverQuota | Aborted | Ran(verdict: Verdict)

  function Pieces(script: seq<Pull>): seq<string> {
    if script == [] || script[0].Stop? then []
    else if script[0].Piece? then [script[0].text] + Pieces(script[1..])
    else Pieces(script[1..])
  }

  function EndingOf(script: seq<Pull>): Ending {
    if script == [] then EndOfStream
    else if script[0].Stop? then script[0].ending
    else EndingOf(script[1..])
  }

  function Join(texts: seq<string>): string {
    if texts == [] then "" else texts[0] + Join(texts[1..])
  }

  lemma {:induction false} JoinEmpty(texts: seq<string>)
    ensures Join(texts) == "" <==> forall t :: t in texts ==> t == ""
  {
    if texts != [] {
      JoinEmpty(texts[1..]);
      assert texts[0] in texts && forall t :: t in texts <==> t == texts[0] || t in texts[1..];
      assert |Join(texts)| == |texts[0]| + |Join(texts[1..])|;
    }
  }

  /** The outcome table. A reply is complete if the provider finished and said something,
      incomplete if anything else stopped it after its first chunk; otherwise the
      request fails, each code belonging to its own endings. */
  ghost predicate Outcome(ending: Ending, texts: seq<string>, v: Verdict) {
    && (v.Complete? <==> ending.EndOfStream? && exists t :: t in texts && t != "")
    && (v.Incomplete? <==>
          texts != [] && (ending.TimedOut? || ending.CallFailed? || ending.OtherError? || ending.Cancel?))
    && (v == Failed("empty_reply") <==>
          ending.EmptyReply? || (ending.EndOfStream? && forall t :: t in texts ==> t == ""))
    && (v == Failed("llm_timeout") <==> ending.TimedOut? && texts == [])
    && (v == Failed("llm_call_failed") <==> (ending.CallFailed? || ending.OtherError?) && texts == [])
    && (v == Failed("cancelled") <==> ending.Cancel? && texts == [])
  }

  /** The table leaves no ending out and none open. */
  lemma OneOutcome(ending: Ending, texts: seq<string>)
    ensures exists v :: Outcome(ending, texts, v)
    ensures forall v, w :: Outcome(ending, texts, v) && Outcome(ending, texts, w) ==> v == w
  {
    var some := exists t :: t in texts && t != "";
    var v := match ending
             case EndOfStream => if some then Complete else Failed("empty_reply")
             case EmptyReply => Failed("empty_reply")
             case TimedOut => if texts == [] then Failed("llm_timeout") else Incomplete
             case Cancel => if texts == [] then Failed("cancelled") else Incomplete
             case _ => if texts == [] then Failed("llm_call_failed") else Incomplete;
    assert Outcome(ending, texts, v);
  }

  /** The pieces are those before the first stop, in order; the ending is that stop. */
  lemma {:induction false} PiecesUpToStop(script: seq<Pull>, k: nat)
    requires k <= |script| && forall i :: 0 <= i < k ==> !script[i].Stop?
    requires k < |script| ==> script[k].Stop?
    ensures EndingOf(script) == if k < |script| then script[k].ending else EndOfStream
    ensures var sent := Filter((p: Pull) => p.Piece?, script[..k]);
            |Pieces(script)| == |sent| && forall i :: 0 <= i < |sent| ==> sent[i] == Piece(Pieces(script)[i])
  {
    if k > 0 {
      var rest := script[1..];
      PiecesUpToStop(rest, k - 1);
      assert script[..k] == [script[0]] + rest[..k - 1];
      FilterConcat((p: Pull) => p.Piece?, [script[0]], rest[..k - 1]);
      FilterSnoc((p: Pull) => p.Piece?, [], script[0]);
    }
  }

  function StateOf(v: Verdict): StreamState {
    match v
    case Complete => ClosedOk
    case Incomplete => ClosedIncomplete
    case Failed(_) => ClosedFailed
  }

  function FinalOf(v: Verdict, remaining: nat, quota: nat): Final {
    match v
    case Complete => Delivered(remaining, quota, false)
    case Incomplete => Delivered(remaining, quota, true)
    case Failed(code) => Error(code)
  }

  /** The closing frame of the original request. */
  function EndFrame(v: Verdict, num: int, remaining: nat, quota: nat): Frame {
    match v
    case Complete => Done(num, remaining, quota, false)
    case Incomplete => Done(num, remaining, quota, true)
    case Failed(code) => ErrorFrame(code, num)
  }

  /** The reply's chunks as the buffer holds them. */
  function Numbering(texts: seq<string>): (chunks: seq<Chunk>)
    ensures |chunks| == |texts|
    ensures forall i :: 0 <= i < |texts| ==> chunks[i] == Chunk(i, texts[i])
  {
    seq(|texts|, i requires 0 <= i < |texts| => Chunk(i, texts[i]))
  }

  lemma NumberingSnoc(texts: seq<string>, t: string)
    ensures Numbering(texts + [t]) == Numbering(texts) + [Chunk(|texts|, t)]
  {
  }

  lemma NumberingIsNumbered(texts: seq<string>)
    ensures Numbered(Numbering(texts)) && Increasing(Numbering(texts))
  {
  }

  // ----- the registry's terminal closes -----

  /** Failures of one run's environment. Only a refund may raise out of a close. */
  datatype Env = Env(plan: Plan, refundWorks: bool, now: int)

  ghost predicate Calm(e: Env) {
    Uncancelled(e.plan) && Happens(e.plan.buffer)
  }

  /** close_ok and close_incomplete. */
  method CloseDelivered(reg: Registry, h: StreamHandle, v: Verdict, remaining: nat, quota: nat, e: Env)
    requires reg.Valid() && Calm(e) && !v.Failed? && !h.used
    modifies reg`turns, reg`ended, reg`audits, reg`seen, reg`drivers, reg.buffer, reg.concurrency, h`used
    ensures reg.Valid() && h.used
    ensures reg.concurrency.Abs() ==
            R.ReleaseBy(old(reg.concurrency.Abs()), R.SessionKey(h.token, h.session), h.streamId)
    ensures reg.buffer.Abs() ==
            Closing(old(reg.buffer.Abs()), true, h.streamId, StateOf(v), FinalOf(v, remaining, quota), e.now)
    ensures reg.filesReleased == old(reg.filesReleased) && reg.drivers == old(reg.drivers) - {h.streamId}
  {
    var _ := reg.Close(h, StateOf(v), FinalOf(v, remaining, quota), e.now, true, e.plan);
  }

  /** close_failed: refund, release the attachments unless peers already show them,
      then the pipeline. A refund that raises stops it before the pipeline. */
  method CloseFailed(reg: Registry, h: StreamHandle, code: string, e: Env) returns (raised: bool)
    requires reg.Valid() && Calm(e)
    modifies reg`turns, reg`ended, reg`audits, reg`seen, reg`drivers, reg`filesReleased, reg.buffer, reg.concurrency, h`used
    modifies h.reservation, if h.reservation == null then {} else {h.reservation.storage}
    ensures reg.Valid()
    ensures raised <==> h.reservation != null && !old(h.reservation.settled) && !e.refundWorks
    ensures h.reservation != null ==>
              && h.reservation.settled
              && h.reservation.storage.counts ==
                 if old(h.reservation.settled) || !e.refundWorks then old(h.reservation.storage.counts)
                 else RefundOne(old(h.reservation.storage.counts), h.reservation.day)
    ensures raised ==>
              && h.used == old(h.used) && reg.buffer.Abs() == old(reg.buffer.Abs()) && reg.drivers == old(reg.drivers)
              && reg.concurrency.Abs() == old(reg.concurrency.Abs()) && reg.filesReleased == old(reg.filesReleased)
    ensures !raised ==>
              && h.used
              && reg.drivers == (if old(h.used) then old(reg.drivers) else old(reg.drivers) - {h.streamId})
              && reg.filesReleased == old(reg.filesReleased) + (if h.userMessageEmitted then [] else [h.streamId])
              && reg.concurrency.Abs() ==
                 (if old(h.used) then old(reg.concurrency.Abs())
                  else R.ReleaseBy(old(reg.concurrency.Abs()), R.SessionKey(h.token, h.session), h.streamId))
              && reg.buffer.Abs() ==
                 Closing(old(reg.buffer.Abs()), !old(h.used), h.streamId, ClosedFailed, Error(code), e.now)
  {
    if h.reservation != null {
      raised := h.reservation.Close(e.refundWorks);
      if raised {
        return;
      }
    }
    if !h.userMessageEmitted {
      reg.filesReleased := reg.filesReleased + [h.streamId];
    }
    var _ := reg.Close(h, ClosedFailed, Error(code), e.now, false, e.plan);
    raised := false;
  }

  // ----- the driver loop -----

  /** The live entry holds exactly these pieces, numbered from 0. */
  ghost predicate Holds(b: Buffer, sid: StreamId, texts: seq<string>) {
    Active(b, sid) && b.entries[sid].chunks == Numbering(texts)
  }

  lemma PiecesSnoc(script: seq<Pull>, i: nat)
    requires i < |script|
    ensures Pieces(script[i..]) ==
            match script[i]
            case Piece(t) => [t] + Pieces(script[i + 1..])
            case Heartbeat => Pieces(script[i + 1..])
            case Stop(_) => []
    ensures EndingOf(script[i..]) ==
            (match script[i] case Stop(ending) => ending case _ => EndingOf(script[i + 1..]))
  {
    assert script[i..][1..] == script[i + 1..];
  }

  /** `registry.append` on a live stream. */
  method AppendPiece(reg: Registry, h: StreamHandle, ghost texts: seq<string>, text: string) returns (num: nat)
    requires reg.Valid() && !h.used && h.nextSeq == |texts|
    requires Holds(reg.buffer.Abs(), h.streamId, texts)
    modifies h`nextSeq, reg.buffer
    ensures reg.Valid() && num == |texts| && h.nextSeq == |texts| + 1
    ensures Holds(reg.buffer.Abs(), h.streamId, texts + [text])
  {
    NumberingSnoc(texts, text);
    var seqno := reg.Append(h, text);
    num := seqno.value;
  }

  /** What the client of a live stream has been sent: all of it, or what it took before
      it left. */
  ghost predicate Following(conn: Connection, texts: seq<string>, gone: bool)
    reads conn
  {
    && conn.frames <= ChunkFrames(Numbering(texts))
    && (if gone then conn.budget == 0 else conn.frames == ChunkFrames(Numbering(texts)))
  }

  lemma FramesSnoc(texts: seq<string>, text: string)
    ensures ChunkFrames(Numbering(texts + [text])) == ChunkFrames(Numbering(texts)) + [ChunkFrame(|texts|, text)]
  {
    NumberingSnoc(texts, text);
    ChunkFramesSnoc(Numbering(texts), Chunk(|texts|, text));
  }

  /** Sends the piece on unless the client has left. */
  method SendPiece(conn: Connection, ghost texts: seq<string>, num: nat, text: string, gone: bool) returns (left: bool)
    requires Following(conn, texts, gone) && num == |texts|
    modifies conn
    ensures Following(conn, texts + [text], left)
  {
    FramesSnoc(texts, text);
    left := gone;
    if !gone {
      var ok := conn.Write(ChunkFrame(num, text));
      left := !ok;
    }
  }

  method Drive(reg: Registry, h: StreamHandle, conn: Connection, script: seq<Pull>)
    returns (ending: Ending, texts: seq<string>, gone: bool, lastAppended: int)
    requires reg.Valid() && !h.used && h.nextSeq == 0 && conn.frames == []
    requires Holds(reg.buffer.Abs(), h.streamId, [])
    modifies h`nextSeq, reg.buffer, conn
    ensures reg.Valid()
    ensures texts == Pieces(script) && ending == EndingOf(script)
    ensures Holds(reg.buffer.Abs(), h.streamId, texts)
    ensures h.nextSeq == |texts| && lastAppended == |texts| - 1
    ensures Following(conn, texts, gone)
  {
    texts, gone, lastAppended, ending := [], false, -1, EndOfStream;
    var i := 0;
    while i < |script|
      invariant i <= |script| && reg.Valid()
      invariant texts + Pieces(script[i..]) == Pieces(script) && EndingOf(script[i..]) == EndingOf(script)
      invariant Holds(reg.buffer.Abs(), h.streamId, texts)
      invariant h.nextSeq == |texts| && lastAppended == |texts| - 1
      invariant Following(conn, texts, gone)
    {
      PiecesSnoc(script, i);
      match script[i] {
        case Stop(stop) =>
          return stop, texts, gone, lastAppended;
        case Heartbeat =>
          if conn.budget == 0 {
            gone := true;
          }
        case Piece(text) =>
          lastAppended := AppendPiece(reg, h, texts, text);
          gone := SendPiece(conn, texts, lastAppended, text, gone);
          Associates(texts, [text], Pieces(script[i + 1..]));
          texts := texts + [text];
      }
      i := i + 1;
    }
  }

  // ----- terminal branches -----

  /** What a finished run leaves behind, given the buffer `live` in which the
      entry still held the whole reply. */
  ghost predicate Settled(live: Buffer, after: Buffer, h: StreamHandle, v: Verdict, raised: bool, quota: nat, now: int)
    reads h
  {
    h.reservation != null &&
    var final := if raised then Error("internal_error") else FinalOf(v, h.reservation.remaining, quota);
    after == Closing(live, true, h.streamId, StateOf(v), final, now)
  }

  /** Which branch the ending of the provider's stream leads to. */
  method Decide(ending: Ending, texts: seq<string>) returns (v: Verdict)
    ensures Outcome(ending, texts, v)
  {
    JoinEmpty(texts);
    match ending {
      case EndOfStream =>
        if Join(texts) == "" {
          return Failed("empty_reply");
        }
        return Complete;
      case TimedOut =>
        return if texts != [] then Incomplete else Failed("llm_timeout");
      case EmptyReply =>
        return Failed("empty_reply");
      case CallFailed =>
        return if texts != [] then Incomplete else Failed("llm_call_failed");
      case OtherError =>
        return if texts != [] then Incomplete else Failed("llm_call_failed");
      case Cancel =>
        return if texts != [] then Incomplete else Failed("cancelled");
    }
  }

  /** One terminal branch: commit and deliver, or refund and fail. `raised` is the
      refund escaping from `close_failed`, before the close pipeline ran. */
  method TerminalBranch(reg: Registry, h: StreamHandle, ending: Ending, texts: seq<string>, quota: nat, e: Env)
    returns (v: Verdict, raised: bool)
    requires reg.Valid() && Calm(e) && !h.used
    requires h.reservation != null && !h.reservation.settled
    modifies reg`turns, reg`ended, reg`audits, reg`seen, reg`drivers, reg`filesReleased, reg.buffer, reg.concurrency, h`used
    modifies h.reservation, h.reservation.storage
    ensures reg.Valid() && Outcome(ending, texts, v) && h.reservation.settled
    ensures raised <==> v.Failed? && !e.refundWorks
    ensures h.reservation.storage.counts ==
            if v.Failed? && e.refundWorks then RefundOne(old(h.reservation.storage.counts), h.reservation.day)
            else old(h.reservation.storage.counts)
    ensures raised ==>
              && !h.used && reg.buffer.Abs() == old(reg.buffer.Abs()) && reg.drivers == old(reg.drivers)
              && reg.concurrency.Abs() == old(reg.concurrency.Abs())
    ensures h.userMessageEmitted ==> reg.filesReleased == old(reg.filesReleased)
    ensures !raised ==>
              && h.used && reg.drivers == old(reg.drivers) - {h.streamId}
              && reg.concurrency.Abs() ==
                 R.ReleaseBy(old(reg.concurrency.Abs()), R.SessionKey(h.token, h.session), h.streamId)
              && Settled(old(reg.buffer.Abs()), reg.buffer.Abs(), h, v, false, quota, e.now)
  {
    v := Decide(ending, texts);
    if v.Failed? {
      raised := CloseFailed(reg, h, v.code, e);
      return;
    }
    raised := false;
    h.reservation.Commit();
    CloseDelivered(reg, h, v, h.reservation.remaining, quota, e);
  }

  /** The terminal branch, its frame, and the `finally` safety net. */
  method Conclude(reg: Registry, h: StreamHandle, conn: Connection, ending: Ending, texts: seq<string>,
                  gone: bool, lastAppended: int, quota: nat, e: Env)
    returns (v: Verdict)
    requires reg.Valid() && Calm(e) && !h.used
    requires h.reservation != null && !h.reservation.settled
    requires h.nextSeq == |texts| && lastAppended == |texts| - 1
    modifies reg`turns, reg`ended, reg`audits, reg`seen, reg`drivers, reg`filesReleased, reg.buffer, reg.concurrency, h`used, conn
    modifies h.reservation, h.reservation.storage
    ensures reg.Valid() && Outcome(ending, texts, v) && h.used
    ensures reg.drivers == old(reg.drivers) - {h.streamId}
    ensures h.userMessageEmitted ==> reg.filesReleased == old(reg.filesReleased)
    ensures h.reservation.storage.counts ==
            if v.Failed? && e.refundWorks then RefundOne(old(h.reservation.storage.counts), h.reservation.day)
            else old(h.reservation.storage.counts)
    ensures reg.concurrency.Abs() ==
            R.ReleaseBy(old(reg.concurrency.Abs()), R.SessionKey(h.token, h.session), h.streamId)
    ensures Settled(old(reg.buffer.Abs()), reg.buffer.Abs(), h, v, v.Failed? && !e.refundWorks, quota, e.now)
    ensures var told := !gone && old(conn.budget) > 0 && ending != Cancel && !(v.Failed? && !e.refundWorks);
            conn.frames == old(conn.frames)
              + if told then [EndFrame(v, |texts|, h.reservation.remaining, quota)] else []
    ensures conn.budget <= old(conn.budget)
  {
    var lastSeq := Max(h.nextSeq, lastAppended + 1);
    var raised;
    v, raised := TerminalBranch(reg, h, ending, texts, quota, e);
    var terminalEmitted := !raised;
    if terminalEmitted && !gone && ending != Cancel {
      var _ := conn.Write(EndFrame(v, lastSeq, h.reservation.remaining, quota));
    }
    if !terminalEmitted {
      var _ := CloseFailed(reg, h, "internal_error", e);
    }
  }

  // ----- the whole request -----

  datatype Request = Request(
    sid: StreamId, token: string, session: string, day: Day, quota: nat,
    opening: Opening, reserveWorks: bool, handshake: Handshake, script: seq<Pull>)

  /** The buffer's closed entry for a run that ended `v` after `texts`. */
  ghost predicate Recorded(b: Buffer, sid: StreamId, texts: seq<string>, v: Verdict, final: Final) {
    sid in b.entries
    && b.entries[sid].chunks == Numbering(texts)
    && b.entries[sid].state == StateOf(v)
    && b.entries[sid].final == Some(final)
  }

  /** What was written to the client of a run that ended `v` after `texts`. */
  function Reply(texts: seq<string>, v: Verdict, remaining: nat, quota: nat): seq<Frame> {
    ChunkFrames(Numbering(texts)) + [EndFrame(v, |texts|, remaining, quota)]
  }

  /** A close whose refund raises is not reported by its own terminal branch. */
  predicate Reported(script: seq<Pull>, v: Verdict, refundWorks: bool) {
    EndingOf(script) != Cancel && (v.Failed? ==> refundWorks)
  }

  /** From the first frame to the end of the request. */
  method RunOpened(reg: Registry, h: StreamHandle, conn: Connection, script: seq<Pull>, quota: nat, e: Env)
    returns (v: Verdict)
    requires reg.Valid() && Calm(e) && !h.used && h.nextSeq == 0 && conn.frames == []
    requires h.reservation != null && !h.reservation.settled
    requires Holds(reg.buffer.Abs(), h.streamId, [])
    modifies reg`turns, reg`ended, reg`audits, reg`seen, reg`drivers, reg`filesReleased, reg.buffer, reg.concurrency, h`used, h`nextSeq, conn
    modifies h.reservation, h.reservation.storage
    ensures reg.Valid() && Outcome(EndingOf(script), Pieces(script), v)
    ensures reg.drivers == old(reg.drivers) - {h.streamId}
    ensures h.userMessageEmitted ==> reg.filesReleased == old(reg.filesReleased)
    ensures h.reservation.storage.counts ==
            if v.Failed? && e.refundWorks then RefundOne(old(h.reservation.storage.counts), h.reservation.day)
            else old(h.reservation.storage.counts)
    ensures reg.concurrency.Abs() ==
            R.ReleaseBy(old(reg.concurrency.Abs()), R.SessionKey(h.token, h.session), h.streamId)
    ensures var kept := if v.Failed? && !e.refundWorks then Failed("internal_error") else v;
            Recorded(reg.buffer.Abs(), h.streamId, Pieces(script), kept, FinalOf(kept, h.reservation.remaining, quota))
    ensures conn.frames <= Reply(Pieces(script), v, h.reservation.remaining, quota)
    ensures conn.budget > 0 && Reported(script, v, e.refundWorks) ==>
              conn.frames == Reply(Pieces(script), v, h.reservation.remaining, quota)
  {
    var ending, texts, gone, lastAppended := Drive(reg, h, conn, script);
    v := Conclude(reg, h, conn, ending, texts, gone, lastAppended, quota, e);
  }

  /** What a closed entry and a terminal frame say, for each way a run may end. */
  ghost predicate Says(e: Entry, last: Frame, v: Verdict, n: nat, remaining: nat, quota: nat) {
    match v
    case Complete =>
      && e.state == ClosedOk && e.final == Some(Delivered(remaining, quota, false))
      && last == Done(n, remaining, quota, false)
    case Incomplete =>
      && e.state == ClosedIncomplete && e.final == Some(Delivered(remaining, quota, true))
      && last == Done(n, remaining, quota, true)
    case Failed(code) =>
      e.state == ClosedFailed && e.final == Some(Error(code)) && last == ErrorFrame(code, n)
  }

  /** What buffer and client got from a run, `remaining` being this turn's own place. A
      failure whose refund raised is recorded as an internal error. */
  ghost predicate Delivery(b: Buffer, conn: Connection, sid: StreamId, script: seq<Pull>, v: Verdict,
                           remaining: nat, quota: nat, refundWorks: bool)
    reads conn
  {
    var texts := Pieces(script);
    var kept := if v.Failed? && !refundWorks then Failed("internal_error") else v;
    && Outcome(EndingOf(script), texts, v)
    && Recorded(b, sid, texts, kept, FinalOf(kept, remaining, quota))
    && Says(b.entries[sid], EndFrame(kept, |texts|, remaining, quota), kept, |texts|, remaining, quota)
    && conn.frames <= Reply(texts, v, remaining, quota)
    && (conn.budget > 0 && Reported(script, v, refundWorks) ==> conn.frames == Reply(texts, v, remaining, quota))
  }

  lemma RecordedSays(b: Buffer, sid: StreamId, texts: seq<string>, v: Verdict, remaining: nat, quota: nat)
    requires Recorded(b, sid, texts, v, FinalOf(v, remaining, quota))
    ensures Says(b.entries[sid], EndFrame(v, |texts|, remaining, quota), v, |texts|, remaining, quota)
  {
  }

  method RunAdmitted(reg: Registry, h: StreamHandle, conn: Connection, script: seq<Pull>, quota: nat, e: Env)
    returns (v: Verdict)
    requires reg.Valid() && Calm(e) && !h.used && h.nextSeq == 0 && conn.frames == []
    requires h.reservation != null && !h.reservation.settled && h.userMessageEmitted
    requires Holds(reg.buffer.Abs(), h.streamId, [])
    modifies reg`turns, reg`ended, reg`audits, reg`seen, reg`drivers, reg`filesReleased, reg.buffer, reg.concurrency, h`used, h`nextSeq, conn
    modifies h.reservation, h.reservation.storage
    ensures reg.Valid()
    ensures reg.drivers == old(reg.drivers) - {h.streamId} && reg.filesReleased == old(reg.filesReleased)
    ensures var before := CountOf(old(h.reservation.storage.counts), h.reservation.day);
            CountOf(h.reservation.storage.counts, h.reservation.day) ==
            if v.Failed? && e.refundWorks && before > 0 then before - 1 else before
    ensures reg.concurrency.Abs() ==
            R.ReleaseBy(old(reg.concurrency.Abs()), R.SessionKey(h.token, h.session), h.streamId)
    ensures Delivery(reg.buffer.Abs(), conn, h.streamId, script, v, h.reservation.remaining, quota, e.refundWorks)
  {
    v := RunOpened(reg, h, conn, script, quota, e);
    RecordedSays(reg.buffer.Abs(), h.streamId, Pieces(script),
                 if v.Failed? && !e.refundWorks then Failed("internal_error") else v, h.reservation.remaining, quota);
  }

  /** The exits on which nobody closes the stream. */
  predicate Stranded(exit: Exit, refundWorks: bool) {
    exit.OpenCancelled? || exit.ReserveRaised? || (exit.Aborted? && !refundWorks)
  }

  /** Who holds the session lock once the request is over. */
  ghost predicate LockSettled(before: R.State, after: R.State, r: Request, exit: Exit, refundWorks: bool) {
    var key := R.SessionKey(r.token, r.session);
    var (locked, acquired) := R.Acquire(before, key, R.Stream(r.sid));
    && (!acquired ==> exit.Busy?)
    && after == if acquired && !Stranded(exit, refundWorks) then R.ReleaseBy(locked, key, r.sid) else locked
  }

  /** The stream's entry is pending and its driver registered. */
  ghost predicate Pending(reg: Registry, sid: StreamId)
    reads reg, reg.buffer
  {
    Holds(reg.buffer.Abs(), sid, []) && sid in reg.drivers
  }

  /** The stream never ran: its entry is closed under this code, its driver gone. */
  ghost predicate Refused(reg: Registry, sid: StreamId, code: string)
    reads reg, reg.buffer
  {
    && sid in reg.buffer.entries && sid !in reg.drivers
    && reg.buffer.entries[sid].chunks == [] && reg.buffer.entries[sid].state == ClosedFailed
    && reg.buffer.entries[sid].final == Some(Error(code))
  }

  predicate Charged(exit: Exit, refundWorks: bool) {
    match exit
    case Ran(v) => !v.Failed? || !refundWorks
    case Aborted => !refundWorks
    case _ => false
  }

  predicate Used(before: map<Day, nat>, after: map<Day, nat>, r: Request, units: nat) {
    CountOf(after, r.day) == CountOf(before, r.day) + units
  }

  /** A freshly opened handle: its stream holds the lock and an empty entry. */
  twostate predicate Started(before: R.State, reg: Registry, new h: StreamHandle, r: Request)
    reads reg.buffer, reg.concurrency, h
  {
    && fresh(h) && h.streamId == r.sid && h.token == r.token && h.session == r.session
    && !h.used && h.nextSeq == 0
    && (reg.concurrency.Abs(), true) == R.Acquire(before, R.SessionKey(r.token, r.session), R.Stream(r.sid))
    && Holds(reg.buffer.Abs(), r.sid, [])
  }

  lemma FreshHolds(b: Buffer, sid: StreamId, token: string, session: string, maxPerToken: nat, maxGlobal: nat)
    requires maxPerToken > 0 && sid !in b.entries
    ensures var created := Create(b, sid, token, session, maxPerToken, maxGlobal);
            !created.Full? ==> created.Fresh? && Holds(created.after, sid, [])
  {
    assert Numbering([]) == [];
  }

  /** Open the stream and register its driver. */
  method Start(reg: Registry, r: Request) returns (h: StreamHandle?, cancelled: bool)
    requires reg.Valid() && r.sid !in reg.buffer.entries
    modifies reg`drivers, reg.buffer, reg.concurrency
    ensures reg.Valid()
    ensures var (locked, acquired) := R.Acquire(old(reg.concurrency.Abs()), R.SessionKey(r.token, r.session), R.Stream(r.sid));
            var created := Create(old(reg.buffer.Abs()), r.sid, r.token, r.session,
                                  reg.buffer.maxPerToken, reg.buffer.maxGlobal);
            cancelled <==> acquired && OpenCut(r.opening, created)
    ensures h == null ==>
              && LockSettled(old(reg.concurrency.Abs()), reg.concurrency.Abs(), r,
                             if cancelled then OpenCancelled else Busy, true)
              && (!cancelled ==> reg.buffer.Abs() == old(reg.buffer.Abs()))
    ensures h != null ==>
              && Started(old(reg.concurrency.Abs()), reg, h, r) && h.reservation == null && !h.userMessageEmitted
              && !cancelled && r.sid in reg.drivers
  {
    FreshHolds(reg.buffer.Abs(), r.sid, r.token, r.session, reg.buffer.maxPerToken, reg.buffer.maxGlobal);
    h, cancelled := reg.Open(r.sid, r.token, r.session, r.opening);
    if h != null {
      reg.RegisterDriver(r.sid, r.token);
    }
  }

  /** Fails a stream that never ran. */
  method Refuse(reg: Registry, h: StreamHandle, code: string, e: Env) returns (raised: bool)
    requires reg.Valid() && Calm(e) && Pending(reg, h.streamId) && !h.used && !h.userMessageEmitted
    modifies reg`turns, reg`ended, reg`audits, reg`seen, reg`drivers, reg`filesReleased, reg.buffer, reg.concurrency, h`used
    modifies h.reservation, if h.reservation == null then {} else {h.reservation.storage}
    ensures reg.Valid()
    ensures raised <==> h.reservation != null && !old(h.reservation.settled) && !e.refundWorks
    ensures h.reservation != null ==>
              h.reservation.storage.counts ==
              if old(h.reservation.settled) || !e.refundWorks then old(h.reservation.storage.counts)
              else RefundOne(old(h.reservation.storage.counts), h.reservation.day)
    ensures raised ==>
              && Pending(reg, h.streamId) && reg.concurrency.Abs() == old(reg.concurrency.Abs())
              && reg.filesReleased == old(reg.filesReleased)
    ensures !raised ==>
              && Refused(reg, h.streamId, code)
              && reg.concurrency.Abs() ==
                 R.ReleaseBy(old(reg.concurrency.Abs()), R.SessionKey(h.token, h.session), h.streamId)
              && reg.filesReleased == old(reg.filesReleased) + [h.streamId]
  {
    raised := CloseFailed(reg, h, code, e);
  }

  /** Quota and handshake. `None` means the stream runs. The reservation is awaited
      outside any guard: what it raises leaves everything as it is. */
  method Admit(reg: Registry, h: StreamHandle, usage: DailyUsage, r: Request, e: Env) returns (exit: Option<Exit>)
    requires reg.Valid() && Calm(e) && Pending(reg, r.sid)
    requires h.streamId == r.sid && h.token == r.token && h.session == r.session && !h.used && h.reservation == null
    requires !h.userMessageEmitted
    modifies reg`turns, reg`ended, reg`audits, reg`seen, reg`drivers, reg`filesReleased, reg.buffer, reg.concurrency, usage, h
    ensures reg.Valid()
    ensures exit.Some? ==>
              && (exit.value.ReserveRaised? || exit.value.OverQuota? || exit.value.Aborted?)
              && (exit.value.ReserveRaised? <==> !r.reserveWorks)
              && (exit.value.OverQuota? <==> r.reserveWorks && old(CountOf(usage.counts, r.day)) >= r.quota)
              && (exit.value.Aborted? ==> !r.handshake.Opened?)
              && reg.concurrency.Abs() ==
                   (if Stranded(exit.value, e.refundWorks) then old(reg.concurrency.Abs())
                    else R.ReleaseBy(old(reg.concurrency.Abs()), R.SessionKey(r.token, r.session), r.sid))
              && (Stranded(exit.value, e.refundWorks) ==> Pending(reg, r.sid))
              && Used(old(usage.counts), usage.counts, r, if Charged(exit.value, e.refundWorks) then 1 else 0)
    ensures exit == Some(OverQuota) ==> Refused(reg, r.sid, "quota_exceeded")
    ensures exit == Some(Aborted) && e.refundWorks ==>
              Refused(reg, r.sid, if r.handshake.HandshakeFailed? then "internal_error" else "cancelled")
    ensures reg.filesReleased == old(reg.filesReleased)
              + if exit == Some(OverQuota) || (exit == Some(Aborted) && e.refundWorks) then [r.sid] else []
    ensures exit.None? ==>
              && h.userMessageEmitted
              && h.reservation != null && fresh(h.reservation)
              && !h.reservation.settled && h.reservation.storage == usage && h.reservation.day == r.day
              && r.reserveWorks && old(CountOf(usage.counts, r.day)) < r.quota && r.handshake.Opened?
              && h.reservation.remaining == r.quota - old(CountOf(usage.counts, r.day)) - 1
              && CountOf(usage.counts, r.day) == old(CountOf(usage.counts, r.day)) + 1
              && reg.concurrency.Abs() == old(reg.concurrency.Abs()) && reg.buffer.Abs() == old(reg.buffer.Abs())
              && !h.used && h.nextSeq == old(h.nextSeq)
  {
    var reservation, raised := QuotaReservation.Open(usage, r.day, r.quota, r.reserveWorks);
    if raised {
      return Some(ReserveRaised);
    }
    if reservation == null {
      var _ := Refuse(reg, h, "quota_exceeded", e);
      return Some(OverQuota);
    }
    h.reservation := reservation;
    if !r.handshake.Opened? {
      // `_close_failed_quietly`: what the close raises is swallowed
      var _ := Refuse(reg, h, if r.handshake.HandshakeFailed? then "internal_error" else "cancelled", e);
      return Some(Aborted);
    }
    h.userMessageEmitted := true;
    return None;
  }

  /** The rest of a request whose stream is open. */
  method Proceed(reg: Registry, h: StreamHandle, usage: DailyUsage, conn: Connection, r: Request, e: Env)
    returns (exit: Exit)
    requires reg.Valid() && Calm(e) && conn.frames == []
    requires h.streamId == r.sid && h.token == r.token && h.session == r.session
    requires !h.used && h.nextSeq == 0 && h.reservation == null && !h.userMessageEmitted && Pending(reg, r.sid)
    modifies reg`turns, reg`ended, reg`audits, reg`seen, reg`drivers, reg`filesReleased, reg.buffer, reg.concurrency, usage, conn, h
    ensures reg.Valid() && !exit.Busy? && !exit.OpenCancelled?
    ensures reg.concurrency.Abs() ==
            if Stranded(exit, e.refundWorks) then old(reg.concurrency.Abs())
            else R.ReleaseBy(old(reg.concurrency.Abs()), R.SessionKey(r.token, r.session), r.sid)
    ensures Stranded(exit, e.refundWorks) ==> Pending(reg, r.sid)
    ensures Used(old(usage.counts), usage.counts, r, if Charged(exit, e.refundWorks) then 1 else 0)
    ensures exit.ReserveRaised? <==> !r.reserveWorks
    ensures exit.OverQuota? <==> r.reserveWorks && old(CountOf(usage.counts, r.day)) >= r.quota
    ensures exit.Ran? || exit.Aborted? ==> (exit.Ran? <==> r.handshake.Opened?)
    ensures exit.Ran? ==>
              && old(CountOf(usage.counts, r.day)) < r.quota
              && Delivery(reg.buffer.Abs(), conn, r.sid, r.script, exit.verdict,
                          r.quota - old(CountOf(usage.counts, r.day)) - 1, r.quota, e.refundWorks)
    ensures !exit.Ran? ==> conn.frames == []
    ensures exit.OverQuota? ==> Refused(reg, r.sid, "quota_exceeded")
    ensures exit.Aborted? && e.refundWorks ==>
              Refused(reg, r.sid, if r.handshake.HandshakeFailed? then "internal_error" else "cancelled")
    ensures exit.Ran? ==> r.sid !in reg.drivers
    ensures reg.filesReleased == old(reg.filesReleased)
              + if exit.OverQuota? || (exit.Aborted? && e.refundWorks) then [r.sid] else []
  {
    var stopped := Admit(reg, h, usage, r, e);
    if stopped.Some? {
      return stopped.value;
    }
    var v := RunAdmitted(reg, h, conn, r.script, r.quota, e);
    exit := Ran(v);
  }

  /** The handler. The session lock it takes is given back on every exit but three: a
      cancellation while the stream is being opened; a reservation that raises; and a
      handshake that failed with the refund that `close_failed` tries first raising.
      On the last two the entry stays pending and the driver registered. The day is
      charged exactly for runs that delivered content, or when the refund itself
      failed. A stream that never ran is closed under its code and gives its attachments
      back; one that ran keeps them, as peers may already show them. */
  method Handle(reg: Registry, usage: DailyUsage, conn: Connection, r: Request, e: Env) returns (exit: Exit)
    requires reg.Valid() && Calm(e) && conn.frames == [] && r.sid !in reg.buffer.entries
    modifies reg`turns, reg`ended, reg`audits, reg`seen, reg`drivers, reg`filesReleased, reg.buffer, reg.concurrency, usage, conn
    ensures reg.Valid()
    ensures LockSettled(old(reg.concurrency.Abs()), reg.concurrency.Abs(), r, exit, e.refundWorks)
    ensures Used(old(usage.counts), usage.counts, r, if Charged(exit, e.refundWorks) then 1 else 0)
    ensures exit.Busy? ==> reg.buffer.Abs() == old(reg.buffer.Abs())
    ensures var (locked, acquired) := R.Acquire(old(reg.concurrency.Abs()), R.SessionKey(r.token, r.session), R.Stream(r.sid));
            var created := Create(old(reg.buffer.Abs()), r.sid, r.token, r.session,
                                  reg.buffer.maxPerToken, reg.buffer.maxGlobal);
            exit.OpenCancelled? <==> acquired && OpenCut(r.opening, created)
    ensures !exit.Busy? && !exit.OpenCancelled? ==> (exit.ReserveRaised? <==> !r.reserveWorks)
    ensures !exit.Busy? && !exit.OpenCancelled? ==>
              (exit.OverQuota? <==> r.reserveWorks && old(CountOf(usage.counts, r.day)) >= r.quota)
    ensures exit.Ran? || exit.Aborted? ==> (exit.Ran? <==> r.handshake.Opened?)
    ensures exit.Ran? ==>
              && old(CountOf(usage.counts, r.day)) < r.quota
              && Delivery(reg.buffer.Abs(), conn, r.sid, r.script, exit.verdict,
                          r.quota - old(CountOf(usage.counts, r.day)) - 1, r.quota, e.refundWorks)
    ensures !exit.Ran? ==> conn.frames == []
    ensures exit.ReserveRaised? || (exit.Aborted? && !e.refundWorks) ==> Pending(reg, r.sid)
    ensures exit.OverQuota? ==> Refused(reg, r.sid, "quota_exceeded")
    ensures exit.Aborted? && e.refundWorks ==>
              Refused(reg, r.sid, if r.handshake.HandshakeFailed? then "internal_error" else "cancelled")
    ensures exit.Ran? ==> r.sid !in reg.drivers && Outcome(EndingOf(r.script), Pieces(r.script), exit.verdict)
    ensures exit.Ran? && Charged(exit, true) ==> Pieces(r.script) != []
    ensures exit.Ran? && e.refundWorks ==>
              (CountOf(usage.counts, r.day) == old(CountOf(usage.counts, r.day)) + 1 <==>
                 if EndingOf(r.script).EndOfStream? then exists t :: t in Pieces(r.script) && t != ""
                 else Pieces(r.script) != [] && !EndingOf(r.script).EmptyReply?)
    ensures reg.filesReleased == old(reg.filesReleased)
              + if exit.OverQuota? || (exit.Aborted? && e.refundWorks) then [r.sid] else []
  {
    var h, cancelled := Start(reg, r);
    if h == null {
      return if cancelled then OpenCancelled else Busy;
    }
    exit := Proceed(reg, h, usage, conn, r, e);
  }

  // ----- consequences -----

  /** A request that finds its session free leaves it free, except in the three cases
      where nobody closes the stream. */
  lemma LockFreedUnless(before: R.State, after: R.State, r: Request, exit: Exit, refundWorks: bool)
    requires R.Inv(before) && !R.Held(before, R.SessionKey(r.token, r.session))
    requires LockSettled(before, after, r, exit, refundWorks)
    ensures R.Held(after, R.SessionKey(r.token, r.session)) <==>
              exit.OpenCancelled? || exit.ReserveRaised? || (exit.Aborted? && !refundWorks)
    ensures forall key :: key != R.SessionKey(r.token, r.session) ==> (R.Held(after, key) <==> R.Held(before, key))
  {
    var key := R.SessionKey(r.token, r.session);
    var locked := R.Acquire(before, key, R.Stream(r.sid)).0;
    R.RefusedIffHeld(before, key, R.Stream(r.sid));
    R.AcquireKeeps(before, key, R.Stream(r.sid));
    R.ReleaseFreesOwnOnly(locked, key, r.sid);
    assert locked.locks[key].name == key by {
      assert R.NameOk(locked, key);
    }
    assert R.Held(locked, key) by {
      assert locked.locks[key] in locked.owner;
    }
    forall k | k != key
      ensures R.Held(locked, k) <==> R.Held(before, k)
    {
      if R.Held(before, k) {
        var lock :| lock in before.owner && lock.name == k;
        assert lock in locked.owner;
      }
    }
  }

  /** Reading the closed entry back gives the original closing frame, whatever its
      number. */
  lemma ResumedClosingFrame(b: Buffer, sid: StreamId, texts: seq<string>, v: Verdict,
                            remaining: nat, quota: nat, num: int)
    requires Recorded(b, sid, texts, v, FinalOf(v, remaining, quota))
    ensures var end := Fetch(b, sid, b.entries[sid].token);
            && end.Some? && end.value.chunks == Numbering(texts) && Terminal(end.value.state)
            && ClosingFrame(end.value, num) == EndFrame(v, num, remaining, quota)
  {
    SinceAll(Numbering(texts), -1);
  }

  lemma NumberingSplit(texts: seq<string>, k: nat)
    requires k <= |texts|
    ensures Since(Numbering(texts), k - 1) == Numbering(texts)[k..]
  {
    SinceAtSplit(Numbering(texts), k, k - 1);
  }

  /** A client that already has the chunks numbered up to `k - 1` of the original
      reply and resumes from there ends up, frame for frame, with the original
      reply, its terminal frame included. */
  lemma ResumeCompletesReply(b: Buffer, sid: StreamId, texts: seq<string>, v: Verdict,
                             remaining: nat, quota: nat, k: nat)
    requires Recorded(b, sid, texts, v, FinalOf(v, remaining, quota))
    requires k <= |texts|
    ensures var end := Fetch(b, sid, b.entries[sid].token).value;
            var whole := Reply(texts, v, remaining, quota);
            whole[..k] + WholeReply(end.chunks, k - 1, end) == whole
  {
    var end := Fetch(b, sid, b.entries[sid].token).value;
    ResumedClosingFrame(b, sid, texts, v, remaining, quota, |texts|);
    RepliedFrom(texts, k, end);
    FramesRejoin(Numbering(texts), k, EndFrame(v, |texts|, remaining, quota));
  }

  lemma RepliedFrom(texts: seq<string>, k: nat, end: Snapshot)
    requires k <= |texts|
    ensures WholeReply(Numbering(texts), k - 1, end) ==
            ChunkFrames(Numbering(texts)[k..]) + [ClosingFrame(end, |texts|)]
  {
    NumberingIsNumbered(texts);
    NumberingSplit(texts, k);
    ClosingNumberMatches(Numbering(texts), k - 1);
  }

  lemma FramesRejoin(all: seq<Chunk>, k: nat, last: Frame)
    requires k <= |all|
    ensures (ChunkFrames(all) + [last])[..k] + (ChunkFrames(all[k..]) + [last]) == ChunkFrames(all) + [last]
  {
    assert ChunkFrames(all)[..k] + ChunkFrames(all[k..]) == ChunkFrames(all);
  }
}
