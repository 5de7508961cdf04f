/** handlers/conversations_service.py, `get_events`, over the event log the storage
    keeps per token: numbered rows, of which retention drops the oldest and blanks
    the last into a marker that only anchors the numbering. */
module EventCursor {
  import opened Lists

  datatype Row = Row(pts: nat, ts: int, marker: bool, payload: string)

  /** `hist` is every payload ever appended: event number p is hist[p - 1]. */
  datatype World = World(log: seq<Row>, hist: seq<string>)

  const LIMIT := 100
  const TOO_FAR := 1000

  // ----- the storage -----

  function MaxPts(log: seq<Row>): nat {
    if log == [] then 0 else log[|log| - 1].pts
  }

  function AppendUpdates(w: World, now: int, payloads: seq<string>): World {
    if payloads == [] then w else
    var n := |payloads| - 1;
    var w1 := AppendUpdates(w, now, payloads[..n]);
    World(w1.log + [Row(MaxPts(w1.log) + 1, now, false, payloads[n])], w1.hist + [payloads[n]])
  }

  /** Rows past the cutoff go, except the last, which loses its content instead. */
  function PruneLog(log: seq<Row>, cutoff: int): seq<Row> {
    if log == [] then [] else
    var last := log[|log| - 1];
    Filter((r: Row) => r.ts >= cutoff, log[..|log| - 1])
      + [if last.ts < cutoff then last.(marker := true, payload := "{}") else last]
  }

  predicate Wanted(r: Row, since: nat) {
    r.pts > since && !r.marker
  }

  function GetUpdates(log: seq<Row>, since: nat, limit: nat): seq<Row> {
    var rows := Filter(r => Wanted(r, since), log);
    if |rows| <= limit then rows else rows[..limit]
  }

  // ----- the endpoint -----

  datatype Response = Answer(rows: seq<Row>, lastPts: nat, hasMore: bool, tooFar: bool) | TooManyWaiters

  function TooFarAnswer(pts: nat): Response {
    Answer([], pts, false, true)
  }

  /** The four reads see the log at four moments: the first maximum, the first rows,
      the rows after the wait, the second maximum. `waits` is a positive timeout,
      `crowded` the waiter cap being reached. */
  function GetEvents(l1: seq<Row>, l2: seq<Row>, l3: seq<Row>, l4: seq<Row>, since: nat, waits: bool, crowded: bool)
    : Response
  {
    if since > MaxPts(l1) then TooFarAnswer(MaxPts(l1)) else
    var rows := GetUpdates(l2, since, LIMIT);
    if since > 0 && rows != [] && rows[0].pts > since + 1 then TooFarAnswer(MaxPts(l1))
    else if rows == [] && waits then
      if MaxPts(l1) - since > TOO_FAR then TooFarAnswer(MaxPts(l1))
      else if crowded then TooManyWaiters
      else Conclude(GetUpdates(l3, since, LIMIT), l4, since)
    else Conclude(rows, l4, since)
  }

  function Conclude(rows: seq<Row>, l4: seq<Row>, since: nat): Response {
    if rows != [] then Answer(rows, rows[|rows| - 1].pts, |rows| == LIMIT, false)
    else if since > MaxPts(l4) || MaxPts(l4) - since > TOO_FAR then TooFarAnswer(MaxPts(l4))
    else Answer([], MaxPts(l4), false, false)
  }

  // ----- what the log looks like -----

  ghost predicate RowOk(w: World, i: nat)
    requires i < |w.log|
  {
    var r := w.log[i];
    && r.pts == w.log[0].pts + i && 1 <= r.pts <= |w.hist|
    && (i > 0 ==> !r.marker && w.log[i - 1].ts <= r.ts)
    && (!r.marker ==> r.payload == w.hist[r.pts - 1])
  }

  /** The log is a gap-free suffix of the history; only its first row may be blank. */
  ghost predicate Window(w: World) {
    && MaxPts(w.log) == |w.hist|
    && forall i :: 0 <= i < |w.log| ==> RowOk(w, i)
  }

  lemma {:induction false} TimesOrdered(w: World, i: nat, j: nat)
    requires Window(w) && i <= j < |w.log|
    ensures w.log[i].ts <= w.log[j].ts
  {
    if i < j {
      TimesOrdered(w, i, j - 1);
      assert RowOk(w, j);
    }
  }

  lemma AppendOne(w: World, now: int, payload: string)
    requires Window(w) && (w.log != [] ==> w.log[|w.log| - 1].ts <= now)
    ensures Window(World(w.log + [Row(MaxPts(w.log) + 1, now, false, payload)], w.hist + [payload]))
  {
    var w2 := World(w.log + [Row(MaxPts(w.log) + 1, now, false, payload)], w.hist + [payload]);
    if w.log != [] {
      assert RowOk(w, |w.log| - 1);
    }
    forall i | 0 <= i < |w2.log|
      ensures RowOk(w2, i)
    {
      if i < |w.log| {
        assert RowOk(w, i);
      }
    }
  }

  lemma {:induction false} AppendKeeps(w: World, now: int, payloads: seq<string>)
    requires Window(w) && (w.log != [] ==> w.log[|w.log| - 1].ts <= now)
    ensures Window(AppendUpdates(w, now, payloads))
    ensures w.log <= AppendUpdates(w, now, payloads).log && w.hist <= AppendUpdates(w, now, payloads).hist
    ensures payloads != [] ==> AppendUpdates(w, now, payloads).log != []
    ensures var log := AppendUpdates(w, now, payloads).log; log != [] ==> log[|log| - 1].ts <= now
    ensures AppendUpdates(w, now, payloads).hist == w.hist + payloads
    ensures |AppendUpdates(w, now, payloads).log| == |w.log| + |payloads|
  {
    if payloads != [] {
      var n := |payloads| - 1;
      AppendKeeps(w, now, payloads[..n]);
      AppendOne(AppendUpdates(w, now, payloads[..n]), now, payloads[n]);
    }
  }

  lemma {:induction false} Expired(w: World, cutoff: int, n: nat) returns (k: nat)
    requires Window(w) && n <= |w.log|
    ensures k <= n
    ensures forall i :: 0 <= i < k ==> w.log[i].ts < cutoff
    ensures forall i :: k <= i < n ==> w.log[i].ts >= cutoff
  {
    k := 0;
    while k < n && w.log[k].ts < cutoff
      invariant k <= n && forall i :: 0 <= i < k ==> w.log[i].ts < cutoff
    {
      k := k + 1;
    }
    forall i | k <= i < n
      ensures w.log[i].ts >= cutoff
    {
      TimesOrdered(w, k, i);
    }
  }

  /** With times in order, pruning drops a prefix and may blank what is left of it. */
  lemma PruneDropsPrefix(w: World, cutoff: int) returns (k: nat)
    requires Window(w) && w.log != []
    ensures k < |w.log| && |PruneLog(w.log, cutoff)| == |w.log| - k
    ensures forall i :: 0 <= i < |w.log| - k - 1 ==> PruneLog(w.log, cutoff)[i] == w.log[k + i]
    ensures var last := w.log[|w.log| - 1];
            PruneLog(w.log, cutoff)[|w.log| - k - 1] ==
            if last.ts < cutoff then last.(marker := true, payload := "{}") else last
    ensures w.log[|w.log| - 1].ts < cutoff ==> k == |w.log| - 1
  {
    var n := |w.log| - 1;
    k := Expired(w, cutoff, n);
    FilterSuffix((r: Row) => r.ts >= cutoff, w.log[..n], k);
    if w.log[n].ts < cutoff && k < n {
      TimesOrdered(w, k, n);
    }
  }

  lemma PruneKeeps(w: World, cutoff: int)
    requires Window(w)
    ensures Window(w.(log := PruneLog(w.log, cutoff)))
  {
    if w.log != [] {
      var k := PruneDropsPrefix(w, cutoff);
      var w2 := w.(log := PruneLog(w.log, cutoff));
      assert RowOk(w, k) && RowOk(w, |w.log| - 1);
      forall i | 0 <= i < |w2.log|
        ensures RowOk(w2, i)
      {
        assert RowOk(w, k + i);
        if i > 0 {
          assert RowOk(w, k + i - 1);
        }
      }
    }
  }

  // ----- what one read returns -----

  /** The number of the first event still readable, past the maximum if none is. */
  function FirstReadable(log: seq<Row>): nat {
    if log == [] then 1
    else if log[0].marker then log[0].pts + 1
    else log[0].pts
  }

  /** Some event past `since` can no longer be read. */
  predicate Lost(log: seq<Row>, since: nat) {
    since < MaxPts(log) && since + 1 < FirstReadable(log)
  }

  lemma ReadableBounds(w: World)
    requires Window(w)
    ensures 1 <= FirstReadable(w.log) <= MaxPts(w.log) + 1
  {
    if w.log != [] {
      assert RowOk(w, 0) && RowOk(w, |w.log| - 1);
    }
  }

  /** The readable rows past `since`, as a suffix of the log. */
  lemma WantedSuffix(w: World, since: nat) returns (k: nat)
    requires Window(w) && since <= MaxPts(w.log)
    ensures k <= |w.log| && Filter(r => Wanted(r, since), w.log) == w.log[k..]
    ensures forall i :: k <= i < |w.log| ==> !w.log[i].marker
    ensures var from := if since + 1 < FirstReadable(w.log) then FirstReadable(w.log) else since + 1;
            && |w.log| - k == MaxPts(w.log) + 1 - from
            && forall i :: k <= i < |w.log| ==> w.log[i].pts == from + i - k
  {
    ReadableBounds(w);
    if w.log == [] {
      k := 0;
      return;
    }
    var from := if since + 1 < FirstReadable(w.log) then FirstReadable(w.log) else since + 1;
    assert RowOk(w, |w.log| - 1) && RowOk(w, 0);
    k := from - w.log[0].pts;
    forall i | 0 <= i < |w.log|
      ensures w.log[i].pts == w.log[0].pts + i && (Wanted(w.log[i], since) <==> k <= i)
    {
      assert RowOk(w, i);
    }
    FilterSuffix(r => Wanted(r, since), w.log, k);
  }

  function Payloads(rows: seq<Row>): (p: seq<string>)
    ensures |p| == |rows|
    ensures forall i :: 0 <= i < |rows| ==> p[i] == rows[i].payload
  {
    seq(|rows|, i requires 0 <= i < |rows| => rows[i].payload)
  }

  /** Rows delivered are exactly events from+1 .. to. */
  ghost predicate Slice(hist: seq<string>, from: nat, to: nat, rows: seq<Row>) {
    from <= to <= |hist| && Payloads(rows) == hist[from..to]
  }

  /** A read that starts past everything lost is a gap-free slice of the history. */
  lemma ReadIsSlice(w: World, since: nat)
    requires Window(w) && since <= MaxPts(w.log)
    ensures var rows := GetUpdates(w.log, since, LIMIT);
            var from := if since + 1 < FirstReadable(w.log) then FirstReadable(w.log) else since + 1;
            && (rows == [] <==> from > MaxPts(w.log))
            && (rows != [] ==>
                  && rows[0].pts == from && rows[|rows| - 1].pts == from + |rows| - 1
                  && Slice(w.hist, from - 1, from - 1 + |rows|, rows))
            && (|rows| < LIMIT ==> |rows| == MaxPts(w.log) + 1 - from)
            && |rows| <= LIMIT
  {
    var k := WantedSuffix(w, since);
    var from := if since + 1 < FirstReadable(w.log) then FirstReadable(w.log) else since + 1;
    ReadableBounds(w);
    TakenIsSlice(w, k, from, GetUpdates(w.log, since, LIMIT));
  }

  lemma TakenIsSlice(w: World, k: nat, from: nat, rows: seq<Row>)
    requires Window(w) && k <= |w.log| && rows <= w.log[k..] && 1 <= from
    requires |w.log| - k == MaxPts(w.log) + 1 - from
    requires forall i :: k <= i < |w.log| ==> !w.log[i].marker && w.log[i].pts == from + i - k
    ensures rows != [] ==> rows[0].pts == from && rows[|rows| - 1].pts == from + |rows| - 1
    ensures Slice(w.hist, from - 1, from - 1 + |rows|, rows)
  {
    forall i | 0 <= i < |rows|
      ensures rows[i].pts == from + i && rows[i].payload == w.hist[from + i - 1]
    {
      assert rows[i] == w.log[k + i];
      assert RowOk(w, k + i);
    }
  }

  // ----- the endpoint's promise -----

  /** A response a client can trust: either a call to start over, or exactly the
      events after `since` up to the cursor it hands out. */
  ghost predicate Exact(r: Response, hist: seq<string>, since: nat) {
    r.Answer? ==> r.tooFar || Slice(hist, since, r.lastPts, r.rows)
  }

  /** Losses the endpoint does not notice: a fresh client whose first page starts
      late, and a client just behind a log that retention has emptied. */
  predicate Unnoticed(log: seq<Row>, since: nat) {
    Lost(log, since) &&
    if FirstReadable(log) <= MaxPts(log) then since == 0 else MaxPts(log) <= since + TOO_FAR
  }

  /** With all reads from one state, the response can be trusted exactly when no loss
      goes unnoticed. */
  lemma ExactIffNoticed(w: World, since: nat, waits: bool)
    requires Window(w)
    ensures Exact(GetEvents(w.log, w.log, w.log, w.log, since, waits, false), w.hist, since) <==>
            !Unnoticed(w.log, since)
  {
    ReadableBounds(w);
    if since <= MaxPts(w.log) {
      ReadIsSlice(w, since);
    }
  }

  /** No event is ever reported gone while it can still be read and the client is
      close enough. */
  lemma TooFarIsJustified(w: World, since: nat, waits: bool)
    requires Window(w)
    requires GetEvents(w.log, w.log, w.log, w.log, since, waits, false).tooFar
    ensures since > MaxPts(w.log) || Lost(w.log, since)
  {
    ReadableBounds(w);
    if since <= MaxPts(w.log) {
      ReadIsSlice(w, since);
    }
  }

  /** Nothing more to fetch means nothing more exists. */
  lemma NoMoreMeansCaughtUp(w: World, since: nat, waits: bool)
    requires Window(w)
    requires var r := GetEvents(w.log, w.log, w.log, w.log, since, waits, false); !r.tooFar && !r.hasMore
    ensures GetEvents(w.log, w.log, w.log, w.log, since, waits, false).lastPts == |w.hist|
  {
    ReadIsSlice(w, since);
    ReadableBounds(w);
  }

  /** The marker's documented purpose is to turn such a client away. It does not: once
      everything is older than the cutoff, any client behind the log, but not by more
      than the threshold, is moved to its end with nothing. */
  lemma MarkerSkipsEvents(w: World, cutoff: int, since: nat, waits: bool)
    requires Window(w) && w.log != [] && w.log[|w.log| - 1].ts < cutoff
    requires since < |w.hist| <= since + TOO_FAR
    ensures var log := PruneLog(w.log, cutoff);
            && GetEvents(log, log, log, log, since, waits, false) == Answer([], |w.hist|, false, false)
            && !Exact(GetEvents(log, log, log, log, since, waits, false), w.hist, since)
  {
    var log := PruneLog(w.log, cutoff);
    var k := PruneDropsPrefix(w, cutoff);
    PruneKeeps(w, cutoff);
    assert log == [w.log[|w.log| - 1].(marker := true, payload := "{}")];
    FilterNothing(r => Wanted(r, since), log);
  }

  /** From whichever states the four reads are taken: more is announced exactly with a
      full page; a call to start over comes without rows and hands out the maximum just
      read; and a client is turned away only for want of a place to wait, which it needs
      only if nothing is new and it is not too far behind. */
  lemma AnswerShape(l1: seq<Row>, l2: seq<Row>, l3: seq<Row>, l4: seq<Row>, since: nat, waits: bool, crowded: bool)
    ensures var r := GetEvents(l1, l2, l3, l4, since, waits, crowded);
            && (r.Answer? ==> |r.rows| <= 100 && (r.hasMore <==> |r.rows| == 100))
            && (r.Answer? && r.tooFar ==> r.rows == [] && (r.lastPts == MaxPts(l1) || r.lastPts == MaxPts(l4)))
            && (r.Answer? && r.rows != [] ==> r.lastPts == r.rows[|r.rows| - 1].pts)
            && (r.Answer? && r.rows == [] ==> r.lastPts == MaxPts(l1) || r.lastPts == MaxPts(l4))
            && (r.TooManyWaiters? <==>
                  && crowded && waits && since <= MaxPts(l1) <= since + 1000
                  && forall row :: row in l2 ==> row.pts <= since || row.marker)
  {
    FilterMember(row => Wanted(row, since), l2);
    var rows := Filter(row => Wanted(row, since), l2);
    if rows == [] {
      assert forall row :: row in l2 ==> row !in rows && !Wanted(row, since);
    } else {
      assert rows[0] in l2 && Wanted(rows[0], since);
    }
  }

  // ----- reads at different moments -----

  /** Between two reads events may have been appended, and old ones pruned. */
  ghost predicate Later(w: World, w2: World) {
    && Window(w) && Window(w2) && w.hist <= w2.hist
    && FirstReadable(w.log) <= FirstReadable(w2.log)
  }

  lemma LaterTrans(w: World, w2: World, w3: World)
    requires Later(w, w2) && Later(w2, w3)
    ensures Later(w, w3)
  {
  }

  lemma AppendIsLater(w: World, now: int, payloads: seq<string>)
    requires Window(w) && (w.log != [] ==> w.log[|w.log| - 1].ts <= now)
    ensures Later(w, AppendUpdates(w, now, payloads))
  {
    AppendKeeps(w, now, payloads);
    var w2 := AppendUpdates(w, now, payloads);
    if w.log == [] && w2.log != [] {
      ReadableBounds(w2);
    }
  }

  lemma PruneIsLater(w: World, cutoff: int)
    requires Window(w)
    ensures Later(w, w.(log := PruneLog(w.log, cutoff)))
  {
    PruneKeeps(w, cutoff);
    if w.log != [] {
      var k := PruneDropsPrefix(w, cutoff);
      assert RowOk(w, k) && RowOk(w, |w.log| - 1);
    }
  }

  /** The state whose rows are answered. */
  function PageState(w2: World, w3: World, since: nat, waits: bool): World {
    if GetUpdates(w2.log, since, LIMIT) == [] && waits then w3 else w2
  }

  /** If something was new when the page was read, none of it had been pruned; if nothing
      was, nothing was appended until the closing read. */
  predicate Seamless(page: World, closing: World, since: nat) {
    if since < |page.hist| then !Lost(page.log, since) else |closing.hist| == |page.hist|
  }

  /** Rows that are a slice of the history are the slice after `since` exactly if they
      start there. */
  lemma SliceFrom(hist: seq<string>, hist2: seq<string>, from: nat, since: nat, rows: seq<Row>)
    requires hist <= hist2 && since <= from && Slice(hist, from, from + |rows|, rows) && rows != []
    ensures Slice(hist2, since, from + |rows|, rows) <==> from == since
  {
    assert hist[from..from + |rows|] == hist2[from..from + |rows|];
    assert |Payloads(rows)| == |rows|;
  }

  lemma PageExact(page: World, w4: World, since: nat)
    requires Later(page, w4) && since <= MaxPts(page.log)
    ensures var r := Conclude(GetUpdates(page.log, since, LIMIT), w4.log, since);
            && r.Answer?
            && (Exact(r, w4.hist, since) <==> r.tooFar || Seamless(page, w4, since))
            && (!r.tooFar ==> since <= r.lastPts <= |w4.hist|)
  {
    ReadIsSlice(page, since);
    var rows := GetUpdates(page.log, since, LIMIT);
    if rows != [] {
      var from := if since + 1 < FirstReadable(page.log) then FirstReadable(page.log) else since + 1;
      SliceFrom(page.hist, w4.hist, from - 1, since, rows);
    } else {
      assert Payloads(rows) == [];
    }
  }

  /** With any appends and prunes between the four reads, a response can be trusted if
      and only if it calls for starting over or is seamless. */
  lemma ExactAcrossReads(w1: World, w2: World, w3: World, w4: World, since: nat, waits: bool)
    requires Later(w1, w2) && Later(w2, w3) && Later(w3, w4)
    ensures var r := GetEvents(w1.log, w2.log, w3.log, w4.log, since, waits, false);
            && r.Answer? && r.lastPts <= |w4.hist| && (!r.tooFar ==> since <= r.lastPts)
            && (Exact(r, w4.hist, since) <==>
                  r.tooFar || Seamless(PageState(w2, w3, since, waits), w4, since))
  {
    if since <= MaxPts(w1.log) {
      LaterTrans(w2, w3, w4);
      PageExact(w2, w4, since);
      PageExact(w3, w4, since);
    }
  }

  /** Read from one state, that is the same as no loss going unnoticed. */
  lemma SeamlessIffNoticed(w: World, since: nat, waits: bool)
    requires Window(w)
    ensures var r := GetEvents(w.log, w.log, w.log, w.log, since, waits, false);
            r.tooFar || Seamless(w, w, since) <==> !Unnoticed(w.log, since)
  {
    ExactIffNoticed(w, since, waits);
    ExactAcrossReads(w, w, w, w, since, waits);
  }

  // ----- a client over a whole run -----

  /** `got` is what a client received since it last started over at `start`. */
  datatype Client = Client(start: nat, since: nat, got: seq<string>)

  /** A request under way: the states its reads so far were taken from. */
  datatype Poll =
    | Idle
    | HasMax(w1: World, waits: bool)
    | HasRows(w1: World, w2: World, waits: bool)
    | Waited(w1: World, w2: World, w3: World)

  datatype System = System(w: World, c: Client, poll: Poll)

  /** Between any two reads of a request anything may be appended or pruned. */
  datatype Action =
    | Append(now: int, payloads: seq<string>)
    | Prune(cutoff: int)
    | ReadMax(waits: bool)
    | ReadRows
    | ReadAgain
    | Reply

  /** The read after the wait follows an empty page only. */
  predicate MustWait(p: Poll, since: nat) {
    p.HasRows? && p.waits && GetUpdates(p.w2.log, since, LIMIT) == []
  }

  predicate CanReply(p: Poll, since: nat) {
    p.Waited? || (p.HasRows? && !MustWait(p, since))
  }

  /** The response, its closing read taken from the present state. */
  function ResponseTo(s: System): Response
    requires CanReply(s.poll, s.c.since)
  {
    match s.poll
    case Waited(w1, w2, w3) => GetEvents(w1.log, w2.log, w3.log, s.w.log, s.c.since, true, false)
    case HasRows(w1, w2, waits) => GetEvents(w1.log, w2.log, w2.log, s.w.log, s.c.since, waits, false)
  }

  function PageRead(s: System): World
    requires CanReply(s.poll, s.c.since)
  {
    match s.poll
    case Waited(_, w2, w3) => PageState(w2, w3, s.c.since, true)
    case HasRows(_, w2, _) => w2
  }

  function Receive(c: Client, r: Response): Client {
    if r.TooManyWaiters? then c
    else if r.tooFar then Client(r.lastPts, r.lastPts, [])
    else c.(since := r.lastPts, got := c.got + Payloads(r.rows))
  }

  function Step(s: System, a: Action): System {
    match a
    case Append(now, payloads) => s.(w := AppendUpdates(s.w, now, payloads))
    case Prune(cutoff) => s.(w := s.w.(log := PruneLog(s.w.log, cutoff)))
    case ReadMax(waits) => if s.poll.Idle? then s.(poll := HasMax(s.w, waits)) else s
    case ReadRows => if s.poll.HasMax? then s.(poll := HasRows(s.poll.w1, s.w, s.poll.waits)) else s
    case ReadAgain => if MustWait(s.poll, s.c.since) then s.(poll := Waited(s.poll.w1, s.poll.w2, s.w)) else s
    case Reply =>
      if CanReply(s.poll, s.c.since) then s.(c := Receive(s.c, ResponseTo(s)), poll := Idle) else s
  }

  function Run(actions: seq<Action>): System {
    if actions == [] then System(World([], []), Client(0, 0, []), Idle)
    else Step(Run(actions[..|actions| - 1]), actions[|actions| - 1])
  }

  /** The clock does not run backwards. */
  predicate Timely(s: System, a: Action) {
    a.Append? && s.w.log != [] ==> s.w.log[|s.w.log| - 1].ts <= a.now
  }

  /** The reply, if this is one, starts the client over or is seamless. */
  predicate Fine(s: System, a: Action) {
    a.Reply? && CanReply(s.poll, s.c.since) ==>
      ResponseTo(s).TooManyWaiters? || ResponseTo(s).tooFar || Seamless(PageRead(s), s.w, s.c.since)
  }

  ghost predicate PollOk(s: System) {
    match s.poll
    case Idle => true
    case HasMax(w1, _) => Later(w1, s.w)
    case HasRows(w1, w2, _) => Later(w1, w2) && Later(w2, s.w)
    case Waited(w1, w2, w3) => Later(w1, w2) && Later(w2, w3) && Later(w3, s.w)
  }

  ghost predicate Received(s: System) {
    s.c.start <= s.c.since <= |s.w.hist| && s.c.got == s.w.hist[s.c.start..s.c.since]
  }

  ghost predicate Good(s: System) {
    Window(s.w) && PollOk(s) && Received(s)
  }

  lemma LogGood(s: System, a: Action)
    requires Good(s) && Timely(s, a) && (a.Append? || a.Prune?)
    ensures Good(Step(s, a))
  {
    var s2 := Step(s, a);
    if a.Append? {
      AppendIsLater(s.w, a.now, a.payloads);
    } else {
      PruneIsLater(s.w, a.cutoff);
    }
    match s.poll
    case Idle =>
    case HasMax(w1, _) => LaterTrans(w1, s.w, s2.w);
    case HasRows(_, w2, _) => LaterTrans(w2, s.w, s2.w);
    case Waited(_, _, w3) => LaterTrans(w3, s.w, s2.w);
  }

  lemma LaterSelf(w: World)
    requires Window(w)
    ensures Later(w, w)
  {
  }

  /** Adding an answer keeps the record straight exactly if the answer is exact. */
  lemma Joined(hist: seq<string>, start: nat, since: nat, last: nat, rows: seq<Row>)
    requires start <= since <= last <= |hist|
    ensures hist[start..since] + Payloads(rows) == hist[start..last] <==> Payloads(rows) == hist[since..last]
  {
    assert hist[start..since] + hist[since..last] == hist[start..last];
    if hist[start..since] + Payloads(rows) == hist[start..last] {
      assert Payloads(rows) == (hist[start..since] + Payloads(rows))[since - start..];
    }
  }

  lemma ReplyGood(s: System)
    requires Good(s) && CanReply(s.poll, s.c.since)
    ensures Good(Step(s, Reply)) <==> Fine(s, Reply)
  {
    var r := ResponseTo(s);
    var p := s.poll;
    if p.Waited? {
      ExactAcrossReads(p.w1, p.w2, p.w3, s.w, s.c.since, true);
    } else {
      LaterSelf(p.w2);
      ExactAcrossReads(p.w1, p.w2, p.w2, s.w, s.c.since, p.waits);
    }
    if !r.tooFar {
      Joined(s.w.hist, s.c.start, s.c.since, r.lastPts, r.rows);
    }
  }

  /** One step: the client's record stays straight exactly if the step is fine. */
  lemma StepGood(s: System, a: Action)
    requires Good(s) && Timely(s, a)
    ensures Good(Step(s, a)) <==> Fine(s, a)
  {
    match a
    case Append(_, _) => LogGood(s, a);
    case Prune(_) => LogGood(s, a);
    case ReadMax(_) => LaterSelf(s.w);
    case ReadRows => LaterSelf(s.w);
    case ReadAgain => LaterSelf(s.w);
    case Reply => if CanReply(s.poll, s.c.since) { ReplyGood(s); }
  }

  /** Everything appended over a run. */
  function Appended(actions: seq<Action>): seq<string> {
    if actions == [] then [] else
    var a := actions[|actions| - 1];
    Appended(actions[..|actions| - 1]) + if a.Append? then a.payloads else []
  }

  /** In every run the history is what was appended, in order, whatever was pruned. */
  lemma {:induction false} HistoryIsAppended(actions: seq<Action>)
    requires AllTimely(actions)
    ensures Run(actions).w.hist == Appended(actions) && Window(Run(actions).w)
  {
    if actions != [] {
      var n := |actions| - 1;
      var s, a := Run(actions[..n]), actions[n];
      Earlier(actions, n);
      HistoryIsAppended(actions[..n]);
      assert Timely(Run(actions[..n]), actions[n]);
      HistoryStep(s, a);
    }
  }

  lemma HistoryStep(s: System, a: Action)
    requires Window(s.w) && Timely(s, a)
    ensures Step(s, a).w.hist == s.w.hist + (if a.Append? then a.payloads else []) && Window(Step(s, a).w)
  {
    if a.Append? {
      AppendKeeps(s.w, a.now, a.payloads);
    } else if a.Prune? {
      PruneKeeps(s.w, a.cutoff);
    }
  }

  ghost predicate AllTimely(actions: seq<Action>) {
    forall i :: 0 <= i < |actions| ==> Timely(Run(actions[..i]), actions[i])
  }

  ghost predicate AllFine(actions: seq<Action>) {
    forall i :: 0 <= i < |actions| ==> Fine(Run(actions[..i]), actions[i])
  }

  lemma Earlier(actions: seq<Action>, n: nat)
    requires n <= |actions|
    ensures AllTimely(actions) ==> AllTimely(actions[..n])
    ensures AllFine(actions) ==> AllFine(actions[..n])
  {
    forall i | 0 <= i < n
      ensures actions[..n][..i] == actions[..i] && actions[..n][i] == actions[i]
    {
    }
  }

  /** Over any interleaving of appends, prunes and the reads of polls: what a client has
      received, put together, is the history between where it started over and its
      cursor. */
  lemma {:induction false} ResponsesConcatenate(actions: seq<Action>)
    requires AllTimely(actions) && AllFine(actions)
    ensures Good(Run(actions))
  {
    if actions != [] {
      var n := |actions| - 1;
      Earlier(actions, n);
      ResponsesConcatenate(actions[..n]);
      assert Timely(Run(actions[..n]), actions[n]) && Fine(Run(actions[..n]), actions[n]);
      StepGood(Run(actions[..n]), actions[n]);
    }
  }

  /** And the first reply that is neither a call to start over nor seamless leaves the
      client with something else. */
  lemma FirstGap(actions: seq<Action>, a: Action)
    requires AllTimely(actions + [a]) && AllFine(actions) && !Fine(Run(actions), a)
    ensures Received(Run(actions)) && !Received(Run(actions + [a]))
  {
    assert (actions + [a])[..|actions|] == actions && (actions + [a])[|actions|] == a;
    Earlier(actions + [a], |actions|);
    ResponsesConcatenate(actions);
    StepGood(Run(actions), a);
    assert Timely(Run(actions), a);
  }

  /** In any run: a client that is behind when everything is pruned, and polls next, is
      at the end of the log with nothing of what it missed. */
  lemma PrunedThenPolled(s: System, cutoff: int)
    requires Good(s) && s.poll.Idle? && s.w.log != [] && s.w.log[|s.w.log| - 1].ts < cutoff
    requires s.c.since < |s.w.hist| <= s.c.since + TOO_FAR
    ensures var s2 := Step(Step(Step(Step(s, Prune(cutoff)), ReadMax(false)), ReadRows), Reply);
            s2.c == s.c.(since := |s.w.hist|) && !Received(s2)
  {
    var s1 := Step(s, Prune(cutoff));
    MarkerSkipsEvents(s.w, cutoff, s.c.since, false);
    assert s.c.got + Payloads([]) == s.c.got;
    assert ResponseTo(Step(Step(s1, ReadMax(false)), ReadRows)) == Answer([], |s.w.hist|, false, false);
  }
}
