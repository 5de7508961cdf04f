/** handlers/conversations_service.py: what peers are told about a session besides its
    messages: that it exists, whether it is deleted, and which stream is running. */
module SessionMarks {
  import opened Lists
  import opened Conversations

  /** What a step adds to the log. */
  function Fresh(s: State, op: Op): seq<Event> {
    if |s.events| <= |Step(s, op).events| then Step(s, op).events[|s.events|..] else []
  }

  /** The turns that do something: a stream starts on an idle session and closes on a
      busy one. */
  predicate Turns(s: State, op: Op) {
    ((op.Pair? || op.StreamStart?) && s.inflight.None?) || (op.StreamClose? && s.inflight.Some?)
  }

  predicate Ends(s: State, op: Op) {
    (op.StreamClose? || op.StreamFail?) && s.inflight.Some?
  }

  /** A turn, or the end of a failed stream, tells peers first about the row, then the
      messages, then the stream. */
  function RowNews(s: State, op: Op): (news: seq<Event>)
    ensures |news| <= 1 && forall e :: e in news ==> e.SessionCreated? || e == MetaUpdated(false)
  {
    if Turns(s, op) && op.sync.Synced? then Opening(s, op.StreamClose?) else []
  }

  function MessageNews(s: State, op: Op): (news: seq<Event>)
    ensures forall e :: e in news ==> e.Added?
  {
    if !Turns(s, op) || !op.sync.Synced? then []
    else if op.Pair? then TurnEvents(op.turn, false)
    else if op.StreamStart? then [Added(History.User, op.text, op.files, false)]
    else TurnEvents(StreamedTurn(s.inflight.value.user, op.reply, op.incomplete), true)
  }

  function StreamNews(s: State, op: Op): (news: seq<Event>)
    ensures |news| <= 1
  {
    if op.StreamStart? && s.inflight.None? && op.sync.Synced? then [StreamStarted(op.id)]
    else if Ends(s, op) && op.told then [StreamEnded(s.inflight.value.id)]
    else []
  }

  /** Only an answer that was stopped is flagged as incomplete. */
  lemma FlagsTold(s: State, op: Op)
    ensures forall e :: e in MessageNews(s, op) ==>
              (e.incomplete <==>
                 e.role == History.Assistant && if op.Pair? then op.turn.incomplete else op.StreamClose? && op.incomplete)
  {
  }

  lemma TurnSays(s: State, op: Op)
    requires Turns(s, op) || Ends(s, op)
    ensures Step(s, op).events == s.events + RowNews(s, op) + MessageNews(s, op) + StreamNews(s, op)
    ensures Fresh(s, op) == RowNews(s, op) + MessageNews(s, op) + StreamNews(s, op)
  {
    var r, m, n := RowNews(s, op), MessageNews(s, op), StreamNews(s, op);
    assert s.events + [] == s.events;
    match op
    case Pair(_, _, _, sync) => assert s.events + r + m + [] == s.events + r + m;
    case StreamStart(_, _, _, _) => assert s.events + r + (m + n) == s.events + r + m + n;
    case StreamClose(_, _, _, _, _, _) => assert s.events + r + m + n == (s.events + r + m) + n;
    case StreamFail(_) => assert s.events + [] + [] + n == s.events + n;
  }

  lemma {:induction false} DeletesDownDelete(rendered: seq<History.Rendered>, from: nat)
    requires from <= |rendered|
    ensures forall e :: e in DeletesDown(rendered, from) ==> e.Deleted?
  {
    if from < |rendered| {
      DeletesDownDelete(rendered[..|rendered| - 1], from);
    }
  }

  lemma AnnouncedSaysMessages(rendered: seq<History.Rendered>, index: nat, m: History.Rendered)
    requires index <= |rendered|
    ensures forall e :: e in Announced(rendered, index, m) ==> e.Deleted? || e.Added?
  {
    DeletesDownDelete(rendered, index);
  }

  /** An edit says something about messages only, if anything. */
  ghost predicate OnlyMessages(s: State, s2: State) {
    && s.events <= s2.events
    && forall e :: e in s2.events[|s.events|..] ==> e.Deleted? || e.Added? || e.Cleared?
  }

  lemma EditedSays(cut: State, raw: seq<History.RawItem>, events: seq<Event>, fault: Fault)
    requires forall e :: e in events ==> e.Deleted? || e.Added? || e.Cleared?
    ensures OnlyMessages(cut, Edited(cut, raw, events, fault))
    ensures Edited(cut, raw, events, fault).inflight == cut.inflight
    ensures Marked(Edited(cut, raw, events, fault)) == Marked(cut)
    ensures cut.meta.Some? ==> Edited(cut, raw, events, fault).meta.Some?
  {
  }

  /** Editing messages touches neither the deletion mark nor the running stream. */
  lemma EditsSay(s: State, op: Op)
    requires op.Delete? || op.Regenerate? || op.Clear?
    ensures OnlyMessages(s, Step(s, op)) && Step(s, op).inflight == s.inflight
    ensures Marked(Step(s, op)) == Marked(s) && (s.meta.Some? ==> Step(s, op).meta.Some?)
  {
    if op.Regenerate? && s.inflight.None? && Regenerable(s, op.index) && op.truncates && NewMessage(op.made).Some? {
      RegenerateIsEdit(s, op.index, op.made, op.fault);
      AnnouncedSaysMessages(History.Normalize(s.raw), op.index, NewMessage(op.made).value);
      EditedSays(Cut(s, op.index), Cut(s, op.index).raw + NewItems(op.made),
                 Announced(History.Normalize(s.raw), op.index, NewMessage(op.made).value), op.fault);
    }
  }

  // ----- the row -----

  predicate Marked(s: State) {
    s.meta.Some? && s.meta.value.deleted
  }

  /** A turn that gets as far as the row creates or undeletes it and counts its
      messages; it opens with telling peers so, if that had to be done. */
  lemma TurnsOpen(s: State, op: Op)
    requires Turns(s, op)
    ensures Step(s, op).meta ==
            if op.sync.FailsBeforeMeta? then s.meta else Some(Meta(Count(s) + (if op.Pair? then 2 else 1), false))
    ensures s.events <= Step(s, op).events
    ensures op.sync.Synced? && s.meta.None? && !op.StreamClose? ==> [SessionCreated] <= Fresh(s, op)
    ensures op.sync.Synced? && Marked(s) ==> [MetaUpdated(false)] <= Fresh(s, op)
  {
    TurnSays(s, op);
  }

  lemma FreshIs(s: State, op: Op, more: seq<Event>)
    requires Step(s, op).events == s.events + more
    ensures Fresh(s, op) == more
  {
  }

  lemma MarkSays(s: State, op: Op)
    requires op.Mark?
    ensures Step(s, op).events == s.events + if op.sync.Synced? then [MetaUpdated(op.deleted)] else []
  {
    assert s.events + [] == s.events;
  }

  lemma IdleSays(s: State, op: Op)
    requires !Turns(s, op) && !Ends(s, op) && !op.Mark? && !(op.Delete? || op.Regenerate? || op.Clear?)
    ensures Step(s, op) == s
  {
  }

  lemma StepOnlyAppends(s: State, op: Op)
    ensures Step(s, op).events == s.events + Fresh(s, op)
  {
    if Turns(s, op) || Ends(s, op) {
      TurnSays(s, op);
      Associates(s.events, RowNews(s, op), MessageNews(s, op));
      Associates(s.events, RowNews(s, op) + MessageNews(s, op), StreamNews(s, op));
    } else if op.Delete? || op.Regenerate? || op.Clear? {
      EditsSay(s, op);
      FreshIs(s, op, Step(s, op).events[|s.events|..]);
    } else if op.Mark? {
      MarkSays(s, op);
      FreshIs(s, op, if op.sync.Synced? then [MetaUpdated(op.deleted)] else []);
    } else {
      IdleSays(s, op);
      assert s.events + [] == s.events;
      FreshIs(s, op, []);
    }
  }

  lemma RowStays(s: State, op: Op)
    requires s.meta.Some?
    ensures Step(s, op).meta.Some?
  {
    if op.Delete? || op.Regenerate? || op.Clear? {
      EditsSay(s, op);
    }
  }

  predicate Creates(s: State, op: Op) {
    s.meta.None? && (op.Pair? || op.StreamStart?) && s.inflight.None? && op.sync.Synced?
  }

  lemma RowNewsCreates(s: State, op: Op)
    ensures SessionCreated in RowNews(s, op) <==> Creates(s, op)
    ensures Creates(s, op) ==> RowNews(s, op) == [SessionCreated] && Step(s, op).meta.Some?
  {
  }

  lemma AheadOfTheRest(row: seq<Event>, rest: seq<Event>)
    requires |row| <= 1 && SessionCreated !in rest
    ensures SessionCreated in row + rest <==> SessionCreated in row
    ensures forall k :: 0 < k < |row + rest| ==> !(row + rest)[k].SessionCreated?
  {
    forall k | 0 < k < |row + rest|
      ensures !(row + rest)[k].SessionCreated?
    {
      assert (row + rest)[k] == rest[k - |row|] && rest[k - |row|] in rest;
    }
  }

  /** A session is announced by the turn that makes its row, ahead of its messages, and
      by nothing else. */
  lemma CreationTold(s: State, op: Op)
    ensures SessionCreated in Fresh(s, op) <==> Creates(s, op)
    ensures Creates(s, op) ==> Step(s, op).meta.Some? && [SessionCreated] <= Fresh(s, op)
    ensures forall k :: 0 < k < |Fresh(s, op)| ==> !Fresh(s, op)[k].SessionCreated?
  {
    RowNewsCreates(s, op);
    if Turns(s, op) || Ends(s, op) {
      TurnSays(s, op);
      Associates(RowNews(s, op), MessageNews(s, op), StreamNews(s, op));
      AheadOfTheRest(RowNews(s, op), MessageNews(s, op) + StreamNews(s, op));
    } else {
      NotATurn(s, op);
    }
  }

  lemma NotATurn(s: State, op: Op)
    requires !Turns(s, op) && !Ends(s, op)
    ensures forall e :: e in Fresh(s, op) ==> !e.SessionCreated?
    ensures !Creates(s, op)
  {
    if op.Delete? || op.Regenerate? || op.Clear? {
      EditsSay(s, op);
      FreshIs(s, op, Step(s, op).events[|s.events|..]);
    } else if op.Mark? {
      MarkSays(s, op);
      FreshIs(s, op, if op.sync.Synced? then [MetaUpdated(op.deleted)] else []);
    } else {
      IdleSays(s, op);
    }
  }

  /** In no run are peers told twice that the session was created. */
  lemma {:induction false} CreatedOnce(ops: seq<Op>)
    ensures var e := Run(ops).events;
            && (SessionCreated in e ==> Run(ops).meta.Some?)
            && forall i, j :: 0 <= i < j < |e| ==> !(e[i].SessionCreated? && e[j].SessionCreated?)
  {
    if ops != [] {
      var n := |ops| - 1;
      CreatedOnce(ops[..n]);
      StepOnlyAppends(Run(ops[..n]), ops[n]);
      if Run(ops[..n]).meta.Some? {
        RowStays(Run(ops[..n]), ops[n]);
      }
      CreationTold(Run(ops[..n]), ops[n]);
      JoinOnce(Run(ops[..n]).events, Fresh(Run(ops[..n]), ops[n]));
    }
  }

  lemma JoinOnce(a: seq<Event>, b: seq<Event>)
    requires forall i, j :: 0 <= i < j < |a| ==> !(a[i].SessionCreated? && a[j].SessionCreated?)
    requires forall k :: 0 < k < |b| ==> !b[k].SessionCreated?
    requires b != [] && b[0].SessionCreated? ==> SessionCreated !in a
    ensures forall i, j :: 0 <= i < j < |a + b| ==> !((a + b)[i].SessionCreated? && (a + b)[j].SessionCreated?)
  {
    forall i, j | 0 <= i < j < |a + b| && (a + b)[j].SessionCreated?
      ensures !(a + b)[i].SessionCreated?
    {
      if i < |a| <= j {
        assert a[i] in a;
      }
    }
  }

  // ----- the deletion mark -----

  /** Whether a peer takes the session for deleted. */
  function MarkSeen(events: seq<Event>): bool {
    if events == [] then false else
    match events[|events| - 1]
    case SessionCreated => false
    case MetaUpdated(deleted) => deleted
    case _ => MarkSeen(events[..|events| - 1])
  }

  lemma MarkSnoc(events: seq<Event>, e: Event)
    ensures MarkSeen(events + [e]) ==
            if e.SessionCreated? then false else if e.MetaUpdated? then e.deleted else MarkSeen(events)
  {
    assert (events + [e])[..|events|] == events;
  }

  /** Events that leave the mark alone. */
  lemma {:induction false} MarkStays(events: seq<Event>, more: seq<Event>)
    requires forall e :: e in more ==> !e.SessionCreated? && !e.MetaUpdated?
    ensures MarkSeen(events + more) == MarkSeen(events)
  {
    if more == [] {
      assert events + more == events;
    } else {
      var n := |more| - 1;
      assert more[n] in more;
      MarkStays(events, more[..n]);
      MarkSnoc(events + more[..n], more[n]);
      assert events + more == events + more[..n] + [more[n]];
    }
  }

  ghost predicate MarkAgrees(s: State) {
    MarkSeen(s.events) == Marked(s)
  }

  /** The row's mark changes and nobody is told. */
  predicate HidesMark(s: State, op: Op) {
    || (Turns(s, op) && op.sync.FailsAfterMeta? && Marked(s))
    || (op.Mark? && op.sync.FailsAfterMeta? && op.deleted != Marked(s))
  }

  lemma MarkParts(events: seq<Event>, row: seq<Event>, rest: seq<Event>)
    requires |row| <= 1 && forall e :: e in row ==> e.SessionCreated? || e == MetaUpdated(false)
    requires forall e :: e in rest ==> !e.SessionCreated? && !e.MetaUpdated?
    ensures MarkSeen(events + row + rest) == (row == [] && MarkSeen(events))
  {
    MarkStays(events + row, rest);
    if row == [] {
      assert events + row == events;
    } else {
      MarkSnoc(events, row[0]);
      assert row == [row[0]];
    }
  }

  lemma TurnSeen(s: State, op: Op)
    requires Turns(s, op) || Ends(s, op)
    ensures MarkSeen(Step(s, op).events) == (RowNews(s, op) == [] && MarkSeen(s.events))
  {
    var r, m, n := RowNews(s, op), MessageNews(s, op), StreamNews(s, op);
    TurnSays(s, op);
    RestUnmarked(s, op);
    MarkParts(s.events, r, m + n);
    Associates(s.events + r, m, n);
  }

  lemma RestUnmarked(s: State, op: Op)
    ensures forall e :: e in MessageNews(s, op) + StreamNews(s, op) ==> !e.SessionCreated? && !e.MetaUpdated?
  {
    assert forall e :: e in StreamNews(s, op) ==> e.StreamStarted? || e.StreamEnded?;
  }

  lemma TurnMarks(s: State, op: Op)
    requires (Turns(s, op) || Ends(s, op)) && MarkAgrees(s)
    ensures MarkAgrees(Step(s, op)) <==> !HidesMark(s, op)
  {
    TurnSeen(s, op);
    TurnRow(s, op);
  }

  /** The mark after a turn, and whether peers are told. */
  lemma TurnRow(s: State, op: Op)
    requires Turns(s, op) || Ends(s, op)
    ensures Marked(Step(s, op)) == (Marked(s) && (!Turns(s, op) || op.sync.FailsBeforeMeta?))
    ensures Marked(s) ==> (RowNews(s, op) == [] <==> !Turns(s, op) || !op.sync.Synced?)
  {
    if Turns(s, op) {
      TurnsOpen(s, op);
    }
  }

  /** Peers and server agree on the deletion mark after a step exactly unless it hid a
      change of it. */
  lemma MarkStepAgrees(s: State, op: Op)
    requires MarkAgrees(s)
    ensures MarkAgrees(Step(s, op)) <==> !HidesMark(s, op)
  {
    if Turns(s, op) || Ends(s, op) {
      TurnMarks(s, op);
    } else if op.Mark? {
      MarkSnoc(s.events, MetaUpdated(op.deleted));
    } else {
      if op.Delete? || op.Regenerate? || op.Clear? {
        EditsSay(s, op);
      }
      StepOnlyAppends(s, op);
      MarkStays(s.events, Fresh(s, op));
    }
  }

  /** Over any run in which no change was hidden, deleting and undeleting devices and
      turns on stale tabs included. */
  lemma {:induction false} MarksConverge(ops: seq<Op>)
    requires forall i :: 0 <= i < |ops| ==> !HidesMark(Run(ops[..i]), ops[i])
    ensures MarkAgrees(Run(ops))
  {
    if ops != [] {
      var n := |ops| - 1;
      forall i | 0 <= i < n
        ensures !HidesMark(Run(ops[..n][..i]), ops[..n][i])
      {
        assert ops[..n][..i] == ops[..i];
      }
      MarksConverge(ops[..n]);
      MarkStepAgrees(Run(ops[..n]), ops[n]);
    }
  }

  // ----- the running stream -----

  /** The stream that peers show as running. */
  function OpenStream(events: seq<Event>): Option<string> {
    if events == [] then None else
    match events[|events| - 1]
    case StreamStarted(id) => Some(id)
    case StreamEnded(_) => None
    case _ => OpenStream(events[..|events| - 1])
  }

  /** Streams start one after the other, and each is ended under its own id. */
  ghost predicate Bracketed(events: seq<Event>) {
    forall i :: 0 <= i < |events| ==> Fits(OpenStream(events[..i]), events[i])
  }

  predicate Fits(open: Option<string>, e: Event) {
    && (e.StreamStarted? ==> open.None?)
    && (e.StreamEnded? ==> open.None? || open == Some(e.id))
  }

  lemma StreamSnoc(events: seq<Event>, e: Event)
    ensures OpenStream(events + [e]) ==
            if e.StreamStarted? then Some(e.id) else if e.StreamEnded? then None else OpenStream(events)
    ensures Bracketed(events + [e]) <==> Bracketed(events) && Fits(OpenStream(events), e)
  {
    var all := events + [e];
    assert all[..|events|] == events;
    assert forall i :: 0 <= i < |events| ==> all[..i] == events[..i] && all[i] == events[i];
    if Bracketed(all) {
      assert Fits(OpenStream(all[..|events|]), all[|events|]);
      forall i | 0 <= i < |events|
        ensures Fits(OpenStream(events[..i]), events[i])
      {
        assert Fits(OpenStream(all[..i]), all[i]);
      }
    }
  }

  lemma {:induction false} OpenStays(events: seq<Event>, more: seq<Event>)
    requires forall e :: e in more ==> !e.StreamStarted? && !e.StreamEnded?
    ensures OpenStream(events + more) == OpenStream(events)
  {
    if more == [] {
      assert events + more == events;
    } else {
      var n := |more| - 1;
      assert more[n] in more;
      OpenStays(events, more[..n]);
      assert (events + more)[..|events + more| - 1] == events + more[..n];
    }
  }

  lemma {:induction false} BracketStays(events: seq<Event>, more: seq<Event>)
    requires forall e :: e in more ==> !e.StreamStarted? && !e.StreamEnded?
    ensures Bracketed(events + more) <==> Bracketed(events)
  {
    if more == [] {
      assert events + more == events;
    } else {
      var n := |more| - 1;
      assert more[n] in more;
      BracketStays(events, more[..n]);
      StreamSnoc(events + more[..n], more[n]);
      assert events + more == events + more[..n] + [more[n]];
    }
  }

  /** What each step says about streams: a start its own id, an end the id of the stream
      that ran, last and once. */
  lemma StepStreams(s: State, op: Op) returns (front: seq<Event>)
    ensures Step(s, op).events == s.events + front + StreamNews(s, op)
    ensures forall e :: e in front ==> !e.StreamStarted? && !e.StreamEnded?
  {
    if Turns(s, op) || Ends(s, op) {
      front := RowNews(s, op) + MessageNews(s, op);
      TurnSays(s, op);
      Associates(s.events, RowNews(s, op), MessageNews(s, op));
    } else {
      front := Fresh(s, op);
      StepOnlyAppends(s, op);
      assert s.events + front + [] == s.events + front;
      if op.Delete? || op.Regenerate? || op.Clear? {
        EditsSay(s, op);
      }
    }
  }

  lemma StepRuns(s: State, op: Op)
    ensures Step(s, op).inflight ==
            if op.StreamStart? && s.inflight.None? then Some(Running(op.id, History.Rendered(History.User, op.text, op.files)))
            else if Ends(s, op) then None
            else s.inflight
  {
    if op.Delete? || op.Regenerate? || op.Clear? {
      EditsSay(s, op);
    }
  }

  lemma StreamParts(events: seq<Event>, front: seq<Event>, news: seq<Event>)
    requires |news| <= 1 && forall e :: e in front ==> !e.StreamStarted? && !e.StreamEnded?
    ensures news == [] ==>
              && OpenStream(events + front + news) == OpenStream(events)
              && (Bracketed(events + front + news) <==> Bracketed(events))
    ensures news != [] ==>
              && OpenStream(events + front + news) ==
                 (if news[0].StreamStarted? then Some(news[0].id)
                  else if news[0].StreamEnded? then None else OpenStream(events))
              && (Bracketed(events + front + news) <==> Bracketed(events) && Fits(OpenStream(events), news[0]))
  {
    OpenStays(events, front);
    BracketStays(events, front);
    if news == [] {
      assert events + front + news == events + front;
    } else {
      assert news == [news[0]];
      StreamSnoc(events + front, news[0]);
    }
  }

  /** Peers show a stream as running only while it runs, and never two at a time. */
  ghost predicate StreamsAgree(s: State) {
    && Bracketed(s.events)
    && (OpenStream(s.events).Some? ==> s.inflight.Some? && s.inflight.value.id == OpenStream(s.events).value)
  }

  /** The end of a stream that peers show as running is not told. */
  predicate LosesEnd(s: State, op: Op) {
    Ends(s, op) && !op.told && OpenStream(s.events).Some?
  }

  lemma StreamStepAgrees(s: State, op: Op)
    requires StreamsAgree(s)
    ensures StreamsAgree(Step(s, op)) <==> !LosesEnd(s, op)
  {
    var front := StepStreams(s, op);
    StreamParts(s.events, front, StreamNews(s, op));
    StepRuns(s, op);
  }

  /** Over any run in which no such end was lost. */
  lemma {:induction false} StreamsEndOnce(ops: seq<Op>)
    requires forall i :: 0 <= i < |ops| ==> !LosesEnd(Run(ops[..i]), ops[i])
    ensures StreamsAgree(Run(ops))
  {
    if ops != [] {
      var n := |ops| - 1;
      forall i | 0 <= i < n
        ensures !LosesEnd(Run(ops[..n][..i]), ops[..n][i])
      {
        assert ops[..n][..i] == ops[..i];
      }
      StreamsEndOnce(ops[..n]);
      StreamStepAgrees(Run(ops[..n]), ops[n]);
    }
  }
}
