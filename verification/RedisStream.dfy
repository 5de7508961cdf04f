/** core/stream_buffer.py: one stream in Redis. Appending is one script, which Redis
    runs alone; closing is a pipeline of separate commands, between any two of which
    other clients' commands may run, and which may break off. */
module RedisStream {
  import opened Lists
  import opened StreamBuffer

  datatype Item = Piece(chunk: Chunk) | Tombstone(final: Final)

  datatype Command = SetMeta | AddTombstone | ExpireMeta | ExpireStream

  /** A running close pipeline and the command it sends next. */
  datatype Closer = Closer(state: StreamState, final: Final, next: Command)

  /** `meta` is the state field of the meta hash, absent once the key is gone. */
  datatype State = State(meta: Option<StreamState>, items: seq<Item>, closers: map<nat, Closer>)

  /** After `create`. */
  const Created := State(Some(Pending), [], map[])

  /** A key goes when it expires or when an eviction deletes it. */
  datatype Action =
    | Append(chunk: Chunk)
    | StartClose(id: nat, state: StreamState, final: Final)
    | NextCommand(id: nat)
    | BreakOff(id: nat)
    | MetaGone
    | StreamGone

  /** `_APPEND_CHUNK_LUA`; the second component is its return value. */
  function AppendScript(s: State, chunk: Chunk): (State, bool) {
    if s.meta.None? || Terminal(s.meta.value) then (s, false)
    else (s.(meta := Some(Streaming), items := s.items + [Piece(chunk)]), true)
  }

  function Advance(s: State, id: nat, next: Command): State
    requires id in s.closers
  {
    s.(closers := s.closers[id := s.closers[id].(next := next)])
  }

  function RunCommand(s: State, id: nat): State
    requires id in s.closers
  {
    var c := s.closers[id];
    match c.next
    case SetMeta => Advance(s.(meta := Some(c.state)), id, AddTombstone)
    case AddTombstone => Advance(s.(items := s.items + [Tombstone(c.final)]), id, ExpireMeta)
    case ExpireMeta => Advance(s, id, ExpireStream)
    case ExpireStream => s.(closers := s.closers - {id})
  }

  function Step(s: State, a: Action): State {
    match a
    case Append(chunk) => AppendScript(s, chunk).0
    case StartClose(id, state, final) =>
      if id in s.closers || !Terminal(state) then s
      else s.(closers := s.closers[id := Closer(state, final, SetMeta)])
    case NextCommand(id) => if id in s.closers then RunCommand(s, id) else s
    case BreakOff(id) => s.(closers := s.closers - {id})
    case MetaGone => s.(meta := None)
    case StreamGone => s.(items := [])
  }

  function Run(actions: seq<Action>): State {
    if actions == [] then Created else Step(Run(actions[..|actions| - 1]), actions[|actions| - 1])
  }

  predicate HasTombstone(items: seq<Item>) {
    exists i :: 0 <= i < |items| && items[i].Tombstone?
  }

  /** Closed to appends. */
  predicate Shut(s: State) {
    s.meta.None? || Terminal(s.meta.value)
  }

  ghost predicate NoChunkAfterTombstone(items: seq<Item>) {
    forall i, j :: 0 <= i < j < |items| && items[i].Tombstone? ==> items[j].Tombstone?
  }

  ghost predicate Inv(s: State) {
    && NoChunkAfterTombstone(s.items)
    && (HasTombstone(s.items) ==> Shut(s))
    && (forall id :: id in s.closers ==> Terminal(s.closers[id].state) && (!s.closers[id].next.SetMeta? ==> Shut(s)))
  }

  /** Nothing reopens a stream. */
  lemma ShutForGood(s: State, a: Action)
    requires Inv(s) && Shut(s)
    ensures Shut(Step(s, a))
  {
  }

  lemma StepKeeps(s: State, a: Action)
    requires Inv(s)
    ensures Inv(Step(s, a))
  {
    var s2 := Step(s, a);
    if a.Append? && HasTombstone(s2.items) {
      var i :| 0 <= i < |s2.items| && s2.items[i].Tombstone?;
      assert s.items[i].Tombstone?;
    }
  }

  lemma {:induction false} RunInvariant(actions: seq<Action>)
    ensures Inv(Run(actions)) && NoChunkAfterTombstone(Run(actions).items)
  {
    if actions != [] {
      RunInvariant(actions[..|actions| - 1]);
      StepKeeps(Run(actions[..|actions| - 1]), actions[|actions| - 1]);
    }
  }

  /** Once a terminal state was set, no later state of the run is live again. */
  lemma {:induction false} NeverRevertsToStreaming(actions: seq<Action>, more: seq<Action>)
    requires Shut(Run(actions))
    ensures Shut(Run(actions + more))
  {
    if more == [] {
      assert actions + more == actions;
    } else {
      var n := |more| - 1;
      NeverRevertsToStreaming(actions, more[..n]);
      assert (actions + more)[..|actions + more| - 1] == actions + more[..n];
      RunInvariant(actions + more[..n]);
      ShutForGood(Run(actions + more[..n]), more[n]);
    }
  }

  function Chunks(items: seq<Item>): seq<Chunk> {
    if items == [] then [] else
    var front := Chunks(items[..|items| - 1]);
    if items[|items| - 1].Piece? then front + [items[|items| - 1].chunk] else front
  }

  /** What a reader that stops at the first tombstone sees. */
  function SeenByReader(items: seq<Item>): seq<Chunk> {
    if items == [] || items[0].Tombstone? then [] else [items[0].chunk] + SeenByReader(items[1..])
  }

  lemma {:induction false} ChunksCons(items: seq<Item>)
    requires items != []
    ensures Chunks(items) == (if items[0].Piece? then [items[0].chunk] else []) + Chunks(items[1..])
  {
    if |items| > 1 {
      var n := |items| - 1;
      ChunksCons(items[..n]);
      assert items[..n][1..] == items[1..][..n - 1];
    } else {
      assert items[..0] == [] && items[1..] == [];
    }
  }

  lemma {:induction false} ReaderMissesNothing(items: seq<Item>)
    requires NoChunkAfterTombstone(items)
    ensures SeenByReader(items) == Chunks(items)
  {
    if items != [] {
      ChunksCons(items);
      ReaderMissesNothing(items[1..]);
      if items[0].Tombstone? && items[1..] != [] {
        assert items[1..][0].Tombstone?;
      }
    }
  }

  /** In every interleaving of scripts, pipelines, expiry and deletion, a reader that
      stops at the tombstone has seen every chunk the stream holds. */
  lemma TombstoneHidesNothing(actions: seq<Action>)
    ensures SeenByReader(Run(actions).items) == Chunks(Run(actions).items)
  {
    RunInvariant(actions);
    ReaderMissesNothing(Run(actions).items);
  }

  // ----- what the stream holds, told from the schedule -----

  /** The chunks of the appends that found the stream open, since its key last went. */
  function Acknowledged(actions: seq<Action>): seq<Chunk> {
    if actions == [] then [] else
    var front, a := actions[..|actions| - 1], actions[|actions| - 1];
    if a.StreamGone? then []
    else if a.Append? && !Shut(Run(front)) then Acknowledged(front) + [a.chunk]
    else Acknowledged(front)
  }

  lemma ChunksSnoc(items: seq<Item>, item: Item)
    ensures Chunks(items + [item]) == Chunks(items) + if item.Piece? then [item.chunk] else []
  {
    assert (items + [item])[..|items|] == items;
  }

  /** The script says yes exactly on an open stream, which then holds the chunk and stays
      open; a refusal changes nothing. */
  lemma ScriptAnswers(s: State, chunk: Chunk)
    ensures var (s2, ok) := AppendScript(s, chunk);
            && (ok <==> !Shut(s))
            && (ok ==> Chunks(s2.items) == Chunks(s.items) + [chunk] && s2.meta == Some(Streaming) && s2.closers == s.closers)
            && (!ok ==> s2 == s)
  {
    ChunksSnoc(s.items, Piece(chunk));
  }

  lemma ChunksStep(s: State, a: Action)
    ensures Chunks(Step(s, a).items) ==
            if a.StreamGone? then []
            else Chunks(s.items) + if a.Append? && !Shut(s) then [a.chunk] else []
  {
    match a
    case Append(chunk) => ScriptAnswers(s, chunk);
    case NextCommand(id) => if id in s.closers { ChunksSnoc(s.items, Tombstone(s.closers[id].final)); }
    case _ =>
  }

  /** In every run the stream holds exactly the acknowledged chunks, in order, since its
      key last went. */
  lemma {:induction false} HoldsAcknowledged(actions: seq<Action>)
    ensures Chunks(Run(actions).items) == Acknowledged(actions)
  {
    if actions != [] {
      HoldsAcknowledged(actions[..|actions| - 1]);
      ChunksStep(Run(actions[..|actions| - 1]), actions[|actions| - 1]);
    }
  }

  /** Some close of the schedule asked for this state and this final frame. */
  ghost predicate Asked(actions: seq<Action>, state: StreamState, final: Final) {
    Terminal(state) && exists j, id :: 0 <= j < |actions| && actions[j] == StartClose(id, state, final)
  }

  lemma AskedStays(actions: seq<Action>, a: Action, state: StreamState, final: Final)
    requires Asked(actions, state, final)
    ensures Asked(actions + [a], state, final)
  {
    var j, id :| 0 <= j < |actions| && actions[j] == StartClose(id, state, final);
    assert (actions + [a])[j] == StartClose(id, state, final);
  }

  /** Whatever the stream says about its end, one close of the schedule asked for. */
  ghost predicate SaysWhatWasAsked(s: State, actions: seq<Action>) {
    && (forall id :: id in s.closers ==> Asked(actions, s.closers[id].state, s.closers[id].final))
    && (forall i :: 0 <= i < |s.items| && s.items[i].Tombstone? ==> exists state :: Asked(actions, state, s.items[i].final))
    && (s.meta.Some? && Terminal(s.meta.value) ==> exists final :: Asked(actions, s.meta.value, final))
  }

  lemma AskedStep(s: State, actions: seq<Action>, a: Action)
    requires SaysWhatWasAsked(s, actions)
    ensures SaysWhatWasAsked(Step(s, a), actions + [a])
  {
    var s2 := Step(s, a);
    forall state, final | Asked(actions, state, final)
      ensures Asked(actions + [a], state, final)
    {
      AskedStays(actions, a, state, final);
    }
    assert (actions + [a])[|actions|] == a;
    forall i | 0 <= i < |s2.items| && s2.items[i].Tombstone?
      ensures exists state :: Asked(actions + [a], state, s2.items[i].final)
    {
      if i < |s.items| {
        var state :| Asked(actions, state, s.items[i].final);
        assert Asked(actions + [a], state, s2.items[i].final);
      } else {
        var c := s.closers[a.id];
        assert Asked(actions + [a], c.state, s2.items[i].final);
      }
    }
  }

  lemma {:induction false} EndsAsAsked(actions: seq<Action>)
    ensures SaysWhatWasAsked(Run(actions), actions)
  {
    if actions != [] {
      var n := |actions| - 1;
      EndsAsAsked(actions[..n]);
      AskedStep(Run(actions[..n]), actions[..n], actions[n]);
      assert actions == actions[..n] + [actions[n]];
    }
  }

  /** A close whose four commands all run ends the stream as it was asked to. */
  lemma CloseRunsThrough(s: State, id: nat, state: StreamState, final: Final)
    requires id !in s.closers && Terminal(state)
    ensures var s0 := Step(s, StartClose(id, state, final));
            var s4 := Step(Step(Step(Step(s0, NextCommand(id)), NextCommand(id)), NextCommand(id)), NextCommand(id));
            s4 == s.(meta := Some(state), items := s.items + [Tombstone(final)])
  {
    assert s.closers[id := Closer(state, final, ExpireStream)] - {id} == s.closers;
  }

  /** A pipeline that broke off sends nothing more, and what it sent stays; a stream
      whose meta hash is gone takes no chunk. */
  lemma BrokenOff(s: State, id: nat, chunk: Chunk)
    ensures var s2 := Step(s, BreakOff(id));
            && Step(s2, NextCommand(id)) == s2 && s2.items == s.items && s2.meta == s.meta
            && forall other :: other != id && other in s.closers ==> other in s2.closers && s2.closers[other] == s.closers[other]
    ensures var s2 := Step(s, MetaGone);
            !AppendScript(s2, chunk).1 && s2.items == s.items && s2.closers == s.closers
  {
  }

  /** The script has to be one step: reading the state first and writing later, with a
      close in between, puts a chunk behind the tombstone. */
  lemma SplitAppendBreaks(chunk: Chunk, final: Final)
    ensures var s := RunCommand(RunCommand(Step(Created, StartClose(0, ClosedOk, final)), 0), 0);
            && !Shut(Created)
            && !NoChunkAfterTombstone(s.items + [Piece(chunk)])
            && AppendScript(s, chunk) == (s, false)
  {
    var s := RunCommand(RunCommand(Step(Created, StartClose(0, ClosedOk, final)), 0), 0);
    var items := s.items + [Piece(chunk)];
    assert items[0].Tombstone? && items[1] == Piece(chunk);
  }
}
