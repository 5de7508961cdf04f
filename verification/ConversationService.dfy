/** handlers/conversations_service.py: the operations as they run, loop by loop and
    write by write, each proved to be one step of Conversations. */
module ConversationService {
  import opened Lists
  import opened History
  import opened Conversations

  lemma OneMoreDropped(rendered: seq<Rendered>, r: nat, from: nat, batch: seq<Event>)
    requires from <= r < |rendered|
    ensures batch + DeletesDown(rendered[..r + 1], from) ==
            (batch + [Deleted(r, rendered[r].role)]) + DeletesDown(rendered[..r], from)
  {
    DeletesDownStep(rendered, r, from);
    Associates(batch, [Deleted(r, rendered[r].role)], DeletesDown(rendered[..r], from));
  }

  class Service {
    var raw: seq<RawItem>
    var meta: Option<Meta>
    var events: seq<Event>
    var inflight: Option<Running>

    ghost function Abs(): State
      reads this
    {
      State(raw, meta, events, inflight)
    }

    constructor ()
      ensures Abs() == Empty
    {
      raw, meta, events, inflight := [], None, [], None;
    }

    // ----- turns -----

    method BuildParts(text: string, files: seq<string>, store: set<string>) returns (parts: seq<Segment>)
      ensures parts == PartsOf(text, files, store)
    {
      parts := if text != "" then [TextPart(text)] else [];
      ghost var base := parts;
      for i := 0 to |files|
        invariant parts == WithImages(base, Resolved(files[..i], store))
      {
        assert files[..i + 1] == files[..i] + [files[i]];
        FilterSnoc(f => Resolvable(store, f), files[..i], files[i]);
        if files[i] == "" || files[i] !in store {
          continue;
        }
        parts := parts + [ImagePart(files[i])];
      }
      assert files[..|files|] == files;
      if parts == [] {
        parts := [TextPart(text)];
      }
    }

    method CmPersistPair(turn: Turn, stores: bool, store: set<string>)
      modifies this`raw
      ensures raw == if stores then old(raw) + TurnItems(turn, store) else old(raw)
    {
      var userParts := BuildParts(turn.userText, turn.userFiles, store);
      var assistantParts := BuildParts(turn.assistantText, turn.assistantFiles, store);
      if stores {
        raw := raw + [Message("user", Segments(userParts)), Message("assistant", Segments(assistantParts))];
      }
    }

    method SyncChatPairEvents(turn: Turn, announced: bool, sync: Sync)
      modifies this`meta, this`events
      ensures Abs() == SyncPair(old(Abs()), turn, announced, sync)
    {
      if sync.FailsBeforeMeta? {
        return;
      }
      var batch := [];
      var count := if meta.None? then 0 else meta.value.count;
      if meta.None? {
        if !announced {
          batch := [SessionCreated];
        }
      } else if meta.value.deleted {
        batch := [MetaUpdated(false)];
      }
      meta := Some(Meta(count + if announced then 1 else 2, false));
      if sync.FailsAfterMeta? {
        return;
      }
      var said := [];
      if !announced {
        said := [Added(User, turn.userText, turn.userFiles, false)];
      }
      said := said + [Added(Assistant, turn.assistantText, turn.assistantFiles, turn.incomplete)];
      events := events + batch + said;
    }

    method RecordChatPair(turn: Turn, announced: bool, stores: bool, store: set<string>, sync: Sync)
      modifies this`raw, this`meta, this`events
      ensures Abs() == RecordPair(old(Abs()), turn, announced, stores, store, sync)
    {
      CmPersistPair(turn, stores, store);
      SyncChatPairEvents(turn, announced, sync);
    }

    method EmitStreamStarted(id: string, text: string, files: seq<string>, sync: Sync)
      requires inflight.None?
      modifies this
      ensures Abs() == Step(old(Abs()), StreamStart(id, text, files, sync))
    {
      inflight := Some(Running(id, Rendered(User, text, files)));
      if sync.FailsBeforeMeta? {
        return;
      }
      var batch := [];
      var count := 0;
      if meta.None? {
        batch := [SessionCreated];
      } else {
        count := meta.value.count;
        if meta.value.deleted {
          batch := [MetaUpdated(false)];
        }
      }
      meta := Some(Meta(count + 1, false));
      if sync.FailsAfterMeta? {
        return;
      }
      events := events + batch + [Added(User, text, files, false), StreamStarted(id)];
    }

    /** The close pipeline's persist and `stream_ended` steps; a failed stream has
        nothing to persist. */
    method EndStream(reply: Option<string>, incomplete: bool, stores: bool, store: set<string>, sync: Sync, told: bool)
      requires inflight.Some?
      modifies this
      ensures Abs() == Step(old(Abs()), if reply.None? then StreamFail(told)
                                        else StreamClose(reply.value, incomplete, stores, store, sync, told))
    {
      if reply.Some? {
        var user := inflight.value.user;
        RecordChatPair(Turn(user.text, reply.value, incomplete, user.files, []), true, stores, store, sync);
      }
      if told {
        events := events + [StreamEnded(inflight.value.id)];
      }
      inflight := None;
    }

    /** `update_metadata`, as far as the deletion mark goes. */
    method UpdateMetadata(deleted: bool, sync: Sync)
      modifies this`meta, this`events
      ensures Abs() == Step(old(Abs()), Mark(deleted, sync))
    {
      if sync.FailsBeforeMeta? {
        return;
      }
      meta := Some(Meta(if meta.None? then 0 else meta.value.count, deleted));
      if sync.FailsAfterMeta? {
        return;
      }
      events := events + [MetaUpdated(deleted)];
    }

    // ----- edits -----

    /** The raw position of rendered message `index`, unless there is none. */
    method ResolveTargetRawIndex(index: int) returns (target: Option<nat>)
      ensures target == if Addressed(Abs(), index) then Some(Kept(raw)[index]) else None
      ensures target.Some? ==> target.value < |raw| && Render(raw[target.value]).Some?
    {
      var renderedToRaw := RenderToRawIndices(raw);
      if index < 0 || index >= |renderedToRaw| {
        return None;
      }
      SplitAtRendered(raw, index);
      return Some(renderedToRaw[index]);
    }

    /** The three writes of an edit, in order. */
    method WriteEdit(history: seq<RawItem>, batch: seq<Event>, fault: Fault)
      modifies this`raw, this`meta, this`events
      ensures Abs() == Edited(old(Abs()), history, batch, fault)
    {
      if fault.WriteFails? {
        return;
      }
      raw := history;
      if fault.MetaFails? {
        return;
      }
      var rendered := NormalizeHistory(history);
      meta := Some(Meta(|rendered|, meta.Some? && meta.value.deleted));
      if fault.EventsFail? {
        return;
      }
      events := events + batch;
    }

    method DeleteMessageInner(index: int, fault: Fault)
      requires inflight.None?
      modifies this
      ensures Abs() == Step(old(Abs()), Delete(index, fault))
    {
      var target := ResolveTargetRawIndex(index);
      if target.None? {
        return;
      }
      var k := target.value;
      var entry := RenderableEntry(raw[k]);
      WriteEdit(raw[..k] + raw[k + 1..], [Deleted(index, entry.value.role)], fault);
    }

    /** The closest user message before the target. */
    method FindPrompt(history: seq<RawItem>) returns (prompt: Option<Content>)
      ensures prompt == LastUser(history)
    {
      var i := |history|;
      assert history[..i] == history;
      while i > 0
        invariant 0 <= i <= |history| && LastUser(history[..i]) == LastUser(history)
      {
        i := i - 1;
        assert history[..i + 1][..i] == history[..i];
        if history[i].NotAMessage? {
          continue;
        }
        if RoleOf(history[i].role) == Some(User) {
          return Some(history[i].content);
        }
      }
      return None;
    }

    /** Deletions of the rendered tail, last index first. */
    method TruncateEvents(history: seq<RawItem>, index: nat) returns (batch: seq<Event>)
      requires index <= |Kept(history)|
      ensures |Kept(history)| == |Normalize(history)| && batch == DeletesDown(Normalize(history), index)
    {
      ghost var rendered := Normalize(history);
      KeptLength(history);
      var renderedToRaw := RenderToRawIndices(history);
      batch := [];
      var r := |renderedToRaw|;
      assert rendered[..r] == rendered;
      while r > index
        invariant index <= r <= |rendered|
        invariant batch + DeletesDown(rendered[..r], index) == DeletesDown(rendered, index)
      {
        r := r - 1;
        var dropped := DroppedRole(history, renderedToRaw, r);
        OneMoreDropped(rendered, r, index, batch);
        batch := batch + [Deleted(r, dropped)];
      }
    }

    method DroppedRole(history: seq<RawItem>, renderedToRaw: seq<nat>, r: nat) returns (role: Role)
      requires renderedToRaw == Kept(history) && r < |renderedToRaw| && |Normalize(history)| == |renderedToRaw|
      ensures role == Normalize(history)[r].role
    {
      SplitAtRendered(history, r);
      var dropped := RenderableEntry(history[renderedToRaw[r]]);
      role := dropped.value.role;
    }

    method AssistantEntry(made: Generation) returns (entry: seq<RawItem>)
      requires NewMessage(made).Some?
      ensures entry == NewItems(made)
    {
      match made {
        case Reply(text) => entry := [Message("assistant", Segments([TextPart(Strip(text))]))];
        case Image(file, resolves) =>
          entry := if file == "" || !resolves then [] else [Message("assistant", Segments([ImagePart(file)]))];
      }
    }

    /** The checks before anything is touched; `k` is where to cut. */
    method FindCut(index: int) returns (k: Option<nat>)
      ensures k == if Regenerable(Abs(), index) then Some(Kept(raw)[index]) else None
    {
      var target := ResolveTargetRawIndex(index);
      if target.None? {
        return None;
      }
      var entry := RenderableEntry(raw[target.value]);
      if entry.value.role != Assistant {
        return None;
      }
      var prompt := FindPrompt(raw[..target.value]);
      if prompt.None? {
        return None;
      }
      var text := ExtractText(prompt.value);
      var files := ExtractAttachmentFileIds(prompt.value);
      return if text == "" && files == [] then None else target;
    }

    /** Write-back and announcement of a message made after the cut; `s` is the state
        before it. */
    method FinalizeAssistant(ghost s: State, history: seq<RawItem>, index: nat, made: Generation, message: Rendered,
                             fault: Fault)
      requires Regenerable(s, index) && history == s.raw && Abs() == Cut(s, index) && NewMessage(made) == Some(message)
      modifies this`raw, this`meta, this`events
      ensures Abs() == RegenerateStep(s, index, true, made, fault)
    {
      RegenerateIsEdit(s, index, made, fault);
      var reply := AssistantEntry(made);
      var batch := TruncateEvents(history, index);
      WriteEdit(raw + reply, batch + [Added(Assistant, message.text, message.files, false)], fault);
    }

    /** Truncate first, then generate, then write back and announce. */
    method RegenerateStreamInner(index: int, truncates: bool, made: Generation, fault: Fault)
      requires inflight.None?
      modifies this
      ensures Abs() == Step(old(Abs()), Regenerate(index, truncates, made, fault))
    {
      var k := FindCut(index);
      if k.None? || !truncates {
        return;
      }
      var history := raw;
      raw := history[..k.value];
      var message := NewMessage(made);
      if message.None? {
        return;
      }
      FinalizeAssistant(old(Abs()), history, index, made, message.value, fault);
    }

    /** A look-up that raises counts as no conversation, and only the write is skipped. */
    method ClearHistoryInner(finds: bool, fault: Fault)
      requires inflight.None?
      modifies this
      ensures Abs() == Step(old(Abs()), Clear(finds, fault))
    {
      if finds {
        if fault.WriteFails? {
          return;
        }
        raw := [];
      }
      if fault.MetaFails? {
        return;
      }
      meta := Some(Meta(0, meta.Some? && meta.value.deleted));
      if fault.EventsFail? {
        return;
      }
      events := events + [Cleared];
    }
  }
}
