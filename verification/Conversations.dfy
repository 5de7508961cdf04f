/** handlers/conversations_service.py: the server edits a stored history, peers see
    only events. One session; the session lock makes each operation one step, and a
    running stream holds that lock from its first event to its close. */
module Conversations {
  import opened Lists
  import opened History

  datatype Event =
    | SessionCreated
    | MetaUpdated(deleted: bool)
    | Added(role: Role, text: string, files: seq<string>, incomplete: bool)
    | Deleted(index: nat, role: Role)
    | Cleared
    | StreamStarted(id: string)
    | StreamEnded(id: string)

  datatype Meta = Meta(count: nat, deleted: bool)

  /** A running stream and its user message, which is not stored yet. */
  datatype Running = Running(id: string, user: Rendered)

  datatype State = State(raw: seq<RawItem>, meta: Option<Meta>, events: seq<Event>, inflight: Option<Running>)

  // ----- a peer -----

  /** A peer's list after one event. Its bounds and role checks make a stale delete a
      no-op. */
  function Apply(view: seq<Rendered>, e: Event): seq<Rendered> {
    match e
    case Added(role, text, files, _) => view + [Rendered(role, text, files)]
    case Deleted(i, role) => if i < |view| && view[i].role == role then RemoveAt(view, i) else view
    case Cleared => []
    case _ => view
  }

  function Replay(view: seq<Rendered>, events: seq<Event>): seq<Rendered> {
    if events == [] then view
    else Apply(Replay(view, events[..|events| - 1]), events[|events| - 1])
  }

  lemma {:induction false} ReplayConcat(view: seq<Rendered>, a: seq<Event>, b: seq<Event>)
    ensures Replay(view, a + b) == Replay(Replay(view, a), b)
  {
    if b == [] {
      assert a + b == a;
    } else {
      var n := |b| - 1;
      assert (a + b)[..|a + b| - 1] == a + b[..n];
      ReplayConcat(view, a, b[..n]);
    }
  }

  lemma ReplayOne(view: seq<Rendered>, e: Event)
    ensures Replay(view, [e]) == Apply(view, e)
  {
    assert [e][..0] == [];
    assert Replay(view, [e]) == Apply(Replay(view, []), e);
  }

  // ----- a finished turn -----

  datatype Turn = Turn(userText: string, assistantText: string, incomplete: bool,
                       userFiles: seq<string>, assistantFiles: seq<string>)

  /** `store`: the files that still resolve to a path. */
  predicate Resolvable(store: set<string>, file: string) {
    file != "" && file in store
  }

  function Resolved(files: seq<string>, store: set<string>): seq<string> {
    Filter(f => Resolvable(store, f), files)
  }

  predicate AllResolve(files: seq<string>, store: set<string>) {
    forall f :: f in files ==> Resolvable(store, f)
  }

  function TextPart(text: string): Segment { Segment("text", Some(text), None) }

  function ImagePart(file: string): Segment { Segment("image_url", None, Some(file)) }

  function WithImages(parts: seq<Segment>, files: seq<string>): seq<Segment> {
    if files == [] then parts
    else WithImages(parts, files[..|files| - 1]) + [ImagePart(files[|files| - 1])]
  }

  function PartsOf(text: string, files: seq<string>, store: set<string>): seq<Segment> {
    var parts := WithImages(if text != "" then [TextPart(text)] else [], Resolved(files, store));
    if parts == [] then [TextPart(text)] else parts
  }

  function Stored(role: string, text: string, files: seq<string>, store: set<string>): RawItem {
    Message(role, Segments(PartsOf(text, files, store)))
  }

  lemma JoinSnoc(parts: seq<Segment>, part: Segment)
    ensures JoinTexts(parts + [part]) == JoinTexts(parts) + SegmentText(part)
    ensures JoinFiles(parts + [part]) == JoinFiles(parts) + SegmentFiles(part)
  {
    assert (parts + [part])[..|parts|] == parts;
  }

  lemma {:induction false} WithImagesText(parts: seq<Segment>, files: seq<string>)
    ensures JoinTexts(WithImages(parts, files)) == JoinTexts(parts)
    ensures |WithImages(parts, files)| == |parts| + |files|
  {
    if files != [] {
      var n := |files| - 1;
      WithImagesText(parts, files[..n]);
      JoinSnoc(WithImages(parts, files[..n]), ImagePart(files[n]));
    }
  }

  lemma {:induction false} WithImagesFiles(parts: seq<Segment>, files: seq<string>)
    requires "" !in files
    ensures JoinFiles(WithImages(parts, files)) == JoinFiles(parts) + files
  {
    if files != [] {
      var n := |files| - 1;
      WithImagesFiles(parts, files[..n]);
      JoinSnoc(WithImages(parts, files[..n]), ImagePart(files[n]));
      assert files[n] != "" && SegmentFiles(ImagePart(files[n])) == [files[n]];
      AppendLast(JoinFiles(parts), files);
    }
  }

  lemma AppendLast<T>(front: seq<T>, xs: seq<T>)
    requires xs != []
    ensures front + xs[..|xs| - 1] + [xs[|xs| - 1]] == front + xs
  {
  }

  lemma OnePart(part: Segment)
    ensures JoinTexts([part]) == SegmentText(part) && JoinFiles([part]) == SegmentFiles(part)
  {
    assert [] + [part] == [part];
    JoinSnoc([], part);
    assert "" + SegmentText(part) == SegmentText(part);
    assert [] + SegmentFiles(part) == SegmentFiles(part);
  }

  lemma PartsRender(text: string, files: seq<string>, store: set<string>)
    ensures var parts := PartsOf(text, files, store);
            JoinTexts(parts) == text && JoinFiles(parts) == Resolved(files, store)
  {
    FilterMember(f => Resolvable(store, f), files);
    OnePart(TextPart(text));
    var parts := if text != "" then [TextPart(text)] else [];
    WithImagesText(parts, Resolved(files, store));
    WithImagesFiles(parts, Resolved(files, store));
    assert [] + Resolved(files, store) == Resolved(files, store);
  }

  /** What is stored renders back as the message, less the files that no longer
      resolve. */
  lemma StoredRenders(role: string, text: string, files: seq<string>, store: set<string>)
    requires RoleOf(role).Some?
    ensures Render(Stored(role, text, files, store)) ==
            Some(Rendered(RoleOf(role).value, text, Resolved(files, store)))
  {
    PartsRender(text, files, store);
  }

  lemma {:induction false} ImagesAt(parts: seq<Segment>, files: seq<string>, i: nat)
    requires i < |files|
    ensures |WithImages(parts, files)| == |parts| + |files|
    ensures WithImages(parts, files)[|parts| + i] == Segment("image_url", None, Some(files[i]))
  {
    WithImagesText(parts, files);
    if i < |files| - 1 {
      ImagesAt(parts, files[..|files| - 1], i);
    }
  }

  lemma {:induction false} ImagesBehind(parts: seq<Segment>, files: seq<string>)
    ensures parts <= WithImages(parts, files)
  {
    if files != [] {
      ImagesBehind(parts, files[..|files| - 1]);
    }
  }

  /** What is stored for a message: its text as a text part, unless it is empty and there
      is an image, then one image part for each file that still resolves. */
  lemma PartsAre(text: string, files: seq<string>, store: set<string>)
    ensures var parts, shown := PartsOf(text, files, store), Resolved(files, store);
            var k := if text != "" || shown == [] then 1 else 0;
            && |parts| == k + |shown|
            && (k == 1 ==> parts[0] == Segment("text", Some(text), None))
            && (forall i :: 0 <= i < |shown| ==> parts[k + i] == Segment("image_url", None, Some(shown[i])))
  {
    var shown := Resolved(files, store);
    var base := if text != "" then [TextPart(text)] else [];
    WithImagesText(base, shown);
    ImagesBehind(base, shown);
    forall i | 0 <= i < |shown|
      ensures WithImages(base, shown)[|base| + i] == Segment("image_url", None, Some(shown[i]))
    {
      ImagesAt(base, shown, i);
    }
  }

  lemma ResolvedIff(files: seq<string>, store: set<string>)
    ensures Resolved(files, store) == files <==> AllResolve(files, store)
  {
    FilterMember(f => Resolvable(store, f), files);
    if AllResolve(files, store) {
      FilterEverything(f => Resolvable(store, f), files);
    }
  }

  lemma RoleNames()
    ensures RoleOf("user") == Some(User) && RoleOf("assistant") == Some(Assistant)
  {
    assert Lowered("user") == "user";
    assert Lowered("assistant") == "assistant";
  }

  // ----- the operations -----

  /** How the chat-sync half of an operation goes. */
  datatype Sync = Synced | FailsBeforeMeta | FailsAfterMeta

  /** How an edit of the stored history goes: nothing fails, or one of its three
      writes does. */
  datatype Fault = Clean | WriteFails | MetaFails | EventsFail

  /** What regenerating produced. */
  datatype Generation = GenerationFails | Reply(text: string) | Image(file: string, resolves: bool)

  /** In `Clear`, `finds` says whether the stored conversation was found: looking it up
      may raise, and clearing then goes on without it. `told` says whether the event
      that a stream ended gets written. `Mark` sets or takes off the deletion mark; it
      does not wait for the session's lock. */
  datatype Op =
    | Pair(turn: Turn, stores: bool, store: set<string>, sync: Sync)
    | StreamStart(id: string, text: string, files: seq<string>, sync: Sync)
    | StreamClose(reply: string, incomplete: bool, stores: bool, store: set<string>, sync: Sync, told: bool)
    | StreamFail(told: bool)
    | Delete(index: int, fault: Fault)
    | Regenerate(index: int, truncates: bool, made: Generation, fault: Fault)
    | Clear(finds: bool, fault: Fault)
    | Mark(deleted: bool, sync: Sync)

  function Count(s: State): nat {
    if s.meta.None? then 0 else s.meta.value.count
  }

  /** Written by a turn: the row is created, or bumped and undeleted. */
  function Bumped(s: State, delta: nat): Option<Meta> {
    Some(Meta(Count(s) + delta, false))
  }

  /** Written by an edit, which leaves the deletion mark alone. */
  function Recounted(s: State, count: nat): Option<Meta> {
    Some(Meta(count, s.meta.Some? && s.meta.value.deleted))
  }

  function Opening(s: State, announced: bool): seq<Event> {
    if s.meta.None? then (if announced then [] else [SessionCreated])
    else if s.meta.value.deleted then [MetaUpdated(false)]
    else []
  }

  function TurnEvents(turn: Turn, announced: bool): seq<Event> {
    (if announced then [] else [Added(User, turn.userText, turn.userFiles, false)])
      + [Added(Assistant, turn.assistantText, turn.assistantFiles, turn.incomplete)]
  }

  /** `_sync_chat_pair_events`. */
  function SyncPair(s: State, turn: Turn, announced: bool, sync: Sync): State {
    if sync.FailsBeforeMeta? then s else
    var s1 := s.(meta := Bumped(s, if announced then 1 else 2));
    if sync.FailsAfterMeta? then s1 else
    s1.(events := s.events + Opening(s, announced) + TurnEvents(turn, announced))
  }

  function TurnItems(turn: Turn, store: set<string>): seq<RawItem> {
    [Stored("user", turn.userText, turn.userFiles, store),
     Stored("assistant", turn.assistantText, turn.assistantFiles, store)]
  }

  /** `record_chat_pair`: the two halves fail independently. */
  function RecordPair(s: State, turn: Turn, announced: bool, stores: bool, store: set<string>, sync: Sync): State {
    SyncPair(if stores then s.(raw := s.raw + TurnItems(turn, store)) else s, turn, announced, sync)
  }

  function StartStream(s: State, id: string, text: string, files: seq<string>, sync: Sync): State {
    var s1 := s.(inflight := Some(Running(id, Rendered(User, text, files))));
    if sync.FailsBeforeMeta? then s1 else
    var s2 := s1.(meta := Bumped(s, 1));
    if sync.FailsAfterMeta? then s2 else
    s2.(events := s.events + Opening(s, false) + [Added(User, text, files, false), StreamStarted(id)])
  }

  /** The turn a stream closes with. */
  function StreamedTurn(user: Rendered, reply: string, incomplete: bool): Turn {
    Turn(user.text, reply, incomplete, user.files, [])
  }

  function EndStream(s: State, id: string, told: bool): State {
    s.(inflight := None, events := s.events + if told then [StreamEnded(id)] else [])
  }

  predicate Addressed(s: State, index: int) {
    0 <= index < |Kept(s.raw)|
  }

  function Edited(s: State, raw: seq<RawItem>, events: seq<Event>, fault: Fault): State {
    if fault.WriteFails? then s else
    var s1 := s.(raw := raw);
    if fault.MetaFails? then s1 else
    var s2 := s1.(meta := Recounted(s, |Normalize(raw)|));
    if fault.EventsFail? then s2 else
    s2.(events := s.events + events)
  }

  function DeleteStep(s: State, index: int, fault: Fault): State {
    if !Addressed(s, index) then s else
    var k := Kept(s.raw)[index];
    Edited(s, RemoveAt(s.raw, k), [Deleted(index, RoleOfItem(s.raw[k]))], fault)
  }

  function RoleOfItem(item: RawItem): Role {
    match Render(item)
    case Some(r) => r.role
    case None => User
  }

  /** The content of the last user message, if any. */
  function LastUser(raw: seq<RawItem>): Option<Content> {
    if raw == [] then None else
    var last := raw[|raw| - 1];
    if last.Message? && RoleOf(last.role) == Some(User) then Some(last.content)
    else LastUser(raw[..|raw| - 1])
  }

  predicate HasPrompt(raw: seq<RawItem>) {
    LastUser(raw).Some? && (TextOf(LastUser(raw).value) != "" || FilesOf(LastUser(raw).value) != [])
  }

  predicate Regenerable(s: State, index: int) {
    Addressed(s, index) && RoleOfItem(s.raw[Kept(s.raw)[index]]) == Assistant && HasPrompt(s.raw[..Kept(s.raw)[index]])
  }

  /** The message regenerating announces; none if nothing usable was produced. */
  function NewMessage(made: Generation): Option<Rendered> {
    match made
    case GenerationFails => None
    case Reply(text) => if Strip(text) == "" then None else Some(Rendered(Assistant, Strip(text), []))
    case Image(file, _) => Some(Rendered(Assistant, "", [file]))
  }

  /** What is stored for it: an image whose file does not resolve is stored as
      nothing at all. */
  function NewItems(made: Generation): seq<RawItem> {
    match made
    case GenerationFails => []
    case Reply(text) => [Message("assistant", Segments([TextPart(Strip(text))]))]
    case Image(file, resolves) =>
      if resolves && file != "" then [Message("assistant", Segments([ImagePart(file)]))] else []
  }

  /** What regenerating announces is the generated text without the blanks around it, or
      the generated image; a blank text counts as nothing. It is stored as the message it
      is announced as, except for an image whose file does not resolve. */
  lemma GenerationMeans(made: Generation) returns (pre: string, post: string)
    ensures AllWhite(pre) && AllWhite(post)
    ensures NewMessage(made).None? <==> made.GenerationFails? || (made.Reply? && AllWhite(made.text))
    ensures made.Image? ==> NewMessage(made) == Some(Rendered(Assistant, "", [made.file]))
    ensures made.Reply? && NewMessage(made).Some? ==>
              var m := NewMessage(made).value;
              && m.role == Assistant && m.files == [] && made.text == pre + m.text + post
              && m.text != "" && !White(m.text[0]) && !White(m.text[|m.text| - 1])
    ensures NewMessage(made).Some? ==>
              Normalize(NewItems(made)) ==
              if made.Image? && (!made.resolves || made.file == "") then [] else [NewMessage(made).value]
  {
    pre, post := "", "";
    if made.Reply? {
      pre, post := StripTrims(made.text);
      BlankText(made.text, pre, post);
      if Strip(made.text) != "" {
        WhiteIsBlank(Strip(made.text)[0]);
        WhiteIsBlank(Strip(made.text)[|Strip(made.text)| - 1]);
      }
    }
    if NewMessage(made).Some? {
      GenerationStored(made);
    }
  }

  lemma GenerationStored(made: Generation)
    requires NewMessage(made).Some?
    ensures Normalize(NewItems(made)) ==
            if made.Image? && (!made.resolves || made.file == "") then [] else [NewMessage(made).value]
  {
    NewItemsRender([], made);
    assert [] + NewItems(made) == NewItems(made);
  }

  lemma BlankText(text: string, pre: string, post: string)
    requires text == pre + Strip(text) + post && AllWhite(pre) && AllWhite(post)
    requires Strip(text) != [] ==> !Blank(Strip(text)[0])
    ensures Strip(text) == "" <==> AllWhite(text)
  {
    if Strip(text) == "" {
      assert text == pre + post;
    } else {
      assert text[|pre|] == Strip(text)[0];
      WhiteIsBlank(text[|pre|]);
    }
  }

  /** The last user message is the last rendered entry of that role. */
  lemma {:induction false} LastUserRendered(raw: seq<RawItem>) returns (j: nat)
    ensures LastUser(raw).None? ==> forall k :: 0 <= k < |Normalize(raw)| ==> Normalize(raw)[k].role != User
    ensures LastUser(raw).Some? ==>
              && j < |Normalize(raw)|
              && Normalize(raw)[j] == Rendered(User, TextOf(LastUser(raw).value), FilesOf(LastUser(raw).value))
              && forall k :: j < k < |Normalize(raw)| ==> Normalize(raw)[k].role != User
  {
    j := 0;
    if raw != [] {
      var n := |raw| - 1;
      var front := LastUserRendered(raw[..n]);
      var last := raw[n];
      j := if last.Message? && RoleOf(last.role) == Some(User) then |Normalize(raw[..n])| else front;
    }
  }

  lemma PromptRendered(raw: seq<RawItem>)
    ensures HasPrompt(raw) <==> PromptIn(Normalize(raw))
  {
    var j := LastUserRendered(raw);
    if LastUser(raw).Some? {
      assert forall k :: j < k < |Normalize(raw)| ==> Normalize(raw)[k].role != User;
    }
  }

  /** The last user message of the list says something. */
  ghost predicate PromptIn(rendered: seq<Rendered>) {
    exists k ::
      && 0 <= k < |rendered| && rendered[k].role == User
      && (forall l :: k < l < |rendered| ==> rendered[l].role != User)
      && (rendered[k].text != "" || rendered[k].files != [])
  }

  /** Regenerating is possible exactly for an answer of the rendered list whose last user
      message before it has a text or an attachment. */
  lemma RegenerableIff(s: State, index: int)
    ensures Regenerable(s, index) <==>
              && 0 <= index < |Normalize(s.raw)|
              && Normalize(s.raw)[index].role == Assistant
              && PromptIn(Normalize(s.raw)[..index])
  {
    KeptLength(s.raw);
    if Addressed(s, index) {
      SplitAtRendered(s.raw, index);
      PromptRendered(s.raw[..Kept(s.raw)[index]]);
    }
  }

  /** Deletions of the rendered entries from the last down to `from`. */
  function DeletesDown(rendered: seq<Rendered>, from: nat): seq<Event>
    requires from <= |rendered|
  {
    if from == |rendered| then [] else
    var n := |rendered| - 1;
    [Deleted(n, rendered[n].role)] + DeletesDown(rendered[..n], from)
  }

  function RegenerateStep(s: State, index: int, truncates: bool, made: Generation, fault: Fault): State {
    if !Regenerable(s, index) || !truncates then s else
    var cut := s.(raw := s.raw[..Kept(s.raw)[index]]);
    var message := NewMessage(made);
    if message.None? then cut else
    KeptLength(s.raw);
    Edited(cut, cut.raw + NewItems(made),
           DeletesDown(Normalize(s.raw), index) + [Added(Assistant, message.value.text, message.value.files, false)],
           fault)
  }

  function ClearStep(s: State, finds: bool, fault: Fault): State {
    if finds && fault.WriteFails? then s else
    var s1 := if finds then s.(raw := []) else s;
    if fault.MetaFails? then s1 else
    var s2 := s1.(meta := Recounted(s, 0));
    if fault.EventsFail? then s2 else
    s2.(events := s.events + [Cleared])
  }

  /** `update_metadata` with a deletion mark; the row is created if there is none. */
  function MarkStep(s: State, deleted: bool, sync: Sync): State {
    if sync.FailsBeforeMeta? then s else
    var s1 := s.(meta := Some(Meta(Count(s), deleted)));
    if sync.FailsAfterMeta? then s1 else
    s1.(events := s.events + [MetaUpdated(deleted)])
  }

  function Step(s: State, op: Op): State {
    match op
    case Pair(turn, stores, store, sync) =>
      if s.inflight.Some? then s else RecordPair(s, turn, false, stores, store, sync)
    case StreamStart(id, text, files, sync) =>
      if s.inflight.Some? then s else StartStream(s, id, text, files, sync)
    case StreamClose(reply, incomplete, stores, store, sync, told) =>
      if s.inflight.None? then s
      else EndStream(RecordPair(s, StreamedTurn(s.inflight.value.user, reply, incomplete), true, stores, store, sync),
                     s.inflight.value.id, told)
    case StreamFail(told) => if s.inflight.None? then s else EndStream(s, s.inflight.value.id, told)
    case Delete(index, fault) => if s.inflight.Some? then s else DeleteStep(s, index, fault)
    case Regenerate(index, truncates, made, fault) =>
      if s.inflight.Some? then s else RegenerateStep(s, index, truncates, made, fault)
    case Clear(finds, fault) => if s.inflight.Some? then s else ClearStep(s, finds, fault)
    case Mark(deleted, sync) => MarkStep(s, deleted, sync)
  }

  const Empty := State([], None, [], None)

  function Run(ops: seq<Op>): State {
    if ops == [] then Empty else Step(Run(ops[..|ops| - 1]), ops[|ops| - 1])
  }

  // ----- convergence -----

  function Visible(s: State): seq<Rendered> {
    Normalize(s.raw) + if s.inflight.Some? then [s.inflight.value.user] else []
  }

  /** A peer that replays the log has what the server would render (plus the message
      of a running stream), and the cached count is its length. */
  ghost predicate InSync(s: State) {
    Replay([], s.events) == Visible(s) && Count(s) == |Visible(s)|
  }

  /** The history is cut, so the reply must be stored and announced; announcing can only
      be missed if the reply is word for word the one it replaces. */
  predicate RegenerationAgrees(s: State, index: nat, made: Generation, fault: Fault)
    requires index < |Kept(s.raw)|
  {
    match fault
    case Clean => NewItems(made) != []
    case WriteFails => false
    case _ =>
      NewItems(made) != [] && index == |Kept(s.raw)| - 1 && Render(s.raw[Kept(s.raw)[index]]) == NewMessage(made)
  }

  predicate RegenerateKeeps(s: State, index: int, truncates: bool, made: Generation, fault: Fault) {
    !Regenerable(s, index) || !truncates || (NewMessage(made).Some? && RegenerationAgrees(s, index, made, fault))
  }

  /** Exactly the steps that keep peers in sync. */
  predicate Keeps(s: State, op: Op) {
    match op
    case Pair(turn, stores, store, sync) =>
      s.inflight.Some?
      || (sync.Synced? && stores && AllResolve(turn.userFiles, store) && AllResolve(turn.assistantFiles, store))
      || (sync.FailsBeforeMeta? && !stores)
    case StreamStart(_, _, _, sync) => s.inflight.Some? || sync.Synced?
    case StreamClose(_, _, stores, store, sync, _) =>
      s.inflight.None? || (sync.Synced? && stores && AllResolve(s.inflight.value.user.files, store))
    case StreamFail(_) => s.inflight.None?
    case Delete(index, fault) => s.inflight.Some? || !Addressed(s, index) || fault.Clean? || fault.WriteFails?
    case Regenerate(index, truncates, made, fault) =>
      s.inflight.Some? || RegenerateKeeps(s, index, truncates, made, fault)
    case Clear(finds, fault) =>
      || s.inflight.Some?
      || Kept(s.raw) == []
      || (if finds then fault.Clean? || fault.WriteFails? else fault.MetaFails?)
    case Mark(_, _) => true
  }

  /** A deletion that meets no failure takes exactly that rendered entry away; an index
      out of range changes nothing. */
  lemma CleanDelete(s: State, index: int)
    requires s.inflight.None?
    ensures var n := Normalize(s.raw);
            Normalize(Step(s, Delete(index, Clean)).raw) ==
            if 0 <= index < |n| then n[..index] + n[index + 1..] else n
  {
    KeptLength(s.raw);
    if Addressed(s, index) {
      assert Step(s, Delete(index, Clean)).raw == RemoveAt(s.raw, Kept(s.raw)[index]);
      DeleteCommutes(s.raw, index);
    }
  }

  /** A regeneration that meets none puts the reply in place of its target and all behind
      it. */
  lemma CleanRegenerate(s: State, index: int, made: Generation)
    requires s.inflight.None? && NewMessage(made).Some? && NewItems(made) != []
    ensures var n := Normalize(s.raw);
            Normalize(Step(s, Regenerate(index, true, made, Clean)).raw) ==
            if Regenerable(s, index) && 0 <= index < |n| then n[..index] + [NewMessage(made).value] else n
  {
    KeptLength(s.raw);
    if Regenerable(s, index) {
      assert Step(s, Regenerate(index, true, made, Clean)).raw == s.raw[..Kept(s.raw)[index]] + NewItems(made);
      TruncateCommutes(s.raw, index);
      NewItemsRender(s.raw[..Kept(s.raw)[index]], made);
    }
  }

  lemma CleanClear(s: State)
    requires s.inflight.None?
    ensures Step(s, Clear(true, Clean)).raw == [] && Count(Step(s, Clear(true, Clean))) == 0
  {
  }

  function UserSaid(turn: Turn): Rendered { Rendered(User, turn.userText, turn.userFiles) }

  function AssistantSaid(turn: Turn): Rendered { Rendered(Assistant, turn.assistantText, turn.assistantFiles) }

  function WithResolved(m: Rendered, store: set<string>): Rendered {
    m.(files := Resolved(m.files, store))
  }

  lemma NormalizeTwo(a: RawItem, b: RawItem)
    requires Render(a).Some? && Render(b).Some?
    ensures Normalize([a, b]) == [Render(a).value, Render(b).value]
  {
    NormalizeConcat([a], [b]);
    NormalizeOne(a);
    NormalizeOne(b);
    assert [a] + [b] == [a, b];
  }

  lemma TurnItemsRender(turn: Turn, store: set<string>)
    ensures Normalize(TurnItems(turn, store)) ==
            [WithResolved(UserSaid(turn), store), WithResolved(AssistantSaid(turn), store)]
  {
    RoleNames();
    StoredRenders("user", turn.userText, turn.userFiles, store);
    StoredRenders("assistant", turn.assistantText, turn.assistantFiles, store);
    NormalizeTwo(Stored("user", turn.userText, turn.userFiles, store),
                 Stored("assistant", turn.assistantText, turn.assistantFiles, store));
  }

  lemma TurnRendered(raw: seq<RawItem>, turn: Turn, store: set<string>)
    ensures Normalize(raw + TurnItems(turn, store)) ==
            Normalize(raw) + [WithResolved(UserSaid(turn), store), WithResolved(AssistantSaid(turn), store)]
  {
    NormalizeConcat(raw, TurnItems(turn, store));
    TurnItemsRender(turn, store);
  }

  lemma OpeningReplay(s: State, announced: bool, view: seq<Rendered>)
    ensures Replay(view, Opening(s, announced)) == view
  {
    ReplayOne(view, SessionCreated);
    ReplayOne(view, MetaUpdated(false));
  }

  lemma TurnReplay(view: seq<Rendered>, turn: Turn, announced: bool)
    ensures Replay(view, TurnEvents(turn, announced)) ==
            view + (if announced then [] else [UserSaid(turn)]) + [AssistantSaid(turn)]
  {
    var u := if announced then [] else [Added(User, turn.userText, turn.userFiles, false)];
    var a := Added(Assistant, turn.assistantText, turn.assistantFiles, turn.incomplete);
    ReplayConcat(view, u, [a]);
    if !announced {
      ReplayOne(view, u[0]);
    }
    ReplayOne(Replay(view, u), a);
  }

  /** What peers show after the sync half of a turn. */
  lemma SyncReplay(s: State, turn: Turn, announced: bool, sync: Sync)
    ensures var s2 := SyncPair(s, turn, announced, sync);
            Replay([], s2.events) ==
            if sync.Synced?
            then Replay([], s.events) + (if announced then [] else [UserSaid(turn)]) + [AssistantSaid(turn)]
            else Replay([], s.events)
  {
    if sync.Synced? {
      var view := Replay([], s.events);
      ReplayConcat([], s.events + Opening(s, announced), TurnEvents(turn, announced));
      ReplayConcat([], s.events, Opening(s, announced));
      OpeningReplay(s, announced, view);
      TurnReplay(view, turn, announced);
    }
  }

  lemma SameWhenResolved(turn: Turn, store: set<string>)
    ensures WithResolved(UserSaid(turn), store) == UserSaid(turn) <==> AllResolve(turn.userFiles, store)
    ensures WithResolved(AssistantSaid(turn), store) == AssistantSaid(turn) <==> AllResolve(turn.assistantFiles, store)
  {
    ResolvedIff(turn.userFiles, store);
    ResolvedIff(turn.assistantFiles, store);
  }

  /** What the server renders after a turn was recorded. */
  function ServerAfter(n: seq<Rendered>, turn: Turn, stores: bool, store: set<string>): seq<Rendered> {
    n + if stores then [WithResolved(UserSaid(turn), store), WithResolved(AssistantSaid(turn), store)] else []
  }

  /** Two messages on each side, or none, agree exactly if they are the same. */
  lemma TurnsAgree<T>(n: seq<T>, stores: bool, a: T, b: T, announces: bool, c: T, d: T)
    ensures n + (if stores then [a, b] else []) == n + (if announces then [c, d] else []) <==>
            stores == announces && (stores ==> a == c && b == d)
  {
    var l, r := n + (if stores then [a, b] else []), n + (if announces then [c, d] else []);
    if stores && announces {
      assert l[|n|] == a && l[|n| + 1] == b && r[|n|] == c && r[|n| + 1] == d;
    } else {
      assert |l| == |n| + (if stores then 2 else 0) && |r| == |n| + if announces then 2 else 0;
    }
  }

  lemma SettledInSync(s: State, server: seq<Rendered>, peers: seq<Rendered>)
    requires s.inflight.None? && Normalize(s.raw) == server && Replay([], s.events) == peers
    ensures InSync(s) <==> peers == server && Count(s) == |server|
  {
    assert Visible(s) == server;
  }

  lemma RecordedState(s: State, turn: Turn, announced: bool, stores: bool, store: set<string>, sync: Sync)
    ensures var s2 := RecordPair(s, turn, announced, stores, store, sync);
            && Normalize(s2.raw) == ServerAfter(Normalize(s.raw), turn, stores, store)
            && Count(s2) == Count(s) + (if sync.FailsBeforeMeta? then 0 else if announced then 1 else 2)
            && s2.inflight == s.inflight
            && Replay([], s2.events) ==
               if sync.Synced?
               then Replay([], s.events) + (if announced then [] else [UserSaid(turn)]) + [AssistantSaid(turn)]
               else Replay([], s.events)
  {
    var s1 := if stores then s.(raw := s.raw + TurnItems(turn, store)) else s;
    TurnRendered(s.raw, turn, store);
    SyncReplay(s1, turn, announced, sync);
    assert Normalize(s.raw) + [] == Normalize(s.raw);
  }

  /** A turn recorded in one go keeps peers in sync exactly when both halves work and
      every attachment still resolves, or neither half does anything. */
  lemma PairInSync(s: State, turn: Turn, stores: bool, store: set<string>, sync: Sync)
    requires InSync(s) && s.inflight.None?
    ensures InSync(RecordPair(s, turn, false, stores, store, sync)) <==>
            Keeps(s, Pair(turn, stores, store, sync))
  {
    var n := Normalize(s.raw);
    var s2 := RecordPair(s, turn, false, stores, store, sync);
    var peers := n + if sync.Synced? then [UserSaid(turn), AssistantSaid(turn)] else [];
    assert Visible(s) == n;
    RecordedState(s, turn, false, stores, store, sync);
    Associates(n, [UserSaid(turn)], [AssistantSaid(turn)]);
    assert Replay([], s2.events) == peers;
    SettledInSync(s2, ServerAfter(n, turn, stores, store), peers);
    SameWhenResolved(turn, store);
    TurnsAgree(n, stores, WithResolved(UserSaid(turn), store), WithResolved(AssistantSaid(turn), store),
               sync.Synced?, UserSaid(turn), AssistantSaid(turn));
  }

  lemma StreamStartInSync(s: State, id: string, text: string, files: seq<string>, sync: Sync)
    requires InSync(s) && s.inflight.None?
    ensures InSync(StartStream(s, id, text, files, sync)) <==> sync.Synced?
  {
    var view := Replay([], s.events);
    var spoken := Added(User, text, files, false);
    ReplayConcat([], s.events + Opening(s, false), [spoken, StreamStarted(id)]);
    ReplayConcat([], s.events, Opening(s, false));
    OpeningReplay(s, false, view);
    ReplayConcat(view, [spoken], [StreamStarted(id)]);
    assert [spoken] + [StreamStarted(id)] == [spoken, StreamStarted(id)];
    ReplayOne(view, spoken);
    ReplayOne(Apply(view, spoken), StreamStarted(id));
  }

  lemma EndReplay(s: State, id: string, told: bool)
    ensures Replay([], EndStream(s, id, told).events) == Replay([], s.events)
  {
    ReplayConcat([], s.events, [StreamEnded(id)]);
    ReplayOne(Replay([], s.events), StreamEnded(id));
    assert s.events + [] == s.events;
  }

  lemma ClosesAgree<T>(n: seq<T>, stores: bool, a: T, b: T, announces: bool, c: T, d: T)
    ensures n + (if stores then [a, b] else []) == n + [c] + (if announces then [d] else []) <==>
            stores && announces && a == c && b == d
  {
    var l, r := n + (if stores then [a, b] else []), n + [c] + (if announces then [d] else []);
    if stores && announces {
      assert l[|n|] == a && l[|n| + 1] == b && r[|n|] == c && r[|n| + 1] == d;
    } else {
      assert |l| == |n| + (if stores then 2 else 0) && |r| == |n| + 1 + if announces then 1 else 0;
    }
  }

  lemma CloseReplay(s: State, turn: Turn, stores: bool, store: set<string>, sync: Sync, told: bool)
    requires InSync(s) && s.inflight.Some? && s.inflight.value.user == UserSaid(turn)
    ensures var s3 := EndStream(RecordPair(s, turn, true, stores, store, sync), s.inflight.value.id, told);
            && Normalize(s3.raw) == ServerAfter(Normalize(s.raw), turn, stores, store)
            && Count(s3) == |Normalize(s.raw)| + 1 + (if sync.FailsBeforeMeta? then 0 else 1)
            && Replay([], s3.events) ==
               Normalize(s.raw) + [UserSaid(turn)] + if sync.Synced? then [AssistantSaid(turn)] else []
  {
    RecordedState(s, turn, true, stores, store, sync);
    EndReplay(RecordPair(s, turn, true, stores, store, sync), s.inflight.value.id, told);
  }

  /** A stream's close stores the whole turn but announces only the reply. */
  lemma StreamCloseInSync(s: State, reply: string, incomplete: bool, stores: bool, store: set<string>, sync: Sync,
                          told: bool)
    requires InSync(s) && s.inflight.Some? && s.inflight.value.user.role == User
    ensures InSync(Step(s, StreamClose(reply, incomplete, stores, store, sync, told))) <==>
            Keeps(s, StreamClose(reply, incomplete, stores, store, sync, told))
  {
    var user := s.inflight.value.user;
    var turn := StreamedTurn(user, reply, incomplete);
    var n := Normalize(s.raw);
    var s2 := RecordPair(s, turn, true, stores, store, sync);
    var s3 := EndStream(s2, s.inflight.value.id, told);
    var peers := n + [user] + if sync.Synced? then [AssistantSaid(turn)] else [];
    assert Step(s, StreamClose(reply, incomplete, stores, store, sync, told)) == s3;
    CloseReplay(s, turn, stores, store, sync, told);
    SettledInSync(s3, ServerAfter(n, turn, stores, store), peers);
    SameWhenResolved(turn, store);
    ClosesAgree(n, stores, WithResolved(user, store), WithResolved(AssistantSaid(turn), store),
                sync.Synced?, user, AssistantSaid(turn));
  }

  /** A stream that fails leaves the user's bubble on every peer and nothing in the
      stored history. */
  lemma FailedStreamLeavesGhost(s: State, told: bool)
    requires InSync(s) && s.inflight.Some?
    ensures !InSync(Step(s, StreamFail(told)))
    ensures Replay([], Step(s, StreamFail(told)).events) == Normalize(s.raw) + [s.inflight.value.user]
  {
    EndReplay(s, s.inflight.value.id, told);
  }

  lemma RoleOfRendered(raw: seq<RawItem>, i: nat)
    requires i < |Kept(raw)|
    ensures |Kept(raw)| == |Normalize(raw)| && RoleOfItem(raw[Kept(raw)[i]]) == Normalize(raw)[i].role
  {
    SplitAtRendered(raw, i);
  }

  lemma DeleteInSync(s: State, index: int, fault: Fault)
    requires InSync(s) && s.inflight.None?
    ensures InSync(DeleteStep(s, index, fault)) <==> Keeps(s, Delete(index, fault))
  {
    if Addressed(s, index) {
      var k := Kept(s.raw)[index];
      var event := Deleted(index, RoleOfItem(s.raw[k]));
      DeleteCommutes(s.raw, index);
      RoleOfRendered(s.raw, index);
      assert Visible(s) == Normalize(s.raw);
      ReplayConcat([], s.events, [event]);
      ReplayOne(Replay([], s.events), event);
    }
  }

  /** Deleting from the tail down to `from` truncates a peer's list. */
  lemma {:induction false} DeletesDownTruncate(rendered: seq<Rendered>, from: nat)
    requires from <= |rendered|
    ensures Replay(rendered, DeletesDown(rendered, from)) == rendered[..from]
  {
    if from < |rendered| {
      var n := |rendered| - 1;
      var first := Deleted(n, rendered[n].role);
      ReplayConcat(rendered, [first], DeletesDown(rendered[..n], from));
      ReplayOne(rendered, first);
      assert Apply(rendered, first) == rendered[..n];
      DeletesDownTruncate(rendered[..n], from);
      assert rendered[..n][..from] == rendered[..from];
    } else {
      assert rendered[..from] == rendered;
    }
  }

  lemma NewItemRender(made: Generation)
    requires NewMessage(made).Some? && NewItems(made) != []
    ensures |NewItems(made)| == 1 && Render(NewItems(made)[0]) == NewMessage(made)
  {
    RoleNames();
    if made.Reply? {
      OnePart(TextPart(Strip(made.text)));
    } else {
      OnePart(ImagePart(made.file));
    }
  }

  lemma NewItemsRender(raw: seq<RawItem>, made: Generation)
    requires NewMessage(made).Some?
    ensures Normalize(raw + NewItems(made)) ==
            Normalize(raw) + if NewItems(made) == [] then [] else [NewMessage(made).value]
  {
    NormalizeConcat(raw, NewItems(made));
    if NewItems(made) != [] {
      NewItemRender(made);
      assert NewItems(made) == [NewItems(made)[0]];
      NormalizeOne(NewItems(made)[0]);
    }
  }

  function Announced(rendered: seq<Rendered>, index: nat, m: Rendered): seq<Event>
    requires index <= |rendered|
  {
    DeletesDown(rendered, index) + [Added(Assistant, m.text, m.files, false)]
  }

  lemma AnnouncedReplay(events: seq<Event>, rendered: seq<Rendered>, index: nat, m: Rendered)
    requires index <= |rendered| && Replay([], events) == rendered && m.role == Assistant
    ensures Replay([], events + Announced(rendered, index, m)) == rendered[..index] + [m]
  {
    var last := Added(Assistant, m.text, m.files, false);
    ReplayConcat([], events, Announced(rendered, index, m));
    ReplayConcat(rendered, DeletesDown(rendered, index), [last]);
    DeletesDownTruncate(rendered, index);
    ReplayOne(rendered[..index], last);
  }

  lemma CutNeverRestored(n: seq<Rendered>, index: nat)
    requires index < |n|
    ensures n != n[..index]
    ensures forall m :: n[..index] + [m] == n <==> index == |n| - 1 && n[index] == m
  {
    forall m
      ensures n[..index] + [m] == n <==> index == |n| - 1 && n[index] == m
    {
      if index == |n| - 1 {
        assert n == n[..index] + [n[index]];
        assert (n[..index] + [m])[index] == m;
      }
    }
  }

  /** The lists on both sides once the reply is generated: `n` before, cut at `index`,
      `message` announced, and stored or not. */
  lemma AfterRegenerating(s: State, index: nat, made: Generation)
    requires InSync(s) && s.inflight.None? && Addressed(s, index) && NewMessage(made).Some?
    ensures |Kept(s.raw)| == |Normalize(s.raw)|
    ensures var n, m := Normalize(s.raw), NewMessage(made).value;
            var cut := s.raw[..Kept(s.raw)[index]];
            && Normalize(cut + NewItems(made)) == n[..index] + (if NewItems(made) == [] then [] else [m])
            && Replay([], s.events + Announced(n, index, m)) == n[..index] + [m]
  {
    TruncateCommutes(s.raw, index);
    NewItemsRender(s.raw[..Kept(s.raw)[index]], made);
    assert Visible(s) == Normalize(s.raw);
    AnnouncedReplay(s.events, Normalize(s.raw), index, NewMessage(made).value);
  }

  lemma EditedInSync(cut: State, raw: seq<RawItem>, events: seq<Event>, fault: Fault)
    requires cut.inflight.None?
    ensures InSync(Edited(cut, raw, events, fault)) <==>
              match fault
              case Clean => Replay([], cut.events + events) == Normalize(raw)
              case WriteFails => Replay([], cut.events) == Normalize(cut.raw) && Count(cut) == |Normalize(cut.raw)|
              case MetaFails => Replay([], cut.events) == Normalize(raw) && Count(cut) == |Normalize(raw)|
              case EventsFail => Replay([], cut.events) == Normalize(raw)
  {
    var s2 := Edited(cut, raw, events, fault);
    assert Visible(s2) == Normalize(s2.raw) + [];
  }

  function Cut(s: State, index: nat): State
    requires index < |Kept(s.raw)|
  {
    s.(raw := s.raw[..Kept(s.raw)[index]])
  }

  lemma RegenerateIsEdit(s: State, index: nat, made: Generation, fault: Fault)
    requires Regenerable(s, index) && NewMessage(made).Some?
    ensures |Kept(s.raw)| == |Normalize(s.raw)|
    ensures RegenerateStep(s, index, true, made, fault) ==
            Edited(Cut(s, index), Cut(s, index).raw + NewItems(made),
                   Announced(Normalize(s.raw), index, NewMessage(made).value), fault)
  {
    KeptLength(s.raw);
  }

  lemma AgreesIff(s: State, index: nat, made: Generation, fault: Fault)
    requires index < |Kept(s.raw)| == |Normalize(s.raw)| && NewMessage(made).Some?
    ensures var n, m := Normalize(s.raw), NewMessage(made).value;
            var server := n[..index] + if NewItems(made) == [] then [] else [m];
            RegenerationAgrees(s, index, made, fault) <==>
              match fault
              case Clean => server == n[..index] + [m]
              case WriteFails => n[..index] == n
              case _ => server == n
  {
    SplitAtRendered(s.raw, index);
    RegeneratedIff(Normalize(s.raw), index, NewMessage(made).value, NewItems(made) != []);
  }

  /** A regeneration that got as far as cutting the history. */
  lemma CutInSync(s: State, index: nat, made: Generation, fault: Fault)
    requires InSync(s) && s.inflight.None? && Regenerable(s, index) && NewMessage(made).Some?
    ensures InSync(RegenerateStep(s, index, true, made, fault)) <==> RegenerationAgrees(s, index, made, fault)
  {
    var n := Normalize(s.raw);
    var m := NewMessage(made).value;
    assert Visible(s) == n;
    RegenerateIsEdit(s, index, made, fault);
    AfterRegenerating(s, index, made);
    AgreesIff(s, index, made, fault);
    TruncateCommutes(s.raw, index);
    EditedInSync(Cut(s, index), Cut(s, index).raw + NewItems(made), Announced(n, index, m), fault);
  }

  /** The cut is written before the reply is generated and announced only after: if
      generating fails, peers keep entries the server no longer has. */
  lemma FailedGenerationDiverges(s: State, index: nat)
    requires InSync(s) && s.inflight.None? && index < |Kept(s.raw)|
    ensures !InSync(Cut(s, index))
  {
    TruncateCommutes(s.raw, index);
    assert Visible(s) == Normalize(s.raw);
    assert Visible(Cut(s, index)) == Normalize(s.raw)[..index];
  }

  lemma RegenerateInSync(s: State, index: int, truncates: bool, made: Generation, fault: Fault)
    requires InSync(s) && s.inflight.None?
    ensures InSync(RegenerateStep(s, index, truncates, made, fault)) <==> RegenerateKeeps(s, index, truncates, made, fault)
  {
    if !Regenerable(s, index) || !truncates {
      assert RegenerateStep(s, index, truncates, made, fault) == s;
    } else if NewMessage(made).None? {
      assert RegenerateStep(s, index, truncates, made, fault) == Cut(s, index);
      FailedGenerationDiverges(s, index);
    } else {
      CutInSync(s, index, made, fault);
    }
  }

  /** Which of the possible outcomes agree. */
  lemma RegeneratedIff(n: seq<Rendered>, index: nat, m: Rendered, stored: bool)
    requires index < |n|
    ensures var server := n[..index] + if stored then [m] else [];
            && (server == n[..index] + [m] <==> stored)
            && (server == n <==> stored && index == |n| - 1 && n[index] == m)
            && n[..index] != n
  {
    CutNeverRestored(n, index);
  }

  /** Clearing keeps peers in sync exactly if nothing failed, or nothing happened, or
      there was nothing to show. */
  lemma ClearInSync(s: State, finds: bool, fault: Fault)
    requires InSync(s) && s.inflight.None?
    ensures InSync(ClearStep(s, finds, fault)) <==> Keeps(s, Clear(finds, fault))
  {
    KeptLength(s.raw);
    ReplayConcat([], s.events, [Cleared]);
    ReplayOne(Replay([], s.events), Cleared);
    assert Visible(s) == Normalize(s.raw);
  }

  /** A look-up that raises: nothing is written to the history, peers are told it is
      empty, and they differ from then on unless it was. */
  lemma UnfoundClearDiverges(s: State, fault: Fault)
    requires InSync(s) && s.inflight.None? && (fault.Clean? || fault.EventsFail?)
    ensures var s2 := Step(s, Clear(false, fault));
            s2.raw == s.raw && Count(s2) == 0 && (InSync(s2) <==> Kept(s.raw) == [])
  {
    assert Step(s, Clear(false, fault)) == ClearStep(s, false, fault);
    UnfoundClearKeeps(s, fault);
    ClearInSync(s, false, fault);
    assert Keeps(s, Clear(false, fault)) <==> Kept(s.raw) == [];
  }

  lemma UnfoundClearKeeps(s: State, fault: Fault)
    requires fault.Clean? || fault.EventsFail?
    ensures ClearStep(s, false, fault).raw == s.raw && Count(ClearStep(s, false, fault)) == 0
  {
  }

  ghost predicate Inv(s: State) {
    InSync(s) && (s.inflight.Some? ==> s.inflight.value.user.role == User)
  }

  lemma TurnsInSync(s: State, op: Op)
    requires Inv(s) && (op.Pair? || op.StreamStart? || op.StreamClose? || op.StreamFail?)
    ensures InSync(Step(s, op)) <==> Keeps(s, op)
  {
    match op
    case Pair(turn, stores, store, sync) => if s.inflight.None? { PairInSync(s, turn, stores, store, sync); }
    case StreamStart(id, text, files, sync) => if s.inflight.None? { StreamStartInSync(s, id, text, files, sync); }
    case StreamClose(reply, incomplete, stores, store, sync, told) =>
      if s.inflight.Some? { StreamCloseInSync(s, reply, incomplete, stores, store, sync, told); }
    case StreamFail(told) => if s.inflight.Some? { FailedStreamLeavesGhost(s, told); }
  }

  lemma EditsInSync(s: State, op: Op)
    requires Inv(s) && (op.Delete? || op.Regenerate? || op.Clear?)
    ensures InSync(Step(s, op)) <==> Keeps(s, op)
  {
    if s.inflight.Some? {
      assert Step(s, op) == s;
    } else {
      match op
      case Delete(index, fault) =>
        assert Step(s, op) == DeleteStep(s, index, fault);
        DeleteInSync(s, index, fault);
      case Regenerate(index, truncates, made, fault) =>
        assert Step(s, op) == RegenerateStep(s, index, truncates, made, fault);
        RegenerateInSync(s, index, truncates, made, fault);
      case Clear(finds, fault) =>
        assert Step(s, op) == ClearStep(s, finds, fault);
        ClearInSync(s, finds, fault);
    }
  }

  lemma MarkInSync(s: State, deleted: bool, sync: Sync)
    requires InSync(s)
    ensures InSync(MarkStep(s, deleted, sync))
  {
    ReplayConcat([], s.events, [MetaUpdated(deleted)]);
    ReplayOne(Replay([], s.events), MetaUpdated(deleted));
    assert Visible(MarkStep(s, deleted, sync)) == Visible(s);
  }

  lemma InflightIsUser(s: State, op: Op)
    requires s.inflight.Some? ==> s.inflight.value.user.role == User
    ensures Step(s, op).inflight.Some? ==> Step(s, op).inflight.value.user.role == User
  {
  }

  /** The exact boundary of replica convergence, one step at a time. */
  lemma StepInSync(s: State, op: Op)
    requires Inv(s)
    ensures InSync(Step(s, op)) <==> Keeps(s, op)
    ensures InSync(Step(s, op)) ==> Inv(Step(s, op))
  {
    InflightIsUser(s, op);
    if op.Mark? {
      MarkInSync(s, op.deleted, op.sync);
    } else if op.Delete? || op.Regenerate? || op.Clear? {
      EditsInSync(s, op);
    } else {
      TurnsInSync(s, op);
    }
  }

  /** Every step of `ops` keeps. */
  ghost predicate AllKeep(ops: seq<Op>) {
    forall i :: 0 <= i < |ops| ==> Keeps(Run(ops[..i]), ops[i])
  }

  /** Over any sequence of such operations: replaying the log gives the server's
      rendered history, and the count cache is right. */
  lemma {:induction false} Convergence(ops: seq<Op>)
    requires AllKeep(ops)
    ensures Inv(Run(ops))
  {
    if ops != [] {
      var n := |ops| - 1;
      forall i | 0 <= i < n
        ensures Keeps(Run(ops[..n][..i]), ops[..n][i])
      {
        assert ops[..n][..i] == ops[..i];
      }
      Convergence(ops[..n]);
      assert Keeps(Run(ops[..n]), ops[n]);
      StepInSync(Run(ops[..n]), ops[n]);
    }
  }

  /** And the first operation outside that boundary does break it. */
  lemma FirstBreak(ops: seq<Op>, op: Op)
    requires AllKeep(ops) && !Keeps(Run(ops), op)
    ensures InSync(Run(ops)) && !InSync(Run(ops + [op]))
  {
    Convergence(ops);
    StepInSync(Run(ops), op);
    assert (ops + [op])[..|ops|] == ops;
  }

  /** A peer that saw the log up to some event and then receives the rest is where a
      peer that saw it all is. */
  lemma CatchUp(seen: seq<Event>, rest: seq<Event>)
    ensures Replay(Replay([], seen), rest) == Replay([], seen + rest)
  {
    ReplayConcat([], seen, rest);
  }

  // ----- what clients never see -----

  lemma TurnHidesNothing(raw: seq<RawItem>, turn: Turn, store: set<string>)
    ensures Hidden(raw + TurnItems(turn, store)) == Hidden(raw)
  {
    RoleNames();
    StoredRenders("user", turn.userText, turn.userFiles, store);
    StoredRenders("assistant", turn.assistantText, turn.assistantFiles, store);
    FilterConcat(item => Render(item).None?, raw, TurnItems(turn, store));
    FilterNothing(item => Render(item).None?, TurnItems(turn, store));
  }

  lemma NewItemsHideNothing(raw: seq<RawItem>, made: Generation)
    requires NewMessage(made).Some?
    ensures Hidden(raw + NewItems(made)) == Hidden(raw)
  {
    FilterConcat(item => Render(item).None?, raw, NewItems(made));
    if NewItems(made) != [] {
      NewItemRender(made);
    }
    FilterNothing(item => Render(item).None?, NewItems(made));
  }

  /** Regenerating drops the hidden entries behind its target and no others. */
  lemma RegenerateHides(s: State, index: int, truncates: bool, made: Generation, fault: Fault)
    ensures var after := RegenerateStep(s, index, truncates, made, fault);
            if Regenerable(s, index) && truncates
            then Hidden(after.raw) == Hidden(s.raw[..Kept(s.raw)[index]]) && Hidden(after.raw) <= Hidden(s.raw)
            else after == s
  {
    if Regenerable(s, index) && truncates {
      TruncateCommutes(s.raw, index);
      if NewMessage(made).Some? {
        NewItemsHideNothing(s.raw[..Kept(s.raw)[index]], made);
      }
    }
  }

  lemma RecordHidesNothing(s: State, turn: Turn, announced: bool, stores: bool, store: set<string>, sync: Sync)
    ensures Hidden(RecordPair(s, turn, announced, stores, store, sync).raw) == Hidden(s.raw)
  {
    TurnHidesNothing(s.raw, turn, store);
  }

  lemma DeleteHidesNothing(s: State, index: int, fault: Fault)
    ensures Hidden(DeleteStep(s, index, fault).raw) == Hidden(s.raw)
  {
    if Addressed(s, index) {
      DeleteCommutes(s.raw, index);
    }
  }

  /** Hidden entries survive every other operation, in order; clearing drops all. */
  lemma HiddenSurvive(s: State, op: Op)
    requires !op.Regenerate?
    ensures var after := Hidden(Step(s, op).raw);
            after == Hidden(s.raw) || (op.Clear? && after == [])
  {
    match op
    case Pair(turn, stores, store, sync) => RecordHidesNothing(s, turn, false, stores, store, sync);
    case StreamClose(reply, incomplete, stores, store, sync, _) =>
      if s.inflight.Some? {
        RecordHidesNothing(s, StreamedTurn(s.inflight.value.user, reply, incomplete), true, stores, store, sync);
      }
    case Delete(index, fault) => DeleteHidesNothing(s, index, fault);
    case _ =>
  }

  lemma DeletesDownStep(rendered: seq<Rendered>, r: nat, from: nat)
    requires from <= r < |rendered|
    ensures DeletesDown(rendered[..r + 1], from) ==
            [Deleted(r, rendered[r].role)] + DeletesDown(rendered[..r], from)
  {
    assert rendered[..r + 1][..r] == rendered[..r];
  }
}
