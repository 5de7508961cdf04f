/** handlers/drop.py, core/prune_orchestrator.py: whole runs of Drop requests and prune
    blocks, in any order, with any call failing and the process dying after any call. */
module DropRuns {
  import opened Lists
  import opened DropStore
  import opened DropTrace
  import opened DropObjects

  /** A request served to its end, or one during which the process died after some
      calls and came back knowing nothing of it. */
  datatype Block = Whole(q: Request) | Cut(q: Request, calls: nat)

  /** How many of the block's calls took effect. */
  function Calls(s: State, b: Block): (n: nat)
    ensures n <= |Steps(s, b.q)|
  {
    if b.Cut? && b.calls < |Steps(s, b.q)| then b.calls else |Steps(s, b.q)|
  }

  function BlockSteps(s: State, b: Block): seq<State> {
    var done := Steps(s, b.q)[..Calls(s, b)];
    if b.Cut? then done + [Forgotten(Last(s, done))] else done
  }

  /** The process may die after any number of a request's calls: those have taken effect,
      and what was left of a pass is forgotten. */
  lemma DiesAfterAnyCall(s: State, q: Request, n: nat)
    requires n <= |Steps(s, q)|
    ensures var t := BlockSteps(s, Cut(q, n));
            && |t| == n + 1 && t[..n] == Steps(s, q)[..n]
            && t[n] == Last(s, Steps(s, q)[..n]).(listing := [], candidates := [])
    ensures BlockSteps(s, Whole(q)) == Steps(s, q)
  {
  }

  // ----- runs of any kind of block -----

  type Stepper = (State, Block) -> seq<State>

  /** Every state of a run, from the empty Drop on. */
  function TraceBy(step: Stepper, blocks: seq<Block>): (t: seq<State>)
    ensures t != [] && t[|t| - 1] == AfterBy(step, blocks)
  {
    if blocks == [] then [Empty]
    else
      var front := blocks[..|blocks| - 1];
      TraceBy(step, front) + step(AfterBy(step, front), blocks[|blocks| - 1])
  }

  function AfterBy(step: Stepper, blocks: seq<Block>): State {
    if blocks == [] then Empty
    else
      var s := AfterBy(step, blocks[..|blocks| - 1]);
      Last(s, step(s, blocks[|blocks| - 1]))
  }

  /** The state each block finds. */
  function FoundBy(step: Stepper, blocks: seq<Block>): (r: seq<State>)
    ensures |r| == |blocks|
  {
    if blocks == [] then [] else FoundBy(step, blocks[..|blocks| - 1]) + [AfterBy(step, blocks[..|blocks| - 1])]
  }

  lemma TakeTake<T>(xs: seq<T>, n: nat, i: nat)
    requires i <= n <= |xs|
    ensures xs[..n][..i] == xs[..i]
  {
  }

  lemma {:induction false} FoundByIs(step: Stepper, blocks: seq<Block>, i: nat)
    requires i < |blocks|
    ensures FoundBy(step, blocks)[i] == AfterBy(step, blocks[..i])
  {
    var n := |blocks| - 1;
    if i < n {
      FoundByIs(step, blocks[..n], i);
      TakeTake(blocks, n, i);
    }
  }

  /** Where two lists meet a condition, place by place. */
  ghost function Marks<A, B>(p: (A, B) -> bool, xs: seq<A>, ys: seq<B>): (r: seq<bool>)
    requires |xs| == |ys|
    ensures |r| == |xs| && forall i :: 0 <= i < |xs| ==> r[i] == p(xs[i], ys[i])
  {
    seq(|xs|, i requires 0 <= i < |xs| => p(xs[i], ys[i]))
  }

  lemma MarksSnoc<A, B>(p: (A, B) -> bool, xs: seq<A>, ys: seq<B>)
    requires |xs| == |ys| > 0
    ensures var n := |xs| - 1;
            Marks(p, xs, ys) == Marks(p, xs[..n], ys[..n]) + [p(xs[n], ys[n])]
  {
  }

  lemma NoMark<A, B>(p: (A, B) -> bool, xs: seq<A>, ys: seq<B>)
    requires |xs| == |ys|
    ensures true !in Marks(p, xs, ys) <==> forall i :: 0 <= i < |xs| ==> !p(xs[i], ys[i])
  {
    var marks := Marks(p, xs, ys);
    assert forall i :: 0 <= i < |xs| ==> marks[i] == p(xs[i], ys[i]);
  }

  ghost predicate StaysSound(step: Stepper) {
    forall s, b :: Inv(s) ==> AllInv(step(s, b))
  }

  lemma {:induction false} SoundRun(step: Stepper, blocks: seq<Block>)
    requires StaysSound(step)
    ensures AllInv(TraceBy(step, blocks)) && Inv(AfterBy(step, blocks))
  {
    if blocks != [] {
      var n := |blocks| - 1;
      SoundRun(step, blocks[..n]);
      LastInv(AfterBy(step, blocks[..n]), step(AfterBy(step, blocks[..n]), blocks[n]));
    }
  }

  /** Each block keeps visible rows exactly unless it is `bad`. */
  ghost predicate KeepsUnless(step: Stepper, bad: (State, Block) -> bool) {
    forall s, b :: Inv(s) && VisibleKept(s) ==> (AllKept(step(s, b)) <==> !bad(s, b))
  }

  /** One more block of a run that has kept everything so far, or has not. */
  lemma KeptSnoc(t: seq<State>, s: State, u: seq<State>, marks: seq<bool>, loses: bool)
    requires (AllKept(t) <==> true !in marks) && (AllKept(t) ==> VisibleKept(s))
    requires VisibleKept(s) ==> (AllKept(u) <==> !loses)
    ensures AllKept(t + u) <==> true !in marks + [loses]
    ensures AllKept(t + u) ==> VisibleKept(Last(s, u))
  {
    KeptConcat(t, u);
  }

  lemma FoundBySnoc(step: Stepper, blocks: seq<Block>)
    requires blocks != []
    ensures var n := |blocks| - 1;
            FoundBy(step, blocks)[..n] == FoundBy(step, blocks[..n])
            && FoundBy(step, blocks)[n] == AfterBy(step, blocks[..n])
  {
  }

  lemma {:induction false} KeptRun(step: Stepper, bad: (State, Block) -> bool, blocks: seq<Block>)
    requires StaysSound(step) && KeepsUnless(step, bad)
    ensures AllKept(TraceBy(step, blocks)) <==> true !in Marks(bad, FoundBy(step, blocks), blocks)
    ensures AllKept(TraceBy(step, blocks)) ==> VisibleKept(AfterBy(step, blocks))
  {
    if blocks != [] {
      var n := |blocks| - 1;
      var s := AfterBy(step, blocks[..n]);
      KeptRun(step, bad, blocks[..n]);
      SoundRun(step, blocks[..n]);
      MarksSnoc(bad, FoundBy(step, blocks), blocks);
      FoundBySnoc(step, blocks);
      KeptSnoc(TraceBy(step, blocks[..n]), s, step(s, blocks[n]),
               Marks(bad, FoundBy(step, blocks[..n]), blocks[..n]), bad(s, blocks[n]));
    }
  }

  /** From each state of a run to the next no object leaves whose file a visible message
      shows or more than one message refers to. */
  ghost predicate RunSpares(t: seq<State>)
    requires t != []
  {
    SparesAlong(t[0], t[1..], AllButOneDeleted)
  }

  lemma RunSparesConcat(t: seq<State>, u: seq<State>)
    requires t != []
    ensures RunSpares(t + u) <==> RunSpares(t) && SparesAlong(t[|t| - 1], u, AllButOneDeleted)
  {
    AlongConcat(t[0], t[1..], u, AllButOneDeleted);
    assert (t + u)[1..] == t[1..] + u;
  }

  ghost predicate SparesUnless(step: Stepper, bad: (State, Block) -> bool) {
    forall s, b :: Inv(s) ==> (SparesAlong(s, step(s, b), AllButOneDeleted) <==> !bad(s, b))
  }

  lemma {:induction false} SparedRun(step: Stepper, bad: (State, Block) -> bool, blocks: seq<Block>)
    requires StaysSound(step) && SparesUnless(step, bad)
    ensures RunSpares(TraceBy(step, blocks)) <==> true !in Marks(bad, FoundBy(step, blocks), blocks)
  {
    if blocks != [] {
      var n := |blocks| - 1;
      var s := AfterBy(step, blocks[..n]);
      SparedRun(step, bad, blocks[..n]);
      SoundRun(step, blocks[..n]);
      MarksSnoc(bad, FoundBy(step, blocks), blocks);
      FoundBySnoc(step, blocks);
      RunSparesConcat(TraceBy(step, blocks[..n]), step(s, blocks[n]));
    }
  }

  // ----- one block -----

  /** The block is a send in the hazard, and got to its last call. */
  ghost predicate Loses(s: State, b: Block) {
    Hazardous(s, b.q) && Calls(s, b) == |Steps(s, b.q)|
  }

  /** The block is a send whose commit fails, or a clear, and has erased a needed object
      before it ended or was cut off. */
  ghost predicate Erases(s: State, b: Block) {
    Wastes(s, b.q, AllButOneDeleted, Calls(s, b))
  }

  lemma ForgottenKeeps(s: State)
    requires Inv(s)
    ensures Inv(Forgotten(s)) && (VisibleKept(Forgotten(s)) <==> VisibleKept(s))
  {
  }

  lemma CutKeeps(s: State, t: seq<State>, harm: bool, n: nat)
    requires Inv(s) && Sound(s, t, harm) && n <= |t|
    ensures AllInv(t[..n]) && (VisibleKept(s) ==> (AllKept(t[..n]) <==> !(harm && n == |t|)))
  {
    if n == |t| {
      assert t[..n] == t;
    } else if harm {
      assert t[..n] == t[..|t| - 1][..n];
    }
  }

  lemma BlockKeeps(s: State, b: Block)
    requires Inv(s)
    ensures AllInv(BlockSteps(s, b)) && (VisibleKept(s) ==> (AllKept(BlockSteps(s, b)) <==> !Loses(s, b)))
  {
    var t := Steps(s, b.q);
    var done := t[..Calls(s, b)];
    StepsKeep(s, b.q);
    CutKeeps(s, t, Hazardous(s, b.q), Calls(s, b));
    LastInv(s, done);
    ForgottenKeeps(Last(s, done));
    KeptConcat(done, [Forgotten(Last(s, done))]);
  }

  lemma BlockSpares(s: State, b: Block, g: Guard)
    requires Inv(s) && Fits(s, b.q, g)
    ensures SparesAlong(s, BlockSteps(s, b), g) <==> !Wastes(s, b.q, g, Calls(s, b))
  {
    var done := Steps(s, b.q)[..Calls(s, b)];
    StepsSpare(s, b.q, g, Calls(s, b));
    UntouchedSpares(Last(s, done), [Forgotten(Last(s, done))], g);
    AlongConcat(s, done, [Forgotten(Last(s, done))], g);
  }

  lemma BlocksFine()
    ensures StaysSound(BlockSteps) && KeepsUnless(BlockSteps, Loses) && SparesUnless(BlockSteps, Erases)
  {
    forall s, b | Inv(s)
      ensures AllInv(BlockSteps(s, b)) && (VisibleKept(s) ==> (AllKept(BlockSteps(s, b)) <==> !Loses(s, b)))
      ensures SparesAlong(s, BlockSteps(s, b), AllButOneDeleted) <==> !Erases(s, b)
    {
      BlockKeeps(s, b);
      BlockSpares(s, b, AllButOneDeleted);
    }
  }

  // ----- runs of the blocks there are -----

  ghost function Trace(blocks: seq<Block>): (t: seq<State>)
    ensures t != []
  {
    TraceBy(BlockSteps, blocks)
  }

  ghost function After(blocks: seq<Block>): State { AfterBy(BlockSteps, blocks) }

  ghost function Found(blocks: seq<Block>): (r: seq<State>)
    ensures |r| == |blocks|
  {
    FoundBy(BlockSteps, blocks)
  }

  /** What a block finds is what the blocks before it left. */
  lemma FoundIs(blocks: seq<Block>, i: nat)
    requires i < |blocks|
    ensures Found(blocks)[i] == After(blocks[..i])
  {
    FoundByIs(BlockSteps, blocks, i);
  }

  /** Over every run: at every moment each object is named by a row. */
  lemma RunIsAnchored(blocks: seq<Block>)
    ensures AllInv(Trace(blocks)) && Inv(After(blocks))
    ensures forall i :: 0 <= i < |Trace(blocks)| ==> Anchored(Trace(blocks)[i])
  {
    BlocksFine();
    SoundRun(BlockSteps, blocks);
  }

  /** At every moment each visible file message has its file's row, if and only if no
      send of the run met the hazard in the state it found and got to its last call. */
  lemma RunKeepsVisible(blocks: seq<Block>)
    ensures AllKept(Trace(blocks)) <==> forall i :: 0 <= i < |blocks| ==> !Loses(Found(blocks)[i], blocks[i])
  {
    BlocksFine();
    KeptRun(BlockSteps, Loses, blocks);
    NoMark(Loses, Found(blocks), blocks);
  }

  /** And at every moment no object leaves the store whose file a visible message shows
      or more than one message refers to, if and only if no block of the run was a send
      whose commit failed, or a clear, that erased such an object. */
  lemma RunSparesObjects(blocks: seq<Block>)
    ensures RunSpares(Trace(blocks)) <==>
            forall i :: 0 <= i < |blocks| ==> !Erases(Found(blocks)[i], blocks[i])
  {
    BlocksFine();
    SparedRun(BlockSteps, Erases, blocks);
    NoMark(Erases, Found(blocks), blocks);
  }

  // ----- runs that lose a file's bytes -----

  const GOES_WELL := SendEnv(_ => true, true, 2, _ => true, _ => true, _ => true, true)

  const COMMIT_FAILS := SendEnv(_ => true, false, 2, _ => true, _ => true, _ => true, false)

  /** A file is uploaded and sent. */
  function UploadAndSend(key: Key): seq<Block> {
    [Whole(Upload(key, true, true, true, true)), Whole(Send(false, [key.file], GOES_WELL))]
  }

  function ShownState(key: Key): State {
    State(map[key.file := Row(key, true)], {key}, map[0 := Msg(Some(key.file), false)], 1, {key.file}, [], [])
  }

  lemma UploadedState(key: Key)
    ensures var t := Steps(Empty, Upload(key, true, true, true, true));
            Last(Empty, t) == State(map[key.file := Row(key, false)], {key}, map[], 0, {key.file}, [], [])
  {
    assert Empty.rows[key.file := Row(key, false)] == map[key.file := Row(key, false)];
  }

  lemma SentState(key: Key)
    ensures var s := State(map[key.file := Row(key, false)], {key}, map[], 0, {key.file}, [], []);
            Last(s, SendStates(s, false, [key.file], GOES_WELL)) == ShownState(key)
  {
    var s := State(map[key.file := Row(key, false)], {key}, map[], 0, {key.file}, [], []);
    var s1 := Committed(s, [key.file]);
    assert s1.rows == map[key.file := Row(key, true)];
    var parts := Parts(false, [key.file]);
    assert parts == [Some(key.file)] && parts[..1] == parts && parts[..0] == [];
    assert Appended(s1, parts) == ShownState(key) by {
      assert s1.messages[0 := Msg(Some(key.file), false)] == map[0 := Msg(Some(key.file), false)];
    }
    AppendedRows(s1, parts);
    assert DeliverStates(s1, false, [key.file], GOES_WELL) == AppendStates(s1, parts);
    LastConcat(s, [s1], AppendStates(s1, parts));
  }

  lemma AfterOneMore(blocks: seq<Block>, b: Block)
    ensures After(blocks + [b]) == Last(After(blocks), BlockSteps(After(blocks), b))
  {
    assert (blocks + [b])[..|blocks|] == blocks;
  }

  lemma UploadAndSendShows(key: Key)
    ensures After(UploadAndSend(key)) == ShownState(key)
  {
    var blocks := UploadAndSend(key);
    AfterOneMore([], blocks[0]);
    AfterOneMore([blocks[0]], blocks[1]);
    assert [] + [blocks[0]] == [blocks[0]] && [blocks[0]] + [blocks[1]] == blocks;
    UploadedState(key);
    assert [key.file][..0] == [] && FirstIds([key.file]) == [key.file];
    SentState(key);
  }

  /** A message that shows a file whose row is there and whose bytes are not. */
  ghost predicate Hollow(s: State, id: MsgId, f: FileId) {
    id in s.messages && s.messages[id] == Msg(Some(f), false) && f in s.rows && s.rows[f].key !in s.objects
  }

  lemma ShownIsSound(key: Key)
    ensures Inv(ShownState(key)) && VisiblyUsed(ShownState(key), key.file)
  {
    UploadAndSendShows(key);
    RunIsAnchored(UploadAndSend(key));
    assert ShownState(key).messages[0] == Msg(Some(key.file), false);
  }

  /** Upload, send, and a second send whose commit fails. */
  lemma ResendLeavesHollow(key: Key)
    ensures Hollow(After(UploadAndSend(key) + [Whole(Send(false, [key.file], COMMIT_FAILS))]), 0, key.file)
  {
    ShownIsSound(key);
    UploadAndSendShows(key);
    assert [key.file][..0] == [] && FirstIds([key.file]) == [key.file];
    ResendErases(ShownState(key), key.file, COMMIT_FAILS);
    AfterOneMore(UploadAndSend(key), Whole(Send(false, [key.file], COMMIT_FAILS)));
  }

  const ALL_GO: Key -> bool := _ => true

  lemma ClearLeaves(s: State, files: seq<FileId>, id: MsgId, f: FileId)
    requires Inv(s) && Names(s, files) && f in s.rows && s.rows[f].key in s.objects
    requires id in s.messages && s.messages[id] == Msg(Some(f), false)
    ensures Hollow(Last(s, BlockSteps(s, Whole(Clear(files, ALL_GO, false)))), id, f)
  {
    ClearErases(s, files, ALL_GO, false, f);
  }

  /** Upload, send, and a clear whose transaction fails. */
  lemma ClearLeavesHollow(key: Key)
    ensures Hollow(After(UploadAndSend(key) + [Whole(Clear([key.file], ALL_GO, false))]), 0, key.file)
  {
    ShownIsSound(key);
    UploadAndSendShows(key);
    assert Names(ShownState(key), [key.file]);
    ClearLeaves(ShownState(key), [key.file], 0, key.file);
    AfterOneMore(UploadAndSend(key), Whole(Clear([key.file], ALL_GO, false)));
  }
}
