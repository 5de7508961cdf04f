/** handlers/drop.py, core/prune_orchestrator.py: when an object leaves the store. A file
    is its row and its bytes, and the bytes go first: this is about them, state by
    state, over the blocks and runs of DropTrace. */
module DropObjects {
  import opened Lists
  import opened DropStore
  import opened DropTrace

  /** Who may be left without the object of a file: nobody but the messages in `spared`;
      or, for runs, nobody but one soft-deleted message. */
  datatype Guard = AllBut(spared: set<MsgId>) | AllButOneDeleted

  predicate Needed(s: State, f: FileId, g: Guard) {
    match g
    case AllBut(spared) => !(Refs(s, f) <= spared)
    case AllButOneDeleted => VisiblyUsed(s, f) || |Refs(s, f)| > 1
  }

  /** Between two states no object leaves that was still needed. */
  ghost predicate Spares(s: State, s2: State, g: Guard) {
    forall k :: k in s.objects && k !in s2.objects ==> !Needed(s, k.file, g)
  }

  function Before(s: State, t: seq<State>, i: nat): State
    requires i < |t|
  {
    if i == 0 then s else t[i - 1]
  }

  /** At no call of a stretch. */
  ghost predicate SparesAlong(s: State, t: seq<State>, g: Guard) {
    forall i :: 0 <= i < |t| ==> Spares(Before(s, t, i), t[i], g)
  }

  lemma AlongConcat(s: State, t: seq<State>, u: seq<State>, g: Guard)
    ensures SparesAlong(s, t + u, g) <==> SparesAlong(s, t, g) && SparesAlong(Last(s, t), u, g)
  {
    assert forall i :: 0 <= i < |t| ==> Before(s, t + u, i) == Before(s, t, i) && (t + u)[i] == t[i];
    assert forall i :: 0 <= i < |u| ==>
             Before(s, t + u, |t| + i) == Before(Last(s, t), u, i) && (t + u)[|t| + i] == u[i];
    if SparesAlong(s, t + u, g) {
      forall i | 0 <= i < |t|
        ensures Spares(Before(s, t, i), t[i], g)
      {
        assert Spares(Before(s, t + u, i), (t + u)[i], g);
      }
      forall i | 0 <= i < |u|
        ensures Spares(Before(Last(s, t), u, i), u[i], g)
      {
        assert Spares(Before(s, t + u, |t| + i), (t + u)[|t| + i], g);
      }
    }
    if SparesAlong(s, t, g) && SparesAlong(Last(s, t), u, g) {
      forall i | 0 <= i < |t + u|
        ensures Spares(Before(s, t + u, i), (t + u)[i], g)
      {
        if i < |t| {
          assert Spares(Before(s, t, i), t[i], g);
        } else {
          assert Spares(Before(Last(s, t), u, i - |t|), u[i - |t|], g);
        }
      }
    }
  }

  lemma AlongPrefix(s: State, t: seq<State>, g: Guard, n: nat)
    requires n <= |t| && SparesAlong(s, t, g)
    ensures SparesAlong(s, t[..n], g)
  {
    AlongConcat(s, t[..n], t[n..], g);
    assert t[..n] + t[n..] == t;
  }

  lemma AlongOne(s: State, s2: State, g: Guard)
    ensures SparesAlong(s, [s2], g) <==> Spares(s, s2, g)
  {
    assert Before(s, [s2], 0) == s && [s2][0] == s2;
    if SparesAlong(s, [s2], g) {
      assert Spares(Before(s, [s2], 0), [s2][0], g);
    }
  }

  /** No call of the stretch touches an object. */
  ghost predicate Untouched(s: State, t: seq<State>) {
    forall i :: 0 <= i < |t| ==> t[i].objects == s.objects
  }

  lemma UntouchedSpares(s: State, t: seq<State>, g: Guard)
    requires Untouched(s, t)
    ensures SparesAlong(s, t, g) && Last(s, t).objects == s.objects
  {
  }

  lemma SameNeeds(s: State, s2: State, g: Guard)
    requires s.messages == s2.messages
    ensures forall f :: Needed(s, f, g) == Needed(s2, f, g)
  {
    SameRefs(s, s2);
  }

  // ----- erasing -----

  function ErasedOf(batch: seq<Candidate>, deletes: Key -> bool): seq<Candidate> {
    Filter((c: Candidate) => deletes(c.key), batch)
  }

  /** One of the first `n` objects erased is there, and still needed. */
  predicate Wasted(s: State, erased: seq<Candidate>, g: Guard, n: nat) {
    exists j :: 0 <= j < n && j < |erased| && erased[j].key in s.objects && Needed(s, erased[j].file, g)
  }

  ghost predicate KeysMatch(batch: seq<Candidate>) {
    && (forall i :: 0 <= i < |batch| ==> batch[i].key.file == batch[i].file)
    && (forall i, j :: 0 <= i < j < |batch| ==> batch[i].file != batch[j].file)
  }

  lemma WastedSnoc(s: State, erased: seq<Candidate>, c: Candidate, g: Guard)
    ensures Wasted(s, erased + [c], g, |erased| + 1) <==>
            Wasted(s, erased, g, |erased|) || (c.key in s.objects && Needed(s, c.file, g))
  {
    var all := erased + [c];
    assert all[|erased|] == c && forall j :: 0 <= j < |erased| ==> all[j] == erased[j];
    if Wasted(s, erased, g, |erased|) {
      var j :| 0 <= j < |erased| && erased[j].key in s.objects && Needed(s, erased[j].file, g);
      assert all[j].key in s.objects && Needed(s, all[j].file, g);
    }
  }

  lemma WastedWithin(s: State, erased: seq<Candidate>, c: Candidate, g: Guard, n: nat)
    requires n <= |erased|
    ensures Wasted(s, erased + [c], g, n) <==> Wasted(s, erased, g, n)
  {
    var all := erased + [c];
    assert forall j :: 0 <= j < |erased| ==> all[j] == erased[j];
    if Wasted(s, erased, g, n) {
      var j :| 0 <= j < n && j < |erased| && erased[j].key in s.objects && Needed(s, erased[j].file, g);
      assert all[j].key in s.objects && Needed(s, all[j].file, g);
    }
  }

  lemma ErasedFresh(batch: seq<Candidate>, deletes: Key -> bool)
    requires batch != [] && KeysMatch(batch)
    ensures KeysMatch(batch[..|batch| - 1])
    ensures batch[|batch| - 1].key !in KeysOf(ErasedOf(batch[..|batch| - 1], deletes))
  {
    var n := |batch| - 1;
    FilterMember((c: Candidate) => deletes(c.key), batch[..n]);
    forall i | 0 <= i < |ErasedOf(batch[..n], deletes)|
      ensures ErasedOf(batch[..n], deletes)[i].key != batch[n].key
    {
      assert ErasedOf(batch[..n], deletes)[i] in batch[..n];
    }
  }

  /** One more object erased. */
  lemma EraseOne(s: State, s1: State, erased: seq<Candidate>, c: Candidate, g: Guard)
    requires s1 == s.(objects := s.objects - KeysOf(erased)) && c.key !in KeysOf(erased) && c.key.file == c.file
    ensures SparesAlong(s1, [DeleteObject(s1, c.key)], g) <==> !(c.key in s.objects && Needed(s, c.file, g))
  {
    SameNeeds(s, s1, g);
    AlongOne(s1, DeleteObject(s1, c.key), g);
  }

  /** Erasing the first so many objects of a batch spares whatever is needed, exactly if
      none of them is. */
  lemma {:induction false} EraseSpares(s: State, batch: seq<Candidate>, deletes: Key -> bool, g: Guard, n: nat)
    requires Inv(s) && KeysMatch(batch) && n <= |EraseStates(s, batch, deletes)|
    ensures |EraseStates(s, batch, deletes)| == |ErasedOf(batch, deletes)|
    ensures SparesAlong(s, EraseStates(s, batch, deletes)[..n], g) <==> !Wasted(s, ErasedOf(batch, deletes), g, n)
  {
    if batch != [] {
      var last := batch[|batch| - 1];
      var front := batch[..|batch| - 1];
      var t, erased := EraseStates(s, front, deletes), ErasedOf(front, deletes);
      ErasedFresh(batch, deletes);
      EraseKeeps(s, front, deletes);
      if n <= |t| {
        EraseSpares(s, front, deletes, g, n);
        WastedWithin(s, erased, last, g, n);
        assert EraseStates(s, batch, deletes)[..n] == t[..n];
      } else {
        EraseSpares(s, front, deletes, g, |t|);
        assert t[..|t|] == t;
        EraseOne(s, Last(s, t), erased, last, g);
        WastedSnoc(s, erased, last, g);
        AlongConcat(s, t, [DeleteObject(Last(s, t), last.key)], g);
        assert EraseStates(s, batch, deletes)[..n] == t + [DeleteObject(Last(s, t), last.key)];
      }
    }
  }

  lemma FirstsMatch(s: State, batch: seq<Candidate>)
    requires BatchOk(s, batch)
    ensures KeysMatch(Firsts(batch))
  {
    FirstsLaws(batch);
    forall i | 0 <= i < |Firsts(batch)|
      ensures Firsts(batch)[i].key.file == Firsts(batch)[i].file
    {
      assert Firsts(batch)[i] in batch;
      var j :| 0 <= j < |batch| && batch[j] == Firsts(batch)[i];
      assert CandidateOk(s, batch[j]);
    }
  }

  /** The same for a release, whose last call is the rows'. */
  lemma ReleaseSpares(s: State, batch: seq<Candidate>, deletes: Key -> bool, rowsGo: bool, g: Guard, n: nat)
    requires Inv(s) && BatchOk(s, batch) && n <= |ReleaseStates(s, batch, deletes, rowsGo)|
    ensures SparesAlong(s, ReleaseStates(s, batch, deletes, rowsGo)[..n], g) <==>
            !Wasted(s, Doomed(batch, deletes), g, n)
    ensures |Doomed(batch, deletes)| <= |ReleaseStates(s, batch, deletes, rowsGo)|
  {
    var t := EraseStates(s, Firsts(batch), deletes);
    var whole := ReleaseStates(s, batch, deletes, rowsGo);
    FirstsMatch(s, batch);
    if n <= |t| {
      EraseSpares(s, Firsts(batch), deletes, g, n);
      assert whole[..n] == t[..n];
    } else {
      EraseSpares(s, Firsts(batch), deletes, g, |t|);
      assert t[..|t|] == t;
      var rows := DeleteRows(Last(s, t), FilesOf(Doomed(batch, deletes)));
      UntouchedSpares(Last(s, t), [rows], g);
      AlongConcat(s, t, [rows], g);
      assert whole[..n] == t + [rows];
    }
  }

  /** Releasing what nobody needs spares everything. */
  lemma UnneededSpares(s: State, batch: seq<Candidate>, deletes: Key -> bool, rowsGo: bool, g: Guard)
    requires Inv(s) && BatchOk(s, batch) && forall f :: HasFile(batch, f) ==> !Needed(s, f, g)
    ensures SparesAlong(s, ReleaseStates(s, batch, deletes, rowsGo), g)
  {
    var t := ReleaseStates(s, batch, deletes, rowsGo);
    ReleaseSpares(s, batch, deletes, rowsGo, g, |t|);
    assert t[..|t|] == t;
    DoomedInBatch(batch, deletes);
    forall j | 0 <= j < |Doomed(batch, deletes)|
      ensures !Needed(s, Doomed(batch, deletes)[j].file, g)
    {
      assert Doomed(batch, deletes)[j].file in FilesOf(Doomed(batch, deletes));
    }
  }

  lemma UnreferencedUnneeded(s: State, f: FileId, g: Guard)
    requires |Refs(s, f)| == 0
    ensures !Needed(s, f, g)
  {
    UnreferencedIsUnused(s, f);
    NoRefs(s, f);
  }

  // ----- block by block -----

  /** The message a retention block is about. */
  function Spared(s: State, q: Request): set<MsgId> {
    if q.Purge? && s.listing != [] then {s.listing[0].id} else {}
  }

  /** What a block is held to: nobody but the message being purged may be left without
      a file it refers to; or what runs are held to. */
  predicate Fits(s: State, q: Request, g: Guard) {
    g == AllButOneDeleted || g == AllBut(Spared(s, q))
  }

  /** A send whose commit fails, or a clear, that erases a needed object with one of its
      first `n` calls. */
  predicate Wastes(s: State, q: Request, g: Guard, n: nat) {
    match q
    case Send(_, attachments, env) =>
      var files := FirstIds(attachments);
      AllFound(s, files, env.looksUp) && !env.commits && Wasted(s, Doomed(CandidatesOf(s, files), env.deletes), g, n)
    case Clear(files, deletes, _) =>
      Names(s, files) && Wasted(s, Doomed(CandidatesOf(s, files), deletes), g, n)
    case _ => false
  }

  lemma UploadSpares(s: State, key: Key, q: Request, g: Guard)
    requires Inv(s) && q.Upload?
    ensures SparesAlong(s, UploadStates(s, key, q), g)
  {
  }

  lemma DiscardSpares(s: State, f: FileId, counts: bool, deletes: Key -> bool, rowsWork: bool, g: Guard)
    requires Inv(s)
    ensures SparesAlong(s, DiscardStates(s, f, counts, deletes, rowsWork), g)
  {
    if f in s.rows && |Refs(s, f)| == 0 {
      UnreferencedUnneeded(s, f, g);
      SingleBatch(Candidate(f, s.rows[f].key), deletes);
      UnneededSpares(s, [Candidate(f, s.rows[f].key)], deletes, rowsWork, g);
    }
  }

  lemma {:induction false} AppendUntouched(s: State, parts: seq<Option<FileId>>)
    ensures Untouched(s, AppendStates(s, parts))
  {
    if parts != [] {
      AppendUntouched(s, parts[..|parts| - 1]);
      AppendedRows(s, parts);
    }
  }

  lemma {:induction false} UndoUntouched(s: State, created: seq<MsgId>, hardDeletes: MsgId -> bool)
    ensures Untouched(s, UndoStates(s, created, hardDeletes))
  {
    if created != [] {
      UndoUntouched(s, created[..|created| - 1], hardDeletes);
    }
  }

  lemma RollbackSpares(s: State, created: seq<MsgId>, files: seq<FileId>, env: SendEnv, g: Guard)
    requires Inv(s) && (forall m :: m in created ==> !Listed(s, m)) && forall f :: f in files ==> f in s.rows
    ensures SparesAlong(s, RollbackStates(s, created, files, env), g)
  {
    var t := UndoStates(s, created, env.hardDeletes);
    var s1 := Last(s, t);
    UndoUntouched(s, created, env.hardDeletes);
    UntouchedSpares(s, t, g);
    UndoKeeps(s, created, env.hardDeletes);
    LastInv(s, t);
    var batch := CandidatesOf(s1, Releasable(s1, files, env.counts));
    ReleasableFine(s1, files, env.counts);
    forall f | HasFile(batch, f)
      ensures !Needed(s1, f, g)
    {
      NoRefs(s1, f);
      UnreferencedUnneeded(s1, f, g);
    }
    UnneededSpares(s1, batch, env.deletes, env.rowsWork, g);
    AlongConcat(s, t, ReleaseStates(s1, batch, env.deletes, env.rowsWork), g);
  }

  lemma DeliverSpares(s: State, hasText: bool, files: seq<FileId>, env: SendEnv, g: Guard)
    requires Inv(s) && forall f :: f in files ==> f in s.rows
    ensures SparesAlong(s, DeliverStates(s, hasText, files, env), g)
  {
    var k := Reached(|Parts(hasText, files)|, env.failsAt);
    var t := AppendStates(s, Parts(hasText, files)[..k]);
    AppendUntouched(s, Parts(hasText, files)[..k]);
    UntouchedSpares(s, t, g);
    Delivering(s, hasText, files, k);
    RollbackSpares(Last(s, t), Ids(s.nextId, k), files, env, g);
    AlongConcat(s, t, RollbackStates(Last(s, t), Ids(s.nextId, k), files, env), g);
  }

  lemma CommittedSpares(s: State, hasText: bool, files: seq<FileId>, env: SendEnv, g: Guard)
    requires Inv(s) && forall f :: f in files ==> f in s.rows
    ensures SparesAlong(s, [Committed(s, files)] + DeliverStates(Committed(s, files), hasText, files, env), g)
  {
    CommittedKeeps(s, files);
    UntouchedSpares(s, [Committed(s, files)], g);
    DeliverSpares(Committed(s, files), hasText, files, env, g);
    AlongConcat(s, [Committed(s, files)], DeliverStates(Committed(s, files), hasText, files, env), g);
  }

  lemma NothingDoomed(s: State, deletes: Key -> bool)
    ensures Doomed(CandidatesOf(s, []), deletes) == []
  {
    assert CandidatesOf(s, []) == [];
  }

  lemma SendSpares(s: State, hasText: bool, attachments: seq<FileId>, env: SendEnv, g: Guard, n: nat)
    requires Inv(s) && n <= |SendStates(s, hasText, FirstIds(attachments), env)|
    ensures SparesAlong(s, SendStates(s, hasText, FirstIds(attachments), env)[..n], g) <==>
            !Wastes(s, Send(hasText, attachments, env), g, n)
  {
    var files := FirstIds(attachments);
    var t := SendStates(s, hasText, files, env);
    if !AllFound(s, files, env.looksUp) {
      return;
    }
    NothingDoomed(s, env.deletes);
    if files != [] && !env.commits {
      CandidatesFine(s, files);
      ReleaseSpares(s, CandidatesOf(s, files), env.deletes, env.rowsWork, g, n);
    } else {
      DeliverSpares(s, hasText, files, env, g);
      CommittedSpares(s, hasText, files, env, g);
      AlongPrefix(s, t, g, n);
    }
  }

  lemma ClearSpares(s: State, files: seq<FileId>, deletes: Key -> bool, txWorks: bool, g: Guard, n: nat)
    requires Inv(s) && Names(s, files) && n <= |ClearStates(s, files, deletes, txWorks)|
    ensures SparesAlong(s, ClearStates(s, files, deletes, txWorks)[..n], g) <==>
            !Wasted(s, Doomed(CandidatesOf(s, files), deletes), g, n)
  {
    var batch := CandidatesOf(s, files);
    var t := ReleaseStates(s, batch, deletes, false);
    CandidatesFine(s, files);
    if n <= |t| {
      ReleaseSpares(s, batch, deletes, false, g, n);
      assert ClearStates(s, files, deletes, txWorks)[..n] == t[..n];
    } else {
      ReleaseSpares(s, batch, deletes, false, g, |t|);
      assert t[..|t|] == t;
      UntouchedSpares(Last(s, t), [ClearTables(Last(s, t))], g);
      AlongConcat(s, t, [ClearTables(Last(s, t))], g);
      assert ClearStates(s, files, deletes, txWorks)[..n] == t + [ClearTables(Last(s, t))];
    }
  }

  lemma PurgeSpares(s: State, env: PruneEnv, g: Guard)
    requires Inv(s) && s.listing != [] && Fits(s, Purge(env), g)
    ensures SparesAlong(s, PurgeStates(s, env), g)
  {
    var s1, e := Visited(s), s.listing[0];
    TailFine(s);
    UntouchedSpares(s, [s1], g);
    PurgeRestSpares(s1, e, env, g);
    AlongConcat(s, [s1], PurgeRest(s1, e, env), g);
  }

  lemma PurgeRestSpares(s: State, e: Entry, env: PruneEnv, g: Guard)
    requires Inv(s) && EntryOk(s, e) && (g == AllButOneDeleted || g == AllBut({e.id}))
    ensures SparesAlong(s, PurgeRest(s, e, env), g)
  {
    UntouchedSpares(s, HardStates(s, e.id, env.hardDeletes), g);
    UntouchedSpares(s, [Forgotten(s)], g);
    if e.file.Some? && |Refs(s, e.file.value)| == 1 && e.file.value in s.rows {
      LastReferenceIsListed(s, e);
      var c := Candidate(e.file.value, s.rows[e.file.value].key);
      var t := ReleaseStates(s, [c], env.deletes, env.rowsWork);
      SingleBatch(c, env.deletes);
      UnneededSpares(s, [c], env.deletes, env.rowsWork, g);
      UntouchedSpares(Last(s, t), HardStates(Last(s, t), e.id, env.hardDeletes), g);
      AlongConcat(s, t, HardStates(Last(s, t), e.id, env.hardDeletes), g);
    }
  }

  lemma PruneSpares(s: State, env: PruneEnv, g: Guard)
    requires Inv(s) && s.candidates != []
    ensures SparesAlong(s, PruneStates(s, env), g)
  {
    var c := s.candidates[0];
    var s1 := s.(candidates := s.candidates[1..]);
    NextCandidate(s);
    UntouchedSpares(s, [s1], g);
    if |Refs(s1, c.file)| == 0 {
      UnreferencedUnneeded(s1, c.file, g);
      SingleBatch(c, env.deletes);
      UnneededSpares(s1, [c], env.deletes, env.rowsWork, g);
      AlongConcat(s, [s1], ReleaseStates(s1, [c], env.deletes, env.rowsWork), g);
    }
  }

  lemma OtherSpares(s: State, q: Request, g: Guard)
    requires Inv(s) && Fits(s, q, g) && !q.Send? && !q.Clear?
    ensures SparesAlong(s, Steps(s, q), g)
  {
    match q
    case Upload(key, _, _, _, _) => UploadSpares(s, key, q, g);
    case Discard(f, counts, deletes, rowsWork) => DiscardSpares(s, f, counts, deletes, rowsWork, g);
    case Purge(env) => if s.listing != [] { PurgeSpares(s, env, g); }
    case Prune(env) => if s.candidates != [] { PruneSpares(s, env, g); }
    case _ => UntouchedSpares(s, Steps(s, q), g);
  }

  /** Every block, up to any of its calls: no object of a file leaves that a message
      refers to (the one being purged apart), if and only if the block is not a send
      whose commit fails, or a clear, that has by then erased one. */
  lemma StepsSpare(s: State, q: Request, g: Guard, n: nat)
    requires Inv(s) && Fits(s, q, g) && n <= |Steps(s, q)|
    ensures SparesAlong(s, Steps(s, q)[..n], g) <==> !Wastes(s, q, g, n)
  {
    if q.Send? {
      SendSpares(s, q.hasText, q.attachments, q.env, g, n);
    } else if q.Clear? {
      if Names(s, q.files) {
        ClearSpares(s, q.files, q.deletes, q.txWorks, g, n);
      }
    } else {
      OtherSpares(s, q, g);
      AlongPrefix(s, Steps(s, q), g, n);
    }
  }

  // ----- where objects go that are needed -----

  /** A shown file is sent again and the commit fails: its object is deleted, and if then
      its row cannot be, the message goes on showing a file without bytes. */
  lemma ResendErases(s: State, f: FileId, env: SendEnv)
    requires Inv(s) && VisiblyUsed(s, f) && f in s.rows && s.rows[f].key in s.objects
    requires env.looksUp(f) && !env.commits && env.deletes(s.rows[f].key) && !env.rowsWork
    ensures var t := SendStates(s, false, [f], env);
            var s2 := Last(s, t);
            && s.rows[f].key !in s2.objects && s2.messages == s.messages && s2.rows == s.rows
            && !Hazard(s, [f], env) && (VisibleKept(s) ==> AllKept(t))
  {
    var c := Candidate(f, s.rows[f].key);
    assert CandidatesOf(s, [f]) == [c];
    CandidatesFine(s, [f]);
    SendKeeps(s, false, [f], env);
    ReleaseKeeps(s, [c], env.deletes, false);
    ReleasedOne(s, c, env.deletes, false);
  }

  /** A clear that cannot delete some other object, or whose transaction fails, leaves
      every message and row, and has deleted the other objects. */
  lemma ClearErases(s: State, files: seq<FileId>, deletes: Key -> bool, txWorks: bool, f: FileId)
    requires Inv(s) && Names(s, files) && !(AllErasable(s, files, deletes) && txWorks)
    requires VisiblyUsed(s, f) && f in s.rows && s.rows[f].key in s.objects && deletes(s.rows[f].key)
    ensures var t := ClearStates(s, files, deletes, txWorks);
            var s2 := Last(s, t);
            && s.rows[f].key !in s2.objects && s2.messages == s.messages && s2.rows == s.rows
            && (VisibleKept(s) ==> AllKept(t))
  {
    var batch := CandidatesOf(s, files);
    var i :| 0 <= i < |files| && files[i] == f;
    EveryObject(s, files, deletes);
    ClearStatesKeep(s, files, deletes, txWorks);
    ObjectsOnlyKeeps(s, batch, deletes);
    assert batch[i] == Candidate(f, s.rows[f].key);
    FilterMember((c: Candidate) => deletes(c.key), batch);
    assert batch[i] in Doomed(batch, deletes);
    var j :| 0 <= j < |Doomed(batch, deletes)| && Doomed(batch, deletes)[j] == batch[i];
    assert Doomed(batch, deletes)[j].key in KeysOf(Doomed(batch, deletes));
  }
}
