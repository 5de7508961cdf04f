/** handlers/drop.py, core/prune_orchestrator.py, core/file_lifecycle.py: every Drop
    request and prune block as the states it passes through, one for each storage call
    that takes effect, with a failure possible at each call. */
module DropTrace {
  import opened Lists
  import opened DropStore

  // ----- stretches of a run -----

  function Last(s: State, t: seq<State>): State {
    if t == [] then s else t[|t| - 1]
  }

  ghost predicate AllInv(t: seq<State>) {
    forall i :: 0 <= i < |t| ==> Inv(t[i])
  }

  ghost predicate AllKept(t: seq<State>) {
    forall i :: 0 <= i < |t| ==> VisibleKept(t[i])
  }

  /** From `s` on, no state loses what was kept. */
  ghost predicate Keeps(s: State, t: seq<State>) {
    AllInv(t) && (VisibleKept(s) ==> AllKept(t))
  }

  /** Every state is sound; visible files stay exactly unless there is `harm`, which is
      then done by the last call. */
  ghost predicate Sound(s: State, t: seq<State>, harm: bool) {
    && AllInv(t)
    && (VisibleKept(s) ==> (AllKept(t) <==> !harm))
    && (harm ==> t != [] && !VisibleKept(Last(s, t)) && Keeps(s, t[..|t| - 1]))
  }

  lemma LastConcat(s: State, t: seq<State>, u: seq<State>)
    ensures Last(s, t + u) == Last(Last(s, t), u)
  {
  }

  lemma LastInv(s: State, t: seq<State>)
    requires Inv(s) && AllInv(t)
    ensures Inv(Last(s, t)) && (VisibleKept(s) && AllKept(t) ==> VisibleKept(Last(s, t)))
  {
  }

  lemma KeepsConcat(s: State, t: seq<State>, u: seq<State>)
    requires Keeps(s, t) && Keeps(Last(s, t), u)
    ensures Keeps(s, t + u)
  {
  }

  lemma KeptConcat(t: seq<State>, u: seq<State>)
    ensures AllKept(t + u) <==> AllKept(t) && AllKept(u)
  {
    if AllKept(t + u) {
      assert forall i :: 0 <= i < |t| ==> (t + u)[i] == t[i];
      assert forall i :: 0 <= i < |u| ==> (t + u)[|t| + i] == u[i];
    }
  }

  /** One more call. */
  lemma SoundSnoc(s: State, t: seq<State>, next: State, harm: bool)
    requires Keeps(s, t) && Inv(next)
    requires VisibleKept(next) <==> VisibleKept(Last(s, t)) && !harm
    requires VisibleKept(s) ==> VisibleKept(Last(s, t))
    ensures Sound(s, t + [next], harm)
  {
    KeptConcat(t, [next]);
    assert (t + [next])[..|t|] == t && [next][0] == next;
  }

  // ----- releasing files -----

  predicate HasFile(batch: seq<Candidate>, f: FileId) {
    exists i :: 0 <= i < |batch| && batch[i].file == f
  }

  /** The first candidate for each file. */
  function Firsts(batch: seq<Candidate>): seq<Candidate> {
    if batch == [] then [] else
    var front := Firsts(batch[..|batch| - 1]);
    if HasFile(front, batch[|batch| - 1].file) then front else front + [batch[|batch| - 1]]
  }

  /** Those of them whose object can be deleted. */
  function Doomed(batch: seq<Candidate>, deletes: Key -> bool): seq<Candidate> {
    Filter((c: Candidate) => deletes(c.key), Firsts(batch))
  }

  function FilesOf(batch: seq<Candidate>): set<FileId> {
    set i | 0 <= i < |batch| :: batch[i].file
  }

  function KeysOf(batch: seq<Candidate>): set<Key> {
    set i | 0 <= i < |batch| :: batch[i].key
  }

  function KeyOf(s: State, f: FileId): Key {
    if f in s.rows then s.rows[f].key else Key(f, "")
  }

  function CandidatesOf(s: State, files: seq<FileId>): (batch: seq<Candidate>)
    ensures |batch| == |files|
    ensures forall i :: 0 <= i < |files| ==> batch[i] == Candidate(files[i], KeyOf(s, files[i]))
  {
    seq(|files|, i requires 0 <= i < |files| => Candidate(files[i], KeyOf(s, files[i])))
  }

  /** Objects erased one by one. */
  function EraseStates(s: State, batch: seq<Candidate>, deletes: Key -> bool): seq<State> {
    if batch == [] then [] else
    var t := EraseStates(s, batch[..|batch| - 1], deletes);
    var key := batch[|batch| - 1].key;
    if deletes(key) then t + [DeleteObject(Last(s, t), key)] else t
  }

  /** `release_files_safely`: objects first, and rows only for those. */
  function ReleaseStates(s: State, batch: seq<Candidate>, deletes: Key -> bool, rowsGo: bool): seq<State> {
    var t := EraseStates(s, Firsts(batch), deletes);
    var doomed := Doomed(batch, deletes);
    if rowsGo && doomed != [] then t + [DeleteRows(Last(s, t), FilesOf(doomed))] else t
  }

  /** What a release leaves. */
  function Released(s: State, batch: seq<Candidate>, deletes: Key -> bool, rowsGo: bool): State {
    var doomed := Doomed(batch, deletes);
    var s1 := s.(objects := s.objects - KeysOf(doomed));
    if rowsGo then DeleteRows(s1, FilesOf(doomed)) else s1
  }

  lemma {:induction false} FirstsLaws(batch: seq<Candidate>)
    ensures forall i, j :: 0 <= i < j < |Firsts(batch)| ==> Firsts(batch)[i].file != Firsts(batch)[j].file
    ensures forall c :: c in Firsts(batch) ==> c in batch
    ensures |Firsts(batch)| <= |batch|
  {
    if batch != [] {
      var n := |batch| - 1;
      FirstsLaws(batch[..n]);
      assert batch == batch[..n] + [batch[n]];
    }
  }

  lemma {:induction false} FirstsAll(batch: seq<Candidate>)
    requires forall i, j :: 0 <= i < j < |batch| ==> batch[i].file != batch[j].file
    ensures Firsts(batch) == batch
  {
    if batch != [] {
      var n := |batch| - 1;
      FirstsAll(batch[..n]);
      assert batch == batch[..n] + [batch[n]];
    }
  }

  lemma SetsSnoc(batch: seq<Candidate>, c: Candidate)
    ensures FilesOf(batch + [c]) == FilesOf(batch) + {c.file}
    ensures KeysOf(batch + [c]) == KeysOf(batch) + {c.key}
  {
    assert forall i :: 0 <= i < |batch| ==> (batch + [c])[i] == batch[i];
    assert (batch + [c])[|batch|] == c;
  }

  lemma SingleSets(c: Candidate)
    ensures FilesOf([c]) == {c.file} && KeysOf([c]) == {c.key}
    ensures FilesOf([]) == {} && KeysOf([]) == {}
  {
    assert [c][0] == c;
  }

  ghost predicate BatchOk(s: State, batch: seq<Candidate>) {
    forall i :: 0 <= i < |batch| ==> CandidateOk(s, batch[i])
  }

  lemma DoomedInBatch(batch: seq<Candidate>, deletes: Key -> bool)
    ensures forall c :: c in Doomed(batch, deletes) ==> c in batch
    ensures forall f :: f in FilesOf(Doomed(batch, deletes)) ==> HasFile(batch, f)
  {
    FirstsLaws(batch);
    FilterMember((c: Candidate) => deletes(c.key), Firsts(batch));
    forall f | f in FilesOf(Doomed(batch, deletes))
      ensures HasFile(batch, f)
    {
      var i :| 0 <= i < |Doomed(batch, deletes)| && Doomed(batch, deletes)[i].file == f;
      assert Doomed(batch, deletes)[i] in Doomed(batch, deletes);
    }
  }

  lemma DoomedKeys(s: State, batch: seq<Candidate>, deletes: Key -> bool)
    requires BatchOk(s, batch)
    ensures forall k :: k in KeysOf(Doomed(batch, deletes)) ==> HasFile(batch, k.file)
  {
    DoomedInBatch(batch, deletes);
    forall k | k in KeysOf(Doomed(batch, deletes))
      ensures HasFile(batch, k.file)
    {
      var i :| 0 <= i < |Doomed(batch, deletes)| && Doomed(batch, deletes)[i].key == k;
      assert Doomed(batch, deletes)[i] in Doomed(batch, deletes);
      var j :| 0 <= j < |batch| && batch[j] == Doomed(batch, deletes)[i];
      assert CandidateOk(s, batch[j]);
    }
  }

  lemma NoneLeft(s: State, doomed: seq<Candidate>)
    requires Inv(s) && BatchOk(s, doomed) && forall k :: k in s.objects ==> k !in KeysOf(doomed)
    ensures forall k :: k in s.objects ==> k.file !in FilesOf(doomed)
  {
    forall k, i | k in s.objects && 0 <= i < |doomed|
      ensures doomed[i].file != k.file
    {
      assert CandidateOk(s, doomed[i]);
      assert doomed[i].key in KeysOf(doomed);
    }
  }

  /** Erasing objects harms nobody. */
  lemma {:induction false} EraseKeeps(s: State, batch: seq<Candidate>, deletes: Key -> bool)
    requires Inv(s)
    ensures Keeps(s, EraseStates(s, batch, deletes))
    ensures Last(s, EraseStates(s, batch, deletes)) ==
            s.(objects := s.objects - KeysOf(Filter((c: Candidate) => deletes(c.key), batch)))
  {
    if batch == [] {
      assert KeysOf([]) == {} && s.objects - {} == s.objects;
    } else {
      var n := |batch| - 1;
      var t := EraseStates(s, batch[..n], deletes);
      EraseKeeps(s, batch[..n], deletes);
      LastInv(s, t);
      DeleteObjectKeeps(Last(s, t), batch[n].key);
      SetsSnoc(Filter((c: Candidate) => deletes(c.key), batch[..n]), batch[n]);
    }
  }

  lemma ReleaseReady(s: State, s1: State, batch: seq<Candidate>, doomed: seq<Candidate>)
    requires Inv(s1) && BatchOk(s, batch) && s1 == s.(objects := s.objects - KeysOf(doomed))
    requires forall c :: c in doomed ==> c in batch
    ensures forall k :: k in s1.objects ==> k.file !in FilesOf(doomed)
    ensures forall f :: VisiblyUsed(s1, f) <==> VisiblyUsed(s, f)
  {
    forall i | 0 <= i < |doomed|
      ensures CandidateOk(s1, doomed[i])
    {
      assert doomed[i] in doomed;
      var j :| 0 <= j < |batch| && batch[j] == doomed[i];
      assert CandidateOk(s, batch[j]);
    }
    NoneLeft(s1, doomed);
  }

  /** A file whose row a release takes although a visible message shows it. */
  ghost predicate Harms(s: State, batch: seq<Candidate>, deletes: Key -> bool, rowsGo: bool) {
    rowsGo && exists f :: f in FilesOf(Doomed(batch, deletes)) && VisiblyUsed(s, f)
  }

  /** Every object stays named by a row at each step of a release, and visible files
      keep theirs exactly unless one of the released files is in visible use; then it
      is the last call that takes it. */
  lemma ReleaseKeeps(s: State, batch: seq<Candidate>, deletes: Key -> bool, rowsGo: bool)
    requires Inv(s) && BatchOk(s, batch)
    ensures Sound(s, ReleaseStates(s, batch, deletes, rowsGo), Harms(s, batch, deletes, rowsGo))
    ensures Last(s, ReleaseStates(s, batch, deletes, rowsGo)) == Released(s, batch, deletes, rowsGo)
  {
    var t := EraseStates(s, Firsts(batch), deletes);
    var doomed := Doomed(batch, deletes);
    EraseKeeps(s, Firsts(batch), deletes);
    LastInv(s, t);
    if doomed == [] {
      assert KeysOf([]) == {} && FilesOf([]) == {};
      assert s.objects - {} == s.objects && s.rows - {} == s.rows;
    } else if rowsGo {
      DoomedInBatch(batch, deletes);
      ReleaseReady(s, Last(s, t), batch, doomed);
      DeleteRowsKeeps(Last(s, t), FilesOf(doomed));
      SoundSnoc(s, t, DeleteRows(Last(s, t), FilesOf(doomed)), Harms(s, batch, deletes, rowsGo));
    }
  }

  /** So releasing files nobody shows is harmless. */
  lemma SafeReleaseKeeps(s: State, batch: seq<Candidate>, deletes: Key -> bool, rowsGo: bool)
    requires Inv(s) && BatchOk(s, batch)
    requires forall f :: HasFile(batch, f) ==> !VisiblyUsed(s, f)
    ensures Keeps(s, ReleaseStates(s, batch, deletes, rowsGo))
    ensures Last(s, ReleaseStates(s, batch, deletes, rowsGo)) == Released(s, batch, deletes, rowsGo)
  {
    ReleaseKeeps(s, batch, deletes, rowsGo);
    DoomedInBatch(batch, deletes);
  }

  lemma SingleBatch(c: Candidate, deletes: Key -> bool)
    ensures Doomed([c], deletes) == if deletes(c.key) then [c] else []
    ensures forall f :: HasFile([c], f) <==> f == c.file
  {
    var p := (x: Candidate) => deletes(x.key);
    assert [c][..0] == [];
    assert !HasFile([], c.file);
    assert [c][0] == c;
    assert Firsts([c]) == [c];
    assert Filter(p, [c]) == if p(c) then Filter(p, []) + [c] else Filter(p, []);
  }

  function OneReleased(s: State, c: Candidate, deletes: bool, rowsWork: bool): State {
    if !deletes then s
    else if rowsWork then DeleteRows(DeleteObject(s, c.key), {c.file})
    else DeleteObject(s, c.key)
  }

  lemma ReleasedOne(s: State, c: Candidate, deletes: Key -> bool, rowsWork: bool)
    ensures Released(s, [c], deletes, rowsWork) == OneReleased(s, c, deletes(c.key), rowsWork)
  {
    SingleBatch(c, deletes);
    SingleSets(c);
    assert s.objects - {} == s.objects && s.rows - {} == s.rows;
  }

  lemma OneReleaseKeeps(s: State, c: Candidate, deletes: Key -> bool, rowsWork: bool)
    requires Inv(s) && CandidateOk(s, c) && !VisiblyUsed(s, c.file)
    ensures Keeps(s, ReleaseStates(s, [c], deletes, rowsWork))
    ensures Last(s, ReleaseStates(s, [c], deletes, rowsWork)) == OneReleased(s, c, deletes(c.key), rowsWork)
  {
    SingleBatch(c, deletes);
    SafeReleaseKeeps(s, [c], deletes, rowsWork);
    ReleasedOne(s, c, deletes, rowsWork);
  }

  lemma CandidatesFine(s: State, files: seq<FileId>)
    requires Inv(s) && forall f :: f in files ==> f in s.rows
    ensures BatchOk(s, CandidatesOf(s, files))
    ensures forall f :: HasFile(CandidatesOf(s, files), f) <==> f in files
  {
    var batch := CandidatesOf(s, files);
    forall i | 0 <= i < |files|
      ensures CandidateOk(s, batch[i])
    {
      assert files[i] in files;
    }
    forall f
      ensures HasFile(batch, f) <==> f in files
    {
      if f in files {
        var i :| 0 <= i < |files| && files[i] == f;
        assert batch[i].file == f;
      }
    }
  }

  // ----- requests -----

  /** What may fail during one send: file lookups, the commit, the `failsAt`-th call of
      the append phase (append and fetch alternate), and whatever the clean-up calls. */
  datatype SendEnv = SendEnv(
    looksUp: FileId -> bool, commits: bool, failsAt: nat, hardDeletes: MsgId -> bool,
    counts: FileId -> bool, deletes: Key -> bool, rowsWork: bool)

  /** What may fail for one visited row of a prune pass. */
  datatype PruneEnv = PruneEnv(counts: bool, fetches: bool, deletes: Key -> bool, rowsWork: bool, hardDeletes: bool)

  /** Ids and files given with `Clear`, `ListExpired` and `ListOrphans` are what the
      query returned; `Forget` is a pass given up, or the process starting anew. */
  datatype Request =
    | Upload(key: Key, withinQuota: bool, inserts: bool, saves: bool, rollsBack: bool)
    | Send(hasText: bool, attachments: seq<FileId>, env: SendEnv)
    | Delete(id: MsgId, works: bool)
    | Clear(files: seq<FileId>, deletes: Key -> bool, txWorks: bool)
    | Discard(file: FileId, counts: bool, deletes: Key -> bool, rowsWork: bool)
    | ListExpired(ids: seq<MsgId>)
    | ListOrphans(files: seq<FileId>)
    | Purge(prune: PruneEnv)
    | Prune(prune: PruneEnv)
    | Forget

  // ----- uploading, deleting, clearing, discarding -----

  function UploadStates(s: State, key: Key, q: Request): seq<State>
    requires q.Upload?
  {
    if !q.withinQuota || !q.inserts then [] else
    var s1 := InsertRow(s, key);
    if q.saves then [s1, SaveObject(s1, key)]
    else if q.rollsBack then [s1, DeleteRows(s1, {key.file})]
    else [s1]
  }

  lemma InsertUndone(s: State, key: Key)
    requires Inv(s) && key.file !in s.used
    ensures var s1 := InsertRow(s, key);
            && (forall k :: k in s1.objects ==> k.file != key.file)
            && !VisiblyUsed(s1, key.file)
            && DeleteRows(s1, {key.file}) == s.(used := s.used + {key.file})
  {
    assert s.rows[key.file := Row(key, false)] - {key.file} == s.rows;
  }

  lemma UploadKeeps(s: State, key: Key, q: Request)
    requires Inv(s) && q.Upload? && key.file !in s.used
    ensures Keeps(s, UploadStates(s, key, q))
  {
    InsertKeeps(s, key);
    SaveKeeps(InsertRow(s, key), key);
    InsertUndone(s, key);
    DeleteRowsKeeps(InsertRow(s, key), {key.file});
  }

  lemma UploadEffect(s: State, key: Key, q: Request)
    requires Inv(s) && q.Upload? && key.file !in s.used
    ensures Last(s, UploadStates(s, key, q)) ==
            if !q.withinQuota || !q.inserts then s
            else if q.saves then
              s.(rows := s.rows[key.file := Row(key, false)], used := s.used + {key.file}, objects := s.objects + {key})
            else if q.rollsBack then s.(used := s.used + {key.file})
            else s.(rows := s.rows[key.file := Row(key, false)], used := s.used + {key.file})
  {
    InsertUndone(s, key);
  }

  predicate Shown(s: State, id: MsgId) {
    id in s.messages && !s.messages[id].deleted
  }

  function DeleteStates(s: State, id: MsgId, works: bool): seq<State> {
    if Shown(s, id) && works then [SoftDelete(s, id)] else []
  }

  /** A deletion hides one visible message and does nothing else. */
  lemma DeleteEffect(s: State, id: MsgId, works: bool)
    ensures var s2 := Last(s, DeleteStates(s, id, works));
            && s2 == s.(messages := s2.messages) && s2.messages.Keys == s.messages.Keys
            && (forall m :: m in s.messages ==>
                  && s2.messages[m].file == s.messages[m].file
                  && (s2.messages[m].deleted <==> s.messages[m].deleted || (m == id && works)))
  {
  }

  /** What `list_drop_files` may return: every row once. */
  predicate Names(s: State, files: seq<FileId>) {
    && (forall i, j :: 0 <= i < j < |files| ==> files[i] != files[j])
    && (forall f :: f in files ==> f in s.rows)
    && (forall f :: f in s.rows ==> f in files)
  }

  predicate AllErasable(s: State, files: seq<FileId>, deletes: Key -> bool) {
    forall f :: f in files ==> deletes(KeyOf(s, f))
  }

  /** All objects, then both tables at once. */
  function ClearStates(s: State, files: seq<FileId>, deletes: Key -> bool, txWorks: bool): seq<State> {
    var t := ReleaseStates(s, CandidatesOf(s, files), deletes, false);
    if AllErasable(s, files, deletes) && txWorks then t + [ClearTables(Last(s, t))] else t
  }

  lemma {:induction false} FilterFull<T>(p: T -> bool, xs: seq<T>)
    ensures |Filter(p, xs)| == |xs| <==> forall x :: x in xs ==> p(x)
  {
    if forall x :: x in xs ==> p(x) {
      FilterEverything(p, xs);
    } else {
      var n := |xs| - 1;
      Unsnoc(xs);
      FilterFull(p, xs[..n]);
      FilterSnoc(p, xs[..n], xs[n]);
    }
  }

  /** The listing is released in full exactly if every object can be deleted. */
  lemma EveryObject(s: State, files: seq<FileId>, deletes: Key -> bool)
    requires Inv(s) && Names(s, files)
    ensures BatchOk(s, CandidatesOf(s, files)) && Firsts(CandidatesOf(s, files)) == CandidatesOf(s, files)
    ensures |Doomed(CandidatesOf(s, files), deletes)| == |files| <==> AllErasable(s, files, deletes)
    ensures AllErasable(s, files, deletes) ==> s.objects - KeysOf(Doomed(CandidatesOf(s, files), deletes)) == {}
    ensures |files| == |s.rows|
  {
    var batch := CandidatesOf(s, files);
    CandidatesFine(s, files);
    FirstsAll(batch);
    FilterFull((c: Candidate) => deletes(c.key), batch);
    assert AllErasable(s, files, deletes) <==> forall c :: c in batch ==> deletes(c.key) by {
      forall f | f in files
        ensures Candidate(f, KeyOf(s, f)) in batch
      {
        var i :| 0 <= i < |files| && files[i] == f;
        assert batch[i] == Candidate(f, KeyOf(s, f));
      }
    }
    if AllErasable(s, files, deletes) {
      FilterEverything((c: Candidate) => deletes(c.key), batch);
      AllErased(s, files);
    }
    DistinctCardinality(files, s.rows.Keys);
  }

  lemma AllErased(s: State, files: seq<FileId>)
    requires Inv(s) && forall f :: f in files <==> f in s.rows
    ensures s.objects - KeysOf(CandidatesOf(s, files)) == {}
  {
    forall k | k in s.objects
      ensures k in KeysOf(CandidatesOf(s, files))
    {
      var i :| 0 <= i < |files| && files[i] == k.file;
      assert CandidatesOf(s, files)[i].key == k;
    }
  }

  /** Erasing objects alone is harmless. */
  lemma ObjectsOnlyKeeps(s: State, batch: seq<Candidate>, deletes: Key -> bool)
    requires Inv(s)
    ensures Keeps(s, ReleaseStates(s, batch, deletes, false))
    ensures Last(s, ReleaseStates(s, batch, deletes, false)) == s.(objects := s.objects - KeysOf(Doomed(batch, deletes)))
  {
    EraseKeeps(s, Firsts(batch), deletes);
  }

  lemma ClearStatesKeep(s: State, files: seq<FileId>, deletes: Key -> bool, txWorks: bool)
    requires Inv(s) && Names(s, files)
    ensures Keeps(s, ClearStates(s, files, deletes, txWorks))
  {
    var t := ReleaseStates(s, CandidatesOf(s, files), deletes, false);
    ObjectsOnlyKeeps(s, CandidatesOf(s, files), deletes);
    if AllErasable(s, files, deletes) && txWorks {
      EveryObject(s, files, deletes);
      LastInv(s, t);
      ClearKeeps(Last(s, t));
      KeepsConcat(s, t, [ClearTables(Last(s, t))]);
    }
  }

  /** A clear empties everything exactly if every object could be deleted and the
      transaction worked; otherwise it costs no row and no message. */
  lemma ClearEffect(s: State, files: seq<FileId>, deletes: Key -> bool, txWorks: bool)
    requires Inv(s) && Names(s, files)
    ensures var s2 := Last(s, ClearStates(s, files, deletes, txWorks));
            if txWorks && forall f :: f in s.rows ==> deletes(s.rows[f].key)
            then s2 == s.(messages := map[], rows := map[], objects := {})
            else s2 == s.(objects := s2.objects) && s2.objects <= s.objects
  {
    EveryObject(s, files, deletes);
    ReleaseKeeps(s, CandidatesOf(s, files), deletes, false);
    assert AllErasable(s, files, deletes) <==> forall f :: f in s.rows ==> deletes(s.rows[f].key);
  }

  function DiscardStates(s: State, f: FileId, counts: bool, deletes: Key -> bool, rowsWork: bool): seq<State> {
    if f in s.rows && counts && |Refs(s, f)| == 0
    then ReleaseStates(s, [Candidate(f, s.rows[f].key)], deletes, rowsWork)
    else []
  }

  lemma DiscardKeeps(s: State, f: FileId, counts: bool, deletes: Key -> bool, rowsWork: bool)
    requires Inv(s)
    ensures Keeps(s, DiscardStates(s, f, counts, deletes, rowsWork))
  {
    if f in s.rows && |Refs(s, f)| == 0 {
      UnreferencedIsUnused(s, f);
      OneReleaseKeeps(s, Candidate(f, s.rows[f].key), deletes, rowsWork);
    }
  }

  lemma NoRefs(s: State, f: FileId)
    ensures |Refs(s, f)| == 0 <==> Refs(s, f) == {}
  {
    if |Refs(s, f)| == 0 {
      SubsetCardinality({}, Refs(s, f));
    }
  }

  predicate Discardable(s: State, f: FileId, counts: bool) {
    f in s.rows && counts && Refs(s, f) == {}
  }

  /** A file goes exactly if it is known that no message, deleted or not, refers to it
      and both deletions work. */
  lemma DiscardEffect(s: State, f: FileId, counts: bool, deletes: Key -> bool, rowsWork: bool)
    requires Inv(s)
    ensures var s2 := Last(s, DiscardStates(s, f, counts, deletes, rowsWork));
            && s2 == s.(rows := s2.rows, objects := s2.objects)
            && s2.rows == (if Discardable(s, f, counts) && deletes(s.rows[f].key) && rowsWork then s.rows - {f}
                           else s.rows)
            && s2.objects == (if Discardable(s, f, counts) && deletes(s.rows[f].key)
                              then s.objects - {s.rows[f].key} else s.objects)
  {
    NoRefs(s, f);
    if Discardable(s, f, counts) {
      UnreferencedIsUnused(s, f);
      OneReleaseKeeps(s, Candidate(f, s.rows[f].key), deletes, rowsWork);
    }
  }

  // ----- sending -----

  /** Repeated attachments count once, in the order first named. */
  function FirstIds(files: seq<FileId>): seq<FileId> {
    if files == [] then [] else
    var front := FirstIds(files[..|files| - 1]);
    if files[|files| - 1] in front then front else front + [files[|files| - 1]]
  }

  lemma {:induction false} FirstIdsLaws(files: seq<FileId>)
    ensures Distinct(FirstIds(files))
    ensures forall f :: f in FirstIds(files) <==> f in files
    ensures forall i, j, p :: 0 <= i < j < |FirstIds(files)| && 0 <= p < |files| && files[p] == FirstIds(files)[j] ==>
              FirstIds(files)[i] in files[..p]
  {
    if files != [] {
      var n := |files| - 1;
      var ids := FirstIds(files);
      FirstIdsLaws(files[..n]);
      assert files == files[..n] + [files[n]];
      forall i, j, p | 0 <= i < j < |ids| && 0 <= p < |files| && files[p] == ids[j]
        ensures ids[i] in files[..p]
      {
        if p < n {
          assert files[..n][p] == files[p] && files[..n][..p] == files[..p];
          assert files[p] in files[..n];
        } else {
          assert ids[i] in FirstIds(files[..n]);
        }
      }
    }
  }

  /** The message rows one send appends: its text, then one per file. */
  function Parts(hasText: bool, files: seq<FileId>): (parts: seq<Option<FileId>>)
    ensures |parts| == |files| + if hasText then 1 else 0
    ensures forall p :: p in parts && p.Some? ==> p.value in files
  {
    (if hasText then [None] else []) + seq(|files|, i requires 0 <= i < |files| => Some(files[i]))
  }

  function Appended(s: State, parts: seq<Option<FileId>>): State {
    if parts == [] then s else AddMessage(Appended(s, parts[..|parts| - 1]), parts[|parts| - 1])
  }

  function AppendStates(s: State, parts: seq<Option<FileId>>): seq<State> {
    if parts == [] then [] else AppendStates(s, parts[..|parts| - 1]) + [Appended(s, parts)]
  }

  /** How many of `n` rows are appended before the `failsAt`-th call raises. */
  function Reached(n: nat, failsAt: nat): (k: nat)
    ensures k <= n && (failsAt >= 2 * n ==> k == n)
    ensures failsAt < 2 * n ==> failsAt == 2 * k || failsAt == 2 * k - 1
  {
    if failsAt >= 2 * n then n else (failsAt + 1) / 2
  }

  function Ids(first: MsgId, n: nat): (ids: seq<MsgId>)
    ensures |ids| == n && forall i :: 0 <= i < n ==> ids[i] == first + i
  {
    seq(n, i requires 0 <= i < n => first + i)
  }

  function UndoStates(s: State, created: seq<MsgId>, hardDeletes: MsgId -> bool): seq<State> {
    if created == [] then [] else
    var t := UndoStates(s, created[..|created| - 1], hardDeletes);
    var id := created[|created| - 1];
    if hardDeletes(id) then t + [HardDelete(Last(s, t), id)] else t
  }

  /** The attachments known to be referenced by nobody. */
  function Releasable(s: State, files: seq<FileId>, counts: FileId -> bool): seq<FileId> {
    Filter(f => counts(f) && |Refs(s, f)| == 0, files)
  }

  /** Messages first, then the files nobody refers to any more. */
  function RollbackStates(s: State, created: seq<MsgId>, files: seq<FileId>, env: SendEnv): seq<State> {
    var t := UndoStates(s, created, env.hardDeletes);
    var s1 := Last(s, t);
    t + ReleaseStates(s1, CandidatesOf(s1, Releasable(s1, files, env.counts)), env.deletes, env.rowsWork)
  }

  /** The append phase, its files committed. */
  function DeliverStates(s: State, hasText: bool, files: seq<FileId>, env: SendEnv): seq<State> {
    var parts := Parts(hasText, files);
    var k := Reached(|parts|, env.failsAt);
    var t := AppendStates(s, parts[..k]);
    if env.failsAt >= 2 * |parts| then t else t + RollbackStates(Last(s, t), Ids(s.nextId, k), files, env)
  }

  /** Every attachment is a Drop file of this token, and can be looked up. */
  predicate AllFound(s: State, files: seq<FileId>, looksUp: FileId -> bool) {
    forall f :: f in files ==> looksUp(f) && f in s.rows
  }

  function Committed(s: State, files: seq<FileId>): State {
    if files == [] then s else Commit(s, Elements(files))
  }

  /** `files` without repetition. The release after a failed commit asks nobody. */
  function SendStates(s: State, hasText: bool, files: seq<FileId>, env: SendEnv): seq<State> {
    if (!hasText && files == []) || !AllFound(s, files, env.looksUp) then []
    else if files == [] then DeliverStates(s, hasText, files, env)
    else if !env.commits then ReleaseStates(s, CandidatesOf(s, files), env.deletes, env.rowsWork)
    else [Committed(s, files)] + DeliverStates(Committed(s, files), hasText, files, env)
  }

  /** When a send goes through. */
  predicate SendWorks(s: State, hasText: bool, files: seq<FileId>, env: SendEnv) {
    && (hasText || files != [])
    && AllFound(s, files, env.looksUp)
    && (files == [] || env.commits)
    && env.failsAt >= 2 * |Parts(hasText, files)|
  }

  /** The send whose commit fails takes away a file that an earlier, visible message
      still shows: its object and its row both go. */
  ghost predicate Hazard(s: State, files: seq<FileId>, env: SendEnv) {
    AllFound(s, files, env.looksUp) && !env.commits && Harms(s, CandidatesOf(s, files), env.deletes, env.rowsWork)
  }

  lemma {:induction false} AppendedRows(s: State, parts: seq<Option<FileId>>)
    ensures var s2 := Appended(s, parts);
            && s2.rows == s.rows && s2.nextId == s.nextId + |parts|
            && s2.listing == s.listing && s2.objects == s.objects
            && s2.used == s.used && s2.candidates == s.candidates
            && (forall m :: m in s2.messages <==> m in s.messages || s.nextId <= m < s.nextId + |parts|)
            && (forall m :: m in s.messages && m < s.nextId ==> s2.messages[m] == s.messages[m])
    ensures Last(s, AppendStates(s, parts)) == Appended(s, parts)
  {
    if parts != [] {
      AppendedRows(s, parts[..|parts| - 1]);
    }
  }

  lemma {:induction false} AppendedAt(s: State, parts: seq<Option<FileId>>, i: nat)
    requires i < |parts|
    ensures s.nextId + i in Appended(s, parts).messages
    ensures Appended(s, parts).messages[s.nextId + i] == Msg(parts[i], false)
  {
    AppendedRows(s, parts[..|parts| - 1]);
    if i < |parts| - 1 {
      AppendedAt(s, parts[..|parts| - 1], i);
    }
  }

  lemma {:induction false} AppendKeeps(s: State, parts: seq<Option<FileId>>)
    requires Inv(s) && forall p :: p in parts && p.Some? ==> p.value in s.rows
    ensures Keeps(s, AppendStates(s, parts))
  {
    if parts != [] {
      var n := |parts| - 1;
      assert parts[n] in parts;
      AppendKeeps(s, parts[..n]);
      AppendedRows(s, parts[..n]);
      LastInv(s, AppendStates(s, parts[..n]));
      AddKeeps(Appended(s, parts[..n]), parts[n]);
    }
  }

  lemma FreshAreUnlisted(s: State, parts: seq<Option<FileId>>, created: seq<MsgId>)
    requires Inv(s) && created == Ids(s.nextId, |parts|)
    ensures var s2 := Appended(s, parts);
            && s2.rows == s.rows
            && (forall m :: m in created ==> !Listed(s2, m) && m !in s.messages)
            && (forall m :: m in s2.messages <==> m in s.messages || m in created)
            && (forall m :: m in s.messages ==> s2.messages[m] == s.messages[m])
  {
    AppendedRows(s, parts);
    forall i | 0 <= i < |s.listing|
      ensures s.listing[i].id < s.nextId
    {
      assert EntryOk(s, s.listing[i]);
    }
    forall m
      ensures m in created <==> s.nextId <= m < s.nextId + |parts|
    {
      if s.nextId <= m < s.nextId + |parts| {
        assert created[m - s.nextId] == m;
      }
    }
  }

  /** Undoing takes back this send's rows and nothing else. */
  lemma {:induction false} UndoKeeps(s: State, created: seq<MsgId>, hardDeletes: MsgId -> bool)
    requires Inv(s) && forall m :: m in created ==> !Listed(s, m)
    ensures Keeps(s, UndoStates(s, created, hardDeletes))
    ensures var s2 := Last(s, UndoStates(s, created, hardDeletes));
            && s2 == s.(messages := s2.messages)
            && (forall m :: m in s2.messages <==> m in s.messages && !(m in created && hardDeletes(m)))
            && (forall m :: m in s2.messages ==> s2.messages[m] == s.messages[m])
  {
    if created != [] {
      var n := |created| - 1;
      assert created == created[..n] + [created[n]];
      UndoKeeps(s, created[..n], hardDeletes);
      var t := UndoStates(s, created[..n], hardDeletes);
      LastInv(s, t);
      assert created[n] in created && Last(s, t).listing == s.listing;
      HardDeleteKeeps(Last(s, t), created[n]);
    }
  }

  lemma ReleasableFine(s: State, files: seq<FileId>, counts: FileId -> bool)
    requires Inv(s) && forall f :: f in files ==> f in s.rows
    ensures BatchOk(s, CandidatesOf(s, Releasable(s, files, counts)))
    ensures forall f :: HasFile(CandidatesOf(s, Releasable(s, files, counts)), f) ==>
              f in files && counts(f) && Refs(s, f) == {} && !VisiblyUsed(s, f)
  {
    FilterMember(f => counts(f) && |Refs(s, f)| == 0, files);
    CandidatesFine(s, Releasable(s, files, counts));
    forall f | f in Releasable(s, files, counts)
      ensures Refs(s, f) == {} && !VisiblyUsed(s, f)
    {
      UnreferencedIsUnused(s, f);
    }
  }

  /** Earlier messages stay, and a file, its row or its object, goes only if by then it
      is known that nobody refers to it. */
  ghost predicate TakesBack(s: State, s2: State, created: seq<MsgId>, env: SendEnv) {
    && (forall m :: m in s2.messages <==> m in s.messages && !(m in created && env.hardDeletes(m)))
    && (forall m :: m in s2.messages ==> s2.messages[m] == s.messages[m])
    && (forall f :: f in s.rows && f !in s2.rows ==> env.counts(f) && Refs(s2, f) == {})
    && (forall k :: k in s.objects && k !in s2.objects ==> env.counts(k.file) && Refs(s2, k.file) == {})
  }

  lemma RollbackKeeps(s: State, created: seq<MsgId>, files: seq<FileId>, env: SendEnv)
    requires Inv(s) && (forall m :: m in created ==> !Listed(s, m)) && forall f :: f in files ==> f in s.rows
    ensures Keeps(s, RollbackStates(s, created, files, env))
    ensures TakesBack(s, Last(s, RollbackStates(s, created, files, env)), created, env)
  {
    var t := UndoStates(s, created, env.hardDeletes);
    var s1 := Last(s, t);
    UndoKeeps(s, created, env.hardDeletes);
    LastInv(s, t);
    var batch := CandidatesOf(s1, Releasable(s1, files, env.counts));
    ReleasableFine(s1, files, env.counts);
    SafeReleaseKeeps(s1, batch, env.deletes, env.rowsWork);
    DoomedInBatch(batch, env.deletes);
    DoomedKeys(s1, batch, env.deletes);
    var u := ReleaseStates(s1, batch, env.deletes, env.rowsWork);
    KeepsConcat(s, t, u);
    LastConcat(s, t, u);
    assert forall f :: Refs(Last(s1, u), f) == Refs(s1, f);
  }

  /** Where the append phase stands when it ends or breaks off. */
  lemma Delivering(s: State, hasText: bool, files: seq<FileId>, k: nat)
    requires Inv(s) && (forall f :: f in files ==> f in s.rows) && k <= |Parts(hasText, files)|
    ensures var parts := Parts(hasText, files)[..k];
            var s1 := Appended(s, parts);
            && Keeps(s, AppendStates(s, parts)) && Last(s, AppendStates(s, parts)) == s1
            && Inv(s1) && s1.rows == s.rows
            && (forall m :: m in Ids(s.nextId, k) ==> !Listed(s1, m) && m !in s.messages)
            && (forall m :: m in s1.messages <==> m in s.messages || m in Ids(s.nextId, k))
            && (forall m :: m in s.messages ==> s1.messages[m] == s.messages[m])
  {
    var parts := Parts(hasText, files)[..k];
    AppendKeeps(s, parts);
    AppendedRows(s, parts);
    LastInv(s, AppendStates(s, parts));
    FreshAreUnlisted(s, parts, Ids(s.nextId, k));
  }

  lemma DeliverKeeps(s: State, hasText: bool, files: seq<FileId>, env: SendEnv)
    requires Inv(s) && forall f :: f in files ==> f in s.rows
    ensures Keeps(s, DeliverStates(s, hasText, files, env))
  {
    var k := Reached(|Parts(hasText, files)|, env.failsAt);
    var t := AppendStates(s, Parts(hasText, files)[..k]);
    Delivering(s, hasText, files, k);
    RollbackKeeps(Last(s, t), Ids(s.nextId, k), files, env);
    KeepsConcat(s, t, RollbackStates(Last(s, t), Ids(s.nextId, k), files, env));
  }

  /** What a send that broke off in its append phase leaves. */
  lemma DeliverEffect(s: State, hasText: bool, files: seq<FileId>, env: SendEnv)
    requires Inv(s) && forall f :: f in files ==> f in s.rows
    ensures var parts := Parts(hasText, files);
            var s2 := Last(s, DeliverStates(s, hasText, files, env));
            if env.failsAt >= 2 * |parts| then s2 == Appended(s, parts)
            else
              && (forall m :: m in s.messages ==> m in s2.messages && s2.messages[m] == s.messages[m])
              && (forall m :: m in s2.messages && m !in s.messages ==> !env.hardDeletes(m))
              && (forall f :: f in s.rows && f !in s2.rows ==> env.counts(f) && Refs(s2, f) == {})
  {
    var parts := Parts(hasText, files);
    var k := Reached(|parts|, env.failsAt);
    var t := AppendStates(s, parts[..k]);
    var created := Ids(s.nextId, k);
    Delivering(s, hasText, files, k);
    if env.failsAt >= 2 * |parts| {
      assert parts[..k] == parts;
    } else {
      RollbackKeeps(Last(s, t), created, files, env);
      LastConcat(s, t, RollbackStates(Last(s, t), created, files, env));
    }
  }

  /** The same for a send whose files were committed. */
  lemma CommittedEffect(s: State, hasText: bool, files: seq<FileId>, env: SendEnv)
    requires Inv(s) && (forall f :: f in files ==> f in s.rows) && (hasText || files != [])
    requires AllFound(s, files, env.looksUp) && (files == [] || env.commits)
    ensures var t := SendStates(s, hasText, files, env);
            var s1, s2 := Committed(s, files), Last(s, t);
            && Inv(s1) && s1.rows.Keys == s.rows.Keys && s1.nextId == s.nextId
            && s2 == Last(s1, DeliverStates(s1, hasText, files, env))
            && (env.failsAt < 2 * |Parts(hasText, files)| ==>
                  && (forall m :: m in s.messages ==> m in s2.messages && s2.messages[m] == s.messages[m])
                  && (forall m :: m in s2.messages && m !in s.messages ==> !env.hardDeletes(m))
                  && (forall f :: f in s.rows && f !in s2.rows ==> env.counts(f) && Refs(s2, f) == {}))
  {
    var s1 := Committed(s, files);
    CommittedKeeps(s, files);
    DeliverEffect(s1, hasText, files, env);
    if files != [] {
      LastConcat(s, [s1], DeliverStates(s1, hasText, files, env));
    }
  }

  /** One message for the text, then one for each file, showing that file; no other
      message has changed. */
  ghost predicate MessagesArrived(s: State, s2: State, hasText: bool, files: seq<FileId>, ids: seq<MsgId>) {
    var k := if hasText then 1 else 0;
    && |ids| == k + |files| && s2.nextId == s.nextId + |ids|
    && (forall i :: 0 <= i < |ids| ==> ids[i] == s.nextId + i)
    && (forall m :: m in s2.messages <==> m in s.messages || m in ids)
    && (forall m :: m in s.messages ==> s2.messages[m] == s.messages[m])
    && (hasText ==> s2.messages[ids[0]] == Msg(None, false))
    && (forall i :: 0 <= i < |files| ==> s2.messages[ids[k + i]] == Msg(Some(files[i]), false))
  }

  /** These files are committed, and nothing else has become of rows and objects. */
  ghost predicate OnlyCommitted(s: State, s2: State, files: seq<FileId>) {
    && s2.rows.Keys == s.rows.Keys
    && (forall f :: f in s.rows ==> s2.rows[f] == Row(s.rows[f].key, f in files || s.rows[f].committed))
    && s2.objects == s.objects
  }

  lemma AppendedOnly(s: State, parts: seq<Option<FileId>>)
    requires Inv(s)
    ensures var s2 := Appended(s, parts);
            && (forall m :: m in s2.messages <==> m in s.messages || m in Ids(s.nextId, |parts|))
            && (forall m :: m in s.messages ==> s2.messages[m] == s.messages[m])
  {
    FreshAreUnlisted(s, parts, Ids(s.nextId, |parts|));
  }

  lemma PartAt(s: State, hasText: bool, files: seq<FileId>, i: nat, m: MsgId)
    requires i < |files| && m == s.nextId + (if hasText then 1 else 0) + i
    ensures m in Appended(s, Parts(hasText, files)).messages
    ensures Appended(s, Parts(hasText, files)).messages[m] == Msg(Some(files[i]), false)
  {
    var k := if hasText then 1 else 0;
    assert Parts(hasText, files)[k + i] == Some(files[i]);
    AppendedAt(s, Parts(hasText, files), k + i);
  }

  lemma AppendedArrive(s: State, s1: State, hasText: bool, files: seq<FileId>, ids: seq<MsgId>)
    requires Inv(s1) && s1.messages == s.messages && s1.nextId == s.nextId
    requires ids == Ids(s.nextId, |Parts(hasText, files)|)
    ensures MessagesArrived(s, Appended(s1, Parts(hasText, files)), hasText, files, ids)
  {
    var parts := Parts(hasText, files);
    var k := if hasText then 1 else 0;
    AppendedOnly(s1, parts);
    assert Appended(s1, parts).nextId == s.nextId + |ids| by {
      AppendedRows(s1, parts);
    }
    if hasText {
      AppendedAt(s1, parts, 0);
    }
    forall i | 0 <= i < |files|
      ensures Appended(s1, parts).messages[ids[k + i]] == Msg(Some(files[i]), false)
    {
      PartAt(s1, hasText, files, i, ids[k + i]);
    }
  }

  lemma CommittedRows(s: State, files: seq<FileId>)
    requires Inv(s)
    ensures var s1 := Committed(s, files);
            Inv(s1) && s1.messages == s.messages && s1.nextId == s.nextId && OnlyCommitted(s, s1, files)
  {
    CommittedKeeps(s, files);
  }

  lemma SentFilesShow(s: State, s2: State, hasText: bool, files: seq<FileId>, ids: seq<MsgId>)
    requires MessagesArrived(s, s2, hasText, files, ids)
    ensures forall f :: f in files ==> VisiblyUsed(s2, f)
  {
    forall f | f in files
      ensures VisiblyUsed(s2, f)
    {
      var i :| 0 <= i < |files| && files[i] == f;
      assert s2.messages[ids[(if hasText then 1 else 0) + i]] == Msg(Some(f), false);
    }
  }

  /** What a send that goes through leaves: its messages, text first, then the files in
      the order named; so every file sent is shown. */
  lemma SentArrives(s: State, hasText: bool, files: seq<FileId>)
    requires Inv(s)
    ensures var s2 := Appended(Committed(s, files), Parts(hasText, files));
            && MessagesArrived(s, s2, hasText, files, Ids(s.nextId, |Parts(hasText, files)|))
            && OnlyCommitted(s, s2, files)
            && forall f :: f in files ==> VisiblyUsed(s2, f)
  {
    var s1 := Committed(s, files);
    var s2 := Appended(s1, Parts(hasText, files));
    CommittedRows(s, files);
    AppendedRows(s1, Parts(hasText, files));
    AppendedArrive(s, s1, hasText, files, Ids(s.nextId, |Parts(hasText, files)|));
    SentFilesShow(s, s2, hasText, files, Ids(s.nextId, |Parts(hasText, files)|));
  }

  /** The same of the states it passes through. */
  lemma SendArrives(s: State, hasText: bool, files: seq<FileId>, env: SendEnv)
    requires Inv(s) && SendWorks(s, hasText, files, env)
    ensures var s2 := Last(s, SendStates(s, hasText, files, env));
            && MessagesArrived(s, s2, hasText, files, Ids(s.nextId, |Parts(hasText, files)|))
            && OnlyCommitted(s, s2, files)
            && forall f :: f in files ==> VisiblyUsed(s2, f)
  {
    CommittedEffect(s, hasText, files, env);
    CommittedKeys(s, files);
    DeliverEffect(Committed(s, files), hasText, files, env);
    SentArrives(s, hasText, files);
  }

  lemma CommittedKeys(s: State, files: seq<FileId>)
    requires forall f :: f in files ==> f in s.rows
    ensures forall f :: f in files ==> f in Committed(s, files).rows
  {
    assert Commit(s, Elements(files)).rows.Keys == s.rows.Keys;
  }

  /** A send is sound at every step, and loses no visible file exactly outside the
      hazard; inside it, the last call does. */
  lemma SendKeeps(s: State, hasText: bool, files: seq<FileId>, env: SendEnv)
    requires Inv(s)
    ensures Sound(s, SendStates(s, hasText, files, env), Hazard(s, files, env))
  {
    if !AllFound(s, files, env.looksUp) {
      return;
    }
    if files == [] {
      NoFilesNoHarm(s, env);
      DeliverKeeps(s, hasText, files, env);
    } else if env.commits {
      CommittedKeeps(s, files);
      DeliverKeeps(Committed(s, files), hasText, files, env);
      KeepsConcat(s, [Committed(s, files)], DeliverStates(Committed(s, files), hasText, files, env));
    } else {
      CandidatesFine(s, files);
      ReleaseKeeps(s, CandidatesOf(s, files), env.deletes, env.rowsWork);
    }
  }

  lemma NoFilesNoHarm(s: State, env: SendEnv)
    ensures !Harms(s, CandidatesOf(s, []), env.deletes, env.rowsWork)
  {
    DoomedInBatch(CandidatesOf(s, []), env.deletes);
  }

  lemma CommittedKeeps(s: State, files: seq<FileId>)
    requires Inv(s)
    ensures Keeps(s, [Committed(s, files)]) && Committed(s, files).rows.Keys == s.rows.Keys
    ensures Committed(s, files).messages == s.messages && Committed(s, files).nextId == s.nextId
  {
    CommitKeeps(s, Elements(files));
  }

  /** The shortest way there: sending an already shown file again, with the commit
      failing. */
  lemma ResendHazard(s: State, f: FileId, env: SendEnv)
    requires f in s.rows && VisiblyUsed(s, f)
    requires env.looksUp(f) && !env.commits && env.rowsWork && env.deletes(s.rows[f].key)
    ensures Hazard(s, [f], env)
  {
    var c := Candidate(f, s.rows[f].key);
    assert CandidatesOf(s, [f]) == [c];
    SingleBatch(c, env.deletes);
    SingleSets(c);
    assert f in FilesOf([c]);
  }

  /** There is no hazard for files that only this send uses. */
  lemma FirstSendIsSafe(s: State, files: seq<FileId>, env: SendEnv)
    requires Inv(s) && forall f :: f in files ==> Refs(s, f) == {}
    ensures !Hazard(s, files, env)
  {
    if AllFound(s, files, env.looksUp) {
      var batch := CandidatesOf(s, files);
      CandidatesFine(s, files);
      DoomedInBatch(batch, env.deletes);
      forall f | f in files
        ensures !VisiblyUsed(s, f)
      {
        UnreferencedIsUnused(s, f);
      }
    }
  }

  // ----- pruning -----

  /** What the retention query can return. */
  predicate Purgeable(s: State, ids: seq<MsgId>) {
    && (forall i, j :: 0 <= i < j < |ids| ==> ids[i] != ids[j])
    && (forall m :: m in ids ==> m in s.messages && s.messages[m].deleted)
  }

  function EntriesOf(s: State, ids: seq<MsgId>): (listing: seq<Entry>)
    requires forall m :: m in ids ==> m in s.messages
    ensures |listing| == |ids| && forall i :: 0 <= i < |ids| ==> listing[i] == Entry(ids[i], s.messages[ids[i]].file)
  {
    seq(|ids|, i requires 0 <= i < |ids| => Entry(ids[i], s.messages[ids[i]].file))
  }

  /** What the orphan query can return. */
  predicate Orphans(s: State, files: seq<FileId>) {
    forall f :: f in files ==> f in s.rows && Refs(s, f) == {}
  }

  function Forgotten(s: State): State {
    s.(listing := [], candidates := [])
  }

  function HardStates(s: State, id: MsgId, works: bool): seq<State> {
    if works then [HardDelete(s, id)] else []
  }

  /** One listed message: its file first, if this was the last reference, then its
      row. Anything unknown leaves both. */
  function PurgeRest(s: State, e: Entry, env: PruneEnv): seq<State> {
    if e.file.None? then HardStates(s, e.id, env.hardDeletes)
    else if !env.counts then []
    else if |Refs(s, e.file.value)| != 1 then HardStates(s, e.id, env.hardDeletes)
    else if !env.fetches then [Forgotten(s)]
    else if e.file.value !in s.rows then HardStates(s, e.id, env.hardDeletes)
    else ReleaseAndDelete(s, e.id, Candidate(e.file.value, s.rows[e.file.value].key), env)
  }

  /** The message goes only if its file entirely went. */
  function ReleaseAndDelete(s: State, id: MsgId, c: Candidate, env: PruneEnv): seq<State> {
    var t := ReleaseStates(s, [c], env.deletes, env.rowsWork);
    if env.deletes(c.key) && env.rowsWork then t + HardStates(Last(s, t), id, env.hardDeletes) else t
  }

  function Visited(s: State): State
    requires s.listing != []
  {
    s.(listing := s.listing[1..])
  }

  function PurgeStates(s: State, env: PruneEnv): seq<State>
    requires s.listing != []
  {
    [Visited(s)] + PurgeRest(Visited(s), s.listing[0], env)
  }

  function PruneStates(s: State, env: PruneEnv): seq<State>
    requires s.candidates != []
  {
    var c := s.candidates[0];
    var s1 := s.(candidates := s.candidates[1..]);
    [s1] + if env.counts && |Refs(s1, c.file)| == 0 then ReleaseStates(s1, [c], env.deletes, env.rowsWork) else []
  }

  lemma ListingFine(s: State, ids: seq<MsgId>)
    requires Inv(s) && Purgeable(s, ids)
    ensures Inv(s.(listing := EntriesOf(s, ids)))
  {
    var s2 := s.(listing := EntriesOf(s, ids));
    forall i | 0 <= i < |ids|
      ensures EntryOk(s2, s2.listing[i])
    {
      assert ids[i] in ids;
    }
    forall i | 0 <= i < |s2.candidates|
      ensures CandidateOk(s2, s2.candidates[i])
    {
      assert CandidateOk(s, s.candidates[i]);
    }
  }

  lemma TailFine(s: State)
    requires Inv(s) && s.listing != []
    ensures Keeps(s, [Visited(s)])
    ensures EntryOk(Visited(s), s.listing[0]) && !Listed(Visited(s), s.listing[0].id)
  {
    var s2 := Visited(s);
    forall i | 0 <= i < |s2.listing|
      ensures EntryOk(s2, s2.listing[i]) && s2.listing[i].id != s.listing[0].id
    {
      assert EntryOk(s, s.listing[i + 1]);
    }
    forall i | 0 <= i < |s2.candidates|
      ensures CandidateOk(s2, s2.candidates[i])
    {
      assert CandidateOk(s, s.candidates[i]);
    }
    assert EntryOk(s, s.listing[0]);
  }

  lemma CandidatesKept(s: State, batch: seq<Candidate>)
    requires Inv(s) && BatchOk(s, batch)
    ensures Keeps(s, [s.(candidates := batch)])
  {
    var s2 := s.(candidates := batch);
    forall i | 0 <= i < |s2.listing|
      ensures EntryOk(s2, s2.listing[i])
    {
      assert EntryOk(s, s.listing[i]);
    }
    forall i | 0 <= i < |batch|
      ensures CandidateOk(s2, batch[i])
    {
      assert CandidateOk(s, batch[i]);
    }
  }

  lemma HardKeeps(s: State, id: MsgId, works: bool)
    requires Inv(s) && !Listed(s, id)
    ensures Keeps(s, HardStates(s, id, works))
  {
    HardDeleteKeeps(s, id);
  }

  lemma ReleaseAndDeleteKeeps(s: State, id: MsgId, c: Candidate, env: PruneEnv)
    requires Inv(s) && !Listed(s, id) && CandidateOk(s, c) && !VisiblyUsed(s, c.file)
    ensures Keeps(s, ReleaseAndDelete(s, id, c, env))
  {
    var t := ReleaseStates(s, [c], env.deletes, env.rowsWork);
    OneReleaseKeeps(s, c, env.deletes, env.rowsWork);
    LastInv(s, t);
    HardKeeps(Last(s, t), id, env.hardDeletes);
    KeepsConcat(s, t, HardStates(Last(s, t), id, env.hardDeletes));
  }

  lemma PurgeRestKeeps(s: State, e: Entry, env: PruneEnv)
    requires Inv(s) && EntryOk(s, e) && !Listed(s, e.id)
    ensures Keeps(s, PurgeRest(s, e, env))
  {
    HardKeeps(s, e.id, env.hardDeletes);
    if e.file.Some? && |Refs(s, e.file.value)| == 1 && e.file.value in s.rows {
      LastReferenceIsListed(s, e);
      ReleaseAndDeleteKeeps(s, e.id, Candidate(e.file.value, s.rows[e.file.value].key), env);
    }
  }

  /** Retention loses nothing, however old the listing it works from. */
  lemma PurgeKeeps(s: State, env: PruneEnv)
    requires Inv(s) && s.listing != []
    ensures Keeps(s, PurgeStates(s, env))
  {
    TailFine(s);
    PurgeRestKeeps(Visited(s), s.listing[0], env);
    KeepsConcat(s, [Visited(s)], PurgeRest(Visited(s), s.listing[0], env));
  }

  lemma NextCandidate(s: State)
    requires Inv(s) && s.candidates != []
    ensures CandidateOk(s, s.candidates[0]) && Keeps(s, [s.(candidates := s.candidates[1..])])
  {
    assert CandidateOk(s, s.candidates[0]);
    assert BatchOk(s, s.candidates[1..]) by {
      assert forall i :: 0 <= i < |s.candidates[1..]| ==> s.candidates[1..][i] == s.candidates[i + 1];
    }
    CandidatesKept(s, s.candidates[1..]);
  }

  lemma PruneKeeps(s: State, env: PruneEnv)
    requires Inv(s) && s.candidates != []
    ensures Keeps(s, PruneStates(s, env))
  {
    var c := s.candidates[0];
    var s1 := s.(candidates := s.candidates[1..]);
    NextCandidate(s);
    if |Refs(s1, c.file)| == 0 {
      UnreferencedIsUnused(s1, c.file);
      OneReleaseKeeps(s1, c, env.deletes, env.rowsWork);
      KeepsConcat(s, [s1], ReleaseStates(s1, [c], env.deletes, env.rowsWork));
    }
  }

  ghost predicate AllWork(env: PruneEnv) {
    env.counts && env.fetches && env.rowsWork && env.hardDeletes && forall k :: env.deletes(k)
  }

  lemma ReleaseAndDeleteEffect(s: State, id: MsgId, c: Candidate, env: PruneEnv)
    requires Inv(s) && CandidateOk(s, c) && !VisiblyUsed(s, c.file)
    ensures var s2 := Last(s, ReleaseAndDelete(s, id, c, env));
            && s2 == s.(rows := s2.rows, objects := s2.objects, messages := s2.messages)
            && (s2.messages == s.messages || s2.messages == s.messages - {id})
            && (s2.rows == s.rows || s2.rows == s.rows - {c.file})
            && (s2.objects == s.objects || s2.objects == s.objects - {c.key})
            && (AllWork(env) ==> s2.messages == s.messages - {id} && c.file !in s2.rows)
            && (s2.messages != s.messages ==> env.hardDeletes && c.file !in s2.rows)
  {
    OneReleaseKeeps(s, c, env.deletes, env.rowsWork);
    var t := ReleaseStates(s, [c], env.deletes, env.rowsWork);
    LastConcat(s, t, HardStates(Last(s, t), id, env.hardDeletes));
  }

  /** A file goes only as the last, listed reference's, and with a known count; if
      every call works both go. */
  lemma PurgeRestEffect(s: State, e: Entry, env: PruneEnv)
    requires Inv(s) && EntryOk(s, e)
    ensures var s2 := Last(s, PurgeRest(s, e, env));
            && (s2.messages == s.messages || s2.messages == s.messages - {e.id})
            && (forall f :: f in s.rows && f !in s2.rows ==> env.counts && e.file == Some(f) && Refs(s, f) == {e.id})
            && (forall k :: k in s.objects && k !in s2.objects ==>
                  env.counts && e.file == Some(k.file) && Refs(s, k.file) == {e.id})
            && (AllWork(env) ==> e.id !in s2.messages)
            && (AllWork(env) && e.file.Some? && Refs(s, e.file.value) == {e.id} ==> e.file.value !in s2.rows)
            && (!env.hardDeletes ==> s2.messages == s.messages)
            && (e.file.Some? && Refs(s, e.file.value) == {e.id} && e.file.value in s2.rows ==> s2.messages == s.messages)
            && (e.file.Some? && env.counts && |Refs(s, e.file.value)| == 1 && !env.fetches ==> s2 == Forgotten(s))
  {
    if e.file.Some? && |Refs(s, e.file.value)| == 1 && e.file.value in s.rows {
      LastReferenceIsListed(s, e);
      ReleaseAndDeleteEffect(s, e.id, Candidate(e.file.value, s.rows[e.file.value].key), env);
    }
  }

  lemma SameRefs(s: State, s2: State)
    requires s.messages == s2.messages
    ensures forall f :: Refs(s, f) == Refs(s2, f)
  {
  }

  /** One retention block: no visible message is touched, a file is released only with
      its last, listed reference, and an unknown count releases nothing. */
  lemma PurgeEffect(s: State, env: PruneEnv)
    requires Inv(s) && s.listing != []
    ensures var e, s2 := s.listing[0], Last(s, PurgeStates(s, env));
            && (forall m :: m in s.messages && (!s.messages[m].deleted || m != e.id) ==>
                  m in s2.messages && s2.messages[m] == s.messages[m])
            && (forall m :: m in s2.messages ==> m in s.messages && s2.messages[m] == s.messages[m])
            && (forall f :: f in s.rows && f !in s2.rows ==> env.counts && e.file == Some(f) && Refs(s, f) == {e.id})
            && (forall k :: k in s.objects && k !in s2.objects ==>
                  env.counts && e.file == Some(k.file) && Refs(s, k.file) == {e.id})
            && (AllWork(env) ==> e.id !in s2.messages)
            && (AllWork(env) && e.file.Some? && Refs(s, e.file.value) == {e.id} ==> e.file.value !in s2.rows)
            && (!env.hardDeletes ==> s2.messages == s.messages)
            && (e.file.Some? && Refs(s, e.file.value) == {e.id} && e.file.value in s2.rows ==> s2.messages == s.messages)
            && (e.file.Some? && env.counts && |Refs(s, e.file.value)| == 1 && !env.fetches ==>
                  s2 == s.(listing := [], candidates := []))
  {
    TailFine(s);
    SameRefs(s, Visited(s));
    PurgeRestEffect(Visited(s), s.listing[0], env);
    LastConcat(s, [Visited(s)], PurgeRest(Visited(s), s.listing[0], env));
    assert EntryOk(s, s.listing[0]);
  }

  /** One orphan block: a file goes only if by now, re-counted, nothing refers to it. */
  lemma PruneEffect(s: State, env: PruneEnv)
    requires Inv(s) && s.candidates != []
    ensures var c, s2 := s.candidates[0], Last(s, PruneStates(s, env));
            && s2.messages == s.messages
            && (forall f :: f in s.rows && f !in s2.rows ==> env.counts && f == c.file && Refs(s, f) == {})
            && (forall k :: k in s.objects && k !in s2.objects ==>
                  env.counts && k.file == c.file && Refs(s, k.file) == {})
            && (AllWork(env) && Refs(s, c.file) == {} ==> c.file !in s2.rows && c.key !in s2.objects)
  {
    var c := s.candidates[0];
    var s1 := s.(candidates := s.candidates[1..]);
    SameRefs(s, s1);
    NoRefs(s, c.file);
    NextCandidate(s);
    if |Refs(s1, c.file)| == 0 {
      UnreferencedIsUnused(s1, c.file);
      OneReleaseKeeps(s1, c, env.deletes, env.rowsWork);
      LastConcat(s, [s1], ReleaseStates(s1, [c], env.deletes, env.rowsWork));
    }
  }

  /** No prune block takes a file that a visible message shows, nor its object. */
  lemma ShownSurvivesPasses(s: State, env: PruneEnv, f: FileId)
    requires Inv(s) && f in s.rows && VisiblyUsed(s, f)
    ensures s.candidates != [] ==>
              var s2 := Last(s, PruneStates(s, env));
              f in s2.rows && VisiblyUsed(s2, f) && (s.rows[f].key in s.objects ==> s.rows[f].key in s2.objects)
    ensures s.listing != [] ==>
              var s2 := Last(s, PurgeStates(s, env));
              f in s2.rows && VisiblyUsed(s2, f) && (s.rows[f].key in s.objects ==> s.rows[f].key in s2.objects)
  {
    var m :| m in s.messages && s.messages[m] == Msg(Some(f), false);
    assert m in Refs(s, f);
    if s.candidates != [] {
      PruneEffect(s, env);
    }
    if s.listing != [] {
      PurgeEffect(s, env);
      assert EntryOk(s, s.listing[0]);
    }
  }

  // ----- one block -----

  /** What a request, or one block of a prune pass, does from state `s`. One that could
      not arise in `s` (a file id drawn twice, a query result that is not one) does
      nothing. */
  function Steps(s: State, q: Request): seq<State> {
    match q
    case Upload(key, _, _, _, _) => if key.file in s.used then [] else UploadStates(s, key, q)
    case Send(hasText, attachments, env) => SendStates(s, hasText, FirstIds(attachments), env)
    case Delete(id, works) => DeleteStates(s, id, works)
    case Clear(files, deletes, txWorks) => if Names(s, files) then ClearStates(s, files, deletes, txWorks) else []
    case Discard(f, counts, deletes, rowsWork) => DiscardStates(s, f, counts, deletes, rowsWork)
    case ListExpired(ids) => if Purgeable(s, ids) then [s.(listing := EntriesOf(s, ids))] else []
    case ListOrphans(files) => if Orphans(s, files) then [s.(candidates := CandidatesOf(s, files))] else []
    case Purge(env) => if s.listing == [] then [] else PurgeStates(s, env)
    case Prune(env) => if s.candidates == [] then [] else PruneStates(s, env)
    case Forget => [Forgotten(s)]
  }

  /** An orphan that is listed and visited goes, if every call works. */
  lemma OrphanGoes(s: State, f: FileId, env: PruneEnv)
    requires Inv(s) && f in s.rows && Refs(s, f) == {} && AllWork(env)
    ensures var s1 := Last(s, Steps(s, ListOrphans([f])));
            var s2 := Last(s1, Steps(s1, Prune(env)));
            f !in s2.rows && s.rows[f].key !in s2.objects && s2.messages == s.messages
  {
    var s1 := Last(s, Steps(s, ListOrphans([f])));
    CandidatesFine(s, [f]);
    CandidatesKept(s, CandidatesOf(s, [f]));
    LastInv(s, [s.(candidates := CandidatesOf(s, [f]))]);
    assert s1.candidates[0] == Candidate(f, s.rows[f].key);
    SameRefs(s, s1);
    PruneEffect(s1, env);
  }

  /** A deleted message that is listed and visited goes, if every call works, and its file
      with it if nothing else refers to it. */
  lemma ExpiredGoes(s: State, id: MsgId, env: PruneEnv)
    requires Inv(s) && id in s.messages && s.messages[id].deleted && AllWork(env)
    ensures var s1 := Last(s, Steps(s, ListExpired([id])));
            var s2 := Last(s1, Steps(s1, Purge(env)));
            && id !in s2.messages
            && (s.messages[id].file.Some? && Refs(s, s.messages[id].file.value) == {id} ==>
                  s.messages[id].file.value !in s2.rows)
  {
    ListingFine(s, [id]);
    assert EntriesOf(s, [id])[0] == Entry(id, s.messages[id].file);
    VisitedGoes(s.(listing := EntriesOf(s, [id])), env);
  }

  lemma VisitedGoes(s: State, env: PruneEnv)
    requires Inv(s) && s.listing != [] && AllWork(env)
    ensures var e, s2 := s.listing[0], Last(s, Steps(s, Purge(env)));
            && e.id !in s2.messages
            && (e.file.Some? && Refs(s, e.file.value) == {e.id} ==> e.file.value !in s2.rows)
  {
    PurgeEffect(s, env);
  }

  /** A pass given up visits nothing more. */
  lemma ForgetEnds(s: State, env: PruneEnv)
    ensures var s1 := Last(s, Steps(s, Forget));
            Steps(s1, Purge(env)) == [] && Steps(s1, Prune(env)) == [] && s1 == s.(listing := [], candidates := [])
  {
  }

  /** What the other requests come to, served to their end. */
  lemma RequestsDo(s: State, q: Request)
    requires Inv(s)
    ensures q.Upload? && q.key.file !in s.used && q.withinQuota && q.inserts && q.saves ==>
              var s2 := Last(s, Steps(s, q));
              s2.rows == s.rows[q.key.file := Row(q.key, false)] && s2.objects == s.objects + {q.key}
    ensures q.Delete? && q.works && q.id in s.messages ==>
              Last(s, Steps(s, q)).messages[q.id] == Msg(s.messages[q.id].file, true)
    ensures q.Clear? && Names(s, q.files) && q.txWorks && (forall f :: f in s.rows ==> q.deletes(s.rows[f].key)) ==>
              var s2 := Last(s, Steps(s, q)); s2.rows == map[] && s2.messages == map[] && s2.objects == {}
    ensures q.Discard? && q.file in s.rows && q.counts && Refs(s, q.file) == {} && q.deletes(s.rows[q.file].key)
            && q.rowsWork ==>
              var s2 := Last(s, Steps(s, q)); s2.rows == s.rows - {q.file} && s2.objects == s.objects - {s.rows[q.file].key}
    ensures q.Send? && SendWorks(s, q.hasText, FirstIds(q.attachments), q.env) ==>
              MessagesArrived(s, Last(s, Steps(s, q)), q.hasText, FirstIds(q.attachments),
                              Ids(s.nextId, |Parts(q.hasText, FirstIds(q.attachments))|))
  {
    match q
    case Upload(key, _, _, _, _) => if key.file !in s.used { UploadEffect(s, key, q); }
    case Send(hasText, attachments, env) =>
      if SendWorks(s, hasText, FirstIds(attachments), env) { SendArrives(s, hasText, FirstIds(attachments), env); }
    case Delete(id, works) => DeleteEffect(s, id, works);
    case Clear(files, deletes, txWorks) => if Names(s, files) { ClearEffect(s, files, deletes, txWorks); }
    case Discard(f, counts, deletes, rowsWork) => DiscardEffect(s, f, counts, deletes, rowsWork);
    case _ =>
  }

  datatype Event = Added(id: MsgId) | Deleted(id: MsgId) | Cleared

  function AddedEvents(ids: seq<MsgId>): (e: seq<Event>)
    ensures |e| == |ids| && forall i :: 0 <= i < |ids| ==> e[i] == Added(ids[i])
  {
    seq(|ids|, i requires 0 <= i < |ids| => Added(ids[i]))
  }

  /** What it tells the token's other devices. */
  function Announced(s: State, q: Request): seq<Event> {
    match q
    case Send(hasText, attachments, env) =>
      var files := FirstIds(attachments);
      if SendWorks(s, hasText, files, env) then AddedEvents(Ids(s.nextId, |Parts(hasText, files)|)) else []
    case Delete(id, works) => if Shown(s, id) && works then [Deleted(id)] else []
    case Clear(files, deletes, txWorks) =>
      if Names(s, files) && AllErasable(s, files, deletes) && txWorks then [Cleared] else []
    case _ => []
  }

  ghost predicate Hazardous(s: State, q: Request) {
    q.Send? && Hazard(s, FirstIds(q.attachments), q.env)
  }

  lemma SafeSteps(s: State, q: Request)
    requires Inv(s) && !q.Send?
    ensures Keeps(s, Steps(s, q))
  {
    match q
    case Upload(key, _, _, _, _) => if key.file !in s.used { UploadKeeps(s, key, q); }
    case Delete(id, works) => SoftDeleteKeeps(s, id);
    case Clear(files, deletes, txWorks) => if Names(s, files) { ClearStatesKeep(s, files, deletes, txWorks); }
    case Discard(f, counts, deletes, rowsWork) => DiscardKeeps(s, f, counts, deletes, rowsWork);
    case ListExpired(ids) => if Purgeable(s, ids) { ListingFine(s, ids); }
    case ListOrphans(files) =>
      if Orphans(s, files) {
        CandidatesFine(s, files);
        CandidatesKept(s, CandidatesOf(s, files));
      }
    case Purge(env) => if s.listing != [] { PurgeKeeps(s, env); }
    case Prune(env) => if s.candidates != [] { PruneKeeps(s, env); }
    case Forget =>
  }

  /** Every block, from any sound state: all its states are sound; it loses a visible
      message's file exactly in the hazard, and then with its last call. */
  lemma StepsKeep(s: State, q: Request)
    requires Inv(s)
    ensures Sound(s, Steps(s, q), Hazardous(s, q)) && Inv(Last(s, Steps(s, q)))
  {
    if q.Send? {
      SendKeeps(s, q.hasText, FirstIds(q.attachments), q.env);
    } else {
      SafeSteps(s, q);
    }
    LastInv(s, Steps(s, q));
  }

  /** No file loses its row while any other message, deleted or not, refers to it,
      unless everything is cleared or a send's commit fails. */
  lemma ReferencedKeepRows(s: State, q: Request, f: FileId)
    requires Inv(s) && f in s.rows && f !in Last(s, Steps(s, q)).rows
    ensures || (q.Clear? && Last(s, Steps(s, q)).messages == map[])
            || (q.Send? && !q.env.commits && f in q.attachments)
            || (q.Purge? && s.listing != [] && Refs(s, f) == {s.listing[0].id})
            || Refs(Last(s, Steps(s, q)), f) == {}
  {
    match q
    case Upload(key, _, _, _, _) => if key.file !in s.used { UploadEffect(s, key, q); }
    case Send(hasText, attachments, env) => SentRows(s, hasText, attachments, env, f);
    case Clear(files, deletes, txWorks) => if Names(s, files) { ClearEffect(s, files, deletes, txWorks); }
    case Discard(file, counts, deletes, rowsWork) =>
      DiscardEffect(s, file, counts, deletes, rowsWork);
      SameRefs(s, Last(s, Steps(s, q)));
    case Purge(env) => if s.listing != [] { PurgeEffect(s, env); }
    case Prune(env) =>
      if s.candidates != [] {
        PruneEffect(s, env);
        SameRefs(s, Last(s, Steps(s, q)));
      }
    case _ =>
  }

  lemma DeliveredRows(s: State, hasText: bool, files: seq<FileId>, env: SendEnv)
    requires Inv(s) && (forall f :: f in files ==> f in s.rows) && env.failsAt >= 2 * |Parts(hasText, files)|
    ensures Last(s, DeliverStates(s, hasText, files, env)).rows == s.rows
  {
    DeliverEffect(s, hasText, files, env);
    AppendedRows(s, Parts(hasText, files));
  }

  lemma SentRows(s: State, hasText: bool, attachments: seq<FileId>, env: SendEnv, f: FileId)
    requires Inv(s)
    requires var s2 := Last(s, SendStates(s, hasText, FirstIds(attachments), env)); f in s.rows && f !in s2.rows
    ensures var s2 := Last(s, SendStates(s, hasText, FirstIds(attachments), env));
            (!env.commits && f in attachments) || Refs(s2, f) == {}
  {
    var files := FirstIds(attachments);
    FirstIdsLaws(attachments);
    if !AllFound(s, files, env.looksUp) || (!hasText && files == []) {
    } else if files == [] || env.commits {
      CommittedEffect(s, hasText, files, env);
      if env.failsAt >= 2 * |Parts(hasText, files)| {
        DeliveredRows(Committed(s, files), hasText, files, env);
      }
    } else {
      CandidatesFine(s, files);
      ReleaseKeeps(s, CandidatesOf(s, files), env.deletes, env.rowsWork);
      DoomedInBatch(CandidatesOf(s, files), env.deletes);
    }
  }
}
