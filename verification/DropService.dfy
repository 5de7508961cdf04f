/** handlers/drop.py and core/prune_orchestrator.py: the Drop requests and prune blocks
    as they run, call by call. A block runs alone, under the token's upload gate.
    `history` records the state after every single call; each method adds to it exactly
    the states DropTrace gives, so what is proved there of every state of every run
    holds of this object at every moment. */
module DropService {
  import opened Lists
  import opened DropStore
  import opened DropTrace
  import opened DropRuns

  datatype Uploaded = QuotaExceeded | InsertFailed | SaveFailed | Stored

  datatype ClearResult = FilesNotReleased | TablesNotCleared | AllCleared(removed: nat)

  datatype DiscardResult = NotFound | CountUnknown | InUse | NotReleased | Discarded

  datatype SendResult =
    | BadRequest | LookupFailed | InvalidAttachment | CommitFailed | RolledBack | Sent(ids: seq<MsgId>)

  lemma SeenGrows(before: seq<Candidate>, c: Candidate, seen: set<FileId>)
    requires c.file in seen && forall f :: f in seen && f != c.file <==> HasFile(before, f) && f != c.file
    ensures forall f :: f in seen <==> HasFile(before + [c], f)
  {
    var out := before + [c];
    assert out[|before|] == c;
    forall f
      ensures f in seen <==> HasFile(out, f)
    {
      if HasFile(before, f) {
        var i :| 0 <= i < |before| && before[i].file == f;
        assert out[i].file == f;
      }
    }
  }

  lemma AtMostOne(f: FileId, keys: set<FileId>)
    ensures |{f} * keys| == if f in keys then 1 else 0
  {
    assert {f} * keys == if f in keys then {f} else {};
  }

  lemma ReleasableSnoc(s: State, files: seq<FileId>, counts: FileId -> bool, i: nat)
    requires i < |files|
    ensures Releasable(s, files[..i + 1], counts) ==
            Releasable(s, files[..i], counts) + if counts(files[i]) && |Refs(s, files[i])| == 0 then [files[i]] else []
  {
    TakeSnoc(files, i);
    FilterSnoc(f => counts(f) && |Refs(s, f)| == 0, files[..i], files[i]);
  }

  lemma DeliversThen(s: State, hasText: bool, files: seq<FileId>, env: SendEnv)
    requires Inv(s) && forall f :: f in files ==> f in s.rows
    ensures var parts := Parts(hasText, files);
            var k := Reached(|parts|, env.failsAt);
            var t := AppendStates(s, parts[..k]);
            && DeliverStates(s, hasText, files, env) ==
               (if env.failsAt >= 2 * |parts| then t else t + RollbackStates(Last(s, t), Ids(s.nextId, k), files, env))
            && Inv(Last(s, t)) && Last(s, t).rows == s.rows
            && forall m :: m in Ids(s.nextId, k) ==> !Listed(Last(s, t), m)
  {
    Delivering(s, hasText, files, Reached(|Parts(hasText, files)|, env.failsAt));
  }

  lemma SendSplits(s: State, hasText: bool, files: seq<FileId>, env: SendEnv)
    requires AllFound(s, files, env.looksUp) && (hasText || files != []) && (files == [] || env.commits)
    ensures var t := DeliverStates(Committed(s, files), hasText, files, env);
            SendStates(s, hasText, files, env) == if files == [] then t else [Committed(s, files)] + t
  {
  }

  /** One more call of a block begun with history `h`. */
  lemma More(h: seq<State>, t: seq<State>, u: seq<State>)
    ensures (h + t) + u == h + (t + u)
    ensures h != [] ==> (h + t) + u != [] && Last(h[0], h + t + u) == Last(Last(h[0], h + t), u)
  {
  }

  class Drop {
    var state: State
    var events: seq<Event>
    ghost var history: seq<State>

    /** From history `h` the block has passed through `t`. */
    ghost predicate Went(h: seq<State>, t: seq<State>)
      reads this`state, this`history
    {
      h != [] && history == h + t && state == Last(h[|h| - 1], t)
    }

    ghost predicate Valid()
      reads this`state, this`history
    {
      history != [] && history[|history| - 1] == state && Inv(state)
    }

    constructor ()
      ensures Valid() && history == [Empty] && state == Empty && events == []
    {
      state, events, history := Empty, [], [Empty];
    }

    // ----- storage calls -----

    /** A call that takes effect. */
    method Record(next: State)
      modifies this`state, this`history
      ensures state == next && history == old(history) + [next]
    {
      state := next;
      history := history + [next];
    }

    /** `delete_files_by_ids`: the affected-row count. */
    method DeleteFilesByIds(files: set<FileId>, works: bool) returns (affected: nat)
      modifies this`state, this`history
      ensures affected == |files * old(state).rows.Keys|
      ensures state == if works then DeleteRows(old(state), files) else old(state)
      ensures history == old(history) + if works then [DeleteRows(old(state), files)] else []
    {
      affected := |files * state.rows.Keys|;
      if works {
        Record(DeleteRows(state, files));
      }
    }

    /** None when the backend cannot answer. */
    method CountReferences(f: FileId, works: bool) returns (count: Option<nat>)
      ensures count == if works then Some(|Refs(state, f)|) else None
    {
      count := if works then Some(|Refs(state, f)|) else None;
    }

    // ----- core/file_lifecycle.py -----

    method Dedup(batch: seq<Candidate>) returns (out: seq<Candidate>)
      ensures out == Firsts(batch)
    {
      out := [];
      var seen: set<FileId> := {};
      for i := 0 to |batch|
        invariant out == Firsts(batch[..i])
        invariant forall f :: f in seen <==> HasFile(out, f)
      {
        assert batch[..i + 1][..i] == batch[..i];
        if batch[i].file in seen {
          continue;
        }
        ghost var before := out;
        seen := seen + {batch[i].file};
        out := out + [batch[i]];
        SeenGrows(before, batch[i], seen);
      }
      assert batch[..|batch|] == batch;
    }

    /** Erases the objects one by one; what could not be erased is left out. */
    method EraseEach(batch: seq<Candidate>, deletes: Key -> bool) returns (doomed: seq<Candidate>)
      requires history != [] && history[|history| - 1] == state
      modifies this`state, this`history
      ensures doomed == Filter((c: Candidate) => deletes(c.key), batch)
      ensures Went(old(history), EraseStates(old(state), batch, deletes))
    {
      doomed := [];
      for i := 0 to |batch|
        invariant doomed == Filter((c: Candidate) => deletes(c.key), batch[..i])
        invariant Went(old(history), EraseStates(old(state), batch[..i], deletes))
      {
        TakeSnoc(batch, i);
        FilterSnoc((c: Candidate) => deletes(c.key), batch[..i], batch[i]);
        if !deletes(batch[i].key) {
          continue;
        }
        More(old(history), EraseStates(old(state), batch[..i], deletes), [DeleteObject(state, batch[i].key)]);
        Record(DeleteObject(state, batch[i].key));
        doomed := doomed + [batch[i]];
      }
      assert batch[..|batch|] == batch;
    }

    /** `release_files_safely`. The count is of files entirely gone, as far as the row
        deletion was asked for and worked. */
    method ReleaseFilesSafely(batch: seq<Candidate>, deletes: Key -> bool, rowsWork: bool, deleteDb: bool)
      returns (count: nat)
      requires Valid() && BatchOk(state, batch)
      modifies this`state, this`history
      ensures Valid() && Went(old(history), ReleaseStates(old(state), batch, deletes, deleteDb && rowsWork))
      ensures state == Released(old(state), batch, deletes, deleteDb && rowsWork)
      ensures var doomed := Doomed(batch, deletes);
              count == if !deleteDb || doomed == [] then |doomed|
                       else if rowsWork then |FilesOf(doomed) * old(state).rows.Keys|
                       else 0
    {
      ghost var s := state;
      ReleaseKeeps(s, batch, deletes, deleteDb && rowsWork);
      LastInv(s, ReleaseStates(s, batch, deletes, deleteDb && rowsWork));
      var list := Dedup(batch);
      var doomed := EraseEach(list, deletes);
      if doomed == [] {
        return 0;
      }
      if !deleteDb {
        return |doomed|;
      }
      EraseKeeps(s, list, deletes);
      More(old(history), EraseStates(s, list, deletes), [DeleteRows(state, FilesOf(doomed))]);
      var affected := DeleteFilesByIds(FilesOf(doomed), rowsWork);
      count := if rowsWork then affected else 0;
    }

    // ----- handlers/drop.py -----

    /** Row first, then object; an object that could not be saved takes its row along. */
    method UploadDrop(key: Key, withinQuota: bool, inserts: bool, saves: bool, rollsBack: bool) returns (r: Uploaded)
      requires Valid() && key.file !in state.used
      modifies this`state, this`history
      ensures Valid() && Went(old(history),
                              UploadStates(old(state), key, Upload(key, withinQuota, inserts, saves, rollsBack)))
      ensures r.Stored? <==> withinQuota && inserts && saves
      ensures r.Stored? ==>
                state == old(state).(rows := old(state).rows[key.file := Row(key, false)],
                                     used := old(state).used + {key.file}, objects := old(state).objects + {key})
      ensures r.QuotaExceeded? || r.InsertFailed? ==> state == old(state)
      ensures r.SaveFailed? ==>
                state == if rollsBack then old(state).(used := old(state).used + {key.file})
                         else old(state).(rows := old(state).rows[key.file := Row(key, false)],
                                          used := old(state).used + {key.file})
    {
      ghost var q := Upload(key, withinQuota, inserts, saves, rollsBack);
      UploadKeeps(state, key, q);
      LastInv(state, UploadStates(state, key, q));
      UploadEffect(state, key, q);
      if !withinQuota {
        return QuotaExceeded;
      }
      if !inserts {
        return InsertFailed;
      }
      Record(InsertRow(state, key));
      if !saves {
        var _ := DeleteFilesByIds({key.file}, rollsBack);
        return SaveFailed;
      }
      Record(SaveObject(state, key));
      return Stored;
    }

    /** Soft deletion, and its event only if something changed. */
    method DeleteDrop(id: MsgId, works: bool) returns (ok: bool)
      requires Valid()
      modifies this`state, this`history, this`events
      ensures Valid() && Went(old(history), DeleteStates(old(state), id, works))
      ensures ok <==> id in old(state).messages && !old(state).messages[id].deleted && works
      ensures state == if ok then old(state).(messages := old(state).messages[id := old(state).messages[id].(deleted := true)])
                       else old(state)
      ensures events == if ok then old(events) + [Deleted(id)] else old(events)
    {
      SoftDeleteKeeps(state, id);
      if id !in state.messages || state.messages[id].deleted || !works {
        return false;
      }
      Record(SoftDelete(state, id));
      events := events + [Deleted(id)];
      return true;
    }

    /** All objects first, then both tables in one transaction. A failure on the way
        leaves every row and every message in place. `files` is what the listing
        returned. */
    method ClearDrop(files: seq<FileId>, deletes: Key -> bool, txWorks: bool) returns (r: ClearResult)
      requires Valid() && Names(state, files)
      modifies this`state, this`history, this`events
      ensures Valid() && Went(old(history), ClearStates(old(state), files, deletes, txWorks))
      ensures r.AllCleared? ==>
                && r.removed == |old(state).messages| && state.messages == map[] && state.rows == map[]
                && state.objects == {} && events == old(events) + [Cleared]
      ensures !r.AllCleared? ==>
                && state.messages == old(state).messages && state.rows == old(state).rows
                && state.objects <= old(state).objects && events == old(events)
      ensures r.AllCleared? <==> txWorks && forall f :: f in old(state).rows ==> deletes(old(state).rows[f].key)
    {
      ghost var s := state;
      ClearStatesKeep(s, files, deletes, txWorks);
      LastInv(s, ClearStates(s, files, deletes, txWorks));
      ClearEffect(s, files, deletes, txWorks);
      EveryObject(s, files, deletes);
      var batch := CandidatesOf(state, files);
      var count := ReleaseFilesSafely(batch, deletes, true, false);
      if count != |batch| {
        return FilesNotReleased;
      }
      if !txWorks {
        return TablesNotCleared;
      }
      r := AllCleared(|state.messages|);
      More(old(history), ReleaseStates(s, batch, deletes, false), [ClearTables(state)]);
      Record(ClearTables(state));
      events := events + [Cleared];
    }

    /** Releases one file nobody visibly uses. */
    method ReleaseOne(c: Candidate, deletes: Key -> bool, rowsWork: bool) returns (count: nat)
      requires Valid() && CandidateOk(state, c)
      modifies this`state, this`history
      ensures Valid() && Went(old(history), ReleaseStates(old(state), [c], deletes, rowsWork))
      ensures state == OneReleased(old(state), c, deletes(c.key), rowsWork)
      ensures count == if deletes(c.key) && rowsWork && c.file in old(state).rows then 1 else 0
    {
      SingleBatch(c, deletes);
      SingleSets(c);
      ReleasedOne(state, c, deletes, rowsWork);
      AtMostOne(c.file, state.rows.Keys);
      count := ReleaseFilesSafely([c], deletes, rowsWork, true);
    }

    /** A file is discarded only if it is known that no message refers to it. */
    method DiscardDropFile(f: FileId, counts: bool, deletes: Key -> bool, rowsWork: bool) returns (r: DiscardResult)
      requires Valid()
      modifies this`state, this`history
      ensures Valid() && Went(old(history), DiscardStates(old(state), f, counts, deletes, rowsWork))
      ensures state.messages == old(state).messages
      ensures r.Discarded? <==> f in old(state).rows && counts && Refs(old(state), f) == {}
                                && deletes(old(state).rows[f].key) && rowsWork
      ensures r.Discarded? ==>
                && state.rows == old(state).rows - {f}
                && state.objects == old(state).objects - {old(state).rows[f].key}
      ensures !r.Discarded? ==> state.rows == old(state).rows
      ensures !r.Discarded? && !r.NotReleased? ==> state == old(state)
    {
      DiscardEffect(state, f, counts, deletes, rowsWork);
      NoRefs(state, f);
      if f !in state.rows {
        return NotFound;
      }
      var count := CountReferences(f, counts);
      if count.None? {
        return CountUnknown;
      }
      if count.value > 0 {
        return InUse;
      }
      var released := ReleaseOne(Candidate(f, state.rows[f].key), deletes, rowsWork);
      return if released == 1 then Discarded else NotReleased;
    }

    // ----- sending -----

    method DistinctIds(files: seq<FileId>) returns (out: seq<FileId>)
      ensures out == FirstIds(files)
    {
      out := [];
      var seen: set<FileId> := {};
      for i := 0 to |files|
        invariant out == FirstIds(files[..i])
        invariant forall f :: f in seen <==> f in out
      {
        assert files[..i + 1][..i] == files[..i];
        if files[i] in seen {
          continue;
        }
        seen := seen + {files[i]};
        out := out + [files[i]];
      }
      assert files[..|files|] == files;
    }

    /** Every attachment must be a Drop file of this token. */
    method CheckAttachments(files: seq<FileId>, looksUp: FileId -> bool) returns (problem: Option<SendResult>)
      ensures problem.Some? ==> problem.value.LookupFailed? || problem.value.InvalidAttachment?
      ensures problem.None? <==> AllFound(state, files, looksUp)
    {
      for i := 0 to |files|
        invariant forall j :: 0 <= j < i ==> looksUp(files[j]) && files[j] in state.rows
      {
        if !looksUp(files[i]) {
          return Some(LookupFailed);
        }
        if files[i] !in state.rows {
          return Some(InvalidAttachment);
        }
      }
      return None;
    }

    /** `commit_attachments_or_release`. The release asks nobody who else uses the
        files. */
    method CommitOrRelease(files: seq<FileId>, env: SendEnv) returns (committed: bool)
      requires Valid() && forall f :: f in files ==> f in state.rows
      modifies this`state, this`history
      ensures Valid() && (committed <==> files == [] || env.commits)
      ensures files == [] ==> state == old(state) && history == old(history)
      ensures files != [] ==>
                Went(old(history), if committed then [Committed(old(state), files)]
                                   else ReleaseStates(old(state), CandidatesOf(old(state), files), env.deletes, env.rowsWork))
      ensures committed ==> state == Committed(old(state), files)
      ensures !committed ==> state == Released(old(state), CandidatesOf(old(state), files), env.deletes, env.rowsWork)
    {
      if files == [] {
        return true;
      }
      if env.commits {
        CommittedKeeps(state, files);
        Record(Commit(state, Elements(files)));
        return true;
      }
      CandidatesFine(state, files);
      var _ := ReleaseFilesSafely(CandidatesOf(state, files), env.deletes, env.rowsWork, true);
      return false;
    }

    method AppendDropMessage(file: Option<FileId>) returns (id: MsgId)
      modifies this`state, this`history
      ensures state == AddMessage(old(state), file) && history == old(history) + [state]
      ensures id == old(state).nextId
    {
      id := state.nextId;
      Record(AddMessage(state, file));
    }

    /** Appends and fetches in turn, up to the call that raises. */
    method AppendParts(parts: seq<Option<FileId>>, failsAt: nat) returns (created: seq<MsgId>, raised: bool)
      requires history != [] && history[|history| - 1] == state
      modifies this`state, this`history
      ensures raised <==> failsAt < 2 * |parts|
      ensures |created| == Reached(|parts|, failsAt) && created == Ids(old(state).nextId, |created|)
      ensures Went(old(history), AppendStates(old(state), parts[..|created|]))
    {
      ghost var s := state;
      created, raised := [], false;
      while |created| < |parts| && !raised
        invariant |created| <= |parts|
        invariant if raised then |created| == (failsAt + 1) / 2 && failsAt < 2 * |parts| else failsAt >= 2 * |created|
        invariant created == Ids(s.nextId, |created|)
        invariant Went(old(history), AppendStates(s, parts[..|created|]))
        decreases |parts| - |created|, if raised then 0 else 1
      {
        ghost var k := |created|;
        if failsAt == 2 * |created| {
          raised := true;
        } else {
          TakeSnoc(parts, k);
          AppendedRows(s, parts[..k]);
          More(old(history), AppendStates(s, parts[..k]), [AddMessage(state, parts[k])]);
          var id := AppendDropMessage(parts[|created|]);
          created := created + [id];
          raised := failsAt == 2 * |created| - 1;
        }
      }
    }

    /** Takes back the messages of a send that failed half way. */
    method UndoMessages(created: seq<MsgId>, hardDeletes: MsgId -> bool)
      requires history != [] && history[|history| - 1] == state
      modifies this`state, this`history
      ensures Went(old(history), UndoStates(old(state), created, hardDeletes))
    {
      for i := 0 to |created|
        invariant Went(old(history), UndoStates(old(state), created[..i], hardDeletes))
      {
        TakeSnoc(created, i);
        if hardDeletes(created[i]) {
          More(old(history), UndoStates(old(state), created[..i], hardDeletes), [HardDelete(state, created[i])]);
          Record(HardDelete(state, created[i]));
        }
      }
      assert created[..|created|] == created;
    }

    /** The attachments known to be referenced by nobody. */
    method FindReleasable(files: seq<FileId>, counts: FileId -> bool) returns (free: seq<FileId>)
      ensures free == Releasable(state, files, counts)
    {
      free := [];
      for i := 0 to |files|
        invariant free == Releasable(state, files[..i], counts)
      {
        ReleasableSnoc(state, files, counts, i);
        var count := CountReferences(files[i], counts(files[i]));
        if count == Some(0) {
          free := free + [files[i]];
        }
      }
      assert files[..|files|] == files;
    }

    /** Messages first, then the files nobody refers to any more. */
    method Rollback(created: seq<MsgId>, files: seq<FileId>, env: SendEnv)
      requires Valid() && forall f :: f in files ==> f in state.rows
      requires forall m :: m in created ==> !Listed(state, m)
      modifies this`state, this`history
      ensures Valid() && Went(old(history), RollbackStates(old(state), created, files, env))
      ensures TakesBack(old(state), state, created, env)
    {
      ghost var s := state;
      RollbackKeeps(s, created, files, env);
      UndoKeeps(s, created, env.hardDeletes);
      LastInv(s, UndoStates(s, created, env.hardDeletes));
      UndoMessages(created, env.hardDeletes);
      var free := FindReleasable(files, env.counts);
      var batch := CandidatesOf(state, free);
      ReleasableFine(state, files, env.counts);
      More(old(history), UndoStates(s, created, env.hardDeletes),
           ReleaseStates(state, batch, env.deletes, env.rowsWork));
      var _ := ReleaseFilesSafely(batch, env.deletes, env.rowsWork, true);
    }

    /** The append phase of a send, its files committed. */
    method Deliver(hasText: bool, files: seq<FileId>, env: SendEnv) returns (r: SendResult)
      requires Valid() && forall f :: f in files ==> f in state.rows
      modifies this`state, this`history, this`events
      ensures Valid() && Went(old(history), DeliverStates(old(state), hasText, files, env))
      ensures r == if env.failsAt < 2 * |Parts(hasText, files)| then RolledBack
                   else Sent(Ids(old(state).nextId, |Parts(hasText, files)|))
      ensures events == old(events) + if r.Sent? then AddedEvents(r.ids) else []
    {
      ghost var s := state;
      DeliversThen(s, hasText, files, env);
      var parts := Parts(hasText, files);
      ghost var t := AppendStates(s, parts[..Reached(|parts|, env.failsAt)]);
      var created, raised := AppendParts(parts, env.failsAt);
      assert state == Last(s, t) && Went(old(history), t);
      if raised {
        More(old(history), t, RollbackStates(state, created, files, env));
        Rollback(created, files, env);
        return RolledBack;
      }
      events := events + AddedEvents(created);
      return Sent(created);
    }

    /** The append phase, told from the state `s` the send found. */
    method DeliverCommitted(ghost s: State, hasText: bool, files: seq<FileId>, env: SendEnv) returns (r: SendResult)
      requires Valid() && Inv(s) && AllFound(s, files, env.looksUp) && (hasText || files != [])
      requires state == Committed(s, files) && (files == [] || env.commits)
      modifies this`state, this`history, this`events
      ensures Valid() && Went(old(history), DeliverStates(old(state), hasText, files, env))
      ensures r == if env.failsAt < 2 * |Parts(hasText, files)| then RolledBack
                   else Sent(Ids(s.nextId, |Parts(hasText, files)|))
      ensures r.Sent? ==> state == Appended(Committed(s, files), Parts(hasText, files))
      ensures events == old(events) + if r.Sent? then AddedEvents(r.ids) else []
      ensures r.RolledBack? ==>
                && (forall m :: m in s.messages ==> m in state.messages && state.messages[m] == s.messages[m])
                && (forall m :: m in state.messages && m !in s.messages ==> !env.hardDeletes(m))
                && (forall f :: f in s.rows && f !in state.rows ==> env.counts(f) && Refs(state, f) == {})
    {
      CommittedEffect(s, hasText, files, env);
      DeliverEffect(state, hasText, files, env);
      r := Deliver(hasText, files, env);
    }

    /** A send whose attachments were found. */
    method SendChecked(hasText: bool, files: seq<FileId>, env: SendEnv) returns (r: SendResult)
      requires Valid() && AllFound(state, files, env.looksUp) && (hasText || files != [])
      modifies this`state, this`history, this`events
      ensures Valid() && Went(old(history), SendStates(old(state), hasText, files, env))
      ensures r == if files != [] && !env.commits then CommitFailed
                   else if env.failsAt < 2 * |Parts(hasText, files)| then RolledBack
                   else Sent(Ids(old(state).nextId, |Parts(hasText, files)|))
      ensures r.CommitFailed? ==>
                state == Released(old(state), CandidatesOf(old(state), files), env.deletes, env.rowsWork)
      ensures r.Sent? ==> state == Appended(Committed(old(state), files), Parts(hasText, files))
      ensures events == old(events) + if r.Sent? then AddedEvents(r.ids) else []
      ensures r.RolledBack? ==>
                && (forall m :: m in old(state).messages ==>
                      m in state.messages && state.messages[m] == old(state).messages[m])
                && (forall m :: m in state.messages && m !in old(state).messages ==> !env.hardDeletes(m))
                && (forall f :: f in old(state).rows && f !in state.rows ==> env.counts(f) && Refs(state, f) == {})
    {
      var committed := CommitOrRelease(files, env);
      if !committed {
        return CommitFailed;
      }
      assert state == Committed(old(state), files);
      SendSplits(old(state), hasText, files, env);
      if files != [] {
        More(old(history), [state], DeliverStates(state, hasText, files, env));
      }
      r := DeliverCommitted(old(state), hasText, files, env);
      assert Went(old(history), SendStates(old(state), hasText, files, env));
    }

    /** One send: when exactly it goes through; that it then leaves its text as one
        message and each file as one message showing it, in the order first named, and
        announces them; and that nothing is announced otherwise. */
    method SendDrop(hasText: bool, attachments: seq<FileId>, env: SendEnv) returns (r: SendResult)
      requires Valid()
      modifies this`state, this`history, this`events
      ensures Valid() && Went(old(history), SendStates(old(state), hasText, FirstIds(attachments), env))
      ensures r.Sent? <==> SendWorks(old(state), hasText, FirstIds(attachments), env)
      ensures r.BadRequest? <==> !hasText && attachments == []
      ensures r.CommitFailed? ==>
                && !env.commits && (forall f :: f in FirstIds(attachments) ==> f in old(state).rows)
                && state == Released(old(state), CandidatesOf(old(state), FirstIds(attachments)), env.deletes, env.rowsWork)
      ensures r.BadRequest? || r.LookupFailed? || r.InvalidAttachment? ==> state == old(state)
      ensures r.Sent? ==>
                && MessagesArrived(old(state), state, hasText, FirstIds(attachments), r.ids)
                && OnlyCommitted(old(state), state, FirstIds(attachments))
                && (forall f :: f in attachments ==> f in state.rows && VisiblyUsed(state, f))
                && r.ids == Ids(old(state).nextId, |Parts(hasText, FirstIds(attachments))|)
                && events == old(events) + AddedEvents(r.ids)
      ensures !r.Sent? ==> events == old(events)
      ensures r.RolledBack? ==>
                && (forall m :: m in old(state).messages ==>
                      m in state.messages && state.messages[m] == old(state).messages[m])
                && (forall m :: m in state.messages && m !in old(state).messages ==> !env.hardDeletes(m))
                && (forall f :: f in old(state).rows && f !in state.rows ==> env.counts(f) && Refs(state, f) == {})
    {
      var files := DistinctIds(attachments);
      FirstIdsLaws(attachments);
      if !hasText && files == [] {
        return BadRequest;
      }
      var problem := CheckAttachments(files, env.looksUp);
      if problem.Some? {
        return problem.value;
      }
      SentArrives(state, hasText, files);
      r := SendChecked(hasText, files, env);
    }

    // ----- core/prune_orchestrator.py -----

    /** The retention query: some soft-deleted messages, in some order. */
    method ListMessagesToPurge(ids: seq<MsgId>)
      requires Valid() && Purgeable(state, ids)
      modifies this`state, this`history
      ensures Valid() && Went(old(history), [old(state).(listing := EntriesOf(old(state), ids))])
      ensures state == old(state).(listing := state.listing)
      ensures |state.listing| == |ids|
      ensures forall i :: 0 <= i < |ids| ==> state.listing[i] == Entry(ids[i], old(state).messages[ids[i]].file)
    {
      ListingFine(state, ids);
      Record(state.(listing := EntriesOf(state, ids)));
    }

    /** The orphan query: some files no message refers to at that moment. */
    method ListFilesToPrune(files: seq<FileId>)
      requires Valid() && Orphans(state, files)
      modifies this`state, this`history
      ensures Valid() && Went(old(history), [old(state).(candidates := CandidatesOf(old(state), files))])
      ensures state == old(state).(candidates := CandidatesOf(old(state), files))
    {
      CandidatesFine(state, files);
      CandidatesKept(state, CandidatesOf(state, files));
      Record(state.(candidates := CandidatesOf(state, files)));
    }

    /** The process starts anew, or a query raises: what is left of the pass is
        forgotten. */
    method Abandon()
      modifies this`state, this`history
      ensures history == old(history) + [state] && state == Forgotten(old(state))
    {
      Record(Forgotten(state));
    }

    /** Deletes a message's row after its file, if that call works. */
    method HardDeleteDropMessage(id: MsgId, works: bool)
      modifies this`state, this`history
      ensures history == old(history) + HardStates(old(state), id, works)
      ensures state == Last(old(state), HardStates(old(state), id, works))
    {
      if works {
        Record(HardDelete(state, id));
      }
    }

    /** The file of a listed message goes if this was its last reference; then the
        message does. */
    method PurgeListed(e: Entry, env: PruneEnv)
      requires Valid() && EntryOk(state, e)
      modifies this`state, this`history
      ensures Went(old(history), PurgeRest(old(state), e, env))
    {
      if e.file.Some? {
        var f := e.file.value;
        var count := CountReferences(f, env.counts);
        if count.None? {
          return;
        }
        if count.value == 1 {
          if !env.fetches {
            Abandon();
            return;
          }
          if f in state.rows {
            ghost var t := ReleaseStates(state, [Candidate(f, state.rows[f].key)], env.deletes, env.rowsWork);
            var released := ReleaseOne(Candidate(f, state.rows[f].key), env.deletes, env.rowsWork);
            if released != 1 {
              return;
            }
            More(old(history), t, HardStates(state, e.id, env.hardDeletes));
          }
        }
      }
      HardDeleteDropMessage(e.id, env.hardDeletes);
    }

    /** One listed message, under the gate: its row goes, and its file with it if this
        was the last reference. The listing may be as old as it likes. */
    method PurgeNext(env: PruneEnv)
      requires Valid() && state.listing != []
      modifies this`state, this`history
      ensures Valid() && Went(old(history), PurgeStates(old(state), env))
      ensures forall m :: m in old(state).messages
                          && (!old(state).messages[m].deleted || m != old(state).listing[0].id) ==>
                m in state.messages && state.messages[m] == old(state).messages[m]
      ensures forall f :: f in old(state).rows && f !in state.rows ==>
                env.counts && Some(f) == old(state).listing[0].file && Refs(old(state), f) == {old(state).listing[0].id}
      ensures forall k :: k in old(state).objects && k !in state.objects ==>
                && env.counts && Some(k.file) == old(state).listing[0].file
                && Refs(old(state), k.file) == {old(state).listing[0].id}
      ensures var e := old(state).listing[0];
              AllWork(env) ==>
                e.id !in state.messages
                && (e.file.Some? && Refs(old(state), e.file.value) == {e.id} ==> e.file.value !in state.rows)
    {
      ghost var s := state;
      PurgeKeeps(state, env);
      LastInv(state, PurgeStates(state, env));
      var e := state.listing[0];
      TailFine(state);
      Record(Visited(state));
      More(old(history), [state], PurgeRest(state, e, env));
      PurgeListed(e, env);
      assert Went(old(history), PurgeStates(s, env)) && state == Last(s, PurgeStates(s, env));
      PurgeEffect(s, env);
    }

    /** One orphan candidate, under the gate: by now a message may refer to it. */
    method PruneNext(env: PruneEnv)
      requires Valid() && state.candidates != []
      modifies this`state, this`history
      ensures Valid() && Went(old(history), PruneStates(old(state), env))
      ensures state.messages == old(state).messages
      ensures forall f :: f in old(state).rows && f !in state.rows ==>
                env.counts && f == old(state).candidates[0].file && Refs(old(state), f) == {}
      ensures forall k :: k in old(state).objects && k !in state.objects ==>
                env.counts && k.file == old(state).candidates[0].file && Refs(old(state), k.file) == {}
      ensures var c := old(state).candidates[0];
              AllWork(env) && Refs(old(state), c.file) == {} ==> c.file !in state.rows && c.key !in state.objects
    {
      PruneKeeps(state, env);
      LastInv(state, PruneStates(state, env));
      PruneEffect(state, env);
      var c := state.candidates[0];
      NextCandidate(state);
      Record(state.(candidates := state.candidates[1..]));
      var count := CountReferences(c.file, env.counts);
      if count != Some(0) {
        return;
      }
      More(old(history), [state], ReleaseStates(state, [c], env.deletes, env.rowsWork));
      var _ := ReleaseOne(c, env.deletes, env.rowsWork);
    }

    // ----- whole runs -----

    /** One block of a run. */
    method Serve(q: Request)
      requires Valid()
      modifies this
      ensures Valid() && Went(old(history), Steps(old(state), q))
      ensures events == old(events) + Announced(old(state), q)
    {
      match q {
        case Upload(key, withinQuota, inserts, saves, rollsBack) =>
          if key.file !in state.used {
            var _ := UploadDrop(key, withinQuota, inserts, saves, rollsBack);
          }
        case Send(hasText, attachments, env) => var _ := SendDrop(hasText, attachments, env);
        case Delete(id, works) => var _ := DeleteDrop(id, works);
        case Clear(files, deletes, txWorks) =>
          if Names(state, files) {
            var _ := ClearDrop(files, deletes, txWorks);
          }
        case Discard(f, counts, deletes, rowsWork) => var _ := DiscardDropFile(f, counts, deletes, rowsWork);
        case ListExpired(ids) =>
          if Purgeable(state, ids) {
            ListMessagesToPurge(ids);
          }
        case ListOrphans(files) =>
          if Orphans(state, files) {
            ListFilesToPrune(files);
          }
        case Purge(env) => if state.listing != [] { PurgeNext(env); }
        case Prune(env) => if state.candidates != [] { PruneNext(env); }
        case Forget =>
          StepsKeep(state, q);
          Abandon();
      }
    }
  }

  function Wholes(requests: seq<Request>): (blocks: seq<Block>)
    ensures |blocks| == |requests| && forall i :: 0 <= i < |requests| ==> blocks[i] == Whole(requests[i])
  {
    seq(|requests|, i requires 0 <= i < |requests| => Whole(requests[i]))
  }

  /** Everything announced over a run. */
  ghost function AllAnnounced(requests: seq<Request>): seq<Event> {
    if requests == [] then [] else
    var n := |requests| - 1;
    AllAnnounced(requests[..n]) + Announced(After(Wholes(requests[..n])), requests[n])
  }

  lemma WholeSteps(s: State, q: Request)
    ensures BlockSteps(s, Whole(q)) == Steps(s, q)
  {
  }

  lemma TraceSnoc(blocks: seq<Block>, q: Request)
    ensures Trace(blocks + [Whole(q)]) == Trace(blocks) + Steps(After(blocks), q)
    ensures After(blocks + [Whole(q)]) == Last(After(blocks), Steps(After(blocks), q))
  {
    AfterOneMore(blocks, Whole(q));
    WholeSteps(After(blocks), q);
    assert (blocks + [Whole(q)])[..|blocks|] == blocks;
  }

  lemma WholesSnoc(requests: seq<Request>, q: Request)
    ensures Wholes(requests + [q]) == Wholes(requests) + [Whole(q)]
  {
  }

  lemma AnnouncedSnoc(requests: seq<Request>, q: Request)
    ensures AllAnnounced(requests + [q]) == AllAnnounced(requests) + Announced(After(Wholes(requests)), q)
  {
    assert (requests + [q])[..|requests|] == requests;
  }

  lemma RunSnocs(requests: seq<Request>, i: nat)
    requires i < |requests|
    ensures var w, q := Wholes(requests[..i]), requests[i];
            && Trace(Wholes(requests[..i + 1])) == Trace(w) + Steps(After(w), q)
            && After(Wholes(requests[..i + 1])) == Last(After(w), Steps(After(w), q))
            && AllAnnounced(requests[..i + 1]) == AllAnnounced(requests[..i]) + Announced(After(w), q)
  {
    TakeSnoc(requests, i);
    WholesSnoc(requests[..i], requests[i]);
    TraceSnoc(Wholes(requests[..i]), requests[i]);
    AnnouncedSnoc(requests[..i], requests[i]);
  }

  /** A run of the object passes through exactly the states of its trace. */
  method Run(requests: seq<Request>) returns (d: Drop)
    ensures fresh(d) && d.Valid()
    ensures d.history == Trace(Wholes(requests)) && d.state == After(Wholes(requests))
    ensures d.events == AllAnnounced(requests)
  {
    d := new Drop();
    for i := 0 to |requests|
      invariant d.Valid() && fresh(d)
      invariant d.history == Trace(Wholes(requests[..i])) && d.state == After(Wholes(requests[..i]))
      invariant d.events == AllAnnounced(requests[..i])
    {
      RunSnocs(requests, i);
      d.Serve(requests[i]);
    }
    assert requests[..|requests|] == requests;
  }
}
