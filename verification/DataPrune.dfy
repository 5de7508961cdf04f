/** core/prune_orchestrator.py, `_run_data_prune`, for chat sessions: clear the stored
    history of sessions past retention, then their files, then their rows. A session
    whose history could not be cleared is left alone entirely. */
module DataPrune {
  import opened Lists

  type Session = string
  type FileId = string
  type Key = string

  datatype File = File(session: Session, key: Key)

  /** A session row with its deletion time, if soft-deleted. */
  datatype Meta = Meta(session: Session, deletedAt: Option<int>)

  datatype Candidate = Candidate(id: FileId, file: File)

  datatype Env = Env(clears: Session -> bool, deletes: Key -> bool, rowsWork: bool)

  /** What one query returns at most. */
  const LIMIT := 500

  predicate Expired(m: Meta, cutoff: int) {
    m.deletedAt.Some? && m.deletedAt.value < cutoff
  }

  function ExpiredRows(meta: seq<Meta>, cutoff: int): seq<Meta> {
    Filter((m: Meta) => Expired(m, cutoff), meta)
  }

  /** `list_sessions_to_purge`; the table is read in order of deletion. */
  function ToPurge(meta: seq<Meta>, cutoff: int): seq<Meta> {
    var rows := ExpiredRows(meta, cutoff);
    if |rows| <= LIMIT then rows else rows[..LIMIT]
  }

  function Sessions(rows: seq<Meta>): set<Session> {
    set i | 0 <= i < |rows| :: rows[i].session
  }

  predicate HasFiles(files: map<FileId, File>, session: Session) {
    exists f :: f in files && files[f].session == session
  }

  /** `prune_chat_sync`'s condition, which has no limit. */
  predicate Purged(m: Meta, cutoff: int, files: map<FileId, File>, excluded: set<Session>) {
    Expired(m, cutoff) && !HasFiles(files, m.session) && m.session !in excluded
  }

  ghost predicate Anchored(files: map<FileId, File>, objects: set<Key>) {
    forall k :: k in objects ==> exists f :: f in files && files[f].key == k
  }

  ghost predicate KeysDistinct(files: map<FileId, File>) {
    forall f, g :: f in files && g in files && files[f].key == files[g].key ==> f == g
  }

  lemma SessionsSnoc(rows: seq<Meta>, k: nat)
    requires k < |rows|
    ensures Sessions(rows[..k + 1]) == Sessions(rows[..k]) + {rows[k].session}
  {
    assert forall i :: 0 <= i < k ==> rows[..k + 1][i] == rows[..k][i] == rows[i];
    assert rows[..k + 1][k] == rows[k];
  }

  lemma SessionsAll(rows: seq<Meta>)
    ensures forall s :: s in Sessions(rows) <==> exists m :: m in rows && m.session == s
  {
    forall m | m in rows
      ensures m.session in Sessions(rows)
    {
      var i :| 0 <= i < |rows| && rows[i] == m;
    }
  }

  lemma StillAnchored(files: map<FileId, File>, left: map<FileId, File>, objects: set<Key>, gone: set<FileId>)
    requires Anchored(files, objects) && (left == files || left == files - gone)
    requires forall f :: f in gone ==> f in files && files[f].key !in objects
    ensures Anchored(left, objects)
  {
    forall k | k in objects
      ensures exists f :: f in left && left[f].key == k
    {
      var f :| f in files && files[f].key == k;
      assert f in left;
    }
  }

  /** The session rows a pass leaves. */
  function LeftRows(meta: seq<Meta>, cutoff: int, files: map<FileId, File>, excluded: set<Session>): seq<Meta> {
    Filter((m: Meta) => !Purged(m, cutoff, files, excluded), meta)
  }

  lemma LeftRowsMember(meta: seq<Meta>, cutoff: int, files: map<FileId, File>, excluded: set<Session>)
    ensures forall m :: m in LeftRows(meta, cutoff, files, excluded) <==>
                          m in meta && !Purged(m, cutoff, files, excluded)
  {
    FilterMember((m: Meta) => !Purged(m, cutoff, files, excluded), meta);
  }

  class Store {
    var files: map<FileId, File>
    var objects: set<Key>
    var meta: seq<Meta>
    /** Sessions whose stored history is not empty. */
    var stored: set<Session>

    constructor (files: map<FileId, File>, objects: set<Key>, meta: seq<Meta>, stored: set<Session>)
      ensures this.files == files && this.objects == objects && this.meta == meta && this.stored == stored
    {
      this.files, this.objects, this.meta, this.stored := files, objects, meta, stored;
    }

    method ClearHistories(rows: seq<Meta>, clears: Session -> bool) returns (failed: set<Session>)
      modifies this`stored
      ensures failed == set s | s in Sessions(rows) && !clears(s)
      ensures stored == old(stored) - (Sessions(rows) - failed)
    {
      failed := {};
      for i := 0 to |rows|
        invariant failed == set s | s in Sessions(rows[..i]) && !clears(s)
        invariant stored == old(stored) - (Sessions(rows[..i]) - failed)
      {
        SessionsSnoc(rows, i);
        if clears(rows[i].session) {
          stored := stored - {rows[i].session};
        } else {
          failed := failed + {rows[i].session};
        }
      }
      assert rows[..|rows|] == rows;
    }

    /** Objects first; rows only of those. */
    method ReleaseFiles(batch: seq<Candidate>, deletes: Key -> bool, rowsWork: bool)
      requires forall c :: c in batch ==> c.id in files && files[c.id] == c.file
      requires Anchored(files, objects) && KeysDistinct(files)
      modifies this`files, this`objects
      ensures Anchored(files, objects)
      ensures forall f :: f in files ==> f in old(files) && files[f] == old(files)[f]
      ensures forall f :: f in old(files) && f !in files ==>
                rowsWork && exists c :: c in batch && c.id == f && deletes(c.file.key)
      ensures objects <= old(objects)
      ensures forall k :: k in old(objects) && k !in objects ==> deletes(k) && exists c :: c in batch && c.file.key == k
      ensures forall c :: c in batch && deletes(c.file.key) ==> c.file.key !in objects && (rowsWork ==> c.id !in files)
    {
      var doomed: set<FileId> := {};
      for i := 0 to |batch|
        invariant files == old(files)
        invariant forall f :: f in doomed ==> f in files && files[f].key !in objects
        invariant forall f :: f in doomed ==> exists c :: c in batch && c.id == f && deletes(c.file.key)
        invariant objects <= old(objects)
        invariant forall c :: c in batch[..i] && deletes(c.file.key) ==> c.file.key !in objects && c.id in doomed
        invariant forall k :: k in old(objects) && k !in objects ==>
                    deletes(k) && exists c :: c in batch && c.file.key == k
      {
        TakeSnoc(batch, i);
        assert batch[i] in batch;
        if deletes(batch[i].file.key) {
          objects := objects - {batch[i].file.key};
          doomed := doomed + {batch[i].id};
        }
      }
      assert batch[..|batch|] == batch;
      if rowsWork {
        files := files - doomed;
      }
      StillAnchored(old(files), files, objects, doomed);
    }

    method Unprotected(candidates: seq<Candidate>, failed: set<Session>) returns (batch: seq<Candidate>)
      ensures batch == Filter((c: Candidate) => c.file.session !in failed, candidates)
    {
      batch := [];
      for i := 0 to |candidates|
        invariant batch == Filter((c: Candidate) => c.file.session !in failed, candidates[..i])
      {
        TakeSnoc(candidates, i);
        FilterSnoc((c: Candidate) => c.file.session !in failed, candidates[..i], candidates[i]);
        if candidates[i].file.session !in failed {
          batch := batch + [candidates[i]];
        }
      }
      assert candidates[..|candidates|] == candidates;
    }

    /** One pass. `candidates` is what the file query returned. */
    method RunDataPrune(cutoff: int, candidates: seq<Candidate>, env: Env) returns (failed: set<Session>)
      requires Anchored(files, objects) && KeysDistinct(files)
      requires forall c :: c in candidates ==> c.id in files && files[c.id] == c.file
      modifies this
      ensures Anchored(files, objects)
      ensures failed == set s | s in Sessions(ToPurge(old(meta), cutoff)) && !env.clears(s)
      // a session that could not be cleared keeps its files, their objects and its row
      ensures forall f :: f in old(files) && old(files)[f].session in failed ==>
                f in files && files[f] == old(files)[f] && (files[f].key in old(objects) ==> files[f].key in objects)
      ensures forall m :: m in old(meta) && m.session in failed ==> m in meta
      // of every other session, each candidate whose object can be deleted loses it, and its row with it
      ensures forall c :: c in candidates && c.file.session !in failed && env.deletes(c.file.key) ==>
                c.file.key !in objects && (env.rowsWork ==> c.id !in files)
      // and nothing else goes
      ensures forall f :: f in files ==> f in old(files) && files[f] == old(files)[f]
      ensures forall f :: f in old(files) && f !in files ==>
                && env.rowsWork
                && exists c :: c in candidates && c.id == f && c.file.session !in failed && env.deletes(c.file.key)
      ensures forall k :: k in old(objects) && k !in objects ==>
                env.deletes(k) && exists c :: c in candidates && c.file.key == k && c.file.session !in failed
      // a session row goes exactly when it is old enough and nothing of the session is left to retry
      ensures forall m :: m in meta <==>
                && m in old(meta)
                && !(m.deletedAt.Some? && m.deletedAt.value < cutoff && m.session !in failed
                     && forall f :: f in files ==> files[f].session != m.session)
      // and its history has been cleared if the listing reached it
      ensures forall m :: m in old(meta) && m !in meta ==>
                (m.session in stored <==>
                   m.session in old(stored) && m.session !in Sessions(ToPurge(old(meta), cutoff)))
    {
      var rows := ToPurge(meta, cutoff);
      failed := ClearHistories(rows, env.clears);
      var batch := Unprotected(candidates, failed);
      FilterMember((c: Candidate) => c.file.session !in failed, candidates);
      ReleaseFiles(batch, env.deletes, env.rowsWork);
      LeftRowsMember(meta, cutoff, files, failed);
      meta := LeftRows(meta, cutoff, files, failed);
    }
  }

  /** The listing names the rows deleted before the cutoff, the first 500 of them in the
      order of the table. */
  lemma ListingIsPrefix(meta: seq<Meta>, cutoff: int)
    ensures var expired := ExpiredRows(meta, cutoff);
            && (forall m :: m in expired <==> m in meta && m.deletedAt.Some? && m.deletedAt.value < cutoff)
            && ToPurge(meta, cutoff) <= expired
            && |ToPurge(meta, cutoff)| == if |expired| < 500 then |expired| else 500
  {
    FilterMember((m: Meta) => Expired(m, cutoff), meta);
  }

  /** The listing is limited and the deletion is not. With no more expired sessions than
      one query returns, every session row that goes had its history cleared. */
  lemma ClearedBeforePurged(meta: seq<Meta>, cutoff: int, m: Meta)
    requires |ExpiredRows(meta, cutoff)| <= LIMIT && m in meta && Expired(m, cutoff)
    ensures m.session in Sessions(ToPurge(meta, cutoff))
  {
    FilterMember((x: Meta) => Expired(x, cutoff), meta);
    SessionsAll(ExpiredRows(meta, cutoff));
  }

  /** With more, some session is out of the listing's reach: if it has no files, its row
      goes in the same pass, although its history was never cleared and nothing will
      find it again. */
  lemma BeyondTheLimit(meta: seq<Meta>, cutoff: int) returns (m: Meta)
    requires |ExpiredRows(meta, cutoff)| > LIMIT
    requires forall i, j :: 0 <= i < j < |meta| ==> meta[i].session != meta[j].session
    ensures m in meta && Expired(m, cutoff) && m.session !in Sessions(ToPurge(meta, cutoff))
    ensures forall files, excluded :: excluded <= Sessions(ToPurge(meta, cutoff)) && !HasFiles(files, m.session) ==>
              Purged(m, cutoff, files, excluded)
  {
    var rows := ExpiredRows(meta, cutoff);
    m := rows[LIMIT];
    FilterMember((x: Meta) => Expired(x, cutoff), meta);
    assert m in rows;
    DistinctRows(meta, cutoff);
    forall i | 0 <= i < LIMIT
      ensures rows[..LIMIT][i].session != m.session
    {
      assert rows[..LIMIT][i] == rows[i];
    }
  }

  lemma {:induction false} DistinctRows(meta: seq<Meta>, cutoff: int)
    requires forall i, j :: 0 <= i < j < |meta| ==> meta[i].session != meta[j].session
    ensures var rows := ExpiredRows(meta, cutoff);
            forall i, j :: 0 <= i < j < |rows| ==> rows[i].session != rows[j].session
  {
    if meta != [] {
      var n := |meta| - 1;
      DistinctRows(meta[..n], cutoff);
      FilterMember((x: Meta) => Expired(x, cutoff), meta[..n]);
      var front := ExpiredRows(meta[..n], cutoff);
      forall i | 0 <= i < |front|
        ensures front[i].session != meta[n].session
      {
        assert front[i] in meta[..n];
        var j :| 0 <= j < n && meta[..n][j] == front[i];
        assert meta[j] == front[i];
      }
    }
  }
}
