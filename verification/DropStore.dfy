/** handlers/drop.py, core/prune_orchestrator.py, core/file_lifecycle.py: the state of
    one token's Drop, and what each single storage call does to it. */
module DropStore {
  import opened Lists

  type FileId = string
  type MsgId = nat

  /** A storage key names its file; the extension comes from the MIME type. */
  datatype Key = Key(file: FileId, ext: string)

  datatype Row = Row(key: Key, committed: bool)

  datatype Msg = Msg(file: Option<FileId>, deleted: bool)

  /** A message as an earlier retention query saw it. */
  datatype Entry = Entry(id: MsgId, file: Option<FileId>)

  /** A file as an earlier orphan query saw it. */
  datatype Candidate = Candidate(file: FileId, key: Key)

  /** `used` is every file id ever drawn; `listing` and `candidates` are what a running
      prune pass still has to visit, however old. */
  datatype State = State(
    rows: map<FileId, Row>, objects: set<Key>, messages: map<MsgId, Msg>, nextId: MsgId,
    used: set<FileId>, listing: seq<Entry>, candidates: seq<Candidate>)

  const Empty := State(map[], {}, map[], 0, {}, [], [])

  // ----- single storage calls -----

  function InsertRow(s: State, key: Key): State {
    s.(rows := s.rows[key.file := Row(key, false)], used := s.used + {key.file})
  }

  function SaveObject(s: State, key: Key): State { s.(objects := s.objects + {key}) }

  function DeleteObject(s: State, key: Key): State { s.(objects := s.objects - {key}) }

  function DeleteRows(s: State, files: set<FileId>): State { s.(rows := s.rows - files) }

  function Commit(s: State, files: set<FileId>): State {
    s.(rows := map f | f in s.rows :: if f in files then s.rows[f].(committed := true) else s.rows[f])
  }

  function AddMessage(s: State, file: Option<FileId>): State {
    s.(messages := s.messages[s.nextId := Msg(file, false)], nextId := s.nextId + 1)
  }

  function HardDelete(s: State, id: MsgId): State { s.(messages := s.messages - {id}) }

  function SoftDelete(s: State, id: MsgId): State {
    if id in s.messages then s.(messages := s.messages[id := s.messages[id].(deleted := true)]) else s
  }

  /** `clear_drop_history`: one transaction over both tables. */
  function ClearTables(s: State): State { s.(messages := map[], rows := map[]) }

  /** References by any message, soft-deleted ones included. */
  function Refs(s: State, f: FileId): set<MsgId> {
    set m | m in s.messages && s.messages[m].file == Some(f)
  }

  predicate VisiblyUsed(s: State, f: FileId) {
    exists m :: m in s.messages && s.messages[m] == Msg(Some(f), false)
  }

  // ----- what must hold, also between two calls -----

  /** Every object can still be found through a row. */
  ghost predicate Anchored(s: State) {
    forall k :: k in s.objects ==> k.file in s.rows && s.rows[k.file].key == k
  }

  /** Every visible file message still has its file's row. */
  ghost predicate VisibleKept(s: State) {
    forall m :: m in s.messages && !s.messages[m].deleted && s.messages[m].file.Some? ==>
      s.messages[m].file.value in s.rows
  }

  ghost predicate EntryOk(s: State, e: Entry) {
    && e.id < s.nextId
    && (e.id in s.messages ==> s.messages[e.id] == Msg(e.file, true))
    && (e.file.Some? && e.file.value in s.rows ==> e.id in s.messages)
    && (e.file.Some? ==> e.file.value in s.used)
  }

  ghost predicate CandidateOk(s: State, c: Candidate) {
    c.file in s.used && c.key.file == c.file && (c.file in s.rows ==> s.rows[c.file].key == c.key)
  }

  /** A stale listing is still right about what it names, or the file is gone. */
  ghost predicate ListingsOk(s: State) {
    && (forall i :: 0 <= i < |s.listing| ==> EntryOk(s, s.listing[i]))
    && (forall i, j :: 0 <= i < j < |s.listing| ==> s.listing[i].id != s.listing[j].id)
    && (forall i :: 0 <= i < |s.candidates| ==> CandidateOk(s, s.candidates[i]))
  }

  ghost predicate Inv(s: State) {
    && Anchored(s)
    && (forall f :: f in s.rows ==> s.rows[f].key.file == f && f in s.used)
    && (forall m :: m in s.messages ==> m < s.nextId)
    && (forall m :: m in s.messages && s.messages[m].file.Some? ==> s.messages[m].file.value in s.used)
    && ListingsOk(s)
  }

  predicate Listed(s: State, id: MsgId) {
    exists i :: 0 <= i < |s.listing| && s.listing[i].id == id
  }

  lemma EntriesKept(s: State, s2: State)
    requires Inv(s) && s2.listing == s.listing && s2.candidates == s.candidates && s.used <= s2.used
    requires s2.nextId >= s.nextId
    requires forall f :: f in s2.rows && f in s.used ==> f in s.rows && s2.rows[f].key == s.rows[f].key
    requires forall m :: m < s.nextId && m in s2.messages ==> m in s.messages
    requires forall m :: m in s.messages && m in s2.messages && s.messages[m].deleted ==>
               s2.messages[m] == s.messages[m]
    requires forall m :: m in s.messages && m !in s2.messages ==>
               !Listed(s, m) || (s.messages[m].file.Some? ==> s.messages[m].file.value !in s2.rows)
    ensures ListingsOk(s2)
  {
    forall i | 0 <= i < |s2.listing|
      ensures EntryOk(s2, s2.listing[i])
    {
      assert EntryOk(s, s.listing[i]);
      assert Listed(s, s.listing[i].id);
    }
    forall i | 0 <= i < |s2.candidates|
      ensures CandidateOk(s2, s2.candidates[i])
    {
      assert CandidateOk(s, s.candidates[i]);
    }
  }

  lemma InsertKeeps(s: State, key: Key)
    requires Inv(s) && key.file !in s.used
    ensures Inv(InsertRow(s, key)) && (VisibleKept(s) ==> VisibleKept(InsertRow(s, key)))
  {
    EntriesKept(s, InsertRow(s, key));
  }

  lemma SaveKeeps(s: State, key: Key)
    requires Inv(s) && key.file in s.rows && s.rows[key.file].key == key
    ensures Inv(SaveObject(s, key)) && (VisibleKept(s) ==> VisibleKept(SaveObject(s, key)))
  {
    EntriesKept(s, SaveObject(s, key));
  }

  lemma DeleteObjectKeeps(s: State, key: Key)
    requires Inv(s)
    ensures Inv(DeleteObject(s, key)) && (VisibleKept(s) <==> VisibleKept(DeleteObject(s, key)))
  {
    EntriesKept(s, DeleteObject(s, key));
  }

  /** Rows may go only once their objects have; what becomes of visible messages then
      depends on who still uses the files. */
  lemma DeleteRowsKeeps(s: State, files: set<FileId>)
    requires Inv(s) && forall k :: k in s.objects ==> k.file !in files
    ensures Inv(DeleteRows(s, files))
    ensures VisibleKept(DeleteRows(s, files)) <==> VisibleKept(s) && forall f :: f in files ==> !VisiblyUsed(s, f)
  {
    var s2 := DeleteRows(s, files);
    EntriesKept(s, s2);
    assert forall m :: m in s.messages ==> m in s2.messages;
  }

  lemma CommitKeeps(s: State, files: set<FileId>)
    requires Inv(s)
    ensures Inv(Commit(s, files)) && (VisibleKept(s) <==> VisibleKept(Commit(s, files)))
    ensures Commit(s, files).rows.Keys == s.rows.Keys
  {
    assert Commit(s, files).rows.Keys == s.rows.Keys;
    EntriesKept(s, Commit(s, files));
  }

  lemma AddKeeps(s: State, file: Option<FileId>)
    requires Inv(s) && (file.Some? ==> file.value in s.rows)
    ensures Inv(AddMessage(s, file)) && (VisibleKept(s) ==> VisibleKept(AddMessage(s, file)))
  {
    EntriesKept(s, AddMessage(s, file));
  }

  lemma HardDeleteKeeps(s: State, id: MsgId)
    requires Inv(s) && !Listed(s, id)
    ensures Inv(HardDelete(s, id)) && (VisibleKept(s) ==> VisibleKept(HardDelete(s, id)))
  {
    EntriesKept(s, HardDelete(s, id));
  }

  lemma SoftDeleteKeeps(s: State, id: MsgId)
    requires Inv(s)
    ensures Inv(SoftDelete(s, id)) && (VisibleKept(s) ==> VisibleKept(SoftDelete(s, id)))
  {
    EntriesKept(s, SoftDelete(s, id));
  }

  lemma ClearKeeps(s: State)
    requires Inv(s) && s.objects == {}
    ensures Inv(ClearTables(s)) && VisibleKept(ClearTables(s))
  {
    EntriesKept(s, ClearTables(s));
  }

  lemma UnreferencedIsUnused(s: State, f: FileId)
    requires |Refs(s, f)| == 0
    ensures !VisiblyUsed(s, f)
  {
    assert Refs(s, f) == {};
    assert forall m :: m in s.messages ==> m !in Refs(s, f);
  }

  /** Why retention may trust an old listing: if the listed message's file still has a
      row and exactly one reference, that reference is the listed message itself, and
      it is soft-deleted. */
  lemma LastReferenceIsListed(s: State, e: Entry)
    requires Inv(s) && EntryOk(s, e) && e.file.Some?
    requires e.file.value in s.rows && |Refs(s, e.file.value)| == 1
    ensures Refs(s, e.file.value) == {e.id} && !VisiblyUsed(s, e.file.value)
  {
    var refs := Refs(s, e.file.value);
    assert e.id in refs;
    assert refs == {e.id} by {
      if m :| m in refs && m != e.id {
        SubsetCardinality({m, e.id}, refs);
      }
    }
    assert forall m :: m in s.messages && s.messages[m].file == e.file ==> m in refs;
  }
}
