/** handlers/drop.py: what the token's other devices show of a Drop, from the events they
    are told, and when that is what there is. */
module DropPeers {
  import opened Lists
  import opened DropStore
  import opened DropTrace
  import opened DropRuns
  import opened DropService

  // ----- a peer -----

  function Heard(view: set<MsgId>, e: Event): set<MsgId> {
    match e
    case Added(id) => view + {id}
    case Deleted(id) => view - {id}
    case Cleared => {}
  }

  function HearAll(view: set<MsgId>, events: seq<Event>): set<MsgId> {
    if events == [] then view else Heard(HearAll(view, events[..|events| - 1]), events[|events| - 1])
  }

  /** The messages a device that loads the Drop is shown. */
  function VisibleIds(s: State): set<MsgId> {
    set m | m in s.messages && !s.messages[m].deleted
  }

  lemma {:induction false} HearConcat(view: set<MsgId>, a: seq<Event>, b: seq<Event>)
    ensures HearAll(view, a + b) == HearAll(HearAll(view, a), b)
  {
    if b == [] {
      assert a + b == a;
    } else {
      var n := |b| - 1;
      assert (a + b)[..|a + b| - 1] == a + b[..n];
      HearConcat(view, a, b[..n]);
    }
  }

  lemma {:induction false} HearAdded(view: set<MsgId>, ids: seq<MsgId>)
    ensures HearAll(view, AddedEvents(ids)) == view + Elements(ids)
  {
    if ids != [] {
      var n := |ids| - 1;
      HearAdded(view, ids[..n]);
      ElementsSnoc(ids);
      assert AddedEvents(ids)[..n] == AddedEvents(ids[..n]);
    }
  }

  lemma HearOne(view: set<MsgId>, e: Event)
    ensures HearAll(view, [e]) == Heard(view, e)
  {
    assert [e][..0] == [];
    assert HearAll(view, [e]) == Heard(HearAll(view, []), e);
  }

  // ----- sends -----

  lemma SentIsVisible(s: State, s2: State, hasText: bool, files: seq<FileId>, ids: seq<MsgId>)
    requires MessagesArrived(s, s2, hasText, files, ids)
    ensures VisibleIds(s2) == VisibleIds(s) + Elements(ids)
  {
    var k := if hasText then 1 else 0;
    forall m | m in ids
      ensures m in VisibleIds(s2)
    {
      var j :| 0 <= j < |ids| && ids[j] == m;
      if j >= k {
        assert s2.messages[ids[k + (j - k)]] == Msg(Some(files[j - k]), false);
      }
    }
    forall m | m in s.messages
      ensures m in VisibleIds(s2) <==> m in VisibleIds(s) || m in ids
    {
      assert s2.messages[m] == s.messages[m];
    }
  }

  /** The rows a send had appended when its append phase broke off. */
  function Begun(s: State, hasText: bool, files: seq<FileId>, env: SendEnv): seq<MsgId> {
    var n := |Parts(hasText, files)|;
    Ids(s.nextId, Reached(n, env.failsAt))
  }

  /** The append phase broke off. */
  predicate BreaksOff(s: State, hasText: bool, files: seq<FileId>, env: SendEnv) {
    && (hasText || files != []) && AllFound(s, files, env.looksUp) && (files == [] || env.commits)
    && env.failsAt < 2 * |Parts(hasText, files)|
  }

  lemma NewOnesVisible(s: State, parts: seq<Option<FileId>>, m: MsgId)
    requires m in Ids(s.nextId, |parts|)
    ensures m in Appended(s, parts).messages && !Appended(s, parts).messages[m].deleted
  {
    var i :| 0 <= i < |parts| && Ids(s.nextId, |parts|)[i] == m;
    AppendedAt(s, parts, i);
  }

  /** What breaking off leaves of messages: all the earlier ones, and those of its own that
      could not be taken back, visible. */
  lemma BrokenOffLeaves(s: State, hasText: bool, files: seq<FileId>, env: SendEnv)
    requires Inv(s) && (forall f :: f in files ==> f in s.rows) && env.failsAt < 2 * |Parts(hasText, files)|
    ensures var s2 := Last(s, DeliverStates(s, hasText, files, env));
            && (forall m :: m in s2.messages <==>
                  m in s.messages || (m in Begun(s, hasText, files, env) && !env.hardDeletes(m)))
            && (forall m :: m in s.messages ==> s2.messages[m] == s.messages[m])
            && (forall m :: m in s2.messages && m !in s.messages ==> !s2.messages[m].deleted)
  {
    var k := Reached(|Parts(hasText, files)|, env.failsAt);
    var parts := Parts(hasText, files)[..k];
    var t := AppendStates(s, parts);
    var s1, created := Last(s, t), Begun(s, hasText, files, env);
    var s2 := Last(s, DeliverStates(s, hasText, files, env));
    Delivering(s, hasText, files, k);
    RollbackKeeps(s1, created, files, env);
    LastConcat(s, t, RollbackStates(s1, created, files, env));
    forall m | m in s2.messages && m !in s.messages
      ensures !s2.messages[m].deleted
    {
      NewOnesVisible(s, parts, m);
    }
  }

  lemma LeftVisible(s: State, s2: State, created: seq<MsgId>, goes: MsgId -> bool)
    requires forall m :: m in created ==> m !in s.messages
    requires forall m :: m in s2.messages <==> m in s.messages || (m in created && !goes(m))
    requires forall m :: m in s.messages ==> s2.messages[m] == s.messages[m]
    requires forall m :: m in s2.messages && m !in s.messages ==> !s2.messages[m].deleted
    ensures VisibleIds(s2) == VisibleIds(s) <==> forall m :: m in created ==> goes(m)
  {
    forall m | m in created && !goes(m)
      ensures m in VisibleIds(s2) && m !in VisibleIds(s)
    {
    }
  }

  lemma BegunAreNew(s: State, n: nat)
    requires Inv(s)
    ensures forall m :: m in Ids(s.nextId, n) ==> m !in s.messages
  {
  }

  /** A send that broke off stays invisible exactly if all its rows could be taken back. */
  lemma BrokenOffTold(s: State, hasText: bool, files: seq<FileId>, env: SendEnv)
    requires Inv(s) && BreaksOff(s, hasText, files, env)
    ensures VisibleIds(Last(s, SendStates(s, hasText, files, env))) == VisibleIds(s) <==>
              forall m :: m in Begun(s, hasText, files, env) ==> env.hardDeletes(m)
  {
    var s1 := Committed(s, files);
    CommittedEffect(s, hasText, files, env);
    CommittedKeys(s, files);
    CommittedRows(s, files);
    BrokenOffLeaves(s1, hasText, files, env);
    BegunAreNew(s, Reached(|Parts(hasText, files)|, env.failsAt));
    LeftVisible(s, Last(s1, DeliverStates(s1, hasText, files, env)), Begun(s, hasText, files, env),
                env.hardDeletes);
  }

  // ----- one block -----

  /** A send that broke off could not take back one of its rows: it stays, and nobody is
      told. */
  predicate LeavesUnannounced(s: State, q: Request) {
    q.Send? &&
    var files := FirstIds(q.attachments);
    BreaksOff(s, q.hasText, files, q.env)
    && exists m :: m in Begun(s, q.hasText, files, q.env) && !q.env.hardDeletes(m)
  }

  lemma SendTold(s: State, hasText: bool, attachments: seq<FileId>, env: SendEnv)
    requires Inv(s)
    ensures var q := Send(hasText, attachments, env);
            HearAll(VisibleIds(s), Announced(s, q)) == VisibleIds(Last(s, Steps(s, q))) <==> !LeavesUnannounced(s, q)
  {
    var files := FirstIds(attachments);
    if SendWorks(s, hasText, files, env) {
      var ids := Ids(s.nextId, |Parts(hasText, files)|);
      SendArrives(s, hasText, files, env);
      SentIsVisible(s, Last(s, SendStates(s, hasText, files, env)), hasText, files, ids);
      HearAdded(VisibleIds(s), ids);
    } else if BreaksOff(s, hasText, files, env) {
      BrokenOffTold(s, hasText, files, env);
    } else if AllFound(s, files, env.looksUp) && files != [] {
      CandidatesFine(s, files);
      ReleaseKeeps(s, CandidatesOf(s, files), env.deletes, env.rowsWork);
    }
  }

  lemma SameVisible(s: State, s2: State)
    requires forall m :: m in s2.messages ==> m in s.messages
    requires forall m :: m in s.messages && !s.messages[m].deleted ==>
               m in s2.messages && s2.messages[m] == s.messages[m]
    requires forall m :: m in s.messages && m in s2.messages && s.messages[m].deleted ==> s2.messages[m].deleted
    ensures VisibleIds(s2) == VisibleIds(s)
  {
  }

  lemma PassTold(s: State, q: Request)
    requires Inv(s) && (q.Purge? || q.Prune? || q.Upload? || q.Discard?)
    ensures VisibleIds(Last(s, Steps(s, q))) == VisibleIds(s)
  {
    match q
    case Upload(key, _, _, _, _) => if key.file !in s.used { UploadEffect(s, key, q); }
    case Discard(f, counts, deletes, rowsWork) => DiscardEffect(s, f, counts, deletes, rowsWork);
    case Prune(env) => if s.candidates != [] { PruneEffect(s, env); }
    case Purge(env) =>
      if s.listing != [] {
        PurgeEffect(s, env);
        assert EntryOk(s, s.listing[0]);
        SameVisible(s, Last(s, PurgeStates(s, env)));
      }
  }

  lemma DeleteTold(s: State, id: MsgId, works: bool)
    ensures HearAll(VisibleIds(s), Announced(s, Delete(id, works))) == VisibleIds(Last(s, Steps(s, Delete(id, works))))
  {
    DeleteEffect(s, id, works);
    HearOne(VisibleIds(s), Deleted(id));
  }

  lemma ClearTold(s: State, files: seq<FileId>, deletes: Key -> bool, txWorks: bool)
    requires Inv(s)
    ensures var q := Clear(files, deletes, txWorks);
            HearAll(VisibleIds(s), Announced(s, q)) == VisibleIds(Last(s, Steps(s, q)))
  {
    HearOne(VisibleIds(s), Cleared);
    if Names(s, files) {
      ClearEffect(s, files, deletes, txWorks);
      assert AllErasable(s, files, deletes) <==> forall f :: f in s.rows ==> deletes(s.rows[f].key);
    }
  }

  /** After each request and prune block peers that heard everything show what there is to
      see, if and only if it did not leave an unannounced message behind. */
  lemma BlockTold(s: State, q: Request)
    requires Inv(s)
    ensures HearAll(VisibleIds(s), Announced(s, q)) == VisibleIds(Last(s, Steps(s, q))) <==> !LeavesUnannounced(s, q)
  {
    match q
    case Send(hasText, attachments, env) => SendTold(s, hasText, attachments, env);
    case Delete(id, works) => DeleteTold(s, id, works);
    case Clear(files, deletes, txWorks) => ClearTold(s, files, deletes, txWorks);
    case ListExpired(_) =>
    case ListOrphans(_) =>
    case Forget =>
    case _ => PassTold(s, q);
  }

  // ----- whole runs -----

  ghost predicate Told(requests: seq<Request>) {
    HearAll({}, AllAnnounced(requests)) == VisibleIds(After(Wholes(requests)))
  }

  lemma OneMoreTold(requests: seq<Request>, q: Request)
    requires Told(requests)
    ensures Told(requests + [q]) <==> !LeavesUnannounced(After(Wholes(requests)), q)
  {
    var s := After(Wholes(requests));
    RunIsAnchored(Wholes(requests));
    WholesSnoc(requests, q);
    TraceSnoc(Wholes(requests), q);
    AnnouncedSnoc(requests, q);
    HearConcat({}, AllAnnounced(requests), Announced(s, q));
    BlockTold(s, q);
  }

  /** Over every run in which no request left an unannounced message behind, a peer that
      heard every event shows exactly the visible messages. */
  lemma {:induction false} PeersConverge(requests: seq<Request>)
    requires forall i :: 0 <= i < |requests| ==> !LeavesUnannounced(After(Wholes(requests[..i])), requests[i])
    ensures Told(requests)
  {
    if requests == [] {
      assert Wholes([]) == [];
      assert VisibleIds(Empty) == {};
    } else {
      var n := |requests| - 1;
      forall i | 0 <= i < n
        ensures !LeavesUnannounced(After(Wholes(requests[..n][..i])), requests[..n][i])
      {
        assert requests[..n][..i] == requests[..i];
      }
      PeersConverge(requests[..n]);
      OneMoreTold(requests[..n], requests[n]);
      Unsnoc(requests);
    }
  }

  /** And the first request that does leaves them behind. */
  lemma FirstUntold(requests: seq<Request>, q: Request)
    requires forall i :: 0 <= i < |requests| ==> !LeavesUnannounced(After(Wholes(requests[..i])), requests[i])
    requires LeavesUnannounced(After(Wholes(requests)), q)
    ensures !Told(requests + [q])
  {
    PeersConverge(requests);
    OneMoreTold(requests, q);
  }

  /** Reading the new row back raises, and so does taking it away. */
  const READ_BACK_FAILS := SendEnv(_ => true, true, 1, _ => false, _ => true, _ => true, true)

  /** The shortest such run: one text, which is there and which no peer was told of. */
  lemma TextStaysUntold()
    ensures !Told([Send(true, [], READ_BACK_FAILS)])
  {
    var q := Send(true, [], READ_BACK_FAILS);
    assert FirstIds([]) == [] && Parts(true, []) == [None];
    assert Wholes([]) == [] && After([]) == Empty;
    assert Begun(Empty, true, [], READ_BACK_FAILS) == [0];
    assert 0 in Begun(Empty, true, [], READ_BACK_FAILS);
    FirstUntold([], q);
    assert [] + [q] == [q];
  }
}
