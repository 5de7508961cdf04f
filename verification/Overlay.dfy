/** handlers/conversations_service.py, `_build_history_overlay`: flags and attachments
    of the stored history are recovered by walking it alongside the event log. */
module Overlay {
  import opened Lists
  import opened History
  import C = Conversations

  datatype Attachment = Attachment(fileId: Option<string>, mime: Option<string>) | NotAnAttachment

  /** A parsed payload; a field of the wrong type counts as absent. */
  datatype Payload =
    | Fields(role: Option<string>, content: Option<string>, incomplete: bool, attachments: seq<Attachment>)
    | Unreadable

  datatype Kind = MessageAdded | HistoryCleared | OtherKind

  datatype LogRow = LogRow(pts: nat, session: string, kind: Kind, payload: Payload)

  /** A message event as the walk uses it. */
  datatype Spoken = Spoken(role: Role, content: string, incomplete: bool, files: seq<Attachment>)

  const PAGE := 50
  const MAX_ROWS := 5000

  // ----- scanning the log -----

  ghost predicate Ordered(rows: seq<LogRow>) {
    && (forall i :: 0 <= i < |rows| ==> rows[i].pts > 0)
    && forall i, j :: 0 <= i < j < |rows| ==> rows[i].pts < rows[j].pts
  }

  /** `get_updates`. */
  function Page(rows: seq<LogRow>, since: nat): seq<LogRow> {
    var wanted := Filter((r: LogRow) => r.pts > since, rows);
    if |wanted| <= PAGE then wanted else wanted[..PAGE]
  }

  function OfSession(rows: seq<LogRow>, session: string): seq<LogRow> {
    Filter((r: LogRow) => r.session == session, rows)
  }

  function Scanned(rows: seq<LogRow>): seq<LogRow> {
    if |rows| <= MAX_ROWS then rows else rows[..MAX_ROWS]
  }

  lemma PageIsNext(rows: seq<LogRow>, seen: nat, since: nat)
    requires Ordered(rows) && seen <= |rows|
    requires since == if seen == 0 then 0 else rows[seen - 1].pts
    ensures Page(rows, since) == rows[seen..if seen + PAGE <= |rows| then seen + PAGE else |rows|]
  {
    FilterSuffix((r: LogRow) => r.pts > since, rows, seen);
    if seen + PAGE <= |rows| {
      assert rows[seen..][..PAGE] == rows[seen..seen + PAGE];
    }
  }

  /** One page and its share of the session's rows. */
  method ScanPage(rows: seq<LogRow>, session: string, seen: nat, since: nat)
    returns (batch: seq<LogRow>, picked: seq<LogRow>)
    requires Ordered(rows) && seen <= |rows|
    requires since == if seen == 0 then 0 else rows[seen - 1].pts
    ensures seen + |batch| == if seen + PAGE <= |rows| then seen + PAGE else |rows|
    ensures batch == rows[seen..seen + |batch|]
    ensures OfSession(rows[..seen], session) + picked == OfSession(rows[..seen + |batch|], session)
  {
    PageIsNext(rows, seen, since);
    batch := Page(rows, since);
    picked := PickSession(batch, session);
    FilterConcat((r: LogRow) => r.session == session, rows[..seen], batch);
    assert rows[..seen] + batch == rows[..seen + |batch|];
  }

  method ScanLog(rows: seq<LogRow>, session: string) returns (found: seq<LogRow>)
    requires Ordered(rows)
    ensures found == OfSession(Scanned(rows), session)
    ensures found == OfSession(if |rows| <= 5000 then rows else rows[..5000], session)
  {
    found := [];
    var seen, since := 0, 0;
    ghost var pages := 0;
    while seen < MAX_ROWS
      invariant seen == pages * PAGE <= MAX_ROWS && seen <= |rows|
      invariant since == if seen == 0 then 0 else rows[seen - 1].pts
      invariant found == OfSession(rows[..seen], session)
    {
      var batch, picked := ScanPage(rows, session, seen, since);
      if batch == [] {
        break;
      }
      found := found + picked;
      seen := seen + |batch|;
      since := batch[|batch| - 1].pts;
      if |batch| < PAGE {
        break;
      }
      pages := pages + 1;
    }
    assert rows[..|rows|] == rows;
  }

  method PickSession(batch: seq<LogRow>, session: string) returns (picked: seq<LogRow>)
    ensures picked == OfSession(batch, session)
  {
    picked := [];
    for i := 0 to |batch|
      invariant picked == OfSession(batch[..i], session)
    {
      assert batch[..i + 1] == batch[..i] + [batch[i]];
      FilterSnoc((r: LogRow) => r.session == session, batch[..i], batch[i]);
      if batch[i].session == session {
        picked := picked + [batch[i]];
      }
    }
    assert batch[..|batch|] == batch;
  }

  function AfterLastClear(rows: seq<LogRow>): seq<LogRow> {
    if rows == [] then []
    else if rows[|rows| - 1].kind.HistoryCleared? then []
    else AfterLastClear(rows[..|rows| - 1]) + [rows[|rows| - 1]]
  }

  lemma {:induction false} AfterClearIs(rows: seq<LogRow>, k: nat)
    requires k <= |rows| && (k == 0 || rows[k - 1].kind.HistoryCleared?)
    requires forall i :: k <= i < |rows| ==> !rows[i].kind.HistoryCleared?
    ensures AfterLastClear(rows) == rows[k..]
  {
    if k < |rows| {
      AfterClearIs(rows[..|rows| - 1], k);
      assert rows[..|rows| - 1][k..] + [rows[|rows| - 1]] == rows[k..];
    }
  }

  method DropCleared(rows: seq<LogRow>) returns (rest: seq<LogRow>)
    ensures rest == AfterLastClear(rows)
  {
    var lastClear := -1;
    for i := 0 to |rows|
      invariant -1 <= lastClear < i
      invariant lastClear >= 0 ==> rows[lastClear].kind.HistoryCleared?
      invariant forall j :: lastClear < j < i ==> !rows[j].kind.HistoryCleared?
    {
      if rows[i].kind.HistoryCleared? {
        lastClear := i;
      }
    }
    AfterClearIs(rows, lastClear + 1);
    rest := if lastClear >= 0 then rows[lastClear + 1..] else rows;
  }

  predicate Usable(a: Attachment) {
    a.Attachment? && a.fileId.Some? && a.fileId.value != ""
  }

  function Cleaned(a: Attachment): Attachment {
    if a.Attachment? && a.mime == Some("") then a.(mime := None) else a
  }

  function UsableFiles(atts: seq<Attachment>): seq<Attachment> {
    if atts == [] then [] else
    var front := UsableFiles(atts[..|atts| - 1]);
    var last := atts[|atts| - 1];
    if Usable(last) then front + [Cleaned(last)] else front
  }

  /** Events name their role exactly; stored messages are trimmed and lower-cased. */
  function ExactRole(role: string): Option<Role> {
    if role == "user" then Some(User) else if role == "assistant" then Some(Assistant) else None
  }

  function Parse(row: LogRow): Option<Spoken> {
    if !row.kind.MessageAdded? || row.payload.Unreadable? || row.payload.role.None?
       || ExactRole(row.payload.role.value).None?
    then None
    else
      var p := row.payload;
      Some(Spoken(ExactRole(p.role.value).value, if p.content.Some? then p.content.value else "", p.incomplete,
                  UsableFiles(p.attachments)))
  }

  function ParseAll(rows: seq<LogRow>): seq<Spoken> {
    if rows == [] then [] else
    var front := ParseAll(rows[..|rows| - 1]);
    match Parse(rows[|rows| - 1])
    case Some(m) => front + [m]
    case None => front
  }

  lemma {:induction false} UsableConcat(a: seq<Attachment>, b: seq<Attachment>)
    ensures UsableFiles(a + b) == UsableFiles(a) + UsableFiles(b)
  {
    if b == [] {
      assert a + b == a;
    } else {
      var n := |b| - 1;
      assert (a + b)[..|a + b| - 1] == a + b[..n];
      UsableConcat(a, b[..n]);
    }
  }

  /** Whatever stands around it, an attachment counts if it has a file id that is not
      empty, and an empty type counts as none. */
  lemma UsableMeans(a: seq<Attachment>, att: Attachment, b: seq<Attachment>)
    ensures UsableFiles(a + [att] + b) ==
            UsableFiles(a)
              + (if att.Attachment? && att.fileId.Some? && att.fileId.value != ""
                 then [Attachment(att.fileId, if att.mime == Some("") then None else att.mime)] else [])
              + UsableFiles(b)
  {
    UsableConcat(a + [att], b);
    UsableConcat(a, [att]);
    assert [att][..0] == [];
  }

  lemma {:induction false} ParseAllConcat(a: seq<LogRow>, b: seq<LogRow>)
    ensures ParseAll(a + b) == ParseAll(a) + ParseAll(b)
  {
    if b == [] {
      assert a + b == a;
    } else {
      var n := |b| - 1;
      assert (a + b)[..|a + b| - 1] == a + b[..n];
      ParseAllConcat(a, b[..n]);
    }
  }

  /** Whatever stands around it, a row counts if it announces a message whose payload
      names one of the two roles exactly; a missing content is read as empty. Any other
      row is skipped, and nothing else with it. */
  lemma MalformedSkipped(a: seq<LogRow>, row: LogRow, b: seq<LogRow>)
    ensures var p := row.payload;
            var counts := row.kind.MessageAdded? && p.Fields? && (p.role == Some("user") || p.role == Some("assistant"));
            ParseAll(a + [row] + b) ==
            ParseAll(a)
              + (if counts
                 then [Spoken(if p.role == Some("user") then User else Assistant,
                              if p.content.Some? then p.content.value else "", p.incomplete, UsableFiles(p.attachments))]
                 else [])
              + ParseAll(b)
  {
    ParseAllConcat(a + [row], b);
    ParseAllConcat(a, [row]);
    assert [row][..0] == [];
  }

  method ReadAttachments(atts: seq<Attachment>) returns (files: seq<Attachment>)
    ensures files == UsableFiles(atts)
  {
    files := [];
    for i := 0 to |atts|
      invariant files == UsableFiles(atts[..i])
    {
      assert atts[..i + 1][..i] == atts[..i];
      var a := atts[i];
      if a.NotAnAttachment? || a.fileId.None? || a.fileId.value == "" {
        continue;
      }
      var mime := if a.mime.Some? && a.mime.value != "" then a.mime else None;
      files := files + [Attachment(a.fileId, mime)];
    }
    assert atts[..|atts|] == atts;
  }

  method ReadMessages(rows: seq<LogRow>) returns (events: seq<Spoken>)
    ensures events == ParseAll(rows)
  {
    events := [];
    for i := 0 to |rows|
      invariant events == ParseAll(rows[..i])
    {
      assert rows[..i + 1][..i] == rows[..i];
      if !rows[i].kind.MessageAdded? || rows[i].payload.Unreadable? || rows[i].payload.role.None? {
        continue;
      }
      var role := ExactRole(rows[i].payload.role.value);
      if role.None? {
        continue;
      }
      var content := if rows[i].payload.content.Some? then rows[i].payload.content.value else "";
      var files := ReadAttachments(rows[i].payload.attachments);
      events := events + [Spoken(role.value, content, rows[i].payload.incomplete, files)];
    }
    assert rows[..|rows|] == rows;
  }

  // ----- the walk -----

  predicate Same(m: Rendered, e: Spoken) {
    e.role == m.role && e.content == m.text
  }

  /** Event positions matched to the first |at| messages: increasing, and each with the
      message's role and content. */
  ghost predicate Matching(history: seq<Rendered>, events: seq<Spoken>, at: seq<nat>) {
    && |at| <= |history|
    && (forall i :: 0 <= i < |at| ==>
          at[i] < |events| && events[at[i]].role == history[i].role && events[at[i]].content == history[i].text)
    && forall i, j :: 0 <= i < j < |at| ==> at[i] < at[j]
  }

  /** The first `k` messages occur among the events, in order. */
  ghost predicate Embeds(history: seq<Rendered>, events: seq<Spoken>, k: nat) {
    exists at :: |at| == k && Matching(history, events, at)
  }

  datatype Overlays = Overlays(incomplete: set<nat>, attachments: map<nat, seq<Attachment>>)

  /** What the matched positions justify. */
  ghost predicate Justified(history: seq<Rendered>, events: seq<Spoken>, at: seq<nat>, o: Overlays)
    requires Matching(history, events, at)
  {
    && (forall i: nat :: i in o.incomplete <==> i < |at| && events[at[i]].incomplete && history[i].role == Assistant)
    && (forall i: nat :: i in o.attachments <==> i < |at| && events[at[i]].files != [])
    && (forall i: nat :: i in o.attachments && i < |at| ==> o.attachments[i] == events[at[i]].files)
  }

  /** The first event at or past `ptr` with the message's role and content; |events| if
      there is none. */
  function FirstFrom(m: Rendered, events: seq<Spoken>, ptr: nat): (found: nat)
    requires ptr <= |events|
    ensures ptr <= found <= |events|
    ensures forall j :: ptr <= j < found ==> !Same(m, events[j])
    ensures found < |events| ==> Same(m, events[found])
    decreases |events| - ptr
  {
    if ptr == |events| || Same(m, events[ptr]) then ptr else FirstFrom(m, events, ptr + 1)
  }

  function After(at: seq<nat>): nat {
    if at == [] then 0 else at[|at| - 1] + 1
  }

  /** Matches each message to the first event left, up to the first message for which
      none is left. */
  function Greedy(history: seq<Rendered>, events: seq<Spoken>): (at: seq<nat>)
    ensures |at| <= |history|
    ensures After(at) <= |events|
  {
    if history == [] then [] else
    var n := |history| - 1;
    var at := Greedy(history[..n], events);
    if |at| < n then at else
    var found := FirstFrom(history[n], events, After(at));
    if found == |events| then at else at + [found]
  }

  method Seek(m: Rendered, events: seq<Spoken>, ptr: nat) returns (found: nat)
    requires ptr <= |events|
    ensures found == FirstFrom(m, events, ptr)
  {
    found := ptr;
    while found < |events|
      invariant ptr <= found <= |events|
      invariant FirstFrom(m, events, found) == FirstFrom(m, events, ptr)
    {
      if events[found].role == m.role && events[found].content == m.text {
        return;
      }
      found := found + 1;
    }
  }

  lemma MatchingPrefix(history: seq<Rendered>, events: seq<Spoken>, at: seq<nat>, n: nat)
    requires n <= |history| && |at| <= n
    ensures Matching(history[..n], events, at) <==> Matching(history, events, at)
  {
  }

  lemma {:induction false} GreedyMatches(history: seq<Rendered>, events: seq<Spoken>)
    ensures Matching(history, events, Greedy(history, events))
  {
    if history != [] {
      var n := |history| - 1;
      GreedyMatches(history[..n], events);
      MatchingPrefix(history, events, Greedy(history[..n], events), n);
    }
  }

  /** `other` is no longer than `at` and nowhere ahead of it. */
  ghost predicate Behind(at: seq<nat>, other: seq<nat>) {
    |other| <= |at| && forall i :: 0 <= i < |other| ==> at[i] <= other[i]
  }

  lemma AfterBehind(at: seq<nat>, other: seq<nat>)
    requires |other| == |at| + 1 && Behind(at, other[..|at|])
    requires forall i, j :: 0 <= i < j < |other| ==> other[i] < other[j]
    ensures After(at) <= other[|at|]
  {
    if at != [] {
      assert other[..|at|][|at| - 1] == other[|at| - 1];
    }
  }

  lemma GreedyTakesNext(history: seq<Rendered>, events: seq<Spoken>, other: seq<nat>)
    requires history != [] && Matching(history, events, other) && |other| == |history|
    requires Behind(Greedy(history[..|history| - 1], events), other[..|history| - 1])
    ensures Behind(Greedy(history, events), other)
  {
    var n := |history| - 1;
    var at := Greedy(history[..n], events);
    AfterBehind(at, other);
    var found := FirstFrom(history[n], events, After(at));
    assert Same(history[n], events[other[n]]) && found <= other[n];
    assert Greedy(history, events) == at + [found];
    forall i | 0 <= i < |other|
      ensures (at + [found])[i] <= other[i]
    {
      if i < n {
        assert other[..n][i] == other[i];
      }
    }
  }

  /** Every other matching is behind the greedy one. */
  lemma {:induction false} GreedyIsBest(history: seq<Rendered>, events: seq<Spoken>, other: seq<nat>)
    requires Matching(history, events, other)
    ensures Behind(Greedy(history, events), other)
  {
    if history != [] {
      var n := |history| - 1;
      if |other| <= n {
        MatchingPrefix(history, events, other, n);
        GreedyIsBest(history[..n], events, other);
      } else {
        MatchingPrefix(history, events, other[..n], n);
        GreedyIsBest(history[..n], events, other[..n]);
        GreedyTakesNext(history, events, other);
      }
    }
  }

  /** Exactly as many messages are matched as occur among the events in order. */
  lemma GreedyIsLongest(history: seq<Rendered>, events: seq<Spoken>, k: nat)
    requires k <= |history|
    ensures k <= |Greedy(history, events)| <==> Embeds(history, events, k)
  {
    GreedyMatches(history, events);
    var at := Greedy(history, events);
    if k <= |at| {
      assert Matching(history, events, at[..k]) && |at[..k]| == k;
    }
    if Embeds(history, events, k) {
      var other :| |other| == k && Matching(history, events, other);
      GreedyIsBest(history, events, other);
    }
  }

  /** Once a message finds no event, no later one is looked at. */
  lemma {:induction false} GreedyStops(history: seq<Rendered>, events: seq<Spoken>, i: nat)
    requires i < |history| && |Greedy(history[..i + 1], events)| <= i
    ensures Greedy(history, events) == Greedy(history[..i + 1], events)
    decreases |history|
  {
    var n := |history| - 1;
    if i == n {
      assert history[..i + 1] == history;
    } else {
      assert history[..n][..i + 1] == history[..i + 1];
      GreedyStops(history[..n], events, i);
    }
  }

  lemma GreedyStep(history: seq<Rendered>, events: seq<Spoken>, i: nat)
    requires i < |history| && |Greedy(history[..i], events)| == i
    ensures var at := Greedy(history[..i], events);
            var found := FirstFrom(history[i], events, After(at));
            Greedy(history[..i + 1], events) == if found == |events| then at else at + [found]
  {
    TakeSnoc(history, i);
  }

  /** Records what event `found` says about message |at|. */
  method Flag(history: seq<Rendered>, events: seq<Spoken>, ghost at: seq<nat>, i: nat, found: nat, o: Overlays)
    returns (o2: Overlays)
    requires i == |at| && Matching(history, events, at) && Justified(history, events, at, o)
    requires found < |events| && Matching(history, events, at + [found])
    ensures Justified(history, events, at + [found], o2)
  {
    o2 := o;
    var e := events[found];
    if e.incomplete && history[i].role == Assistant {
      o2 := o2.(incomplete := o2.incomplete + {i});
    }
    if e.files != [] {
      o2 := o2.(attachments := o2.attachments[i := e.files]);
    }
  }

  /** One message of the walk. */
  method MatchNext(history: seq<Rendered>, events: seq<Spoken>, i: nat, ptr: nat, o: Overlays)
    returns (matched: bool, next: nat, o2: Overlays)
    requires i < |history| && |Greedy(history[..i], events)| == i && ptr == After(Greedy(history[..i], events))
    requires Matching(history, events, Greedy(history[..i], events))
    requires Justified(history, events, Greedy(history[..i], events), o)
    ensures var at := Greedy(history[..i + 1], events);
            && Matching(history, events, at) && Justified(history, events, at, o2)
            && next == After(at) && (matched <==> |at| == i + 1) && (!matched ==> |at| == i)
  {
    ghost var at := Greedy(history[..i], events);
    GreedyStep(history, events, i);
    GreedyMatches(history[..i + 1], events);
    MatchingPrefix(history, events, Greedy(history[..i + 1], events), i + 1);
    var found := Seek(history[i], events, ptr);
    if found == |events| {
      return false, ptr, o;
    }
    o2 := Flag(history, events, at, i, found, o);
    return true, found + 1, o2;
  }

  /** Flags and attachments are those of the greedily matched events, and no others. */
  method Walk(history: seq<Rendered>, events: seq<Spoken>) returns (o: Overlays)
    ensures Matching(history, events, Greedy(history, events))
    ensures Justified(history, events, Greedy(history, events), o)
  {
    var ptr := 0;
    o := Overlays({}, map[]);
    for i := 0 to |history|
      invariant |Greedy(history[..i], events)| == i && ptr == After(Greedy(history[..i], events))
      invariant Matching(history, events, Greedy(history[..i], events))
      invariant Justified(history, events, Greedy(history[..i], events), o)
    {
      var matched;
      matched, ptr, o := MatchNext(history, events, i, ptr, o);
      if !matched {
        GreedyStops(history, events, i);
        return;
      }
    }
    assert history[..|history|] == history;
  }

  /** The message events of this session after its last clear. */
  function EventsFor(rows: seq<LogRow>, session: string): seq<Spoken> {
    ParseAll(AfterLastClear(OfSession(Scanned(rows), session)))
  }

  /** The whole overlay: only events of this session after its last clear count. */
  method BuildHistoryOverlay(rows: seq<LogRow>, session: string, history: seq<Rendered>) returns (o: Overlays)
    requires Ordered(rows)
    ensures var events := EventsFor(rows, session);
            Matching(history, events, Greedy(history, events)) && Justified(history, events, Greedy(history, events), o)
  {
    var found := ScanLog(rows, session);
    var rest := DropCleared(found);
    var events := ReadMessages(rest);
    o := Walk(history, events);
  }

  // ----- against the log the service itself writes -----

  function Attached(files: seq<string>): (atts: seq<Attachment>)
    ensures |atts| == |files|
    ensures forall i :: 0 <= i < |files| ==> atts[i] == Attachment(Some(files[i]), None)
  {
    seq(|files|, i requires 0 <= i < |files| => Attachment(Some(files[i]), None))
  }

  function Heard(spoken: seq<Spoken>, e: C.Event): seq<Spoken> {
    match e
    case Added(role, text, files, incomplete) => spoken + [Spoken(role, text, incomplete, UsableFiles(Attached(files)))]
    case Cleared => []
    case _ => spoken
  }

  /** The message events since the last clear, as logged by Conversations. */
  function SpokenIn(events: seq<C.Event>): seq<Spoken> {
    if events == [] then [] else Heard(SpokenIn(events[..|events| - 1]), events[|events| - 1])
  }

  function RoleName(role: Role): string {
    if role.User? then "user" else "assistant"
  }

  /** How an event is written to the log. */
  function RowOf(pts: nat, session: string, e: C.Event): LogRow {
    match e
    case Added(role, text, files, incomplete) =>
      LogRow(pts, session, MessageAdded, Fields(Some(RoleName(role)), Some(text), incomplete, Attached(files)))
    case Cleared => LogRow(pts, session, HistoryCleared, Unreadable)
    case _ => LogRow(pts, session, OtherKind, Unreadable)
  }

  function Rows(session: string, events: seq<C.Event>): (rows: seq<LogRow>)
    ensures |rows| == |events|
  {
    if events == [] then []
    else Rows(session, events[..|events| - 1]) + [RowOf(|events|, session, events[|events| - 1])]
  }

  lemma {:induction false} RowsNumbered(session: string, events: seq<C.Event>)
    ensures forall i :: 0 <= i < |events| ==>
              Rows(session, events)[i].pts == i + 1 && Rows(session, events)[i].session == session
  {
    if events != [] {
      RowsNumbered(session, events[..|events| - 1]);
    }
  }

  lemma ParseSnoc(rows: seq<LogRow>, row: LogRow)
    ensures ParseAll(AfterLastClear(rows + [row])) ==
            if row.kind.HistoryCleared? then []
            else if Parse(row).Some? then ParseAll(AfterLastClear(rows)) + [Parse(row).value]
            else ParseAll(AfterLastClear(rows))
  {
    assert (rows + [row])[..|rows|] == rows;
    var rest := AfterLastClear(rows);
    assert (rest + [row])[..|rest|] == rest;
  }

  lemma RoleNameExact(role: Role)
    ensures ExactRole(RoleName(role)) == Some(role)
  {
    assert "user" != "assistant" by {
      assert |"user"| != |"assistant"|;
    }
  }

  lemma ParseRow(pts: nat, session: string, e: C.Event, spoken: seq<Spoken>)
    ensures var row := RowOf(pts, session, e);
            Heard(spoken, e) ==
            if row.kind.HistoryCleared? then []
            else if Parse(row).Some? then spoken + [Parse(row).value]
            else spoken
  {
    if e.Added? {
      RoleNameExact(e.role);
    }
  }

  lemma {:induction false} RowsSpeak(session: string, events: seq<C.Event>)
    ensures ParseAll(AfterLastClear(Rows(session, events))) == SpokenIn(events)
  {
    if events != [] {
      var n := |events| - 1;
      RowsSpeak(session, events[..n]);
      ParseSnoc(Rows(session, events[..n]), RowOf(|events|, session, events[n]));
      ParseRow(|events|, session, events[n], SpokenIn(events[..n]));
    }
  }

  /** What the overlay reads from the rows of a log that fits the scan is what
      Conversations logged. */
  lemma LogIsRead(session: string, events: seq<C.Event>)
    requires |events| <= MAX_ROWS
    ensures Ordered(Rows(session, events)) && EventsFor(Rows(session, events), session) == SpokenIn(events)
  {
    RowsNumbered(session, events);
    RowsSpeak(session, events);
    FilterEverything((r: LogRow) => r.session == session, Rows(session, events));
  }

  lemma DeleteMatching(view: seq<Rendered>, events: seq<Spoken>, at: seq<nat>, i: nat)
    requires Matching(view, events, at) && |at| == |view| && i < |view|
    ensures Matching(RemoveAt(view, i), events, RemoveAt(at, i))
  {
  }

  lemma AddMatching(view: seq<Rendered>, events: seq<Spoken>, at: seq<nat>, m: Rendered, e: Spoken)
    requires Matching(view, events, at) && |at| == |view| && Same(m, e)
    ensures Matching(view + [m], events + [e], at + [|events|])
  {
  }

  /** `at` after one more event: `view` is what was shown, `heard` how many messages
      were logged. */
  function Placed(at: seq<nat>, view: seq<Rendered>, heard: nat, e: C.Event): (r: seq<nat>)
    requires |at| == |view|
    ensures |r| == |C.Apply(view, e)|
  {
    match e
    case Added(_, _, _, _) => at + [heard]
    case Deleted(i, role) => if i < |view| && view[i].role == role then RemoveAt(at, i) else at
    case Cleared => []
    case _ => at
  }

  /** Where in the log each message a peer shows was announced. */
  function Own(events: seq<C.Event>): (at: seq<nat>)
    ensures |at| == |C.Replay([], events)|
  {
    if events == [] then [] else
    var front := events[..|events| - 1];
    Placed(Own(front), C.Replay([], front), |SpokenIn(front)|, events[|events| - 1])
  }

  /** What peers show always occurs, in order, among the messages logged since the
      last clear. */
  lemma {:induction false} ReplayEmbeds(events: seq<C.Event>)
    ensures Matching(C.Replay([], events), SpokenIn(events), Own(events))
  {
    if events != [] {
      var front := events[..|events| - 1];
      ReplayEmbeds(front);
      var view, at := C.Replay([], front), Own(front);
      match events[|events| - 1]
      case Added(role, text, files, incomplete) =>
        AddMatching(view, SpokenIn(front), at, Rendered(role, text, files), SpokenIn(events)[|SpokenIn(front)|]);
      case Deleted(i, role) =>
        if i < |view| && view[i].role == role {
          DeleteMatching(view, SpokenIn(front), at, i);
        }
      case _ =>
    }
  }

  /** So while nothing has been pruned and peers are in sync, the overlay finds an
      event for every stored message. */
  lemma OverlayIsComplete(s: C.State)
    requires C.InSync(s) && s.inflight.None?
    ensures Embeds(Normalize(s.raw), SpokenIn(s.events), |Normalize(s.raw)|)
  {
    ReplayEmbeds(s.events);
    assert C.Visible(s) == Normalize(s.raw);
    assert |Own(s.events)| == |Normalize(s.raw)|;
  }

  // ----- whose event is found -----

  /** Between the event before it and its own, message `i` finds no other with its role
      and content. */
  predicate NoTwin(history: seq<Rendered>, events: seq<Spoken>, at: seq<nat>, i: nat)
    requires i < |at| == |history|
  {
    forall j :: After(at[..i]) <= j < at[i] && j < |events| ==> !Same(history[i], events[j])
  }

  lemma NoTwinIsNext(history: seq<Rendered>, events: seq<Spoken>, at: seq<nat>, i: nat)
    requires i < |at| == |history| && Matching(history, events, at)
    ensures After(at[..i]) <= at[i]
    ensures NoTwin(history, events, at, i) <==> FirstFrom(history[i], events, After(at[..i])) == at[i]
  {
    if i > 0 {
      assert at[..i][i - 1] == at[i - 1];
    }
    assert Same(history[i], events[at[i]]);
  }

  lemma GreedySnoc(history: seq<Rendered>, events: seq<Spoken>, at: seq<nat>)
    requires |at| == |history| > 0 && Matching(history, events, at)
    ensures var n := |history| - 1;
            && Matching(history[..n], events, at[..n])
            && (Greedy(history, events) == at <==>
                  Greedy(history[..n], events) == at[..n] && NoTwin(history, events, at, n))
  {
    var n := |history| - 1;
    MatchingPrefix(history, events, at[..n], n);
    NoTwinIsNext(history, events, at, n);
    assert at == at[..n] + [at[n]];
  }

  /** The walk finds the given events exactly if no message has a twin in between. */
  lemma {:induction false} GreedyIs(history: seq<Rendered>, events: seq<Spoken>, at: seq<nat>)
    requires |at| == |history| && Matching(history, events, at)
    ensures Greedy(history, events) == at <==> forall i :: 0 <= i < |history| ==> NoTwin(history, events, at, i)
  {
    if history == [] {
      assert at == [];
    } else {
      var n := |history| - 1;
      GreedySnoc(history, events, at);
      GreedyIs(history[..n], events, at[..n]);
      forall i | 0 <= i < n
        ensures NoTwin(history[..n], events, at[..n], i) <==> NoTwin(history, events, at, i)
      {
        assert at[..n][..i] == at[..i];
      }
    }
  }

  /** Each shown message finds its own event, if and only if between its predecessor's
      event and its own none has its role and content. */
  lemma FindsOwnEvents(events: seq<C.Event>)
    ensures var view, spoken := C.Replay([], events), SpokenIn(events);
            Greedy(view, spoken) == Own(events) <==>
              forall i :: 0 <= i < |view| ==> NoTwin(view, spoken, Own(events), i)
  {
    ReplayEmbeds(events);
    GreedyIs(C.Replay([], events), SpokenIn(events), Own(events));
  }

  /** Then the flags and attachments shown are the messages' own. */
  lemma NothingLent(events: seq<C.Event>, o: Overlays)
    requires var view, spoken := C.Replay([], events), SpokenIn(events);
             Matching(view, spoken, Greedy(view, spoken)) && Justified(view, spoken, Greedy(view, spoken), o)
    requires forall i :: 0 <= i < |C.Replay([], events)| ==>
               NoTwin(C.Replay([], events), SpokenIn(events), Own(events), i)
    ensures Matching(C.Replay([], events), SpokenIn(events), Own(events))
    ensures Justified(C.Replay([], events), SpokenIn(events), Own(events), o)
  {
    FindsOwnEvents(events);
  }

  /** The two events say the same about a message with this role. */
  predicate Agree(role: Role, a: Spoken, b: Spoken) {
    (role == Assistant ==> a.incomplete == b.incomplete) && a.files == b.files
  }

  /** An overlay is right for two matchings exactly if their events agree throughout. */
  lemma JustifiedByBoth(history: seq<Rendered>, events: seq<Spoken>, g: seq<nat>, at: seq<nat>, o: Overlays)
    requires Matching(history, events, g) && Matching(history, events, at) && |g| == |at| == |history|
    requires Justified(history, events, g, o)
    ensures Justified(history, events, at, o) <==>
              forall i :: 0 <= i < |history| ==> Agree(history[i].role, events[g[i]], events[at[i]])
  {
    if Justified(history, events, at, o) {
      forall i | 0 <= i < |history|
        ensures Agree(history[i].role, events[g[i]], events[at[i]])
      {
        assert i in o.incomplete <==> events[at[i]].incomplete && history[i].role == Assistant;
        assert i in o.attachments <==> events[at[i]].files != [];
        assert i in o.attachments <==> events[g[i]].files != [];
      }
    }
  }

  /** With twins they still are, if and only if wherever a message's event was not its
      own, the two events agree. */
  lemma OverlayIsOwn(events: seq<C.Event>, o: Overlays)
    requires var view, spoken := C.Replay([], events), SpokenIn(events);
             Matching(view, spoken, Greedy(view, spoken)) && Justified(view, spoken, Greedy(view, spoken), o)
    ensures var view, spoken := C.Replay([], events), SpokenIn(events);
            var g := Greedy(view, spoken);
            && |g| == |view| && Matching(view, spoken, Own(events))
            && (Justified(view, spoken, Own(events), o) <==>
                  forall i :: 0 <= i < |view| ==> Agree(view[i].role, spoken[g[i]], spoken[Own(events)[i]]))
  {
    var view, spoken := C.Replay([], events), SpokenIn(events);
    ReplayEmbeds(events);
    GreedyIsLongest(view, spoken, |view|);
    JustifiedByBoth(view, spoken, Greedy(view, spoken), Own(events), o);
  }

  // ----- a run where it is not -----

  lemma SpokenSnoc(events: seq<C.Event>, e: C.Event)
    ensures SpokenIn(events + [e]) == Heard(SpokenIn(events), e)
    ensures C.Replay([], events + [e]) == C.Apply(C.Replay([], events), e)
    ensures Own(events + [e]) == Placed(Own(events), C.Replay([], events), |SpokenIn(events)|, e)
  {
    assert (events + [e])[..|events|] == events;
  }

  /** A stream is stopped half way; regenerating its answer gives the same text, now in
      full. */
  function StoppedThenSame(id: string, prompt: string, text: string): seq<C.Op> {
    [C.StreamStart(id, prompt, [], C.Synced),
     C.StreamClose(text, true, true, {}, C.Synced, true),
     C.Regenerate(1, true, C.Reply(text), C.Clean)]
  }

  lemma StreamedTurn(id: string, prompt: string, text: string) returns (s: C.State)
    ensures var op1, op2 := C.StreamStart(id, prompt, [], C.Synced), C.StreamClose(text, true, true, {}, C.Synced, true);
            && s == C.Step(C.Step(C.Empty, op1), op2)
            && C.Keeps(C.Empty, op1) && C.Keeps(C.Step(C.Empty, op1), op2)
    ensures s.raw == C.TurnItems(C.Turn(prompt, text, true, [], []), {}) && s.inflight.None?
    ensures s.events == [C.SessionCreated, C.Added(User, prompt, [], false), C.StreamStarted(id),
                         C.Added(Assistant, text, [], true), C.StreamEnded(id)]
  {
    var s1 := C.Step(C.Empty, C.StreamStart(id, prompt, [], C.Synced));
    assert s1.events == [C.SessionCreated, C.Added(User, prompt, [], false), C.StreamStarted(id)];
    s := C.Step(s1, C.StreamClose(text, true, true, {}, C.Synced, true));
  }

  lemma StreamedTurnRenders(prompt: string, text: string)
    ensures var raw := C.TurnItems(C.Turn(prompt, text, true, [], []), {});
            && Normalize(raw) == [Rendered(User, prompt, []), Rendered(Assistant, text, [])]
            && Kept(raw) == [0, 1] && TextOf(raw[0].content) == prompt
            && RoleOf(raw[0].role) == Some(User) && Render(raw[1]) == Some(Rendered(Assistant, text, []))
  {
    var turn := C.Turn(prompt, text, true, [], []);
    var raw := C.TurnItems(turn, {});
    C.RoleNames();
    C.TurnItemsRender(turn, {});
    assert C.Resolved([], {}) == [];
    C.StoredRenders("user", prompt, [], {});
    C.StoredRenders("assistant", text, [], {});
    assert raw[..1] == [raw[0]] && [raw[0]][..0] == [];
    assert Kept([raw[0]]) == Kept([]) + [0];
  }

  lemma AnswerIsRegenerable(s: C.State, prompt: string, text: string)
    requires s.raw == C.TurnItems(C.Turn(prompt, text, true, [], []), {}) && prompt != ""
    ensures C.Regenerable(s, 1)
  {
    StreamedTurnRenders(prompt, text);
    assert s.raw[..1] == [s.raw[0]] && C.LastUser([s.raw[0]]) == Some(s.raw[0].content);
    assert C.RoleOfItem(s.raw[1]) == Assistant;
  }

  lemma AnswerAnnounced(prompt: string, text: string)
    ensures var n, m := [Rendered(User, prompt, []), Rendered(Assistant, text, [])], Rendered(Assistant, text, []);
            C.Announced(n, 1, m) == [C.Deleted(1, Assistant), C.Added(Assistant, text, [], false)]
  {
    var n := [Rendered(User, prompt, []), Rendered(Assistant, text, [])];
    assert C.DeletesDown(n[..1], 1) == [];
    assert C.DeletesDown(n, 1) == [C.Deleted(1, Assistant)];
  }

  lemma RegeneratedEvents(s: C.State, prompt: string, text: string)
    requires s.raw == C.TurnItems(C.Turn(prompt, text, true, [], []), {}) && s.inflight.None?
    requires prompt != "" && text != "" && Strip(text) == text
    ensures var op := C.Regenerate(1, true, C.Reply(text), C.Clean);
            && C.Keeps(s, op)
            && C.Step(s, op).events == s.events + [C.Deleted(1, Assistant), C.Added(Assistant, text, [], false)]
  {
    StreamedTurnRenders(prompt, text);
    AnswerIsRegenerable(s, prompt, text);
    AnswerAnnounced(prompt, text);
    C.RegenerateIsEdit(s, 1, C.Reply(text), C.Clean);
  }

  /** The run's log. */
  function StoppedThenSameEvents(id: string, prompt: string, text: string): seq<C.Event> {
    [C.SessionCreated, C.Added(User, prompt, [], false), C.StreamStarted(id),
     C.Added(Assistant, text, [], true), C.StreamEnded(id),
     C.Deleted(1, Assistant), C.Added(Assistant, text, [], false)]
  }

  lemma RunThree(a: C.Op, b: C.Op, c: C.Op)
    requires var s1 := C.Step(C.Empty, a); C.Keeps(C.Empty, a) && C.Keeps(s1, b) && C.Keeps(C.Step(s1, b), c)
    ensures C.AllKeep([a, b, c])
    ensures C.Run([a, b, c]) == C.Step(C.Step(C.Step(C.Empty, a), b), c)
  {
    var ops := [a, b, c];
    assert ops[..1][..0] == [] && ops[..2][..1] == ops[..1];
    assert C.Run(ops[..1]) == C.Step(C.Empty, a);
    assert C.Run(ops[..2]) == C.Step(C.Step(C.Empty, a), b);
    forall i | 0 <= i < 3
      ensures C.Keeps(C.Run(ops[..i]), ops[i])
    {
      assert i == 0 || i == 1 || i == 2;
    }
  }

  /** Every operation of it keeps peers in sync. */
  lemma StoppedThenSameRuns(id: string, prompt: string, text: string)
    requires prompt != "" && text != "" && Strip(text) == text
    ensures var ops := StoppedThenSame(id, prompt, text);
            && C.AllKeep(ops) && C.InSync(C.Run(ops))
            && C.Run(ops).events == StoppedThenSameEvents(id, prompt, text)
  {
    var ops := StoppedThenSame(id, prompt, text);
    var s := StreamedTurn(id, prompt, text);
    RegeneratedEvents(s, prompt, text);
    RunThree(ops[0], ops[1], ops[2]);
    C.Convergence(ops);
  }

  lemma LogStep(e: seq<C.Event>, k: nat)
    requires k < |e|
    ensures SpokenIn(e[..k + 1]) == Heard(SpokenIn(e[..k]), e[k])
    ensures C.Replay([], e[..k + 1]) == C.Apply(C.Replay([], e[..k]), e[k])
    ensures Own(e[..k + 1]) == Placed(Own(e[..k]), C.Replay([], e[..k]), |SpokenIn(e[..k])|, e[k])
  {
    SpokenSnoc(e[..k], e[k]);
    TakeSnoc(e, k);
  }

  /** A log in which message `said` was the last thing said. */
  lemma LogSaid(e: seq<C.Event>, k: nat, view: seq<Rendered>, spoken: seq<Spoken>, at: seq<nat>, said: Spoken)
    requires k < |e| && e[k] == C.Added(said.role, said.content, [], said.incomplete) && said.files == []
    requires C.Replay([], e[..k]) == view && SpokenIn(e[..k]) == spoken && Own(e[..k]) == at
    ensures C.Replay([], e[..k + 1]) == view + [Rendered(said.role, said.content, [])]
    ensures SpokenIn(e[..k + 1]) == spoken + [said] && Own(e[..k + 1]) == at + [|spoken|]
  {
    assert UsableFiles(Attached([])) == [];
    LogStep(e, k);
  }

  /** An event about the stream says nothing. */
  lemma LogSilent(e: seq<C.Event>, k: nat)
    requires k < |e| && (e[k].SessionCreated? || e[k].StreamStarted? || e[k].StreamEnded?)
    ensures C.Replay([], e[..k + 1]) == C.Replay([], e[..k])
    ensures SpokenIn(e[..k + 1]) == SpokenIn(e[..k]) && Own(e[..k + 1]) == Own(e[..k])
  {
    LogStep(e, k);
  }

  /** Up to the end of the stopped stream. */
  lemma StoppedLog(id: string, prompt: string, text: string)
    ensures var log := StoppedThenSameEvents(id, prompt, text)[..5];
            && C.Replay([], log) == [Rendered(User, prompt, [])] + [Rendered(Assistant, text, [])]
            && SpokenIn(log) == [Spoken(User, prompt, false, [])] + [Spoken(Assistant, text, true, [])]
            && Own(log) == [0] + [1]
  {
    var e := StoppedThenSameEvents(id, prompt, text);
    var said := Spoken(User, prompt, false, []);
    assert e[..0] == [];
    LogSilent(e, 0);
    LogSaid(e, 1, [], [], [], said);
    LogSilent(e, 2);
    LogSaid(e, 3, [Rendered(User, prompt, [])], [said], [0], Spoken(Assistant, text, true, []));
    LogSilent(e, 4);
  }

  /** In the whole log the deleted first answer still stands before the second. */
  lemma StoppedThenSameLog(id: string, prompt: string, text: string)
    ensures var log := StoppedThenSameEvents(id, prompt, text);
            && C.Replay([], log) == [Rendered(User, prompt, []), Rendered(Assistant, text, [])]
            && SpokenIn(log) == [Spoken(User, prompt, false, []), Spoken(Assistant, text, true, []),
                                 Spoken(Assistant, text, false, [])]
            && Own(log) == [0, 2]
  {
    var e := StoppedThenSameEvents(id, prompt, text);
    StoppedLog(id, prompt, text);
    LogStep(e, 5);
    assert Own(e[..6]) == [0] && C.Replay([], e[..6]) == [Rendered(User, prompt, [])];
    LogSaid(e, 6, [Rendered(User, prompt, [])], SpokenIn(e[..5]), [0], Spoken(Assistant, text, false, []));
    assert e[..7] == e;
  }

  lemma TwinWalk(prompt: string, text: string)
    ensures Greedy([Rendered(User, prompt, []), Rendered(Assistant, text, [])],
                   [Spoken(User, prompt, false, []), Spoken(Assistant, text, true, []),
                    Spoken(Assistant, text, false, [])]) == [0, 1]
  {
    var u, a := Rendered(User, prompt, []), Rendered(Assistant, text, []);
    var spoken := [Spoken(User, prompt, false, []), Spoken(Assistant, text, true, []),
                   Spoken(Assistant, text, false, [])];
    assert [u, a][..1] == [u] && [u][..0] == [];
    assert Greedy([u], spoken) == [0];
  }

  lemma OnlyFlag(history: seq<Rendered>, events: seq<Spoken>, at: seq<nat>, o: Overlays)
    requires Matching(history, events, at) && Justified(history, events, at, o) && at == [0, 1]
    requires |events| > 1 && !events[0].incomplete && events[1].incomplete && history[1].role == Assistant
    ensures o.incomplete == {1}
  {
    forall i: nat
      ensures i in o.incomplete <==> i == 1
    {
      assert i in o.incomplete <==> i < |at| && events[at[i]].incomplete && history[i].role == Assistant;
    }
  }

  /** So after that run, in which peers stay in sync, the second answer, logged as
      complete, is shown as incomplete. */
  lemma TwinLendsItsFlag(id: string, prompt: string, text: string, o: Overlays)
    requires var log := StoppedThenSameEvents(id, prompt, text);
             var view, spoken := C.Replay([], log), SpokenIn(log);
             Matching(view, spoken, Greedy(view, spoken)) && Justified(view, spoken, Greedy(view, spoken), o)
    ensures var log := StoppedThenSameEvents(id, prompt, text);
            Own(log) == [0, 2] && |SpokenIn(log)| == 3 && !SpokenIn(log)[2].incomplete && o.incomplete == {1}
  {
    StoppedThenSameLog(id, prompt, text);
    TwinWalk(prompt, text);
    var log := StoppedThenSameEvents(id, prompt, text);
    OnlyFlag(C.Replay([], log), SpokenIn(log), [0, 1], o);
  }
}
