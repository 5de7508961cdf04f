/** core/log_buffer.py: a bounded ring of log entries, read page by page by clients
    that feed the reported id back. */
module LogRing {
  import opened Lists

  datatype Entry = Entry(id: nat, level: string, message: string)

  /** `level` is at-or-above, `grep` a case-insensitive substring; absent or empty
      means no filter. */
  datatype Query = Query(level: string, grep: string)

  // ----- matching -----

  function Upper(c: char): char { if 'a' <= c <= 'z' then c - 'a' + 'A' else c }

  function Lower(c: char): char { if 'A' <= c <= 'Z' then c - 'A' + 'a' else c }

  function UpperAll(s: string): string {
    seq(|s|, i requires 0 <= i < |s| => Upper(s[i]))
  }

  function LowerAll(s: string): string {
    seq(|s|, i requires 0 <= i < |s| => Lower(s[i]))
  }

  /** Unknown names count as 0. */
  function LevelNo(name: string): nat {
    var n := UpperAll(name);
    if n == "CRITICAL" || n == "FATAL" then 50
    else if n == "ERROR" then 40
    else if n == "WARNING" || n == "WARN" then 30
    else if n == "INFO" then 20
    else if n == "DEBUG" then 10
    else 0
  }

  predicate OccursAt(text: string, needle: string, i: nat) {
    i + |needle| <= |text| && text[i..i + |needle|] == needle
  }

  predicate Contains(text: string, needle: string) {
    exists i :: 0 <= i <= |text| && OccursAt(text, needle, i)
  }

  predicate Matches(q: Query, e: Entry) {
    && !(LevelNo(q.level) != 0 && LevelNo(e.level) < LevelNo(q.level))
    && !(q.grep != "" && !Contains(LowerAll(e.message), LowerAll(q.grep)))
  }

  /** The same letter, capital or small. */
  predicate SameLetter(c: char, d: char) {
    || c == d
    || ('a' <= c <= 'z' && d as int + 32 == c as int)
    || ('a' <= d <= 'z' && c as int + 32 == d as int)
  }

  predicate SameWord(s: string, t: string) {
    |s| == |t| && forall i :: 0 <= i < |s| ==> SameLetter(s[i], t[i])
  }

  lemma LowerSame(c: char, d: char)
    ensures Lower(c) == Lower(d) <==> SameLetter(c, d)
  {
  }

  lemma LowerAllSame(s: string, t: string)
    ensures LowerAll(s) == LowerAll(t) <==> SameWord(s, t)
  {
    if |s| == |t| {
      forall i | 0 <= i < |s|
        ensures LowerAll(s)[i] == LowerAll(t)[i] <==> SameLetter(s[i], t[i])
      {
        LowerSame(s[i], t[i]);
      }
    }
  }

  lemma UpperOne(c: char, capital: char, small: char)
    requires 'a' <= small <= 'z' && capital as int + 32 == small as int
    ensures Upper(c) == capital <==> c == capital || c == small
  {
  }

  lemma UpperSpells(s: string, capitals: string, small: string)
    requires |capitals| == |small|
    requires forall i :: 0 <= i < |small| ==> 'a' <= small[i] <= 'z' && capitals[i] as int + 32 == small[i] as int
    ensures UpperAll(s) == capitals <==> Spells(s, capitals, small)
  {
    if |s| == |small| {
      forall i | 0 <= i < |s|
        ensures UpperAll(s)[i] == capitals[i] <==> s[i] == capitals[i] || s[i] == small[i]
      {
        UpperOne(s[i], capitals[i], small[i]);
      }
    }
  }

  /** The five levels in their order, written in any capitalisation; any other name has
      none. */
  lemma Levels(name: string)
    ensures LevelNo(name) == 50 <==> Spells(name, "CRITICAL", "critical") || Spells(name, "FATAL", "fatal")
    ensures LevelNo(name) == 40 <==> Spells(name, "ERROR", "error")
    ensures LevelNo(name) == 30 <==> Spells(name, "WARNING", "warning") || Spells(name, "WARN", "warn")
    ensures LevelNo(name) == 20 <==> Spells(name, "INFO", "info")
    ensures LevelNo(name) == 10 <==> Spells(name, "DEBUG", "debug")
    ensures LevelNo(name) in {0, 10, 20, 30, 40, 50}
  {
    UpperSpells(name, "CRITICAL", "critical");
    UpperSpells(name, "FATAL", "fatal");
    UpperSpells(name, "ERROR", "error");
    UpperSpells(name, "WARNING", "warning");
    UpperSpells(name, "WARN", "warn");
    UpperSpells(name, "INFO", "info");
    UpperSpells(name, "DEBUG", "debug");
  }

  lemma LowerAllAt(text: string, i: nat, n: nat)
    requires i + n <= |text|
    ensures LowerAll(text)[i..i + n] == LowerAll(text[i..i + n])
  {
  }

  /** An entry matches if its level is at least the one asked for, should that be a level
      at all, and its message contains the text asked for, in any capitalisation. */
  lemma MatchMeans(q: Query, e: Entry)
    ensures Matches(q, e) <==>
              && (LevelNo(q.level) == 0 || LevelNo(e.level) >= LevelNo(q.level))
              && (exists pre, word, post :: e.message == pre + word + post && SameWord(word, q.grep))
  {
    var text, needle := LowerAll(e.message), LowerAll(q.grep);
    if Contains(text, needle) {
      var i :| 0 <= i <= |text| && OccursAt(text, needle, i);
      var word := e.message[i..i + |needle|];
      LowerAllAt(e.message, i, |needle|);
      LowerAllSame(word, q.grep);
      assert e.message == e.message[..i] + word + e.message[i + |needle|..];
    }
    if q.grep == "" {
      assert e.message == "" + "" + e.message && SameWord("", q.grep);
    }
    if pre, word, post :| e.message == pre + word + post && SameWord(word, q.grep) {
      LowerAllSame(word, q.grep);
      LowerAllAt(e.message, |pre|, |word|);
      assert e.message[|pre|..|pre| + |word|] == word;
      assert OccursAt(text, needle, |pre|);
    }
  }

  // ----- the ring -----

  ghost predicate Increasing(entries: seq<Entry>) {
    forall i, j :: 0 <= i < j < |entries| ==> entries[i].id < entries[j].id
  }

  /** A deque with `maxlen`. */
  function Pushed(ring: seq<Entry>, e: Entry, capacity: nat): seq<Entry>
    requires capacity > 0
  {
    if |ring| < capacity then ring + [e] else ring[|ring| - capacity + 1..] + [e]
  }

  predicate Due(q: Query, since: int, e: Entry) {
    e.id > since && Matches(q, e)
  }

  /** What a reader at `since` has yet to see. */
  function Wanted(q: Query, since: int, ring: seq<Entry>): seq<Entry> {
    Filter(e => Due(q, since, e), ring)
  }

  function Newest(since: int, ring: seq<Entry>): int {
    if ring == [] then since
    else
      var front := Newest(since, ring[..|ring| - 1]);
      if ring[|ring| - 1].id > front then ring[|ring| - 1].id else front
  }

  function PageSize(limit: int, capacity: nat): (size: nat)
    requires capacity > 0
    ensures 1 <= size <= capacity
    ensures 1 <= limit <= capacity ==> size == limit
    ensures limit < 1 ==> size == 1
    ensures limit > capacity ==> size == capacity
  {
    if limit < 1 then 1 else if limit < capacity then limit else capacity
  }

  /** One reply: the entries, and the id to come back with. */
  function Snapshot(ring: seq<Entry>, q: Query, since: int, size: nat): (seq<Entry>, int)
    requires size > 0
  {
    var wanted := Wanted(q, since, ring);
    if |wanted| < size then (wanted, Newest(since, ring)) else (wanted[..size], wanted[size - 1].id)
  }

  lemma WantedSnoc(q: Query, since: int, ring: seq<Entry>, e: Entry)
    ensures Wanted(q, since, ring + [e]) == Wanted(q, since, ring) + if Due(q, since, e) then [e] else []
  {
    FilterSnoc(x => Due(q, since, x), ring, e);
  }

  lemma WantedMember(q: Query, since: int, ring: seq<Entry>)
    ensures forall e :: e in Wanted(q, since, ring) <==> e in ring && Due(q, since, e)
  {
    FilterMember(e => Due(q, since, e), ring);
  }

  lemma {:induction false} WantedIncreasing(q: Query, since: int, ring: seq<Entry>)
    requires Increasing(ring)
    ensures Increasing(Wanted(q, since, ring))
  {
    if ring != [] {
      var n := |ring| - 1;
      WantedIncreasing(q, since, ring[..n]);
      WantedMember(q, since, ring[..n]);
      WantedSnoc(q, since, ring[..n], ring[n]);
      assert ring == ring[..n] + [ring[n]];
      var front := Wanted(q, since, ring[..n]);
      forall i | 0 <= i < |front|
        ensures front[i].id < ring[n].id
      {
        assert front[i] in ring[..n];
      }
    }
  }

  lemma {:induction false} NewestBounds(since: int, ring: seq<Entry>)
    ensures Newest(since, ring) >= since
    ensures forall e :: e in ring ==> e.id <= Newest(since, ring)
    ensures Newest(since, ring) == since || exists e :: e in ring && e.id == Newest(since, ring)
  {
    if ring != [] {
      var n := |ring| - 1;
      NewestBounds(since, ring[..n]);
      assert ring == ring[..n] + [ring[n]];
    }
  }

  /** Picking up at the `k`-th wanted entry's id leaves exactly the later ones. */
  lemma {:induction false} WantedAfter(q: Query, since: int, ring: seq<Entry>, cursor: int)
    requires Increasing(ring) && cursor >= since
    ensures Filter((e: Entry) => e.id <= cursor, Wanted(q, since, ring)) + Wanted(q, cursor, ring) ==
            Wanted(q, since, ring)
  {
    if ring != [] {
      var n := |ring| - 1;
      var last := ring[n];
      WantedAfter(q, since, ring[..n], cursor);
      assert ring == ring[..n] + [last];
      WantedSnoc(q, since, ring[..n], last);
      WantedSnoc(q, cursor, ring[..n], last);
      if Due(q, since, last) {
        FilterSnoc((e: Entry) => e.id <= cursor, Wanted(q, since, ring[..n]), last);
        if last.id <= cursor {
          WantedMember(q, cursor, ring[..n]);
          assert forall e :: e in ring[..n] ==> e.id <= cursor;
          assert Wanted(q, cursor, ring[..n]) == [];
        }
      }
    }
  }

  /** Below a prefix's last id there is exactly that prefix. */
  lemma BelowPrefix(entries: seq<Entry>, k: nat)
    requires Increasing(entries) && 0 < k <= |entries|
    ensures Filter((e: Entry) => e.id <= entries[k - 1].id, entries) == entries[..k]
  {
    var p := (e: Entry) => e.id <= entries[k - 1].id;
    FilterConcat(p, entries[..k], entries[k..]);
    FilterEverything(p, entries[..k]);
    FilterNothing(p, entries[k..]);
    assert entries == entries[..k] + entries[k..];
  }

  lemma NothingPastNewest(ring: seq<Entry>, q: Query, since: int)
    ensures Wanted(q, Newest(since, ring), ring) == []
  {
    NewestBounds(since, ring);
    FilterNothing(e => Due(q, Newest(since, ring), e), ring);
  }

  /** A page, then what is wanted from its cursor on, is everything wanted. */
  lemma PageThenRest(ring: seq<Entry>, q: Query, since: int, size: nat)
    requires Increasing(ring) && size > 0
    ensures var (page, cursor) := Snapshot(ring, q, since, size);
            && page + Wanted(q, cursor, ring) == Wanted(q, since, ring)
            && (|page| < size ==> Wanted(q, cursor, ring) == [])
            && |page| <= size
  {
    var (page, cursor) := Snapshot(ring, q, since, size);
    var wanted := Wanted(q, since, ring);
    if |wanted| < size {
      NothingPastNewest(ring, q, since);
      assert page + [] == page;
    } else {
      WantedMember(q, since, ring);
      WantedIncreasing(q, since, ring);
      assert wanted[size - 1] in wanted;
      WantedAfter(q, since, ring, cursor);
      BelowPrefix(wanted, size);
    }
  }

  /** The cursor passes nothing that the page did not deliver. */
  lemma PageIsUpToCursor(ring: seq<Entry>, q: Query, since: int, size: nat)
    requires Increasing(ring) && size > 0
    ensures var (page, cursor) := Snapshot(ring, q, since, size);
            && cursor >= since && Increasing(page)
            && (forall e :: e in page <==> e in ring && Due(q, since, e) && e.id <= cursor)
            && (if |page| == size then cursor == page[size - 1].id
                else (forall e :: e in ring ==> e.id <= cursor)
                     && (cursor == since || exists e :: e in ring && e.id == cursor))
  {
    var (page, cursor) := Snapshot(ring, q, since, size);
    var wanted := Wanted(q, since, ring);
    WantedMember(q, since, ring);
    WantedIncreasing(q, since, ring);
    NewestBounds(since, ring);
    if |wanted| >= size {
      assert wanted[size - 1] in wanted;
      BelowPrefix(wanted, size);
      FilterMember((e: Entry) => e.id <= cursor, wanted);
    }
  }

  /** Reading a ring that stands still until a page comes back short. */
  function Drained(ring: seq<Entry>, q: Query, since: int, size: nat): seq<Entry>
    requires Increasing(ring) && size > 0
    decreases |Wanted(q, since, ring)|
  {
    var (page, cursor) := Snapshot(ring, q, since, size);
    if |page| < size then page else
    PageThenRest(ring, q, since, size);
    page + Drained(ring, q, cursor, size)
  }

  /** Draining ends, whatever the page size, with every wanted entry once, in order. */
  lemma {:induction false} DrainIsComplete(ring: seq<Entry>, q: Query, since: int, size: nat)
    requires Increasing(ring) && size > 0
    ensures Drained(ring, q, since, size) == Wanted(q, since, ring)
    decreases |Wanted(q, since, ring)|
  {
    var (page, cursor) := Snapshot(ring, q, since, size);
    PageThenRest(ring, q, since, size);
    if |page| >= size {
      DrainIsComplete(ring, q, cursor, size);
    }
  }

  /** A page that fills up at position `i` needs to look no further. */
  lemma PageFull(ring: seq<Entry>, q: Query, since: int, i: nat, size: nat)
    requires i < |ring| && size > 0 && |Wanted(q, since, ring[..i + 1])| == size
    ensures var out := Wanted(q, since, ring[..i + 1]);
            Snapshot(ring, q, since, size) == (out, out[size - 1].id)
  {
    FilterConcat(x => Due(q, since, x), ring[..i + 1], ring[i + 1..]);
    assert ring == ring[..i + 1] + ring[i + 1..];
  }

  lemma NewestSnoc(since: int, ring: seq<Entry>, e: Entry)
    ensures Newest(since, ring + [e]) == if e.id > Newest(since, ring) then e.id else Newest(since, ring)
  {
    assert (ring + [e])[..|ring|] == ring;
  }

  // ----- a reader against a ring that moves -----

  /** `next` is the id to be minted next, `all` everything ever appended, `got` what
      the reader has received. */
  datatype World = World(next: nat, all: seq<Entry>, ring: seq<Entry>, cursor: int, got: seq<Entry>)

  /** The handler emits a record: it mints an id and appends, under its own lock, and
      may raise in between. */
  datatype Action = Emit(level: string, message: string, raises: bool) | Poll(limit: int)

  function Append(w: World, e: Entry, capacity: nat): World
    requires capacity > 0
  {
    w.(next := e.id + 1, all := w.all + [e], ring := Pushed(w.ring, e, capacity))
  }

  function Step(w: World, a: Action, q: Query, capacity: nat): World
    requires capacity > 0
  {
    match a
    case Emit(level, message, raises) =>
      if raises then w.(next := w.next + 1) else Append(w, Entry(w.next, level, message), capacity)
    case Poll(limit) =>
      var (page, cursor) := Snapshot(w.ring, q, w.cursor, PageSize(limit, capacity));
      w.(cursor := cursor, got := w.got + page)
  }

  function Run(actions: seq<Action>, q: Query, start: int, capacity: nat): World
    requires capacity > 0
  {
    if actions == [] then World(1, [], [], start, [])
    else Step(Run(actions[..|actions| - 1], q, start, capacity), actions[|actions| - 1], q, capacity)
  }

  /** The ring is the newest part of everything appended, as much as it can hold. */
  ghost predicate Ring(w: World, capacity: nat) {
    && Increasing(w.all) && (forall x :: x in w.all ==> x.id < w.next)
    && |w.ring| == (if |w.all| < capacity then |w.all| else capacity)
    && w.ring == w.all[|w.all| - |w.ring|..]
  }

  /** How many records were emitted. */
  function Emits(actions: seq<Action>): nat {
    if actions == [] then 0
    else Emits(actions[..|actions| - 1]) + if actions[|actions| - 1].Emit? then 1 else 0
  }

  /** Those that made it to the log, each numbered by its place among all. */
  function Logged(actions: seq<Action>): seq<Entry> {
    if actions == [] then [] else
    var front, a := actions[..|actions| - 1], actions[|actions| - 1];
    Logged(front) + if a.Emit? && !a.raises then [Entry(Emits(front) + 1, a.level, a.message)] else []
  }

  /** The last `capacity` entries, or all. */
  function Latest(all: seq<Entry>, capacity: nat): seq<Entry> {
    if |all| <= capacity then all else all[|all| - capacity..]
  }

  lemma PushedIsLatest(all: seq<Entry>, e: Entry, capacity: nat)
    requires capacity > 0
    ensures Pushed(Latest(all, capacity), e, capacity) == Latest(all + [e], capacity)
  {
  }

  /** The world after these records, as far as the ring goes. */
  ghost predicate Keeps(w: World, emits: nat, all: seq<Entry>, capacity: nat) {
    w.next == emits + 1 && w.all == all && w.ring == Latest(all, capacity)
  }

  lemma KeepsStep(w: World, emits: nat, all: seq<Entry>, a: Action, q: Query, capacity: nat)
    requires capacity > 0 && Keeps(w, emits, all, capacity)
    ensures Keeps(Step(w, a, q, capacity), if a.Emit? then emits + 1 else emits,
                  if a.Emit? && !a.raises then all + [Entry(emits + 1, a.level, a.message)] else all, capacity)
  {
    if a.Emit? && !a.raises {
      PushedIsLatest(all, Entry(emits + 1, a.level, a.message), capacity);
    }
  }

  lemma {:induction false} KeepsLogged(actions: seq<Action>, q: Query, start: int, capacity: nat)
    requires capacity > 0
    ensures Keeps(Run(actions, q, start, capacity), Emits(actions), Logged(actions), capacity)
  {
    if actions != [] {
      var n := |actions| - 1;
      KeepsLogged(actions[..n], q, start, capacity);
      KeepsStep(Run(actions[..n], q, start, capacity), Emits(actions[..n]), Logged(actions[..n]), actions[n], q, capacity);
      assert Logged(actions[..n]) + [] == Logged(actions[..n]);
    }
  }

  /** In every run, what was appended is what was logged, and the ring holds the last
      `capacity` of it, or all. */
  lemma RingIsNewest(actions: seq<Action>, q: Query, start: int, capacity: nat)
    requires capacity > 0
    ensures var w, all := Run(actions, q, start, capacity), Logged(actions);
            && w.next == Emits(actions) + 1 && w.all == all
            && w.ring == if |all| <= capacity then all else all[|all| - capacity..]
  {
    KeepsLogged(actions, q, start, capacity);
  }

  ghost predicate Received(w: World, q: Query, start: int) {
    && Increasing(w.got)
    && (forall e :: e in w.got ==> e in w.all && Due(q, start, e) && e.id <= w.cursor)
    && (forall e :: e in w.ring && Due(q, start, e) && e.id <= w.cursor ==> e in w.got)
  }

  ghost predicate Passed(all: seq<Entry>, start: int, cursor: int) {
    cursor == start || (cursor > start && exists e :: e in all && e.id >= cursor)
  }

  ghost predicate Good(w: World, q: Query, start: int, capacity: nat) {
    Ring(w, capacity) && Received(w, q, start) && Passed(w.all, start, w.cursor)
  }

  lemma PushedIsSuffix(all: seq<Entry>, ring: seq<Entry>, e: Entry, capacity: nat)
    requires capacity > 0 && |ring| == (if |all| < capacity then |all| else capacity) && ring == all[|all| - |ring|..]
    ensures var r2 := Pushed(ring, e, capacity);
            && |r2| == (if |all| + 1 < capacity then |all| + 1 else capacity)
            && r2 == (all + [e])[|all| + 1 - |r2|..]
    ensures forall x :: x in Pushed(ring, e, capacity) ==> x in ring || x == e
  {
  }

  lemma AppendRing(w: World, e: Entry, capacity: nat)
    requires capacity > 0 && Ring(w, capacity) && e.id == w.next
    ensures Ring(Append(w, e, capacity), capacity)
    ensures forall x :: x in Pushed(w.ring, e, capacity) ==> x in w.ring || x == e
  {
    PushedIsSuffix(w.all, w.ring, e, capacity);
    IncreasingSnoc(w.all, e);
  }

  lemma IncreasingSnoc(all: seq<Entry>, e: Entry)
    requires Increasing(all) && forall x :: x in all ==> x.id < e.id
    ensures Increasing(all + [e]) && forall x :: x in all + [e] ==> x.id < e.id + 1
  {
    assert forall i :: 0 <= i < |all| ==> all[i] in all;
  }

  /** A new entry is past the reader's cursor, unless the reader started past it. */
  lemma BelowNewId(w: World, e: Entry, start: int)
    requires Passed(w.all, start, w.cursor) && forall x :: x in w.all ==> x.id < e.id
    ensures e.id <= start || w.cursor < e.id
    ensures Passed(w.all + [e], start, w.cursor)
  {
    if w.cursor != start {
      var x :| x in w.all && x.id >= w.cursor;
      assert x in w.all + [e];
    }
  }

  lemma AppendReceived(w: World, e: Entry, q: Query, start: int, capacity: nat)
    requires capacity > 0 && Received(w, q, start) && (e.id <= start || w.cursor < e.id)
    requires forall x :: x in Pushed(w.ring, e, capacity) ==> x in w.ring || x == e
    ensures Received(Append(w, e, capacity), q, start)
  {
  }

  lemma EmitGood(w: World, level: string, message: string, raises: bool, q: Query, start: int, capacity: nat)
    requires capacity > 0 && Good(w, q, start, capacity)
    ensures Good(Step(w, Emit(level, message, raises), q, capacity), q, start, capacity)
  {
    if !raises {
      var e := Entry(w.next, level, message);
      AppendRing(w, e, capacity);
      BelowNewId(w, e, start);
      AppendReceived(w, e, q, start, capacity);
    }
  }

  lemma IncreasingJoin(got: seq<Entry>, page: seq<Entry>, cursor: int)
    requires Increasing(got) && Increasing(page)
    requires (forall e :: e in got ==> e.id <= cursor) && forall e :: e in page ==> e.id > cursor
    ensures Increasing(got + page)
  {
    forall i, j | 0 <= i < j < |got + page|
      ensures (got + page)[i].id < (got + page)[j].id
    {
      if i < |got| <= j {
        assert got[i] in got && page[j - |got|] in page;
      }
    }
  }

  lemma PollReceives(w: World, q: Query, start: int, size: nat)
    requires size > 0 && Increasing(w.ring) && Received(w, q, start) && w.cursor >= start
    requires forall e :: e in w.ring ==> e in w.all
    ensures var (page, cursor) := Snapshot(w.ring, q, w.cursor, size);
            Received(w.(cursor := cursor, got := w.got + page), q, start)
  {
    var (page, cursor) := Snapshot(w.ring, q, w.cursor, size);
    PageIsUpToCursor(w.ring, q, w.cursor, size);
    IncreasingJoin(w.got, page, w.cursor);
  }

  lemma PollGood(w: World, limit: int, q: Query, start: int, capacity: nat)
    requires capacity > 0 && Good(w, q, start, capacity)
    ensures Good(Step(w, Poll(limit), q, capacity), q, start, capacity)
  {
    var size := PageSize(limit, capacity);
    var (page, cursor) := Snapshot(w.ring, q, w.cursor, size);
    assert Step(w, Poll(limit), q, capacity) == w.(cursor := cursor, got := w.got + page);
    PollRing(w, cursor, w.got + page, capacity);
    RingLaws(w, capacity);
    PollReceives(w, q, start, size);
    PollPasses(w, q, start, size);
  }

  lemma PollRing(w: World, cursor: int, got: seq<Entry>, capacity: nat)
    requires Ring(w, capacity)
    ensures Ring(w.(cursor := cursor, got := got), capacity)
  {
  }

  lemma RingLaws(w: World, capacity: nat)
    requires Ring(w, capacity)
    ensures Increasing(w.ring) && forall e :: e in w.ring ==> e in w.all
  {
  }

  lemma PollPasses(w: World, q: Query, start: int, size: nat)
    requires size > 0 && Passed(w.all, start, w.cursor) && forall e :: e in w.ring ==> e in w.all
    ensures Passed(w.all, start, Snapshot(w.ring, q, w.cursor, size).1)
  {
    CursorForward(w.ring, q, w.cursor, size);
    CursorSeen(w, q, size);
  }

  lemma CursorSeen(w: World, q: Query, size: nat)
    requires size > 0 && forall e :: e in w.ring ==> e in w.all
    ensures var cursor := Snapshot(w.ring, q, w.cursor, size).1;
            cursor == w.cursor || exists e :: e in w.all && e.id >= cursor
  {
    NewestBounds(w.cursor, w.ring);
    WantedMember(q, w.cursor, w.ring);
    var wanted := Wanted(q, w.cursor, w.ring);
    if |wanted| >= size {
      assert wanted[size - 1] in w.ring;
    }
  }

  /** In every interleaving of emitted records and polls of any sizes, for a reader
      coming back with any cursor: what was received is in order and without repeats,
      all of it matches, and no matching entry that the cursor has passed and the ring
      still holds is missing. Only entries that rotated out can have been missed. */
  lemma {:induction false} PagingIsExact(actions: seq<Action>, q: Query, start: int, capacity: nat)
    requires capacity > 0
    ensures Good(Run(actions, q, start, capacity), q, start, capacity)
  {
    if actions != [] {
      var n := |actions| - 1;
      var w := Run(actions[..n], q, start, capacity);
      PagingIsExact(actions[..n], q, start, capacity);
      match actions[n]
      case Poll(limit) => PollGood(w, limit, q, start, capacity);
      case Emit(level, message, raises) => EmitGood(w, level, message, raises, q, start, capacity);
    }
  }

  lemma CursorForward(ring: seq<Entry>, q: Query, since: int, size: nat)
    requires size > 0
    ensures Snapshot(ring, q, since, size).1 >= since
  {
    NewestBounds(since, ring);
    WantedMember(q, since, ring);
    if |Wanted(q, since, ring)| >= size {
      assert Wanted(q, since, ring)[size - 1] in Wanted(q, since, ring);
    }
  }
}

/** The object. */
module LogBuffer {
  import opened Lists
  import opened LogRing

  class Buffer {
    const capacity: nat
    var entries: seq<Entry>
    var nextId: nat

    ghost predicate Valid()
      reads this
    {
      capacity > 0 && |entries| <= capacity
    }

    constructor (capacity: int)
      ensures Valid() && entries == [] && nextId == 1 && this.capacity == if capacity < 1 then 1 else capacity
    {
      this.capacity := if capacity < 1 then 1 else capacity;
      entries, nextId := [], 1;
    }

    method Append(e: Entry)
      requires Valid()
      modifies this`entries
      ensures Valid() && entries == Pushed(old(entries), e, capacity)
    {
      if |entries| == capacity {
        entries := entries[1..];
      }
      entries := entries + [e];
    }

    /** The handler's `emit`, which its own lock makes one step. An exception between
        minting and appending costs the id and nothing else. */
    method Emit(level: string, message: string, raises: bool)
      requires Valid()
      modifies this
      ensures Valid()
      ensures forall w: World :: w.next == old(nextId) && w.ring == old(entries) ==>
                var w2 := Step(w, LogRing.Emit(level, message, raises), Query("", ""), capacity);
                nextId == w2.next && entries == w2.ring
    {
      var id := nextId;
      nextId := nextId + 1;
      if !raises {
        Append(Entry(id, level, message));
      }
    }

    method Snapshot(since: int, q: Query, limit: int) returns (out: seq<Entry>, maxId: int)
      requires Valid()
      ensures out == LogRing.Snapshot(entries, q, since, PageSize(limit, capacity)).0
      ensures maxId == LogRing.Snapshot(entries, q, since, PageSize(limit, capacity)).1
    {
      var threshold := LevelNo(q.level);
      var needle := LowerAll(q.grep);
      var size := PageSize(limit, capacity);
      out, maxId := [], since;
      for i := 0 to |entries|
        invariant out == Wanted(q, since, entries[..i]) && |out| < size
        invariant maxId == Newest(since, entries[..i])
      {
        var e := entries[i];
        TakeSnoc(entries, i);
        WantedSnoc(q, since, entries[..i], e);
        NewestSnoc(since, entries[..i], e);
        if e.id > maxId {
          maxId := e.id;
        }
        if e.id <= since {
          continue;
        }
        if threshold != 0 && LevelNo(e.level) < threshold {
          continue;
        }
        if q.grep != "" && !Contains(LowerAll(e.message), needle) {
          continue;
        }
        out := out + [e];
        if |out| >= size {
          PageFull(entries, q, since, i, size);
          maxId := out[|out| - 1].id;
          return;
        }
      }
      assert entries[..|entries|] == entries;
    }
  }
}
