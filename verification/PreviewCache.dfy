/** core/image_preview.py: the byte-bounded preview cache, with up to two readers
    suspended in it at once. */
module PreviewCache {
  import opened Lists

  type Key = string
  type Data = string

  /** The ordered dictionary, least recently used first. */
  datatype Item = Item(key: Key, data: Data)

  const READERS := 2

  function Total(items: seq<Item>): nat {
    if items == [] then 0 else |items[0].data| + Total(items[1..])
  }

  function Find(items: seq<Item>, key: Key): Option<Data> {
    if items == [] then None
    else if items[0].key == key then Some(items[0].data)
    else Find(items[1..], key)
  }

  function Remove(items: seq<Item>, key: Key): seq<Item> {
    if items == [] then []
    else if items[0].key == key then items[1..]
    else [items[0]] + Remove(items[1..], key)
  }

  /** Evicts the oldest until `room` is enough. */
  function Shrink(items: seq<Item>, room: int): seq<Item> {
    if items == [] || Total(items) <= room then items else Shrink(items[1..], room)
  }

  function Touch(items: seq<Item>, key: Key): seq<Item> {
    match Find(items, key)
    case None => items
    case Some(data) => Remove(items, key) + [Item(key, data)]
  }

  function Put(items: seq<Item>, key: Key, data: Data, maxBytes: int): seq<Item> {
    if |data| > maxBytes then items
    else Shrink(Remove(items, key), maxBytes - |data|) + [Item(key, data)]
  }

  // ----- laws -----

  ghost predicate Keyed(items: seq<Item>) {
    forall i, j :: 0 <= i < j < |items| ==> items[i].key != items[j].key
  }

  lemma {:induction false} TotalConcat(a: seq<Item>, b: seq<Item>)
    ensures Total(a + b) == Total(a) + Total(b)
  {
    if a == [] {
      assert a + b == b;
    } else {
      assert (a + b)[1..] == a[1..] + b;
      TotalConcat(a[1..], b);
    }
  }

  lemma {:induction false} FindLaws(items: seq<Item>, key: Key)
    ensures Find(items, key).Some? ==> Item(key, Find(items, key).value) in items
    ensures Find(items, key).None? ==> forall x :: x in items ==> x.key != key
  {
    if items != [] && items[0].key != key {
      FindLaws(items[1..], key);
      assert items == [items[0]] + items[1..];
    }
  }

  lemma {:induction false} RemoveLaws(items: seq<Item>, key: Key)
    requires Keyed(items)
    ensures Keyed(Remove(items, key))
    ensures forall x :: x in Remove(items, key) <==> x in items && x.key != key
    ensures Total(Remove(items, key)) == Total(items) - if Find(items, key).Some? then |Find(items, key).value| else 0
  {
    if items != [] {
      assert items == [items[0]] + items[1..];
      if items[0].key != key {
        RemoveLaws(items[1..], key);
        RemoveCons(items, key);
      } else {
        forall x | x in items[1..]
          ensures x.key != key
        {
          var i :| 0 <= i < |items[1..]| && items[1..][i] == x;
          assert items[i + 1] == x;
        }
      }
    }
  }

  lemma RemoveCons(items: seq<Item>, key: Key)
    requires items != [] && items[0].key != key && Keyed(items)
    requires Keyed(Remove(items[1..], key)) && forall x :: x in Remove(items[1..], key) ==> x in items[1..]
    ensures Keyed([items[0]] + Remove(items[1..], key))
    ensures Total([items[0]] + Remove(items[1..], key)) == |items[0].data| + Total(Remove(items[1..], key))
  {
    var rest := Remove(items[1..], key);
    forall j | 0 <= j < |rest|
      ensures rest[j].key != items[0].key
    {
      assert rest[j] in rest;
      var i :| 0 <= i < |items[1..]| && items[1..][i] == rest[j];
      assert items[i + 1] == rest[j];
    }
    assert ([items[0]] + rest)[1..] == rest;
  }

  /** The loop ends with enough room, having evicted the oldest and no more than it
      had to. */
  lemma {:induction false} ShrinkLaws(items: seq<Item>, room: int) returns (k: nat)
    requires room >= 0
    ensures k <= |items| && Shrink(items, room) == items[k..] && Total(items[k..]) <= room
    ensures k > 0 ==> Total(items[k - 1..]) > room
  {
    if items == [] || Total(items) <= room {
      k := 0;
    } else {
      var k1 := ShrinkLaws(items[1..], room);
      k := k1 + 1;
      assert items[1..][k1..] == items[k..];
      if k1 > 0 {
        assert items[1..][k1 - 1..] == items[k - 1..];
      } else {
        assert items[0..] == items;
      }
    }
  }

  /** What is left of the cache without a key, in its order. */
  function Others(items: seq<Item>, key: Key): seq<Item> {
    Filter((x: Item) => x.key != key, items)
  }

  lemma {:induction false} OthersStay(items: seq<Item>, key: Key)
    requires forall x :: x in items ==> x.key != key
    ensures Others(items, key) == items
  {
    FilterEverything((x: Item) => x.key != key, items);
  }

  lemma {:induction false} RemoveIsOthers(items: seq<Item>, key: Key)
    requires Keyed(items)
    ensures Remove(items, key) == Others(items, key)
  {
    if items != [] {
      var rest := items[1..];
      assert items == [items[0]] + rest;
      FilterConcat((x: Item) => x.key != key, [items[0]], rest);
      FilterSnoc((x: Item) => x.key != key, [], items[0]);
      assert [] + [items[0]] == [items[0]];
      if items[0].key != key {
        RemoveIsOthers(rest, key);
      } else {
        forall x | x in rest
          ensures x.key != key
        {
          var i :| 0 <= i < |rest| && rest[i] == x;
          assert items[i + 1] == x;
        }
        OthersStay(rest, key);
      }
    }
  }

  /** A look-up finds what is cached under the key and makes it the youngest, leaving the
      others in their order; a miss changes nothing. */
  lemma TouchMeans(items: seq<Item>, key: Key, data: Data)
    requires Keyed(items)
    ensures Find(items, key) == Some(data) <==> Item(key, data) in items
    ensures Find(items, key) == Some(data) ==> Touch(items, key) == Others(items, key) + [Item(key, data)]
    ensures Find(items, key).None? ==> Touch(items, key) == items
  {
    FindLaws(items, key);
    RemoveIsOthers(items, key);
  }

  /** A preview that fits is cached as the youngest, in place of what was cached under its
      key; of the others just as many of the oldest go as it takes. One that does not fit
      changes nothing. */
  lemma PutMeans(items: seq<Item>, key: Key, data: Data, maxBytes: int) returns (k: nat)
    requires Keyed(items)
    ensures |data| > maxBytes ==> Put(items, key, data, maxBytes) == items
    ensures |data| <= maxBytes ==>
              && k <= |Others(items, key)|
              && Put(items, key, data, maxBytes) == Others(items, key)[k..] + [Item(key, data)]
              && Total(Others(items, key)[k..]) + |data| <= maxBytes
              && (k > 0 ==> Total(Others(items, key)[k - 1..]) + |data| > maxBytes)
  {
    k := 0;
    if |data| <= maxBytes {
      RemoveIsOthers(items, key);
      k := ShrinkLaws(Remove(items, key), maxBytes - |data|);
    }
  }

  // ----- the readers -----

  datatype Phase = Fetching(key: Key) | Rendering(key: Key)

  /** `served` is every preview handed to a caller. */
  datatype World = World(items: seq<Item>, bytes: int, readers: map<nat, Phase>, served: seq<Item>)

  datatype Action =
    | Enter(reader: nat, key: Key)
    | Fetched(reader: nat, present: bool)
    | Rendered(reader: nat)

  /** `preview` is what rendering the key's content gives; None if it is no image. A
      key's content never changes, though it may be gone. */
  function Step(w: World, a: Action, preview: Key -> Option<Data>, maxBytes: int): World {
    match a
    case Enter(r, key) =>
      if r in w.readers || |w.readers| >= READERS then w
      else if Find(w.items, key).Some? then
        w.(items := Touch(w.items, key), served := w.served + [Item(key, Find(w.items, key).value)])
      else w.(readers := w.readers[r := Fetching(key)])
    case Fetched(r, present) =>
      if r !in w.readers || !w.readers[r].Fetching? then w
      else if present then w.(readers := w.readers[r := Rendering(w.readers[r].key)])
      else w.(readers := w.readers - {r})
    case Rendered(r) =>
      if r !in w.readers || !w.readers[r].Rendering? then w else
      var key := w.readers[r].key;
      var w1 := w.(readers := w.readers - {r});
      if preview(key).None? then w1 else
      var data := preview(key).value;
      var items := Put(w.items, key, data, maxBytes);
      w1.(items := items, bytes := Accounted(w, key, data, maxBytes), served := w.served + [Item(key, data)])
  }

  /** The byte counter as the code moves it: minus what it replaces, minus each eviction,
      plus the new preview. */
  function Accounted(w: World, key: Key, data: Data, maxBytes: int): int {
    if |data| > maxBytes then w.bytes else
    var before := w.bytes - if Find(w.items, key).Some? then |Find(w.items, key).value| else 0;
    var kept := Remove(w.items, key);
    before - (Total(kept) - Total(Shrink(kept, maxBytes - |data|))) + |data|
  }

  function Run(actions: seq<Action>, preview: Key -> Option<Data>, maxBytes: int): World {
    if actions == [] then World([], 0, map[], [])
    else Step(Run(actions[..|actions| - 1], preview, maxBytes), actions[|actions| - 1], preview, maxBytes)
  }

  ghost predicate True(item: Item, preview: Key -> Option<Data>) {
    preview(item.key) == Some(item.data)
  }

  ghost predicate AllTrue(items: seq<Item>, preview: Key -> Option<Data>) {
    forall x :: x in items ==> True(x, preview)
  }

  ghost predicate Inv(w: World, preview: Key -> Option<Data>, maxBytes: int) {
    && Keyed(w.items) && w.bytes == Total(w.items) && (w.bytes <= maxBytes || w.items == [])
    && AllTrue(w.items, preview) && AllTrue(w.served, preview)
    && |w.readers| <= READERS
  }

  lemma TouchKeeps(items: seq<Item>, key: Key)
    requires Keyed(items)
    ensures Keyed(Touch(items, key)) && Total(Touch(items, key)) == Total(items)
    ensures forall x :: x in Touch(items, key) ==> x in items
  {
    FindLaws(items, key);
    RemoveLaws(items, key);
    if Find(items, key).Some? {
      var item := Item(key, Find(items, key).value);
      TotalConcat(Remove(items, key), [item]);
      KeyedSnoc(Remove(items, key), item);
    }
  }

  lemma KeyedSnoc(items: seq<Item>, item: Item)
    requires Keyed(items) && forall x :: x in items ==> x.key != item.key
    ensures Keyed(items + [item])
  {
  }

  lemma AddedFits(kept: seq<Item>, key: Key, data: Data, maxBytes: int)
    requires Keyed(kept) && |data| <= maxBytes && forall x :: x in kept ==> x.key != key
    ensures var room := Shrink(kept, maxBytes - |data|);
            && Keyed(room + [Item(key, data)])
            && Total(room + [Item(key, data)]) == Total(room) + |data| <= maxBytes
            && forall x :: x in room ==> x in kept
  {
    var k := ShrinkLaws(kept, maxBytes - |data|);
    TotalConcat(kept[k..], [Item(key, data)]);
    KeyedSnoc(kept[k..], Item(key, data));
  }

  lemma PutKeeps(w: World, key: Key, data: Data, preview: Key -> Option<Data>, maxBytes: int)
    requires Inv(w, preview, maxBytes) && True(Item(key, data), preview)
    ensures var items := Put(w.items, key, data, maxBytes);
            && Keyed(items) && Accounted(w, key, data, maxBytes) == Total(items)
            && (Total(items) <= maxBytes || items == []) && AllTrue(items, preview)
  {
    if |data| <= maxBytes {
      var kept := Remove(w.items, key);
      RemoveLaws(w.items, key);
      AddedFits(kept, key, data, maxBytes);
    }
  }

  lemma FewerReaders(readers: map<nat, Phase>, r: nat, p: Phase)
    ensures |readers - {r}| <= |readers| && |readers[r := p]| <= |readers| + 1
    ensures r in readers ==> |readers[r := p]| == |readers|
  {
    assert (readers - {r}).Keys == readers.Keys - {r};
    assert readers[r := p].Keys == readers.Keys + {r};
    SubsetCardinality(readers.Keys - {r}, readers.Keys);
  }

  lemma StepKeeps(w: World, a: Action, preview: Key -> Option<Data>, maxBytes: int)
    requires Inv(w, preview, maxBytes)
    ensures Inv(Step(w, a, preview, maxBytes), preview, maxBytes)
  {
    match a
    case Enter(r, key) =>
      FindLaws(w.items, key);
      TouchKeeps(w.items, key);
      FewerReaders(w.readers, r, Fetching(key));
    case Fetched(r, _) =>
      if r in w.readers {
        FewerReaders(w.readers, r, Rendering(w.readers[r].key));
      }
    case Rendered(r) =>
      if r in w.readers && w.readers[r].Rendering? {
        var key := w.readers[r].key;
        FewerReaders(w.readers, r, w.readers[r]);
        if preview(key).Some? {
          PutKeeps(w, key, preview(key).value, preview, maxBytes);
        }
      }
  }

  /** However two readers interleave: the counter is the sum of what is cached, never
      above the cap, and every preview cached or served is that key's own. */
  lemma {:induction false} RunInvariant(actions: seq<Action>, preview: Key -> Option<Data>, maxBytes: int)
    ensures Inv(Run(actions, preview, maxBytes), preview, maxBytes)
  {
    if actions != [] {
      RunInvariant(actions[..|actions| - 1], preview, maxBytes);
      StepKeeps(Run(actions[..|actions| - 1], preview, maxBytes), actions[|actions| - 1], preview, maxBytes);
    }
  }

  lemma RenderedStores(w: World, r: nat, preview: Key -> Option<Data>, maxBytes: int)
    requires Inv(w, preview, maxBytes) && r in w.readers && w.readers[r].Rendering?
    requires preview(w.readers[r].key).Some? && |preview(w.readers[r].key).value| <= maxBytes
    ensures var item := Item(w.readers[r].key, preview(w.readers[r].key).value);
            var w1 := Step(w, Rendered(r), preview, maxBytes);
            && w1.served == w.served + [item] && item in w1.items
            && w1.readers == w.readers - {r} && |w1.readers| < READERS
  {
    var key := w.readers[r].key;
    var k := PutMeans(w.items, key, preview(key).value, maxBytes);
    assert (w.readers - {r}).Keys == w.readers.Keys - {r};
  }

  lemma EnterHits(w: World, r: nat, item: Item, preview: Key -> Option<Data>, maxBytes: int)
    requires Inv(w, preview, maxBytes) && item in w.items && r !in w.readers && |w.readers| < READERS
    ensures var w1 := Step(w, Enter(r, item.key), preview, maxBytes);
            w1.served == w.served + [item] && w1.readers == w.readers && item in w1.items && w1.bytes == w.bytes
  {
    TouchMeans(w.items, item.key, item.data);
  }

  lemma RunSnoc(actions: seq<Action>, a: Action, preview: Key -> Option<Data>, maxBytes: int)
    ensures Run(actions + [a], preview, maxBytes) == Step(Run(actions, preview, maxBytes), a, preview, maxBytes)
  {
    assert (actions + [a])[..|actions|] == actions;
  }

  /** In every run a preview that fits is served from the cache to whoever asks next. */
  lemma CachedIsServed(actions: seq<Action>, r: nat, preview: Key -> Option<Data>, maxBytes: int, next: nat)
    requires var w := Run(actions, preview, maxBytes);
             && r in w.readers && w.readers[r].Rendering? && (next == r || next !in w.readers)
             && preview(w.readers[r].key).Some? && |preview(w.readers[r].key).value| <= maxBytes
    ensures var w := Run(actions, preview, maxBytes);
            var item := Item(w.readers[r].key, preview(w.readers[r].key).value);
            var w1 := Run(actions + [Rendered(r)], preview, maxBytes);
            var w2 := Run(actions + [Rendered(r)] + [Enter(next, item.key)], preview, maxBytes);
            && w1.served == w.served + [item] && w2.served == w1.served + [item] && w2.readers == w1.readers
  {
    var w := Run(actions, preview, maxBytes);
    var item := Item(w.readers[r].key, preview(w.readers[r].key).value);
    RunInvariant(actions, preview, maxBytes);
    RunInvariant(actions + [Rendered(r)], preview, maxBytes);
    RunSnoc(actions, Rendered(r), preview, maxBytes);
    RunSnoc(actions + [Rendered(r)], Enter(next, item.key), preview, maxBytes);
    RenderedStores(w, r, preview, maxBytes);
    EnterHits(Run(actions + [Rendered(r)], preview, maxBytes), next, item, preview, maxBytes);
  }

  /** A reader with nothing to serve takes a place if there is one. */
  lemma MissEnters(w: World, r: nat, key: Key, preview: Key -> Option<Data>, maxBytes: int)
    requires r !in w.readers && Find(w.items, key).None?
    ensures Step(w, Enter(r, key), preview, maxBytes) ==
            if |w.readers| >= 2 then w else w.(readers := w.readers[r := Fetching(key)])
  {
  }

  /** Once fetched it renders; if the content is gone it gives its place back. */
  lemma FetchedGoesOn(w: World, r: nat, preview: Key -> Option<Data>, maxBytes: int)
    requires r in w.readers && w.readers[r].Fetching?
    ensures var w1 := Step(w, Fetched(r, true), preview, maxBytes);
            && w1 == w.(readers := w1.readers) && r in w1.readers && w1.readers[r] == Rendering(w.readers[r].key)
            && w1.readers - {r} == w.readers - {r}
    ensures Step(w, Fetched(r, false), preview, maxBytes) == w.(readers := w.readers - {r})
  {
  }

  /** Rendering ends with the place given back and the preview served, if there is one. */
  lemma RenderedServes(w: World, r: nat, preview: Key -> Option<Data>, maxBytes: int)
    requires r in w.readers && w.readers[r].Rendering?
    ensures var w1 := Step(w, Rendered(r), preview, maxBytes);
            var key := w.readers[r].key;
            && w1.readers == w.readers - {r}
            && w1.served == w.served + (if preview(key).Some? then [Item(key, preview(key).value)] else [])
            && (preview(key).None? ==> w1.items == w.items)
  {
  }

  lemma ThreeSteps(w: World, r: nat, key: Key, preview: Key -> Option<Data>, maxBytes: int)
    requires r !in w.readers && Find(w.items, key).None? && |w.readers| < 2
    ensures var w2 := Step(Step(w, Enter(r, key), preview, maxBytes), Fetched(r, true), preview, maxBytes);
            var w3 := Step(w2, Rendered(r), preview, maxBytes);
            && w3.readers == w.readers
            && w3.served == w.served + (if preview(key).Some? then [Item(key, preview(key).value)] else [])
    ensures Step(Step(w, Enter(r, key), preview, maxBytes), Fetched(r, false), preview, maxBytes) == w
  {
    var w1 := Step(w, Enter(r, key), preview, maxBytes);
    MissEnters(w, r, key, preview, maxBytes);
    FetchedGoesOn(w1, r, preview, maxBytes);
    RenderedServes(Step(w1, Fetched(r, true), preview, maxBytes), r, preview, maxBytes);
    assert w.readers[r := Fetching(key)] - {r} == w.readers;
  }

  /** In every run a miss that finds a place is fetched, rendered and served; if the
      content is gone, nothing is left of it. */
  lemma MissIsRendered(actions: seq<Action>, r: nat, key: Key, preview: Key -> Option<Data>, maxBytes: int)
    requires var w := Run(actions, preview, maxBytes);
             r !in w.readers && Find(w.items, key).None? && |w.readers| < 2
    ensures var w := Run(actions, preview, maxBytes);
            var w3 := Run(actions + [Enter(r, key)] + [Fetched(r, true)] + [Rendered(r)], preview, maxBytes);
            && w3.readers == w.readers
            && w3.served == w.served + (if preview(key).Some? then [Item(key, preview(key).value)] else [])
            && Run(actions + [Enter(r, key)] + [Fetched(r, false)], preview, maxBytes) == w
  {
    RunSnoc(actions, Enter(r, key), preview, maxBytes);
    RunSnoc(actions + [Enter(r, key)], Fetched(r, true), preview, maxBytes);
    RunSnoc(actions + [Enter(r, key)], Fetched(r, false), preview, maxBytes);
    RunSnoc(actions + [Enter(r, key)] + [Fetched(r, true)], Rendered(r), preview, maxBytes);
    ThreeSteps(Run(actions, preview, maxBytes), r, key, preview, maxBytes);
  }

  // ----- the object -----

  class ImagePreviewCache {
    const maxBytes: int
    var items: seq<Item>
    var bytes: int

    ghost predicate Valid()
      reads this
    {
      Keyed(items) && bytes == Total(items) && (bytes <= maxBytes || items == [])
    }

    constructor (maxBytes: int)
      ensures Valid() && items == [] && this.maxBytes == maxBytes
    {
      this.maxBytes, items, bytes := maxBytes, [], 0;
    }

    /** The section before the first await. */
    method Lookup(key: Key) returns (cached: Option<Data>)
      requires Valid()
      modifies this`items
      ensures Valid() && cached == Find(old(items), key) && items == Touch(old(items), key)
    {
      TouchKeeps(items, key);
      cached := Find(items, key);
      if cached.Some? {
        items := Remove(items, key) + [Item(key, cached.value)];
      }
    }

    method MakeRoom(size: nat)
      requires Keyed(items) && bytes == Total(items) && size <= maxBytes
      modifies this`items, this`bytes
      ensures items == Shrink(old(items), maxBytes - size) && bytes == Total(items)
    {
      while items != [] && bytes + size > maxBytes
        invariant bytes == Total(items)
        invariant Shrink(items, maxBytes - size) == Shrink(old(items), maxBytes - size)
        decreases |items|
      {
        var evicted := items[0];
        items := items[1..];
        bytes := bytes - |evicted.data|;
      }
    }

    /** Another reader may have stored the same preview meanwhile. */
    method Forget(key: Key)
      requires Valid()
      modifies this`items, this`bytes
      ensures Keyed(items) && bytes == Total(items) && items == Remove(old(items), key)
      ensures forall x :: x in items ==> x.key != key
    {
      RemoveLaws(items, key);
      var previous := Find(items, key);
      if previous.Some? {
        bytes := bytes - |previous.value|;
      }
      items := Remove(items, key);
    }

    /** The section after the last await. */
    method Store(key: Key, preview: Data)
      requires Valid()
      modifies this`items, this`bytes
      ensures Valid() && items == Put(old(items), key, preview, maxBytes)
    {
      if |preview| > maxBytes {
        return;
      }
      Forget(key);
      AddedFits(items, key, preview, maxBytes);
      MakeRoom(|preview|);
      items := items + [Item(key, preview)];
      bytes := bytes + |preview|;
    }
  }
}
