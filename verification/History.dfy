/** handlers/conversations_overlay.py: which entries of a stored history the clients
    see, and how the index a client sends back finds the stored entry. */
module History {
  import opened Lists

  /** One element of a stored content list: an object with its `type`, its `text` if
      that is a string, the `id` of its `image_url` if both have the right shape;
      or something else. */
  datatype Segment = Segment(kind: string, text: Option<string>, imageId: Option<string>) | NotASegment

  datatype Content = Text(text: string) | Segments(segments: seq<Segment>) | OtherContent

  /** An element of the stored history, which holds whatever JSON was put there. */
  datatype RawItem = Message(role: string, content: Content) | NotAMessage

  datatype Role = User | Assistant

  datatype Rendered = Rendered(role: Role, text: string, files: seq<string>)

  // ----- roles -----

  predicate Blank(c: char) { c == ' ' || '\t' <= c <= '\r' }

  function Lower(c: char): char {
    if 'A' <= c <= 'Z' then c - 'A' + 'a' else c
  }

  function Lowered(s: string): (r: string)
    ensures |r| == |s|
  {
    seq(|s|, i requires 0 <= i < |s| => Lower(s[i]))
  }

  function Strip(s: string): string {
    if s != [] && Blank(s[0]) then Strip(s[1..])
    else if s != [] && Blank(s[|s| - 1]) then Strip(s[..|s| - 1])
    else s
  }

  function RoleOf(role: string): Option<Role> {
    var r := Lowered(Strip(role));
    if r == "user" then Some(User) else if r == "assistant" then Some(Assistant) else None
  }

  // ----- contents -----

  function SegmentText(s: Segment): string {
    if s.Segment? && s.text.Some? then s.text.value else ""
  }

  function SegmentFiles(s: Segment): seq<string> {
    if s.Segment? && s.kind == "image_url" && s.imageId.Some? && s.imageId.value != "" then [s.imageId.value] else []
  }

  function JoinTexts(segments: seq<Segment>): string {
    if segments == [] then ""
    else JoinTexts(segments[..|segments| - 1]) + SegmentText(segments[|segments| - 1])
  }

  function JoinFiles(segments: seq<Segment>): seq<string> {
    if segments == [] then []
    else JoinFiles(segments[..|segments| - 1]) + SegmentFiles(segments[|segments| - 1])
  }

  function TextOf(c: Content): string {
    match c
    case Text(t) => t
    case Segments(segments) => JoinTexts(segments)
    case OtherContent => ""
  }

  function FilesOf(c: Content): seq<string> {
    if c.Segments? then JoinFiles(c.segments) else []
  }

  function Render(item: RawItem): Option<Rendered> {
    if item.NotAMessage? || RoleOf(item.role).None? then None
    else Some(Rendered(RoleOf(item.role).value, TextOf(item.content), FilesOf(item.content)))
  }

  // ----- what the entries come out as -----

  /** ASCII white space, one by one. */
  predicate White(c: char) {
    c == ' ' || c == '\t' || c == '\n' || c == 11 as char || c == 12 as char || c == '\r'
  }

  predicate AllWhite(s: string) {
    forall i :: 0 <= i < |s| ==> White(s[i])
  }

  lemma WhiteIsBlank(c: char)
    ensures Blank(c) <==> White(c)
  {
  }

  /** Trimming takes blanks off both ends and nothing else. */
  lemma {:induction false} StripTrims(s: string) returns (pre: string, post: string)
    ensures s == pre + Strip(s) + post && AllWhite(pre) && AllWhite(post)
    ensures Strip(s) != [] ==> !Blank(Strip(s)[0]) && !Blank(Strip(s)[|Strip(s)| - 1])
  {
    pre, post := "", "";
    if s != [] && Blank(s[0]) {
      var pre1;
      WhiteIsBlank(s[0]);
      pre1, post := StripTrims(s[1..]);
      pre := [s[0]] + pre1;
      assert s == [s[0]] + s[1..];
    } else if s != [] && Blank(s[|s| - 1]) {
      var post1;
      WhiteIsBlank(s[|s| - 1]);
      pre, post1 := StripTrims(s[..|s| - 1]);
      post := post1 + [s[|s| - 1]];
      assert s == s[..|s| - 1] + [s[|s| - 1]];
    }
  }

  /** Blanks around a text that starts and ends otherwise are what gets trimmed. */
  lemma {:induction false} StripFinds(pre: string, core: string, post: string)
    requires AllWhite(pre) && AllWhite(post)
    requires core != [] && !Blank(core[0]) && !Blank(core[|core| - 1])
    ensures Strip(pre + core + post) == core
  {
    var s := pre + core + post;
    if pre != [] {
      WhiteIsBlank(s[0]);
      StripFinds(pre[1..], core, post);
      assert s[1..] == pre[1..] + core + post && s[0] == pre[0];
    } else if post != [] {
      WhiteIsBlank(s[|s| - 1]);
      StripFinds(pre, core, post[..|post| - 1]);
      assert s[..|s| - 1] == pre + core + post[..|post| - 1] && s[|s| - 1] == post[|post| - 1];
      assert s[0] == core[0];
    } else {
      assert s == core;
    }
  }

  ghost predicate SpelledWithin(s: string, capitals: string, small: string)
    requires |capitals| == |small|
  {
    exists pre, core, post ::
      s == pre + core + post && AllWhite(pre) && AllWhite(post) && Spells(core, capitals, small)
  }

  lemma LowerOne(c: char, capital: char, small: char)
    requires 'a' <= small <= 'z' && capital as int + 32 == small as int
    ensures Lower(c) == small <==> c == capital || c == small
  {
  }

  lemma LowerSpells(s: string, capitals: string, small: string)
    requires |capitals| == |small|
    requires forall i :: 0 <= i < |small| ==> 'a' <= small[i] <= 'z' && capitals[i] as int + 32 == small[i] as int
    ensures Lowered(s) == small <==> Spells(s, capitals, small)
  {
    if |s| == |small| {
      forall i | 0 <= i < |s|
        ensures Lowered(s)[i] == small[i] <==> s[i] == capitals[i] || s[i] == small[i]
      {
        LowerOne(s[i], capitals[i], small[i]);
      }
    }
  }

  lemma RoleWord(role: string, capitals: string, small: string)
    requires (capitals == "USER" && small == "user") || (capitals == "ASSISTANT" && small == "assistant")
    ensures Lowered(Strip(role)) == small <==> SpelledWithin(role, capitals, small)
  {
    LowerSpells(Strip(role), capitals, small);
    if Spells(Strip(role), capitals, small) {
      var pre, post := StripTrims(role);
      assert role == pre + Strip(role) + post;
    }
    if SpelledWithin(role, capitals, small) {
      var pre, core, post :|
        role == pre + core + post && AllWhite(pre) && AllWhite(post) && Spells(core, capitals, small);
      StripFinds(pre, core, post);
    }
  }

  /** Exactly the entries whose role is "user" or "assistant", in any capitalisation and
      with any blanks around it, are rendered, under that role. */
  lemma RenderedRoles(item: RawItem)
    ensures Render(item).Some? && Render(item).value.role == User <==>
              item.Message? && SpelledWithin(item.role, "USER", "user")
    ensures Render(item).Some? && Render(item).value.role == Assistant <==>
              item.Message? && SpelledWithin(item.role, "ASSISTANT", "assistant")
  {
    if item.Message? {
      RoleWord(item.role, "USER", "user");
      RoleWord(item.role, "ASSISTANT", "assistant");
    }
  }

  /** A content that is a string is rendered as it is, just like a single text part; one
      that is neither a string nor a list is rendered empty. */
  lemma PlainContents(role: string, t: string)
    requires RoleOf(role).Some?
    ensures Render(Message(role, Text(t))) == Some(Rendered(RoleOf(role).value, t, []))
    ensures Render(Message(role, Segments([Segment("text", Some(t), None)]))) == Render(Message(role, Text(t)))
    ensures Render(Message(role, Segments([]))) == Render(Message(role, OtherContent))
    ensures Render(Message(role, OtherContent)) == Some(Rendered(RoleOf(role).value, "", []))
  {
    var part := Segment("text", Some(t), None);
    assert [part][..0] == [];
    assert JoinTexts([part]) == JoinTexts([part][..0]) + t == t;
    assert JoinFiles([part]) == [];
  }

  lemma {:induction false} JoinsConcat(a: seq<Segment>, b: seq<Segment>)
    ensures JoinTexts(a + b) == JoinTexts(a) + JoinTexts(b)
    ensures JoinFiles(a + b) == JoinFiles(a) + JoinFiles(b)
  {
    if b == [] {
      assert a + b == a;
    } else {
      var n := |b| - 1;
      assert (a + b)[..|a + b| - 1] == a + b[..n];
      JoinsConcat(a, b[..n]);
      Associates(JoinTexts(a), JoinTexts(b[..n]), SegmentText(b[n]));
      Associates(JoinFiles(a), JoinFiles(b[..n]), SegmentFiles(b[n]));
    }
  }

  /** In a list each part adds its own text, whatever its kind, and an image part its
      file's id unless that is empty, between what the parts before and after it add. */
  lemma MixedContents(a: seq<Segment>, s: Segment, b: seq<Segment>)
    ensures TextOf(Segments(a + [s] + b)) ==
            TextOf(Segments(a)) + (if s.Segment? && s.text.Some? then s.text.value else "") + TextOf(Segments(b))
    ensures FilesOf(Segments(a + [s] + b)) ==
            FilesOf(Segments(a))
              + (match s
                 case Segment("image_url", _, Some(id)) => if id == "" then [] else [id]
                 case _ => [])
              + FilesOf(Segments(b))
  {
    JoinsConcat(a + [s], b);
    JoinsConcat(a, [s]);
    assert [s][..0] == [];
    assert JoinTexts([s]) == JoinTexts([]) + SegmentText(s) == SegmentText(s);
    assert JoinFiles([s]) == JoinFiles([]) + SegmentFiles(s) == SegmentFiles(s);
  }

  // ----- the rendered history -----

  function Normalize(raw: seq<RawItem>): seq<Rendered> {
    if raw == [] then [] else
    var front := Normalize(raw[..|raw| - 1]);
    match Render(raw[|raw| - 1])
    case Some(r) => front + [r]
    case None => front
  }

  /** The raw position of each rendered entry. */
  function Kept(raw: seq<RawItem>): (out: seq<nat>)
    ensures forall i :: 0 <= i < |out| ==> out[i] < |raw|
  {
    if raw == [] then [] else
    var front := Kept(raw[..|raw| - 1]);
    if Render(raw[|raw| - 1]).Some? then front + [|raw| - 1] else front
  }

  /** The entries clients never see: system prompts, tool calls, anything malformed. */
  function Hidden(raw: seq<RawItem>): seq<RawItem> {
    Filter(item => Render(item).None?, raw)
  }

  function RemoveAt<T>(xs: seq<T>, i: nat): (ys: seq<T>)
    requires i < |xs|
    ensures |ys| == |xs| - 1
  {
    xs[..i] + xs[i + 1..]
  }

  lemma {:induction false} NormalizeConcat(a: seq<RawItem>, b: seq<RawItem>)
    ensures Normalize(a + b) == Normalize(a) + Normalize(b)
  {
    if b == [] {
      assert a + b == a;
    } else {
      var n := |b| - 1;
      assert (a + b)[..|a + b| - 1] == a + b[..n];
      NormalizeConcat(a, b[..n]);
    }
  }

  lemma NormalizeOne(item: RawItem)
    ensures Normalize([item]) == match Render(item) case Some(r) => [r] case None => []
  {
    assert [item][..0] == [];
  }

  lemma {:induction false} KeptLength(raw: seq<RawItem>)
    ensures |Kept(raw)| == |Normalize(raw)|
  {
    if raw != [] {
      KeptLength(raw[..|raw| - 1]);
    }
  }

  lemma {:induction false} KeptCount(raw: seq<RawItem>, i: nat)
    requires i < |Kept(raw)|
    ensures |Kept(raw[..Kept(raw)[i]])| == i && Render(raw[Kept(raw)[i]]).Some?
  {
    var n := |raw| - 1;
    if i < |Kept(raw[..n])| {
      KeptCount(raw[..n], i);
      assert raw[..n][..Kept(raw)[i]] == raw[..Kept(raw)[i]];
    }
  }

  lemma NormalizeAround(raw: seq<RawItem>, k: nat)
    requires k < |raw|
    ensures Normalize(raw) == (Normalize(raw[..k]) + Normalize([raw[k]])) + Normalize(raw[k + 1..])
  {
    SplitAround(raw, k);
    NormalizeConcat(raw[..k] + [raw[k]], raw[k + 1..]);
    NormalizeConcat(raw[..k], [raw[k]]);
  }

  lemma MiddleOf<T>(front: seq<T>, x: T, back: seq<T>)
    ensures var all := (front + [x]) + back;
            all[..|front|] == front && all[|front|] == x && all[|front| + 1..] == back
  {
  }

  /** Rendered entry `i` splits the raw list: what is rendered before and after its
      raw position is exactly the rest of the rendered list. */
  lemma SplitAtRendered(raw: seq<RawItem>, i: nat)
    requires i < |Kept(raw)|
    ensures |Kept(raw)| == |Normalize(raw)|
    ensures var k := Kept(raw)[i];
            && Normalize(raw[..k]) == Normalize(raw)[..i]
            && Render(raw[k]) == Some(Normalize(raw)[i])
            && Normalize(raw[k + 1..]) == Normalize(raw)[i + 1..]
  {
    var k := Kept(raw)[i];
    KeptLength(raw);
    KeptCount(raw, i);
    KeptLength(raw[..k]);
    NormalizeAround(raw, k);
    NormalizeOne(raw[k]);
    MiddleOf(Normalize(raw[..k]), Render(raw[k]).value, Normalize(raw[k + 1..]));
  }

  /** The map hits exactly the entries that render, each once, in order. */
  lemma {:induction false} KeptExactly(raw: seq<RawItem>)
    ensures forall i, j :: 0 <= i < j < |Kept(raw)| ==> Kept(raw)[i] < Kept(raw)[j]
    ensures forall k :: 0 <= k < |raw| ==> (k in Kept(raw) <==> Render(raw[k]).Some?)
  {
    if raw != [] {
      var n := |raw| - 1;
      KeptExactly(raw[..n]);
      forall k | 0 <= k < |raw|
        ensures k in Kept(raw) <==> Render(raw[k]).Some?
      {
        if k < n {
          assert raw[..n][k] == raw[k];
        }
      }
    }
  }

  lemma HiddenSplit(raw: seq<RawItem>, k: nat)
    requires k < |raw|
    ensures Hidden(raw) == Hidden(raw[..k]) + (if Render(raw[k]).None? then [raw[k]] else []) + Hidden(raw[k + 1..])
  {
    assert raw == raw[..k] + [raw[k]] + raw[k + 1..];
    FilterConcat(item => Render(item).None?, raw[..k] + [raw[k]], raw[k + 1..]);
    FilterSnoc(item => Render(item).None?, raw[..k], raw[k]);
  }

  /** Deleting through the map commutes with rendering, and touches no hidden entry. */
  lemma DeleteCommutes(raw: seq<RawItem>, i: nat)
    requires i < |Kept(raw)|
    ensures |Kept(raw)| == |Normalize(raw)|
    ensures Normalize(RemoveAt(raw, Kept(raw)[i])) == RemoveAt(Normalize(raw), i)
    ensures Hidden(RemoveAt(raw, Kept(raw)[i])) == Hidden(raw)
  {
    SplitAtRendered(raw, i);
    NormalizeConcat(raw[..Kept(raw)[i]], raw[Kept(raw)[i] + 1..]);
    HiddenRemoved(raw, Kept(raw)[i]);
  }

  lemma HiddenRemoved(raw: seq<RawItem>, k: nat)
    requires k < |raw| && Render(raw[k]).Some?
    ensures Hidden(RemoveAt(raw, k)) == Hidden(raw)
  {
    HiddenSplit(raw, k);
    FilterConcat(item => Render(item).None?, raw[..k], raw[k + 1..]);
  }

  /** Truncating at a rendered entry commutes with rendering; every hidden entry
      before the cut survives. */
  lemma TruncateCommutes(raw: seq<RawItem>, i: nat)
    requires i < |Kept(raw)|
    ensures |Kept(raw)| == |Normalize(raw)|
    ensures Normalize(raw[..Kept(raw)[i]]) == Normalize(raw)[..i]
    ensures Hidden(raw[..Kept(raw)[i]]) <= Hidden(raw)
  {
    SplitAtRendered(raw, i);
    HiddenSplit(raw, Kept(raw)[i]);
  }

  // ----- the loops -----

  method ExtractText(c: Content) returns (text: string)
    ensures text == TextOf(c)
  {
    match c {
      case Text(t) => return t;
      case OtherContent => return "";
      case Segments(segments) =>
        text := "";
        for i := 0 to |segments|
          invariant text == JoinTexts(segments[..i])
        {
          assert segments[..i + 1][..i] == segments[..i];
          if segments[i].Segment? && segments[i].text.Some? {
            text := text + segments[i].text.value;
          }
        }
        assert segments[..|segments|] == segments;
    }
  }

  method ExtractAttachmentFileIds(c: Content) returns (files: seq<string>)
    ensures files == FilesOf(c)
  {
    files := [];
    if !c.Segments? {
      return;
    }
    for i := 0 to |c.segments|
      invariant files == JoinFiles(c.segments[..i])
    {
      assert c.segments[..i + 1][..i] == c.segments[..i];
      var s := c.segments[i];
      if s.NotASegment? || s.kind != "image_url" || s.imageId.None? {
        continue;
      }
      if s.imageId.value != "" {
        files := files + [s.imageId.value];
      }
    }
    assert c.segments[..|c.segments|] == c.segments;
  }

  method RenderableEntry(item: RawItem) returns (entry: Option<Rendered>)
    ensures entry == Render(item)
  {
    if item.NotAMessage? {
      return None;
    }
    var role := RoleOf(item.role);
    if role.None? {
      return None;
    }
    var text := ExtractText(item.content);
    var files := ExtractAttachmentFileIds(item.content);
    return Some(Rendered(role.value, text, files));
  }

  method NormalizeHistory(raw: seq<RawItem>) returns (out: seq<Rendered>)
    ensures out == Normalize(raw)
  {
    out := [];
    for i := 0 to |raw|
      invariant out == Normalize(raw[..i])
    {
      assert raw[..i + 1][..i] == raw[..i];
      var entry := RenderableEntry(raw[i]);
      if entry.None? {
        continue;
      }
      out := out + [entry.value];
    }
    assert raw[..|raw|] == raw;
  }

  method RenderToRawIndices(raw: seq<RawItem>) returns (out: seq<nat>)
    ensures out == Kept(raw)
  {
    out := [];
    for i := 0 to |raw|
      invariant out == Kept(raw[..i])
    {
      assert raw[..i + 1][..i] == raw[..i];
      var entry := RenderableEntry(raw[i]);
      if entry.Some? {
        out := out + [i];
      }
    }
    assert raw[..|raw|] == raw;
  }
}
