/**
 * The plugin's text utilities: content normalisation, removal of
 * "[author]: " metadata prefixes, the AI watermark, word chunking for paced
 * delivery, the image-attachment test, the global-memory phrases and owner
 * commands.
 */
module TextUtils {
  import opened Wrappers
  import opened JsText

  // ---------------------------------------------------------------------
  // normalizeContent (AutoPilot.js:1588-1592)
  // ---------------------------------------------------------------------

  /** Every whitespace character is a plain space and no two spaces are adjacent. */
  predicate WsCollapsed(s: string) {
    (forall k :: 0 <= k < |s| && IsSpace(s[k]) ==> s[k] == ' ') &&
    (forall k :: 0 <= k < |s| - 1 ==> !(s[k] == ' ' && s[k + 1] == ' '))
  }

  /** The punctuation marks whose runs `normalizeContent` collapses. */
  predicate IsCollapsiblePunct(c: char) {
    c == '?' || c == '!' || c == '.'
  }

  /** No '?', '!' or '.' is immediately followed by the same mark. */
  predicate NoRepeatedPunct(s: string) {
    forall k :: 0 <= k < |s| - 1 ==> !(IsCollapsiblePunct(s[k]) && s[k + 1] == s[k])
  }

  /** `s.replace(/\s+/g, " ")`. */
  function CollapseWs(s: string): (r: string)
    ensures WsCollapsed(r)
    ensures r == [] <==> s == []
    ensures r != [] ==> (r[0] == ' ' <==> IsSpace(s[0]))
    ensures r != [] && !IsSpace(s[0]) ==> r[0] == s[0]
    decreases |s|
  {
    if s == [] then []
    else if IsSpace(s[0]) then [' '] + CollapseWs(TrimStart(s[1..]))
    else [s[0]] + CollapseWs(s[1..])
  }

  /** Drop the leading run of character `c`. */
  function SkipRun(s: string, c: char): (r: string)
    ensures |r| <= |s| && r == s[|s| - |r|..]
    ensures r == [] || r[0] != c
  {
    if s != [] && s[0] == c then SkipRun(s[1..], c) else s
  }

  lemma WsCollapsedSuffix(s: string, i: nat)
    requires i <= |s|
    ensures WsCollapsed(s) ==> WsCollapsed(s[i..])
  {
    SliceKeepsShape(s, i, |s|);
  }

  /** `s.replace(/([\?\!\.])\1+/g, "$1")`: a run of one repeated mark becomes one mark. */
  function CollapsePunct(s: string): (r: string)
    ensures NoRepeatedPunct(r)
    ensures r == [] <==> s == []
    ensures r != [] ==> r[0] == s[0]
    ensures WsCollapsed(s) ==> WsCollapsed(r)
    decreases |s|
  {
    if s == [] then []
    else
      var rest := if IsCollapsiblePunct(s[0]) then SkipRun(s[1..], s[0]) else s[1..];
      assert rest == s[|s| - |rest|..];
      WsCollapsedSuffix(s, |s| - |rest|);
      [s[0]] + CollapsePunct(rest)
  }

  /** A substring of a collapsed, repeat-free string is collapsed and repeat-free. */
  lemma SliceKeepsShape(s: string, a: nat, b: nat)
    requires a <= b <= |s|
    ensures WsCollapsed(s) ==> WsCollapsed(s[a..b])
    ensures NoRepeatedPunct(s) ==> NoRepeatedPunct(s[a..b])
  {
    var t := s[a..b];
    assert forall k :: 0 <= k < |t| ==> t[k] == s[a + k];
  }

  lemma TrimKeepsShape(s: string)
    ensures WsCollapsed(s) ==> WsCollapsed(Trim(s))
    ensures NoRepeatedPunct(s) ==> NoRepeatedPunct(Trim(s))
  {
    var t := TrimStart(s);
    var r := TrimEnd(t);
    assert Trim(s) == r;
    SuffixKeepsShape(s, t);
    PrefixKeepsShape(t, r);
  }

  lemma SuffixKeepsShape(s: string, t: string)
    requires |t| <= |s| && t == s[|s| - |t|..]
    ensures WsCollapsed(s) ==> WsCollapsed(t)
    ensures NoRepeatedPunct(s) ==> NoRepeatedPunct(t)
  {
    assert t == s[|s| - |t|..|s|];
    SliceKeepsShape(s, |s| - |t|, |s|);
  }

  lemma PrefixKeepsShape(t: string, r: string)
    requires |r| <= |t| && r == t[..|r|]
    ensures WsCollapsed(t) ==> WsCollapsed(r)
    ensures NoRepeatedPunct(t) ==> NoRepeatedPunct(r)
  {
    assert r == t[0..|r|];
    SliceKeepsShape(t, 0, |r|);
  }

  /** `normalizeContent`: whitespace runs become one space, runs of one repeated
    * '?', '!' or '.' become one mark, and the ends are trimmed. */
  function NormalizeContent(s: string): (r: string)
    ensures IsTrimmed(r) && WsCollapsed(r) && NoRepeatedPunct(r)
  {
    var c := CollapsePunct(CollapseWs(s));
    TrimKeepsShape(c);
    Trim(c)
  }

  lemma {:induction false} CollapseWsFixpoint(s: string)
    requires WsCollapsed(s)
    ensures CollapseWs(s) == s
    decreases |s|
  {
    if s != [] {
      WsCollapsedSuffix(s, 1);
      CollapseWsFixpoint(s[1..]);
      if IsSpace(s[0]) {
        assert s[1..] == [] || !IsSpace(s[1]);
        TrimStartOfTrimmed(s[1..]);
      }
    }
  }

  lemma {:induction false} CollapsePunctFixpoint(s: string)
    requires NoRepeatedPunct(s)
    ensures CollapsePunct(s) == s
    decreases |s|
  {
    if s != [] {
      assert NoRepeatedPunct(s[1..]) by {
        forall k | 0 <= k < |s[1..]| - 1
          ensures !(IsCollapsiblePunct(s[1..][k]) && s[1..][k + 1] == s[1..][k])
        {
          assert s[1..][k] == s[k + 1];
        }
      }
      CollapsePunctFixpoint(s[1..]);
      if IsCollapsiblePunct(s[0]) {
        assert SkipRun(s[1..], s[0]) == s[1..];
      }
    }
  }

  /** A string is left unchanged by `normalizeContent` exactly when it is
    * trimmed, whitespace-collapsed and free of repeated marks. */
  lemma NormalizeFixpointIff(s: string)
    ensures NormalizeContent(s) == s <==> (IsTrimmed(s) && WsCollapsed(s) && NoRepeatedPunct(s))
  {
    if IsTrimmed(s) && WsCollapsed(s) && NoRepeatedPunct(s) {
      CollapseWsFixpoint(s);
      CollapsePunctFixpoint(s);
      TrimOfTrimmed(s);
    }
  }

  /** Normalising twice is normalising once. */
  lemma NormalizeIdempotent(s: string)
    ensures NormalizeContent(NormalizeContent(s)) == NormalizeContent(s)
  {
    NormalizeFixpointIff(NormalizeContent(s));
  }

  // ---------------------------------------------------------------------
  // stripMetadata (AutoPilot.js:1594-1596)
  // ---------------------------------------------------------------------

  /** A match of `\[[^\]]+\]` at position `i`: the position after its ']'. */
  function BracketTag(s: string, i: nat): (r: Option<nat>)
    requires i <= |s|
    ensures r.Some? ==> i + 3 <= r.value <= |s| && s[i] == '[' && s[r.value - 1] == ']'
    ensures r.Some? ==> ']' !in s[i + 1..r.value - 1]
  {
    if i < |s| && s[i] == '[' && ']' in s[i + 1..] then
      var j := i + 1 + FirstIndexOfChar(s[i + 1..], ']');
      assert s[i + 1..j] == s[i + 1..][..j - i - 1];
      if j >= i + 2 then Some(j + 1) else None
    else None
  }

  /** The end of a match of `\[[^\]]+\]\s*(?:\[[^\]]+\]\s*)?:\s*` at position `i`.
    * The optional second tag is tried first, as the greedy `?` does; giving up
    * whitespace never helps, since what follows a shortened run is whitespace,
    * not '[' or ':'. */
  function MetadataAt(s: string, i: nat): (r: Option<nat>)
    requires i <= |s|
    ensures r.Some? ==> i + 4 <= r.value <= |s| && ':' in s[i..r.value] && s[i] == '['
  {
    match BracketTag(s, i)
    case None => None
    case Some(e1) =>
      var k := SpacesEnd(s, e1);
      var second :=
        match BracketTag(s, k)
        case Some(e2) =>
          var k2 := SpacesEnd(s, e2);
          if k2 < |s| && s[k2] == ':' then Some(k2) else None
        case None => None;
      if second.Some? then
        ColonInside(s, i, second.value, SpacesEnd(s, second.value + 1));
        Some(SpacesEnd(s, second.value + 1))
      else if k < |s| && s[k] == ':' then
        ColonInside(s, i, k, SpacesEnd(s, k + 1));
        Some(SpacesEnd(s, k + 1))
      else None
  }

  lemma ColonInside(s: string, i: nat, c: nat, e: nat)
    requires i <= c < e <= |s| && s[c] == ':'
    ensures ':' in s[i..e]
  {
    assert s[i..e][c - i] == ':';
  }

  /** `stripMetadata`: every "[name]: " or "[name] [tag]: " block is removed,
    * scanning left to right as a global regex replacement does. */
  function StripMetadata(s: string): (r: string)
    ensures |r| <= |s|
    ensures ':' !in s ==> r == s
  {
    if s == [] then []
    else
      match MetadataAt(s, 0)
      case Some(e) => StripMetadata(s[e..])
      case None => [s[0]] + StripMetadata(s[1..])
  }

  /** A metadata block starts at position `i` of `s`. */
  predicate BlockStartsAt(s: string, i: nat)
    requires i <= |s|
  {
    MetadataAt(s[i..], 0).Some?
  }

  /** Text in which no block starts is kept as it is, and the scan carries on
    * after it: a block right after the plain text is removed with the
    * whitespace that follows it, and the rest is stripped in turn. */
  lemma StripAfterPlainText(p: string, q: string)
    requires forall i :: 0 <= i < |p| ==> !BlockStartsAt(p + q, i)
    ensures StripMetadata(p + q) == p + StripMetadata(q)
    ensures MetadataAt(q, 0).Some? ==> StripMetadata(p + q) == p + StripMetadata(q[MetadataAt(q, 0).value..])
  {
    StripPlainPrefix(p, q);
  }

  /** A text in which no block starts anywhere is left unchanged. */
  lemma StripWithoutBlocks(s: string)
    requires forall i :: 0 <= i < |s| ==> !BlockStartsAt(s, i)
    ensures StripMetadata(s) == s
  {
    assert s + [] == s;
    StripPlainPrefix(s, []);
  }

  lemma {:induction false} StripPlainPrefix(p: string, q: string)
    requires forall i :: 0 <= i < |p| ==> !BlockStartsAt(p + q, i)
    ensures StripMetadata(p + q) == p + StripMetadata(q)
  {
    if p == [] {
      assert p + q == q;
    } else {
      var s := p + q;
      assert s[1..] == p[1..] + q && s[0] == p[0];
      StripPlainChar(s);
      NoBlockInTail(p, q);
      StripPlainPrefix(p[1..], q);
      ConsAppend(p, StripMetadata(q));
    }
  }

  lemma ConsAppend<T>(p: seq<T>, b: seq<T>)
    requires p != []
    ensures [p[0]] + (p[1..] + b) == p + b
  {
    assert [p[0]] + p[1..] == p;
  }

  /** Where no block starts, the first character is kept. */
  lemma StripPlainChar(s: string)
    requires s != [] && !BlockStartsAt(s, 0)
    ensures StripMetadata(s) == [s[0]] + StripMetadata(s[1..])
  {
    assert s[0..] == s;
  }

  lemma NoBlockInTail(p: string, q: string)
    requires p != []
    requires forall i :: 0 <= i < |p| ==> !BlockStartsAt(p + q, i)
    ensures forall i :: 0 <= i < |p| - 1 ==> !BlockStartsAt(p[1..] + q, i)
  {
    forall i | 0 <= i < |p| - 1 ensures !BlockStartsAt(p[1..] + q, i) {
      assert (p[1..] + q)[i..] == (p + q)[i + 1..];
      assert !BlockStartsAt(p + q, i + 1);
    }
  }

  /** A leading "[tag]:" block and the whitespace after it are removed. */
  lemma StripLeadingTag(tag: string, rest: string)
    requires tag != [] && ']' !in tag
    ensures StripMetadata("[" + tag + "]:" + rest) == StripMetadata(TrimStart(rest))
  {
    var s := "[" + tag + "]:" + rest;
    var e1 := |tag| + 2;
    LeadingTagParts(tag, rest);
    LeadingTagMatch(s, tag);
    SpacesEndIsTrimStart(s, e1 + 1);
  }

  /** A leading "[name] [tag]:" block, one match with the whitespace after it, is removed. */
  lemma StripTwoTags(name: string, tag: string, rest: string)
    requires name != [] && ']' !in name && tag != [] && ']' !in tag
    ensures StripMetadata("[" + name + "] [" + tag + "]:" + rest) == StripMetadata(TrimStart(rest))
  {
    TwoTagBrackets(name, tag, rest);
    TwoTagStrip("[" + name + "] [" + tag + "]:" + rest, |name| + 2, |name| + |tag| + 5, rest);
  }

  /** Where the two tags of "[name] [tag]:" end. */
  lemma TwoTagBrackets(name: string, tag: string, rest: string)
    requires name != [] && ']' !in name && tag != [] && ']' !in tag
    ensures var s := "[" + name + "] [" + tag + "]:" + rest;
      var n, m := |name|, |tag|;
      n + m + 5 < |s| && BracketTag(s, 0) == Some(n + 2) && s[n + 2] == ' ' &&
      BracketTag(s, n + 3) == Some(n + m + 5) && s[n + m + 5] == ':' && s[n + m + 6..] == rest
  {
    var s := "[" + name + "] [" + tag + "]:" + rest;
    TwoTagParts(name, tag, rest);
    BracketTagAt(s, 0, name);
    BracketTagAt(s, |name| + 3, tag);
  }

  /** A first tag, one space, a second tag and a colon: the block goes, up to the trimmed rest. */
  lemma TwoTagStrip(s: string, e1: nat, e2: nat, rest: string)
    requires e1 < e2 < |s|
    requires BracketTag(s, 0) == Some(e1) && s[e1] == ' '
    requires BracketTag(s, e1 + 1) == Some(e2) && s[e2] == ':' && s[e2 + 1..] == rest
    ensures StripMetadata(s) == StripMetadata(TrimStart(rest))
  {
    SecondTagMatch(s, e1, e2);
    StripAtMatch(s, e2 + 1, rest);
  }

  /** A leading block that ends where `rest` starts, with the whitespace after it, is removed. */
  lemma StripAtMatch(s: string, j: nat, rest: string)
    requires j <= |s| && s[j..] == rest && MetadataAt(s, 0) == Some(SpacesEnd(s, j))
    ensures StripMetadata(s) == StripMetadata(TrimStart(rest))
  {
    SpacesEndIsTrimStart(s, j);
  }

  /** A first tag, one space, a second tag and a colon make one match. */
  lemma SecondTagMatch(s: string, e1: nat, e2: nat)
    requires e1 < e2 < |s|
    requires BracketTag(s, 0) == Some(e1) && s[e1] == ' '
    requires BracketTag(s, e1 + 1) == Some(e2) && s[e2] == ':'
    ensures MetadataAt(s, 0) == Some(SpacesEnd(s, e2 + 1))
  {
    assert IsSpace(' ') && !IsSpace('[') && !IsSpace(':');
    assert s[e1 + 1] == '[';
    assert SpacesEnd(s, e1 + 1) == e1 + 1;
    var k := SpacesEnd(s, e1);
    assert k == e1 + 1;
    assert BracketTag(s, k) == Some(e2);
    var k2 := SpacesEnd(s, e2);
    assert k2 == e2 && k2 < |s| && s[k2] == ':';
  }

  lemma TwoTagParts(name: string, tag: string, rest: string)
    ensures var s := "[" + name + "] [" + tag + "]:" + rest;
      var n, m := |name|, |tag|;
      |s| == n + m + 6 + |rest| && s[0] == '[' && s[1..n + 1] == name && s[n + 1] == ']' &&
      s[n + 2] == ' ' && s[n + 3] == '[' && s[n + 4..n + m + 4] == tag && s[n + m + 4] == ']' &&
      s[n + m + 5] == ':' && s[n + m + 6..] == rest
  {
  }

  /** A bracketed tag without ']' inside is matched up to its ']'. */
  lemma BracketTagAt(s: string, i: nat, tag: string)
    requires tag != [] && ']' !in tag
    requires i + |tag| + 2 <= |s| && s[i] == '[' && s[i + 1..i + |tag| + 1] == tag && s[i + |tag| + 1] == ']'
    ensures BracketTag(s, i) == Some(i + |tag| + 2)
  {
    var t := s[i + 1..];
    assert t[..|tag|] == tag && t[|tag|] == ']';
    assert FirstIndexOfChar(t, ']') == |tag|;
  }

  lemma LeadingTagParts(tag: string, rest: string)
    ensures var s := "[" + tag + "]:" + rest;
      |s| == |tag| + 3 + |rest| && s[0] == '[' && s[1..|tag| + 1] == tag &&
      s[|tag| + 1] == ']' && s[|tag| + 2] == ':' && s[|tag| + 3..] == rest
  {
  }

  lemma LeadingTagMatch(s: string, tag: string)
    requires tag != [] && ']' !in tag
    requires |s| >= |tag| + 3 && s[0] == '[' && s[1..|tag| + 1] == tag
    requires s[|tag| + 1] == ']' && s[|tag| + 2] == ':'
    ensures MetadataAt(s, 0) == Some(SpacesEnd(s, |tag| + 3))
  {
    BracketTagAt(s, 0, tag);
    var e1 := |tag| + 2;
    assert SpacesEnd(s, e1) == e1;
    assert BracketTag(s, e1) == None;
  }

  // ---------------------------------------------------------------------
  // appendWatermark / stripWatermark (AutoPilot.js:223-228, 1598-1604)
  // ---------------------------------------------------------------------

  /** The line the watermark adds: "\n-# " followed by the watermark text. */
  function WatermarkSuffix(watermarkText: string): string {
    "\n-# " + watermarkText
  }

  /** `stripWatermark`: remove the watermark line when the text ends with it. */
  function StripWatermark(watermarkText: string, text: string): (r: string)
    ensures EndsWith(text, WatermarkSuffix(watermarkText)) ==> r + WatermarkSuffix(watermarkText) == text
    ensures !EndsWith(text, WatermarkSuffix(watermarkText)) ==> r == text
  {
    var w := WatermarkSuffix(watermarkText);
    if EndsWith(text, w) then text[..|text| - |w|] else text
  }

  /** `appendWatermark`: with the watermark enabled, a non-empty text gets the
    * watermark line, which `stripWatermark` removes again; otherwise the
    * text is returned as it is. */
  function AppendWatermark(enabled: bool, watermarkText: string, text: string): (r: string)
    ensures enabled && text != [] ==> StripWatermark(watermarkText, r) == text
    ensures enabled && text != [] ==> |r| == |text| + |WatermarkSuffix(watermarkText)|
    ensures !(enabled && text != []) ==> r == text
  {
    if enabled && text != [] then
      var r := text + WatermarkSuffix(watermarkText);
      assert r[|r| - |WatermarkSuffix(watermarkText)|..] == WatermarkSuffix(watermarkText);
      r
    else text
  }

  // ---------------------------------------------------------------------
  // chunkTextByWords (AutoPilot.js:1800-1820)
  // ---------------------------------------------------------------------

  /** The words of `s.split(/\s+/)` that are not empty. */
  function NonEmptyWords(ws: seq<string>): (r: seq<string>)
    ensures |r| <= |ws|
  {
    if ws == [] then []
    else (if ws[0] != [] then [ws[0]] else []) + NonEmptyWords(ws[1..])
  }

  lemma {:induction false} NonEmptyAppend(a: seq<string>, b: seq<string>)
    ensures NonEmptyWords(a + b) == NonEmptyWords(a) + NonEmptyWords(b)
  {
    if a == [] {
      assert a + b == b;
    } else {
      assert (a + b)[0] == a[0] && (a + b)[1..] == a[1..] + b;
      NonEmptyAppend(a[1..], b);
    }
  }

  function Concat(groups: seq<seq<string>>): seq<string> {
    if groups == [] then [] else groups[0] + Concat(groups[1..])
  }

  lemma {:induction false} ConcatSnoc(groups: seq<seq<string>>, g: seq<string>)
    ensures Concat(groups + [g]) == Concat(groups) + g
  {
    if groups != [] {
      assert (groups + [g])[1..] == groups[1..] + [g];
      ConcatSnoc(groups[1..], g);
    } else {
      assert Concat([g]) == g + Concat([]);
    }
  }

  /** The chunker's state as word groups: the finished chunks and the chunk
    * being filled. The JS variables are these groups joined with " ". */
  datatype ChunkState = ChunkState(done: seq<seq<string>>, cur: seq<string>)

  /** One iteration of the loop over the words. A group is "truthy" when its
    * joined text is not empty, which is what `current ? ... : w` tests. */
  function ChunkStep(st: ChunkState, w: string, size: int): ChunkState {
    var potential := if Join(st.cur, " ") != [] then st.cur + [w] else [w];
    if Utf16Len(Join(potential, " ")) <= size then ChunkState(st.done, potential)
    else
      var done := if Join(st.cur, " ") != [] then st.done + [st.cur] else st.done;
      if Utf16Len(w) > size then ChunkState(done + [[w]], []) else ChunkState(done, [w])
  }

  function ChunkFold(ws: seq<string>, size: int, st: ChunkState): ChunkState
    decreases |ws|
  {
    if ws == [] then st else ChunkFold(ws[1..], size, ChunkStep(st, ws[0], size))
  }

  /** The final flush: the finished groups, and the current one when truthy. */
  function Flush(st: ChunkState): seq<seq<string>> {
    if Join(st.cur, " ") != [] then st.done + [st.cur] else st.done
  }

  /** The word groups of the chunks `chunkTextByWords(text, size)` returns. */
  function ChunkGroups(text: string, size: int): seq<seq<string>> {
    Flush(ChunkFold(SplitWs(text), size, ChunkState([], [])))
  }

  function JoinAll(groups: seq<seq<string>>): (r: seq<string>)
    ensures |r| == |groups|
    ensures forall i :: 0 <= i < |r| ==> r[i] == Join(groups[i], " ")
  {
    seq(|groups|, i requires 0 <= i < |groups| => Join(groups[i], " "))
  }

  /** The chunks `chunkTextByWords(text, size)` returns. */
  function ChunkTexts(text: string, size: int): seq<string> {
    JoinAll(ChunkGroups(text, size))
  }

  /** `chunkTextByWords`: the JS accumulator loop over the words. */
  method ChunkTextByWords(text: string, chunkSize: int) returns (chunks: seq<string>)
    ensures chunks == ChunkTexts(text, chunkSize)
  {
    var words := SplitWs(text);
    chunks := [];
    var current := "";
    ghost var st := ChunkState([], []);
    for i := 0 to |words|
      invariant current == Join(st.cur, " ")
      invariant chunks == JoinAll(st.done)
      invariant ChunkFold(words[i..], chunkSize, st) == ChunkFold(words, chunkSize, ChunkState([], []))
    {
      var w := words[i];
      ghost var next := ChunkStep(st, w, chunkSize);
      var potential := if current != "" then current + " " + w else w;
      if current != "" {
        JoinSnoc(st.cur, " ", w);
      }
      if Utf16Len(potential) <= chunkSize {
        current := potential;
      } else {
        ghost var done := st.done;
        if current != "" {
          JoinAllSnoc(st.done, st.cur);
          chunks := chunks + [current];
          done := done + [st.cur];
        }
        if Utf16Len(w) > chunkSize {
          JoinAllSnoc(done, [w]);
          chunks := chunks + [w];
          current := "";
        } else {
          current := w;
        }
      }
      assert words[i..][1..] == words[i + 1..];
      st := next;
    }
    if current != "" {
      JoinAllSnoc(st.done, st.cur);
      chunks := chunks + [current];
    }
  }

  lemma JoinAllSnoc(groups: seq<seq<string>>, g: seq<string>)
    ensures JoinAll(groups + [g]) == JoinAll(groups) + [Join(g, " ")]
  {
  }

  /** The words held in a state, finished chunks first. */
  function Flat(st: ChunkState): seq<string> {
    Concat(st.done) + st.cur
  }

  /** What the loop keeps true after consuming the words `consumed`. */
  predicate ChunkInv(st: ChunkState, consumed: seq<string>, size: int) {
    (forall g :: g in st.done ==> Join(g, " ") != [] &&
                                  (Utf16Len(Join(g, " ")) <= size || (|g| == 1 && g[0] in consumed))) &&
    Utf16Len(Join(st.cur, " ")) <= size &&
    NonEmptyWords(Flat(st)) == NonEmptyWords(consumed)
  }

  lemma {:induction false} NonEmptyOfEmptyJoin(g: seq<string>)
    requires Join(g, " ") == []
    ensures NonEmptyWords(g) == []
  {
    JoinEmpty(g, " ");
    NonEmptyNone(g);
  }

  lemma {:induction false} NonEmptyNone(g: seq<string>)
    requires forall k :: 0 <= k < |g| ==> g[k] == []
    ensures NonEmptyWords(g) == []
  {
    if g != [] {
      NonEmptyNone(g[1..]);
    }
  }

  /** With a truthy current chunk a step appends the word to the held words. */
  lemma StepFlatTruthy(st: ChunkState, w: string, size: int)
    requires Join(st.cur, " ") != []
    ensures Flat(ChunkStep(st, w, size)) == Flat(st) + [w]
  {
    var st' := ChunkStep(st, w, size);
    var done := st.done + [st.cur];
    ConcatSnoc(st.done, st.cur);
    if st' == ChunkState(done + [[w]], []) {
      ConcatSnoc(done, [w]);
    }
  }

  /** With an empty current chunk a step drops it and appends the word. */
  lemma StepFlatEmpty(st: ChunkState, w: string, size: int)
    requires Join(st.cur, " ") == []
    ensures Flat(ChunkStep(st, w, size)) == Concat(st.done) + [w]
  {
    var st' := ChunkStep(st, w, size);
    if st' == ChunkState(st.done + [[w]], []) {
      ConcatSnoc(st.done, [w]);
    }
  }

  /** The word count identity of one step, which does not depend on the sizes. */
  lemma ChunkStepWords(st: ChunkState, consumed: seq<string>, w: string, size: int)
    requires NonEmptyWords(Flat(st)) == NonEmptyWords(consumed)
    ensures NonEmptyWords(Flat(ChunkStep(st, w, size))) == NonEmptyWords(consumed + [w])
  {
    NonEmptyAppend(consumed, [w]);
    if Join(st.cur, " ") != [] {
      StepFlatTruthy(st, w, size);
      NonEmptyAppend(Flat(st), [w]);
    } else {
      StepFlatEmpty(st, w, size);
      NonEmptyOfEmptyJoin(st.cur);
      NonEmptyAppend(Concat(st.done), st.cur);
      NonEmptyAppend(Concat(st.done), [w]);
      assert NonEmptyWords(Concat(st.done)) + [] == NonEmptyWords(Concat(st.done));
    }
  }

  /** A finished chunk after a step was finished before, is the flushed
    * truthy current chunk, or is a single word longer than the size. */
  lemma StepDone(st: ChunkState, w: string, size: int)
    ensures forall g :: g in ChunkStep(st, w, size).done ==>
      g in st.done || (g == st.cur && Join(st.cur, " ") != []) || (g == [w] && Utf16Len(w) > size)
  {
  }

  lemma ChunkStepInv(st: ChunkState, consumed: seq<string>, w: string, size: int)
    requires size >= 0 && ChunkInv(st, consumed, size)
    ensures ChunkInv(ChunkStep(st, w, size), consumed + [w], size)
  {
    ChunkStepWords(st, consumed, w, size);
    StepDone(st, w, size);
    StepCurFits(st, w, size);
    var st' := ChunkStep(st, w, size);
    forall g | g in st'.done
      ensures Join(g, " ") != [] && (Utf16Len(Join(g, " ")) <= size || (|g| == 1 && g[0] in consumed + [w]))
    {
      if g !in st.done && g != st.cur {
        assert Join([w], " ") == w;
      }
    }
  }

  /** After a step the chunk being filled fits the size. */
  lemma StepCurFits(st: ChunkState, w: string, size: int)
    requires size >= 0
    ensures Utf16Len(Join(ChunkStep(st, w, size).cur, " ")) <= size
  {
    var potential := if Join(st.cur, " ") != [] then st.cur + [w] else [w];
    if Utf16Len(Join(potential, " ")) > size && Utf16Len(w) <= size {
      assert Join([w], " ") == w;
    }
  }

  lemma {:induction false} ChunkFoldInv(ws: seq<string>, st: ChunkState, consumed: seq<string>, size: int)
    requires size >= 0 && ChunkInv(st, consumed, size)
    ensures ChunkInv(ChunkFold(ws, size, st), consumed + ws, size)
    decreases |ws|
  {
    if ws == [] {
      assert consumed + ws == consumed;
    } else {
      var st' := ChunkStep(st, ws[0], size);
      var consumed' := consumed + [ws[0]];
      assert ChunkFold(ws, size, st) == ChunkFold(ws[1..], size, st');
      SnocAppend(consumed, ws);
      ChunkStepInv(st, consumed, ws[0], size);
      ChunkFoldInv(ws[1..], st', consumed', size);
    }
  }

  lemma SnocAppend<T>(a: seq<T>, ws: seq<T>)
    requires ws != []
    ensures a + [ws[0]] + ws[1..] == a + ws
  {
    assert [ws[0]] + ws[1..] == ws;
  }

  /** The invariant at the end of the loop, stated on the final groups. */
  lemma ChunkGroupsInv(text: string, size: int)
    requires size >= 0
    ensures forall g :: g in ChunkGroups(text, size) ==>
              Join(g, " ") != [] && (Utf16Len(Join(g, " ")) <= size || (|g| == 1 && g[0] in SplitWs(text)))
    ensures NonEmptyWords(Concat(ChunkGroups(text, size))) == NonEmptyWords(SplitWs(text))
  {
    var ws := SplitWs(text);
    var st0 := ChunkState([], []);
    assert ChunkInv(st0, [], size);
    ChunkFoldInv(ws, st0, [], size);
    assert [] + ws == ws;
    FlushKeepsInv(ChunkFold(ws, size, st0), ws, size);
  }

  lemma FlushKeepsInv(st: ChunkState, ws: seq<string>, size: int)
    requires ChunkInv(st, ws, size)
    ensures forall g :: g in Flush(st) ==>
              Join(g, " ") != [] && (Utf16Len(Join(g, " ")) <= size || (|g| == 1 && g[0] in ws))
    ensures NonEmptyWords(Concat(Flush(st))) == NonEmptyWords(ws)
  {
    FlushWords(st);
    forall g | g in Flush(st)
      ensures Join(g, " ") != [] && (Utf16Len(Join(g, " ")) <= size || (|g| == 1 && g[0] in ws))
    {
      if g !in st.done {
        assert g == st.cur;
      }
    }
  }

  /** Flushing loses no non-empty word of the finished and current groups. */
  lemma FlushWords(st: ChunkState)
    ensures NonEmptyWords(Concat(Flush(st))) == NonEmptyWords(Flat(st))
  {
    if Join(st.cur, " ") != [] {
      ConcatSnoc(st.done, st.cur);
    } else {
      NonEmptyOfEmptyJoin(st.cur);
      NonEmptyAppend(Concat(st.done), st.cur);
      assert NonEmptyWords(Concat(st.done)) + [] == NonEmptyWords(Concat(st.done));
    }
  }

  /** For a non-negative chunk size: no chunk is empty; a chunk longer than the
    * size, counted in UTF-16 code units as JS `length` does, is a single word
    * of the input; and the chunks are the input's words
    * joined by single spaces, with the non-empty words all present, in order,
    * none lost and none repeated. */
  lemma ChunkTextsProperties(text: string, size: int)
    requires size >= 0
    ensures |ChunkTexts(text, size)| == |ChunkGroups(text, size)|
    ensures forall i :: 0 <= i < |ChunkTexts(text, size)| ==>
              ChunkTexts(text, size)[i] == Join(ChunkGroups(text, size)[i], " ")
    ensures forall c :: c in ChunkTexts(text, size) ==> c != []
    ensures forall c :: c in ChunkTexts(text, size) ==> Utf16Len(c) <= size || c in SplitWs(text)
    ensures NonEmptyWords(Concat(ChunkGroups(text, size))) == NonEmptyWords(SplitWs(text))
  {
    ChunkGroupsInv(text, size);
    var groups := ChunkGroups(text, size);
    var chunks := ChunkTexts(text, size);
    forall c | c in chunks ensures c != [] && (Utf16Len(c) <= size || c in SplitWs(text)) {
      var i :| 0 <= i < |groups| && chunks[i] == c;
      assert groups[i] in groups;
    }
  }

  /** Lengths are UTF-16 code units: a character above U+FFFF counts twice, so
    * an emoji and a one-letter word do not fit in one chunk of size 3, though
    * the three characters of "emoji space a" would. */
  lemma ChunkCountsCodeUnits()
    ensures ChunkTexts(EmojiThenA, 3) == [Emoji, "a"]
    ensures |EmojiThenA| == 3
  {
    EmojiSplit();
    FoldEmojiThenA();
    var groups := [[Emoji], ["a"]];
    assert Join(["a"], " ") == "a";
    assert ChunkGroups(EmojiThenA, 3) == groups;
    assert Join([Emoji], " ") == Emoji;
    assert JoinAll(groups) == [Emoji, "a"];
  }

  lemma FoldEmojiThenA()
    ensures ChunkFold([Emoji, "a"], 3, ChunkState([], [])) == ChunkState([[Emoji]], ["a"])
  {
    var ws := [Emoji, "a"];
    assert ws[0] == Emoji && ws[1..] == ["a"];
    EmojiStep();
    LetterStep();
    assert ["a"][0] == "a" && ["a"][1..] == [];
  }

  /** The emoji, two code units, starts the first group. */
  lemma EmojiStep()
    ensures ChunkStep(ChunkState([], []), Emoji, 3) == ChunkState([], [Emoji])
  {
    assert Join([Emoji], " ") == Emoji;
    assert Utf16Len(Emoji) == 2;
  }

  /** Emoji, space and `a` are four code units, so `a` starts a second group. */
  lemma LetterStep()
    ensures ChunkStep(ChunkState([], [Emoji]), "a", 3) == ChunkState([[Emoji]], ["a"])
  {
    assert Join([Emoji], " ") == Emoji;
    assert Join([Emoji, "a"], " ") == EmojiThenA;
    EmojiThenALen();
    assert Utf16Len("a") == 1;
  }

  const Emoji: string := "\U{1F600}"
  const EmojiThenA: string := Emoji + " a"

  lemma EmojiSplit()
    ensures SplitWs(EmojiThenA) == [Emoji, "a"]
  {
    var text := EmojiThenA;
    assert text[1..] == " a" && text[..1] == Emoji;
    assert !IsSpace(text[0]) && IsSpace(' ') && !IsSpace('a');
    SplitOneWord();
    assert TrimStart(" a") == TrimStart("a") == "a";
    assert FirstSpace(" a") == 0;
    assert FirstSpace(text) == 1;
  }

  lemma SplitOneWord()
    ensures SplitWs("a") == ["a"]
  {
    assert !IsSpace('a');
    assert "a"[1..] == [];
    assert FirstSpace("a") == 1;
  }

  lemma EmojiThenALen()
    ensures Utf16Len(EmojiThenA) == 4
  {
    var text := EmojiThenA;
    assert text[1..] == " a" && " a"[1..] == "a" && "a"[1..] == [];
    assert Utf16Len("a") == 1;
    assert Utf16Len(" a") == 2;
  }

  // ---------------------------------------------------------------------
  // The image-attachment test (AutoPilot.js:397-409)
  // ---------------------------------------------------------------------

  /** The extensions that mark an attachment as an image. */
  predicate HasImageExtension(s: string) {
    EndsWith(s, ".png") || EndsWith(s, ".jpg") || EndsWith(s, ".jpeg") ||
    EndsWith(s, ".webp") || EndsWith(s, ".gif")
  }

  /** An attachment URL names an image when it is present and not empty and its
    * part before the first '?', lower-cased, ends with an image extension. */
  predicate IsImageUrl(url: Option<string>) {
    url.Some? && url.value != [] && HasImageExtension(ToLower(SplitOn(url.value, '?')[0]))
  }

  /** A query string does not change whether a URL names an image. */
  lemma ImageUrlIgnoresQuery(path: string, query: string)
    requires '?' !in path && path != []
    ensures IsImageUrl(Some(path + "?" + query)) == IsImageUrl(Some(path))
  {
    var u := path + "?" + query;
    assert u[|path|] == '?' && u[..|path|] == path;
    assert FirstIndexOfChar(u, '?') == |path|;
  }

  /** `attachments.find(...)`: the index of the first image attachment. */
  function FindImageAttachment(urls: seq<Option<string>>): (r: Option<nat>)
    ensures r.Some? ==> r.value < |urls| && IsImageUrl(urls[r.value])
    ensures r.Some? ==> forall k :: 0 <= k < r.value ==> !IsImageUrl(urls[k])
    ensures r.None? ==> forall k :: 0 <= k < |urls| ==> !IsImageUrl(urls[k])
  {
    if urls == [] then None
    else if IsImageUrl(urls[0]) then Some(0)
    else match FindImageAttachment(urls[1..])
      case None => None
      case Some(i) => Some(i + 1)
  }

  // ---------------------------------------------------------------------
  // Global-memory phrases (AutoPilot.js:1549-1578)
  // ---------------------------------------------------------------------

  const GlobalPhrase: string := "add to global memory:"
  const ConsentPhrase: string := "i consent to add this to global memory:"

  /** The text after `phrase`'s first occurrence in the lower-cased message, trimmed. */
  function AfterPhrase(content: string, phrase: string): Option<string> {
    match IndexOf(ToLower(content), phrase)
    case None => None
    case Some(i) => Some(Trim(content[i + |phrase|..]))
  }

  /** The text `checkAndStoreGlobalMemory` stores for a message, or `None` when
    * the message holds neither phrase. The consent phrase takes precedence,
    * and an empty remainder stores the whole message. */
  function GlobalMemoryText(content: string): (r: Option<string>)
    ensures r.Some? <==> Contains(ToLower(content), GlobalPhrase) || Contains(ToLower(content), ConsentPhrase)
    ensures r.Some? ==> r.value != []
  {
    var lower := ToLower(content);
    if Contains(lower, GlobalPhrase) || Contains(lower, ConsentPhrase) then
      var raw1 := AfterPhrase(content, GlobalPhrase).GetOr("");
      var raw := AfterPhrase(content, ConsentPhrase).GetOr(raw1);
      Some(if raw != [] then raw else content)
    else None
  }

  /** A message that starts with the phrase, in any letter case, stores the
    * rest of the message. */
  lemma GlobalMemoryAfterPrefix(prefix: string, rest: string)
    requires ToLower(prefix) == GlobalPhrase
    requires !Contains(ToLower(rest), ConsentPhrase)
    requires rest != [] && IsTrimmed(rest)
    ensures GlobalMemoryText(prefix + rest) == Some(rest)
  {
    PhraseAfterPrefix(prefix, rest);
    ConsentAfterPrefix(prefix, rest);
    assert Contains(ToLower(prefix + rest), GlobalPhrase);
  }

  lemma PhraseAfterPrefix(prefix: string, rest: string)
    requires ToLower(prefix) == GlobalPhrase
    requires IsTrimmed(rest)
    ensures IndexOf(ToLower(prefix + rest), GlobalPhrase) == Some(0)
    ensures AfterPhrase(prefix + rest, GlobalPhrase) == Some(rest)
  {
    ToLowerAppend(prefix, rest);
    PhraseFirst(ToLower(rest));
    assert (prefix + rest)[|prefix|..] == rest;
    TrimOfTrimmed(rest);
  }

  lemma ConsentAfterPrefix(prefix: string, rest: string)
    requires ToLower(prefix) == GlobalPhrase
    requires !Contains(ToLower(rest), ConsentPhrase)
    ensures AfterPhrase(prefix + rest, ConsentPhrase) == None
    ensures !Contains(ToLower(prefix + rest), ConsentPhrase)
  {
    ToLowerAppend(prefix, rest);
    NoConsentAfterPhrase(ToLower(rest));
  }

  lemma PhraseFirst(x: string)
    ensures IndexOf(GlobalPhrase + x, GlobalPhrase) == Some(0)
  {
    assert OccursAt(GlobalPhrase + x, GlobalPhrase, 0);
  }

  /** The consent phrase cannot start inside the shorter phrase, which has no 'i'. */
  lemma NoConsentAfterPhrase(x: string)
    requires !Contains(x, ConsentPhrase)
    ensures IndexOf(GlobalPhrase + x, ConsentPhrase) == None
  {
    var lower := GlobalPhrase + x;
    forall j | 0 <= j ensures !OccursAt(lower, ConsentPhrase, j) {
      if j < |GlobalPhrase| {
        assert 'i' !in GlobalPhrase;
        assert lower[j] == GlobalPhrase[j] != 'i' == ConsentPhrase[0];
        assert j + |ConsentPhrase| <= |lower| ==> lower[j..j + |ConsentPhrase|][0] != ConsentPhrase[0];
      } else if OccursAt(lower, ConsentPhrase, j) {
        var k := j - |GlobalPhrase|;
        assert lower[j..j + |ConsentPhrase|] == x[k..k + |ConsentPhrase|];
        assert OccursAt(x, ConsentPhrase, k);
      }
    }
  }

  // ---------------------------------------------------------------------
  // Owner commands (AutoPilot.js:500-524)
  // ---------------------------------------------------------------------

  /** `isOwnerMessage`: an owner is configured, wrote the message, and the
    * message starts with '!' once trimmed. */
  predicate IsOwnerMessage(ownerId: string, authorId: string, content: string) {
    ownerId != [] && authorId == ownerId && StartsWith(Trim(content), "!")
  }

  datatype OwnerCommand =
    | PushToLongTerm
    | PushToMediumTerm
    | ConversationEnd
    | AddPersonality(text: string)
    | Unknown(content: string)

  const PushToLongTermPrefix: string := "!pushtoltm"
  const PushToMediumTermPrefix: string := "!pushtomtm"
  const ConversationEndPrefix: string := "!convoend"
  const AddPersonalityPrefix: string := "!addpersonality"

  /** The command recognised in the lower-cased, trimmed message `lc`, in
    * the order the source tests the prefixes, or `None`. `payload` is the
    * text the `!addpersonality` argument is cut from. */
  function RecogniseCommand(lc: string, payload: string): (r: Option<OwnerCommand>)
    ensures r.None? || !r.value.Unknown?
  {
    if StartsWith(lc, PushToLongTermPrefix) then Some(PushToLongTerm)
    else if StartsWith(lc, PushToMediumTermPrefix) then Some(PushToMediumTerm)
    else if StartsWith(lc, ConversationEndPrefix) then Some(ConversationEnd)
    else if StartsWith(lc, AddPersonalityPrefix) then
      Some(AddPersonality(Trim(JsSliceFrom(payload, |AddPersonalityPrefix|))))
    else None
  }

  /** `processOwnerCommand`: the command of an owner message; an unrecognised
    * one echoes the message. The `!addpersonality` argument is cut from the
    * message at the prefix's length, which lands right after the prefix
    * because the message handler trims the message before it gets here. */
  function ParseOwnerCommand(content: string): OwnerCommand {
    RecogniseCommand(ToLower(Trim(content)), content).GetOr(Unknown(content))
  }

  /** A message is an unknown command exactly when none of the prefixes match. */
  lemma UnknownIffNoPrefix(content: string)
    ensures ParseOwnerCommand(content).Unknown? <==>
      (var lc := ToLower(Trim(content));
       !StartsWith(lc, PushToLongTermPrefix) && !StartsWith(lc, PushToMediumTermPrefix) &&
       !StartsWith(lc, ConversationEndPrefix) && !StartsWith(lc, AddPersonalityPrefix))
  {
  }

  /** `!addpersonality`, in any letter case, followed by text adds the trimmed text. */
  lemma AddPersonalityArgument(command: string, arg: string)
    requires ToLower(command) == AddPersonalityPrefix
    requires !StartsWith(ToLower(command + arg), PushToLongTermPrefix)
    requires !StartsWith(ToLower(command + arg), PushToMediumTermPrefix)
    requires !StartsWith(ToLower(command + arg), ConversationEndPrefix)
    requires IsTrimmed(command + arg)
    ensures ParseOwnerCommand(command + arg) == AddPersonality(Trim(arg))
  {
    var c := command + arg;
    assert |command| == |AddPersonalityPrefix|;
    TrimOfTrimmed(c);
    LowerPrefix(command, arg);
    SliceAfterPrefix(command, arg);
    RecogniseAddPersonality(ToLower(c), c);
  }

  lemma LowerPrefix(command: string, arg: string)
    ensures StartsWith(ToLower(command + arg), ToLower(command))
  {
    var lc := ToLower(command + arg);
    assert forall k :: 0 <= k < |command| ==> lc[k] == ToLowerChar(command[k]);
  }

  lemma SliceAfterPrefix(command: string, arg: string)
    ensures JsSliceFrom(command + arg, |command|) == arg
  {
    assert (command + arg)[|command|..] == arg;
  }

  lemma RecogniseAddPersonality(lc: string, payload: string)
    requires !StartsWith(lc, PushToLongTermPrefix) && !StartsWith(lc, PushToMediumTermPrefix) && !StartsWith(lc, ConversationEndPrefix)
    requires StartsWith(lc, AddPersonalityPrefix)
    ensures RecogniseCommand(lc, payload) == Some(AddPersonality(Trim(JsSliceFrom(payload, |AddPersonalityPrefix|))))
  {
  }
}
