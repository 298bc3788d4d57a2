/**
 * Post-processing of a generated reply: the `/addmemory <text>;` directives
 * that `generateReply` strips out and stores (AutoPilot.js:1050-1066), and
 * the split of the final reply into the lines that are sent, at `/newmsg` and
 * `[newmsg]` markers, with `/noresponse` suppressing the reply
 * (AutoPilot.js:585-593).
 */
module Reply {
  import opened Wrappers
  import opened JsText

  // ---------------------------------------------------------------------
  // Line splitting (processToolCommands)
  // ---------------------------------------------------------------------

  /** `s` starts with `p` when letter case is ignored (`p` is lower case). */
  predicate StartsWithIgnoreCase(s: string, p: string) {
    |p| <= |s| && forall k :: 0 <= k < |p| ==> ToLowerChar(s[k]) == p[k]
  }

  /** `s` continues with "newmsg" at position 1, in any letter case. */
  predicate NewmsgAfterFirst(s: string) {
    |s| >= 7 && ToLowerChar(s[1]) == 'n' && ToLowerChar(s[2]) == 'e' && ToLowerChar(s[3]) == 'w' &&
    ToLowerChar(s[4]) == 'm' && ToLowerChar(s[5]) == 's' && ToLowerChar(s[6]) == 'g'
  }

  /** The length of a `/newmsg` or `[newmsg]` marker at the start of `s`, in
    * any letter case, or 0. */
  function MarkerLen(s: string): (n: nat)
    ensures n == 0 || n == 7 || n == 8
    ensures n <= |s|
  {
    if s != [] && s[0] == '/' && NewmsgAfterFirst(s) then 7
    else if |s| >= 8 && s[0] == '[' && NewmsgAfterFirst(s) && s[7] == ']' then 8
    else 0
  }

  /** `s.replace(/\r\n/g, "\n")`. */
  function ReplaceCrlf(s: string): (r: string)
    ensures '\r' !in s ==> r == s
    decreases |s|
  {
    if s == [] then []
    else if |s| >= 2 && s[0] == '\r' && s[1] == '\n' then "\n" + ReplaceCrlf(s[2..])
    else [s[0]] + ReplaceCrlf(s[1..])
  }

  /** Each `\r\n` becomes `\n`, and what lies on either side is rewritten on its own. */
  lemma CrlfBecomesBreak(a: string, b: string)
    ensures ReplaceCrlf(a + "\r\n" + b) == ReplaceCrlf(a) + "\n" + ReplaceCrlf(b)
  {
    var t := "\r\n" + b;
    Assoc(a, "\r\n", b);
    CrlfHead(b);
    CrlfAppend(a, t);
    Assoc(ReplaceCrlf(a), "\n", ReplaceCrlf(b));
  }

  /** A reply whose line break is `\r\n` sends what the same reply with `\n` sends. */
  lemma CrlfReplySameAsLf(a: string, b: string)
    requires '\r' !in a && '\r' !in b
    ensures OutgoingLines(a + "\r\n" + b) == OutgoingLines(a + "\n" + b)
  {
    CrlfBecomesBreak(a, b);
    assert '\r' !in a + "\n" + b;
  }

  lemma CrlfHead(b: string)
    ensures ReplaceCrlf("\r\n" + b) == "\n" + ReplaceCrlf(b)
  {
    assert ("\r\n" + b)[2..] == b;
  }

  lemma Assoc(x: string, y: string, z: string)
    ensures x + y + z == x + (y + z)
  {
  }

  /** Rewriting a concatenation rewrites its parts, unless a `\r` and a `\n` meet at the seam. */
  lemma {:induction false} CrlfAppend(a: string, b: string)
    requires a == [] || b == [] || a[|a| - 1] != '\r' || b[0] != '\n'
    ensures ReplaceCrlf(a + b) == ReplaceCrlf(a) + ReplaceCrlf(b)
    decreases |a|
  {
    var s := a + b;
    if a == [] {
      assert s == b;
    } else if |a| >= 2 && a[0] == '\r' && a[1] == '\n' {
      assert s[0] == '\r' && s[1] == '\n' && s[2..] == a[2..] + b;
      CrlfAppend(a[2..], b);
      Assoc("\n", ReplaceCrlf(a[2..]), ReplaceCrlf(b));
    } else {
      assert !(|s| >= 2 && s[0] == '\r' && s[1] == '\n') by {
        if |a| == 1 {
          assert a[|a| - 1] == s[0];
        } else {
          assert s[0] == a[0] && s[1] == a[1];
        }
      }
      assert s[1..] == a[1..] + b;
      CrlfAppend(a[1..], b);
      Assoc([a[0]], ReplaceCrlf(a[1..]), ReplaceCrlf(b));
    }
  }

  /** `s.replace(/(\/newmsg|\[newmsg\])\s*\/gi, "\n")`: each marker, with the
    * whitespace after it, becomes one line break; the scan resumes after it. */
  function ReplaceMarkers(s: string): string
    decreases |s|
  {
    if s == [] then []
    else if MarkerLen(s) > 0 then "\n" + ReplaceMarkers(s[SpacesEnd(s, MarkerLen(s))..])
    else [s[0]] + ReplaceMarkers(s[1..])
  }

  /** Keep the elements that are not empty strings (`filter(Boolean)`). */
  function NonEmptyLines(ls: seq<string>): (r: seq<string>)
    ensures forall l :: l in r <==> l in ls && l != []
  {
    if ls == [] then []
    else (if ls[0] != [] then [ls[0]] else []) + NonEmptyLines(ls[1..])
  }

  function TrimAll(ls: seq<string>): (r: seq<string>)
    ensures |r| == |ls| && forall k :: 0 <= k < |ls| ==> r[k] == Trim(ls[k])
  {
    seq(|ls|, k requires 0 <= k < |ls| => Trim(ls[k]))
  }

  /** The trimmed, non-empty lines of the reply after marker replacement. */
  function ReplyLines(reply: string): seq<string> {
    NonEmptyLines(TrimAll(SplitOn(ReplaceMarkers(ReplaceCrlf(reply)), '\n')))
  }

  const NoResponse: string := "/noresponse"

  /** The lines `processToolCommands` sends, in order: none when a line is
    * exactly `/noresponse`. */
  function OutgoingLines(reply: string): (r: seq<string>)
    ensures forall l :: l in r ==> l != [] && IsTrimmed(l) && '\n' !in l && l != NoResponse
    ensures NoResponse in ReplyLines(reply) ==> r == []
  {
    ReplyLinesShape(reply);
    if NoResponse in ReplyLines(reply) then [] else ReplyLines(reply)
  }

  /** Every reply line is a non-empty trimmed text without a line break. */
  lemma ReplyLinesShape(reply: string)
    ensures forall l :: l in ReplyLines(reply) ==> l != [] && IsTrimmed(l) && '\n' !in l
  {
    var parts := SplitOn(ReplaceMarkers(ReplaceCrlf(reply)), '\n');
    var trimmed := TrimAll(parts);
    assert ReplyLines(reply) == NonEmptyLines(trimmed);
    TrimmedLinesHaveNoBreak(parts);
    forall l | l in NonEmptyLines(trimmed) ensures l != [] && IsTrimmed(l) && '\n' !in l {
      var k :| 0 <= k < |trimmed| && trimmed[k] == l;
      assert l == Trim(parts[k]);
    }
  }

  lemma TrimmedLinesHaveNoBreak(parts: seq<string>)
    requires forall k :: 0 <= k < |parts| ==> '\n' !in parts[k]
    ensures forall k :: 0 <= k < |parts| ==> '\n' !in Trim(parts[k])
  {
    forall k | 0 <= k < |parts| ensures '\n' !in Trim(parts[k]) {
      var p := parts[k];
      var t := TrimStart(p);
      assert Trim(p) == TrimEnd(t) == t[..|TrimEnd(t)|];
      assert t == p[|p| - |t|..];
    }
  }

  /** A marker starts at position `j` of `s`. */
  predicate MarkerAt(s: string, j: nat)
    requires j <= |s|
  {
    MarkerLen(s[j..]) > 0
  }

  /** No marker starts anywhere in `s`. */
  predicate NoMarker(s: string) {
    forall j :: 0 <= j <= |s| ==> !MarkerAt(s, j)
  }

  lemma {:induction false} ReplaceMarkersNoMarker(s: string)
    requires NoMarker(s)
    ensures ReplaceMarkers(s) == s
    decreases |s|
  {
    if s != [] {
      assert !MarkerAt(s, 0) && s[0..] == s;
      NoMarkerTail(s);
      ReplaceMarkersNoMarker(s[1..]);
    }
  }

  lemma NoMarkerTail(s: string)
    requires s != [] && NoMarker(s)
    ensures NoMarker(s[1..])
  {
    forall j | 0 <= j <= |s[1..]| ensures !MarkerAt(s[1..], j) {
      assert s[1..][j..] == s[j + 1..];
      assert !MarkerAt(s, j + 1);
    }
  }

  lemma CopyPlainChar(t: string)
    requires t != [] && t[0] != '/' && t[0] != '['
    ensures ReplaceMarkers(t) == [t[0]] + ReplaceMarkers(t[1..])
  {
    NoMarkerStart(t);
  }

  /** Text in front of a marker is copied as it is when it holds no '/' or
    * '['; the marker and the whitespace after it become one line break. */
  lemma ReplaceMarkersBefore(a: string, m: string, b: string)
    requires '/' !in a && '[' !in a
    requires MarkerLen(m + b) == |m| > 0
    ensures ReplaceMarkers(a + m + b) == a + "\n" + ReplaceMarkers(TrimStart(b))
  {
    var mb := m + b;
    var tail := ReplaceMarkers(TrimStart(b));
    assert a + m + b == a + mb;
    CopyPlainPrefix(a, mb);
    ReplaceLeadingMarker(m, b);
    assert ReplaceMarkers(mb) == "\n" + tail;
    assert a + ("\n" + tail) == a + "\n" + tail;
  }

  /** Characters other than '/' and '[' cannot start a marker, so the scan
    * copies them. */
  lemma {:induction false} CopyPlainPrefix(a: string, rest: string)
    requires '/' !in a && '[' !in a
    ensures ReplaceMarkers(a + rest) == a + ReplaceMarkers(rest)
    decreases |a|
  {
    if a == [] {
      assert a + rest == rest;
    } else {
      var s := a + rest;
      assert s[0] == a[0] && s[1..] == a[1..] + rest;
      CopyPlainChar(s);
      CopyPlainPrefix(a[1..], rest);
      assert [a[0]] + (a[1..] + ReplaceMarkers(rest)) == a + ReplaceMarkers(rest);
    }
  }

  lemma ReplaceLeadingMarker(m: string, b: string)
    requires MarkerLen(m + b) == |m| > 0
    ensures ReplaceMarkers(m + b) == "\n" + ReplaceMarkers(TrimStart(b))
  {
    assert (m + b)[|m|..] == b;
    SpacesEndIsTrimStart(m + b, |m|);
  }

  /** No marker starts with a character other than '/' or '['. */
  lemma NoMarkerStart(s: string)
    requires s != [] && s[0] != '/' && s[0] != '['
    ensures MarkerLen(s) == 0
  {
    assert ToLowerChar(s[0]) != '/' && ToLowerChar(s[0]) != '[';
  }

  /** A marker between two plain single-line texts sends the two trimmed texts
    * as separate lines (empty ones dropped), or nothing when one of them is
    * `/noresponse`. */
  lemma MarkerSplitsLines(a: string, m: string, b: string)
    requires '/' !in a && '[' !in a && '\n' !in a && '\r' !in a
    requires NoMarker(b) && '\n' !in b && '\r' !in b
    requires ToLower(m) == "/newmsg" || ToLower(m) == "[newmsg]"
    ensures ReplyLines(a + m + b) == NonEmptyLines([Trim(a), Trim(b)])
    ensures OutgoingLines(a + m + b) ==
      (if Trim(a) == NoResponse || Trim(b) == NoResponse then [] else NonEmptyLines([Trim(a), Trim(b)]))
  {
    MarkerReplyLines(a, m, b);
    OutgoingOfLines(a + m + b);
    NoResponseInPair(Trim(a), Trim(b));
  }

  lemma NoResponseInPair(x: string, y: string)
    ensures NoResponse in NonEmptyLines([x, y]) <==> x == NoResponse || y == NoResponse
  {
    assert NoResponse != [];
  }

  /** The sent lines are the reply lines, unless one of them is `/noresponse`. */
  lemma OutgoingOfLines(reply: string)
    ensures OutgoingLines(reply) == (if NoResponse in ReplyLines(reply) then [] else ReplyLines(reply))
  {
  }

  lemma MarkerReplyLines(a: string, m: string, b: string)
    requires '/' !in a && '[' !in a && '\n' !in a && '\r' !in a
    requires NoMarker(b) && '\n' !in b && '\r' !in b
    requires ToLower(m) == "/newmsg" || ToLower(m) == "[newmsg]"
    ensures ReplyLines(a + m + b) == NonEmptyLines([Trim(a), Trim(b)])
  {
    MarkerBecomesBreak(a, m, b);
    TwoLines(a + m + b, a, TrimStart(b));
    TrimStartTrim(b);
  }

  /** A reply whose processed text holds one line break has two candidate lines. */
  lemma TwoLines(reply: string, a: string, t: string)
    requires '\n' !in a && '\n' !in t
    requires ReplaceMarkers(ReplaceCrlf(reply)) == a + "\n" + t
    ensures ReplyLines(reply) == NonEmptyLines([Trim(a), Trim(t)])
  {
    var x := ReplaceMarkers(ReplaceCrlf(reply));
    SplitAtBreak(a, t);
    var parts := SplitOn(x, '\n');
    assert parts == [a, t];
    TrimPair(a, t);
  }

  lemma TrimPair(a: string, t: string)
    ensures TrimAll([a, t]) == [Trim(a), Trim(t)]
  {
    var r := TrimAll([a, t]);
    var e := [Trim(a), Trim(t)];
    forall k | 0 <= k < 2 ensures r[k] == e[k] {
      assert [a, t][k] == if k == 0 then a else t;
    }
  }

  lemma MarkerBecomesBreak(a: string, m: string, b: string)
    requires '/' !in a && '[' !in a && '\r' !in a
    requires NoMarker(b) && '\r' !in b
    requires ToLower(m) == "/newmsg" || ToLower(m) == "[newmsg]"
    ensures ReplaceMarkers(ReplaceCrlf(a + m + b)) == a + "\n" + TrimStart(b)
  {
    MarkerText(m, b);
    assert '\r' !in a + m + b;
    ReplaceMarkersBefore(a, m, b);
    NoMarkerSuffix(b, |b| - |TrimStart(b)|);
    ReplaceMarkersNoMarker(TrimStart(b));
  }

  /** A marker spelled in any letter case is recognised, and holds no line break. */
  lemma MarkerText(m: string, b: string)
    requires ToLower(m) == "/newmsg" || ToLower(m) == "[newmsg]"
    ensures MarkerLen(m + b) == |m|
    ensures '\r' !in m && '\n' !in m
  {
    assert forall k :: 0 <= k < |m| ==> ToLowerChar(m[k]) == ToLower(m)[k];
    assert forall k :: 0 <= k < |m| ==> (m + b)[k] == m[k];
  }

  lemma NoMarkerSuffix(b: string, i: nat)
    requires i <= |b| && NoMarker(b)
    ensures NoMarker(b[i..])
  {
    forall j | 0 <= j <= |b[i..]| ensures !MarkerAt(b[i..], j) {
      assert b[i..][j..] == b[i + j..];
      assert !MarkerAt(b, i + j);
    }
  }

  lemma SplitAtBreak(a: string, t: string)
    requires '\n' !in a && '\n' !in t
    ensures SplitOn(a + "\n" + t, '\n') == [a, t]
  {
    var r := a + "\n" + t;
    assert r[|a|] == '\n' && r[..|a|] == a && r[|a| + 1..] == t;
    assert FirstIndexOfChar(r, '\n') == |a|;
  }

  lemma TrimStartTrim(b: string)
    ensures Trim(TrimStart(b)) == Trim(b)
  {
    TrimStartOfTrimmed(TrimStart(b));
  }

  /** A plain single-line reply is sent as one trimmed line, unless it is
    * empty or `/noresponse`. */
  lemma SingleLineReply(s: string)
    requires NoMarker(s) && '\n' !in s && '\r' !in s
    ensures OutgoingLines(s) == (if Trim(s) == [] || Trim(s) == NoResponse then [] else [Trim(s)])
  {
    ReplaceMarkersNoMarker(s);
    OneLine(s, s);
    OutgoingOfLines(s);
  }

  /** A reply whose processed text holds no line break has one candidate line. */
  lemma OneLine(reply: string, x: string)
    requires '\n' !in x && ReplaceMarkers(ReplaceCrlf(reply)) == x
    ensures ReplyLines(reply) == (if Trim(x) == [] then [] else [Trim(x)])
  {
    assert SplitOn(x, '\n') == [x];
    var ts := TrimAll([x]);
    assert ts == [Trim(x)];
    NonEmptyLine(Trim(x));
  }

  lemma NonEmptyLine(l: string)
    ensures NonEmptyLines([l]) == (if l == [] then [] else [l])
  {
    assert [l][1..] == [];
  }

  // ---------------------------------------------------------------------
  // The /addmemory directives (generateReply)
  // ---------------------------------------------------------------------

  const AddMemoryCommand: string := "/addmemory"

  /** The end of a match of the lazy `(.+?);` whose group starts at `a`: the
    * index of the first ';' after `a` with no line terminator in between. */
  function LazySemicolonFrom(s: string, j: nat): (r: Option<nat>)
    requires j <= |s|
    ensures r.Some? ==> j <= r.value < |s| && s[r.value] == ';'
    ensures r.Some? ==> forall k :: j <= k < r.value ==> s[k] != ';' && !IsLineTerminator(s[k])
    decreases |s| - j
  {
    if j == |s| then None
    else if s[j] == ';' then Some(j)
    else if IsLineTerminator(s[j]) then None
    else LazySemicolonFrom(s, j + 1)
  }

  function LazySemicolon(s: string, a: nat): (r: Option<nat>)
    requires a <= |s|
    ensures r.Some? ==> a < r.value < |s| && s[r.value] == ';'
    ensures r.Some? ==> forall k :: a <= k < r.value ==> !IsLineTerminator(s[k])
  {
    if a == |s| || IsLineTerminator(s[a]) then None else LazySemicolonFrom(s, a + 1)
  }

  /** A directive match: it starts at `start`, its group is `s[group..semi]`
    * and its ';' is at `semi`. */
  datatype Directive = Directive(start: nat, group: nat, semi: nat)

  /** `\s+` gives back characters one at a time until `(.+?);` matches,
    * starting from the longest whitespace run. */
  function TryGroups(s: string, lo: nat, k: nat): (r: Option<(nat, nat)>)
    requires lo <= k <= |s|
    ensures r.Some? ==> lo <= r.value.0 <= k && r.value.0 < r.value.1 < |s| && s[r.value.1] == ';'
    decreases k
  {
    match LazySemicolon(s, k)
    case Some(j) => Some((k, j))
    case None => if k == lo then None else TryGroups(s, lo, k - 1)
  }

  /** A match of `/\/addmemory\s+(.+?);/i` starting at position `i`. */
  function DirectiveAt(s: string, i: nat): (r: Option<Directive>)
    requires i <= |s|
    ensures r.Some? ==> r.value.start == i && i + 10 < r.value.group < r.value.semi < |s|
    ensures r.Some? ==> s[r.value.semi] == ';'
  {
    if !StartsWithIgnoreCase(s[i..], AddMemoryCommand) then None
    else
      var k := SpacesEnd(s, i + 10);
      if k == i + 10 then None
      else match TryGroups(s, i + 11, k)
        case None => None
        case Some(g) => Some(Directive(i, g.0, g.1))
  }

  /** `regex.exec(s)` from `lastIndex` 0: the leftmost directive, if any. */
  function FirstDirectiveFrom(s: string, i: nat): (r: Option<Directive>)
    requires i <= |s|
    ensures r.Some? ==> i <= r.value.start <= |s| && DirectiveAt(s, r.value.start) == r
    decreases |s| - i
  {
    if DirectiveAt(s, i).Some? then DirectiveAt(s, i)
    else if i == |s| then None
    else FirstDirectiveFrom(s, i + 1)
  }

  /** The match found is the leftmost one; with none found there is none anywhere. */
  lemma {:induction false} FirstDirectiveLeftmost(s: string, i: nat)
    requires i <= |s|
    ensures FirstDirectiveFrom(s, i).Some? ==>
      forall p :: i <= p < FirstDirectiveFrom(s, i).value.start ==> DirectiveAt(s, p).None?
    ensures FirstDirectiveFrom(s, i).None? ==> forall p :: i <= p <= |s| ==> DirectiveAt(s, p).None?
    decreases |s| - i
  {
    var r := FirstDirectiveFrom(s, i);
    if DirectiveAt(s, i).Some? {
      assert r == DirectiveAt(s, i) && r.value.start == i;
    } else if i == |s| {
      assert r.None?;
    } else {
      assert r == FirstDirectiveFrom(s, i + 1);
      FirstDirectiveLeftmost(s, i + 1);
      var end := if r.Some? then r.value.start else |s| + 1;
      forall p | i <= p < end ensures DirectiveAt(s, p).None? {
        if p > i {
          assert i + 1 <= p < end;
        }
      }
    }
  }

  function FirstDirective(s: string): Option<Directive> {
    FirstDirectiveFrom(s, 0)
  }

  /** `s.replace(pat, rep)` with a string pattern: only the first occurrence. */
  function ReplaceFirst(s: string, pat: string, rep: string): (r: string)
    ensures IndexOf(s, pat).None? ==> r == s
    ensures IndexOf(s, pat).Some? ==> |r| == |s| - |pat| + |rep|
  {
    match IndexOf(s, pat)
    case None => s
    case Some(i) => s[..i] + rep + s[i + |pat|..]
  }

  /** What the directive loop leaves: the reply and the memory texts it
    * stored, in order. */
  datatype DirectiveOutcome = DirectiveOutcome(reply: string, memories: seq<string>)

  /** The text of a match. */
  function Matched(reply: string, d: Directive): string
    requires d.start <= d.semi < |reply|
  {
    reply[d.start..d.semi + 1]
  }

  /** The reply after one handled directive: the first occurrence of the
    * matched text removed, then trimmed. It is shorter than before. */
  function RemoveDirective(reply: string, d: Directive): (next: string)
    requires d.start <= d.semi < |reply|
    ensures |next| < |reply|
  {
    assert OccursAt(reply, Matched(reply, d), d.start);
    Trim(ReplaceFirst(reply, Matched(reply, d), ""))
  }

  /** The stored text of a directive: its group, trimmed. */
  function DirectiveText(reply: string, d: Directive): (c: string)
    requires d.group <= d.semi <= |reply|
    ensures IsTrimmed(c)
  {
    Trim(reply[d.group..d.semi])
  }

  /** The directive loop from its `count`-th iteration: a fourth match ends it;
    * otherwise the trimmed group is stored when it is not empty, the first
    * occurrence of the matched text is removed and the reply trimmed. At most
    * three texts are stored, each trimmed and not empty. */
  function Directives(reply: string, count: nat): (r: DirectiveOutcome)
    requires count <= 3
    ensures |r.memories| <= 3 - count
    decreases |reply|
  {
    match FirstDirective(reply)
    case None => DirectiveOutcome(reply, [])
    case Some(d) =>
      if count + 1 > 3 then DirectiveOutcome(reply, [])
      else
        var content := DirectiveText(reply, d);
        var rest := Directives(RemoveDirective(reply, d), count + 1);
        DirectiveOutcome(rest.reply, (if content != [] then [content] else []) + rest.memories)
  }

  /** Every stored text is trimmed and not empty. */
  lemma {:induction false} DirectiveMemoriesTrimmed(reply: string, count: nat)
    requires count <= 3
    ensures AllStorable(Directives(reply, count).memories)
    decreases |reply|
  {
    var first := FirstDirective(reply);
    if first.Some? && count < 3 {
      var d := first.value;
      assert d.start <= d.group <= d.semi < |reply|;
      var next := RemoveDirective(reply, d);
      var content := DirectiveText(reply, d);
      var rest := Directives(next, count + 1);
      DirectivesStep(reply, d, count);
      DirectiveMemoriesTrimmed(next, count + 1);
      StoredTexts(content, rest.memories);
    } else {
      DirectivesStop(reply, count);
    }
  }

  /** Texts fit to store: trimmed and not empty. */
  predicate AllStorable(ms: seq<string>) {
    forall m :: m in ms ==> m != [] && IsTrimmed(m)
  }

  lemma StoredTexts(content: string, ms: seq<string>)
    requires IsTrimmed(content) && AllStorable(ms)
    ensures AllStorable((if content != [] then [content] else []) + ms)
  {
  }

  /** No match, or a fourth one, ends the loop with nothing stored. */
  lemma DirectivesStop(reply: string, count: nat)
    requires count <= 3 && (FirstDirective(reply).None? || count == 3)
    ensures Directives(reply, count) == DirectiveOutcome(reply, [])
  {
  }

  /** The reply `generateReply` returns after the directive loop: "Ok." when
    * nothing else is left. */
  function FinalReply(reply: string): (r: string)
    ensures r != []
    ensures Directives(reply, 0).reply != [] ==> r == Directives(reply, 0).reply
  {
    var out := Directives(reply, 0).reply;
    if out == [] then "Ok." else out
  }

  /** A reply without directives comes back unchanged, stores nothing, and
    * becomes "Ok." only when empty. */
  lemma NoDirectiveUnchanged(reply: string)
    requires FirstDirective(reply).None?
    ensures Directives(reply, 0) == DirectiveOutcome(reply, [])
    ensures FinalReply(reply) == if reply == [] then "Ok." else reply
  {
  }

  /** A reply that opens with one directive stores its text and keeps the rest. */
  lemma LeadingDirective(c: string, rest: string)
    requires c != [] && IsTrimmed(c) && ';' !in c
    requires forall k :: 0 <= k < |c| ==> !IsLineTerminator(c[k])
    requires FirstDirective(Trim(rest)).None?
    ensures Directives(AddMemoryCommand + " " + c + ";" + rest, 0) == DirectiveOutcome(Trim(rest), [c])
  {
    var reply := AddMemoryCommand + " " + c + ";" + rest;
    var d := Directive(0, 11, 11 + |c|);
    LeadingDirectiveFound(reply, c, rest);
    LeadingDirectiveRemoved(reply, c, rest);
    LeadingDirectiveText(reply, c, rest);
    DirectivesStep(reply, d, 0);
  }

  /** One iteration of the directive loop. */
  lemma DirectivesStep(reply: string, d: Directive, count: nat)
    requires count < 3 && FirstDirective(reply) == Some(d)
    requires d.start <= d.group <= d.semi < |reply|
    ensures Directives(reply, count) ==
      var content := DirectiveText(reply, d);
      var rest := Directives(RemoveDirective(reply, d), count + 1);
      DirectiveOutcome(rest.reply, (if content != [] then [content] else []) + rest.memories)
  {
  }

  /** The directive loop's invariant carried over one handled directive: what
    * is left to do from the shorter reply, after the texts stored so far, still
    * adds up to the outcome of the whole loop. */
  lemma DirectivesAdvance(total: DirectiveOutcome, reply: string, d: Directive, count: nat, stored: seq<string>)
    requires count < 3 && FirstDirective(reply) == Some(d)
    requires d.start <= d.group <= d.semi < |reply|
    requires total == DirectiveOutcome(Directives(reply, count).reply, stored + Directives(reply, count).memories)
    ensures var content := DirectiveText(reply, d);
            var stored' := if content != [] then stored + [content] else stored;
            var rest := Directives(RemoveDirective(reply, d), count + 1);
            total == DirectiveOutcome(rest.reply, stored' + rest.memories)
  {
    DirectivesStep(reply, d, count);
    StoredRegroup(stored, DirectiveText(reply, d), Directives(RemoveDirective(reply, d), count + 1).memories);
  }

  lemma StoredRegroup(stored: seq<string>, content: string, later: seq<string>)
    ensures stored + ((if content != [] then [content] else []) + later)
            == (if content != [] then stored + [content] else stored) + later
  {
    if content == [] {
      assert [] + later == later;
    }
  }

  lemma LeadingDirectiveText(reply: string, c: string, rest: string)
    requires reply == AddMemoryCommand + " " + c + ";" + rest
    requires IsTrimmed(c)
    ensures DirectiveText(reply, Directive(0, 11, 11 + |c|)) == c
  {
    OpensWithDirectiveParts(c, rest);
    TrimOfTrimmed(c);
  }

  /** The parts of a reply that opens with a directive. */
  predicate OpensWithDirective(reply: string, c: string, rest: string) {
    |reply| == 12 + |c| + |rest| && reply[..10] == AddMemoryCommand && reply[10] == ' ' &&
    reply[11..11 + |c|] == c && reply[11 + |c|] == ';' && reply[12 + |c|..] == rest
  }

  lemma OpensWithDirectiveParts(c: string, rest: string)
    ensures OpensWithDirective(AddMemoryCommand + " " + c + ";" + rest, c, rest)
  {
  }

  lemma LeadingDirectiveFound(reply: string, c: string, rest: string)
    requires reply == AddMemoryCommand + " " + c + ";" + rest
    requires c != [] && !IsSpace(c[0]) && ';' !in c
    requires forall k :: 0 <= k < |c| ==> !IsLineTerminator(c[k])
    ensures FirstDirective(reply) == Some(Directive(0, 11, 11 + |c|))
  {
    OpensWithDirectiveParts(c, rest);
    LeadingDirectiveAt(reply, c, rest);
  }

  lemma LeadingDirectiveAt(reply: string, c: string, rest: string)
    requires OpensWithDirective(reply, c, rest)
    requires c != [] && !IsSpace(c[0]) && ';' !in c
    requires forall k :: 0 <= k < |c| ==> !IsLineTerminator(c[k])
    ensures DirectiveAt(reply, 0) == Some(Directive(0, 11, 11 + |c|))
  {
    var semi := 11 + |c|;
    CommandPrefix(reply);
    assert reply[11] == c[0];
    assert SpacesEnd(reply, 11) == 11;
    assert SpacesEnd(reply, 10) == 11;
    assert forall k :: 11 <= k < semi ==> reply[k] == c[k - 11];
    LazyScan(reply, 12, semi);
    assert LazySemicolon(reply, 11) == Some(semi);
  }

  lemma CommandPrefix(reply: string)
    requires |reply| >= 10 && reply[..10] == AddMemoryCommand
    ensures StartsWithIgnoreCase(reply[0..], AddMemoryCommand)
  {
    assert reply[0..] == reply;
    assert forall k :: 0 <= k < 10 ==> reply[k] == AddMemoryCommand[k];
  }

  lemma LeadingDirectiveRemoved(reply: string, c: string, rest: string)
    requires reply == AddMemoryCommand + " " + c + ";" + rest
    ensures RemoveDirective(reply, Directive(0, 11, 11 + |c|)) == Trim(rest)
  {
    OpensWithDirectiveParts(c, rest);
    var matched := reply[0..12 + |c|];
    assert OccursAt(reply, matched, 0);
    assert IndexOf(reply, matched) == Some(0);
    assert ReplaceFirst(reply, matched, "") == rest;
  }

  lemma {:induction false} LazyScan(s: string, j: nat, semi: nat)
    requires j <= semi < |s| && s[semi] == ';'
    requires forall k :: j <= k < semi ==> s[k] != ';' && !IsLineTerminator(s[k])
    ensures LazySemicolonFrom(s, j) == Some(semi)
    decreases semi - j
  {
    if j < semi {
      LazyScan(s, j + 1, semi);
    }
  }
}
