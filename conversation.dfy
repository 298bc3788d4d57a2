/**
 * `buildShortTermConversation`: the short-term messages up to a time, of the
 * channel (or of every channel when channel instancing is disabled), stably
 * sorted by timestamp; with instancing disabled the channel's latest message
 * is moved to the end; then the last `limit` are kept and each becomes a chat
 * item.
 */
module Conversation {
  import opened Wrappers
  import opened JsText
  import opened Seqs
  import opened StableSort
  import opened Memory

  /** An item's content: plain text, or a text part followed by an image part. */
  datatype ItemContent = Text(text: string) | WithImage(text: string, url: string)

  datatype Item = Item(role: Role, content: ItemContent, channelId: string, authorName: string)

  predicate InWindow(settings: Settings, c: string, upToTime: int, m: Message) {
    m.timestamp <= upToTime && (settings.disableChannelInstancingForMemories || m.channelId == c)
  }

  function MessageTime(m: Message): real {
    m.timestamp as real
  }

  /** The last position of a message of channel `c`, if any. */
  function LastOfChannel(s: seq<Message>, c: string): (r: Option<nat>)
    ensures r.Some? ==> r.value < |s| && s[r.value].channelId == c
                        && forall j :: r.value < j < |s| ==> s[j].channelId != c
    ensures r.None? ==> forall j :: 0 <= j < |s| ==> s[j].channelId != c
  {
    if s == [] then None
    else if s[|s| - 1].channelId == c then Some(|s| - 1)
    else LastOfChannel(s[..|s| - 1], c)
  }

  /** With instancing disabled, the channel's last message (the sorted list's
    * last entry of channel `c`, as an object) is taken out and pushed at the end. */
  function MoveLastToEnd(s: seq<Message>, c: string): (r: seq<Message>)
    ensures |r| == |s|
  {
    match LastOfChannel(s, c)
    case None => s
    case Some(k) => s[..k] + s[k + 1..] + [s[k]]
  }

  /** The messages the conversation is built from, in order. */
  function ConversationMessages(settings: Settings, stm: seq<Message>, c: string, upToTime: int, limit: int)
    : seq<Message>
  {
    var ordered := OrderedWindow(settings, stm, c, upToTime);
    if limit > 0 then JsSliceFrom(ordered, -limit) else ordered
  }

  /** The whole window in conversation order, before the limit is applied. */
  function OrderedWindow(settings: Settings, stm: seq<Message>, c: string, upToTime: int): seq<Message> {
    var all := SortBy(Filter(stm, (m: Message) => InWindow(settings, c, upToTime, m)), MessageTime);
    if settings.disableChannelInstancingForMemories then MoveLastToEnd(all, c) else all
  }

  /** `[name (ID: id)]`. */
  function AuthorTag(m: Message): string {
    "[" + m.authorName + " (ID: " + m.authorId + ")]"
  }

  /** ` [Channel: c]` when instancing is disabled and the message has a channel. */
  function ChannelTag(settings: Settings, m: Message): string {
    if settings.disableChannelInstancingForMemories && m.channelId != "" then " [Channel: " + m.channelId + "]" else ""
  }

  /** The context tag of a conversation item: the author tag, then the channel tag. */
  function ContextTag(settings: Settings, m: Message): string {
    AuthorTag(m) + ChannelTag(settings, m)
  }

  /** One conversation item: ephemeral notes go in as system text as they are;
    * an image entry with a URL becomes a text part (the tag, plus the content
    * when it is not blank) and the image; anything else is `tag: content`. */
  function ToItem(settings: Settings, m: Message): Item {
    if m.ephemeral then Item(System, Text(m.content), m.channelId, m.authorName)
    else
      var tag := ContextTag(settings, m);
      var content :=
        if m.imageUrl.Some? && m.imageUrl.value != "" then
          WithImage(if Trim(m.content) != "" then tag + (": " + m.content) else tag, m.imageUrl.value)
        else Text(tag + (": " + m.content));
      Item(m.role, content, m.channelId, m.authorName)
  }

  function BuildConversation(settings: Settings, stm: seq<Message>, c: string, upToTime: int, limit: int)
    : (r: seq<Item>)
  {
    var ms := ConversationMessages(settings, stm, c, upToTime, limit);
    seq(|ms|, i requires 0 <= i < |ms| => ToItem(settings, ms[i]))
  }

  /** One item per selected message, in order. */
  lemma ConversationItems(settings: Settings, stm: seq<Message>, c: string, upToTime: int, limit: int)
    ensures var ms := ConversationMessages(settings, stm, c, upToTime, limit);
            var r := BuildConversation(settings, stm, c, upToTime, limit);
            |r| == |ms| && forall i :: 0 <= i < |r| ==> r[i] == ToItem(settings, ms[i])
  {
  }

  /** The items keep their message's channel and author; ephemeral messages
    * become system items carrying their raw content; every other item keeps
    * its role and its text opens with the author tag. */
  lemma ItemShape(settings: Settings, m: Message)
    ensures var it := ToItem(settings, m);
            it.channelId == m.channelId && it.authorName == m.authorName
            && (m.ephemeral ==> it.role == System && it.content == Text(m.content))
            && (!m.ephemeral ==> it.role == m.role && StartsWith(it.content.text, AuthorTag(m)))
  {
    if !m.ephemeral {
      if m.imageUrl.Some? && m.imageUrl.value != "" && Trim(m.content) == "" {
        TagOpensWithAuthor(settings, m, "");
        assert ContextTag(settings, m) + "" == ContextTag(settings, m);
      } else {
        TagOpensWithAuthor(settings, m, ": " + m.content);
      }
    }
  }

  /** Text after the context tag opens with the author tag. */
  lemma TagOpensWithAuthor(settings: Settings, m: Message, rest: string)
    ensures StartsWith(ContextTag(settings, m) + rest, AuthorTag(m))
  {
    var a := AuthorTag(m);
    var b := ChannelTag(settings, m);
    assert ContextTag(settings, m) + rest == a + (b + rest);
    StartsWithAppend(a, b + rest);
  }

  lemma StartsWithAppend(a: string, b: string)
    ensures StartsWith(a + b, a)
  {
    assert (a + b)[..|a|] == a;
  }

  /** The window: `slice(-limit)` keeps the last `min(limit, n)` of the `n`
    * ordered messages, and all of them when `limit` is not positive; every
    * selected message is a stored message no later than `upToTime`, of
    * channel `c` unless instancing is disabled. */
  lemma ConversationWindow(settings: Settings, stm: seq<Message>, c: string, upToTime: int, limit: int)
    ensures var ordered := OrderedWindow(settings, stm, c, upToTime);
            var n := if 0 < limit < |ordered| then limit else |ordered|;
            ConversationMessages(settings, stm, c, upToTime, limit) == ordered[|ordered| - n..]
    ensures forall m :: m in ConversationMessages(settings, stm, c, upToTime, limit) ==>
                          m in stm && InWindow(settings, c, upToTime, m)
  {
    LimitKeepsTail(OrderedWindow(settings, stm, c, upToTime), limit);
    OrderedWindowMembers(settings, stm, c, upToTime);
  }

  /** `limit > 0 ? s.slice(-limit) : s` is the last `min(limit, |s|)` elements,
    * or all of `s` for a limit that is not positive. */
  lemma LimitKeepsTail<T>(s: seq<T>, limit: int)
    ensures var n := if 0 < limit < |s| then limit else |s|;
            var r := if limit > 0 then JsSliceFrom(s, -limit) else s;
            r == s[|s| - n..] && forall x :: x in r ==> x in s
  {
    var n := if 0 < limit < |s| then limit else |s|;
    var r := if limit > 0 then JsSliceFrom(s, -limit) else s;
    assert r == s[|s| - n..];
    forall x | x in r ensures x in s {
      var i :| 0 <= i < |r| && r[i] == x;
      assert x == s[|s| - n + i];
    }
  }

  /** The ordered window holds only stored messages that are in the window. */
  lemma OrderedWindowMembers(settings: Settings, stm: seq<Message>, c: string, upToTime: int)
    ensures forall m :: m in OrderedWindow(settings, stm, c, upToTime) ==> m in stm && InWindow(settings, c, upToTime, m)
  {
    var p := (m: Message) => InWindow(settings, c, upToTime, m);
    var window := Filter(stm, p);
    FilterMembers(stm, p);
    OrderedFromWindow(SortBy(window, MessageTime), window, c, settings.disableChannelInstancingForMemories);
  }

  /** Sorting and moving the channel's last message only reorder the window. */
  lemma OrderedFromWindow(all: seq<Message>, window: seq<Message>, c: string, move: bool)
    requires all == SortBy(window, MessageTime)
    ensures forall m :: m in (if move then MoveLastToEnd(all, c) else all) ==> m in window
  {
    SortByPermutes(window, MessageTime);
    if move {
      MoveLastToEndPermutes(all, c);
    }
    forall m | m in (if move then MoveLastToEnd(all, c) else all) ensures m in window {
      assert m in multiset(all);
    }
  }

  lemma MoveLastToEndPermutes(s: seq<Message>, c: string)
    ensures multiset(MoveLastToEnd(s, c)) == multiset(s)
  {
    match LastOfChannel(s, c)
    case None =>
    case Some(k) =>
      assert s == s[..k] + [s[k]] + s[k + 1..];
  }

  /** With instancing on, the selected messages are in timestamp order. */
  lemma ConversationSorted(settings: Settings, stm: seq<Message>, c: string, upToTime: int, limit: int)
    requires !settings.disableChannelInstancingForMemories
    ensures var ms := ConversationMessages(settings, stm, c, upToTime, limit);
            forall i, j :: 0 <= i < j < |ms| ==> ms[i].timestamp <= ms[j].timestamp
  {
    var window := Filter(stm, (m: Message) => InWindow(settings, c, upToTime, m));
    var all := SortBy(window, MessageTime);
    SortBySorted(window, MessageTime);
    var ms := ConversationMessages(settings, stm, c, upToTime, limit);
    var off := |all| - |ms|;
    assert forall i :: 0 <= i < |ms| ==> ms[i] == all[off + i];
    forall i, j | 0 <= i < j < |ms| ensures ms[i].timestamp <= ms[j].timestamp {
      assert MessageTime(all[off + i]) <= MessageTime(all[off + j]);
    }
  }

  /** Last message last: with instancing disabled and some message of channel
    * `c` in the window, the final selected message is the channel's latest one
    * (its last entry in stable timestamp order), whatever the limit. */
  lemma ConversationEndsWithChannel(settings: Settings, stm: seq<Message>, c: string, upToTime: int, limit: int)
    requires settings.disableChannelInstancingForMemories
    requires exists m :: m in stm && m.channelId == c && m.timestamp <= upToTime
    ensures var ms := ConversationMessages(settings, stm, c, upToTime, limit);
            var all := SortBy(Filter(stm, (m: Message) => InWindow(settings, c, upToTime, m)), MessageTime);
            ms != [] && LastOfChannel(all, c).Some? && ms[|ms| - 1] == all[LastOfChannel(all, c).value]
  {
    var p := (m: Message) => InWindow(settings, c, upToTime, m);
    var window := Filter(stm, p);
    var all := SortBy(window, MessageTime);
    var m :| m in stm && m.channelId == c && m.timestamp <= upToTime;
    FilterMembers(stm, p);
    assert m in window;
    SortByPermutes(window, MessageTime);
    assert m in multiset(all);
    var i :| 0 <= i < |all| && all[i] == m;
    assert LastOfChannel(all, c).Some?;
    var k := LastOfChannel(all, c).value;
    var ordered := MoveLastToEnd(all, c);
    assert ordered[|ordered| - 1] == all[k];
    if limit > 0 {
      SliceFromKeepsLast(ordered, -limit);
    }
  }

  /** `s.slice(k)` with `k < 0` of a non-empty list ends with the list's last element. */
  lemma SliceFromKeepsLast<T>(s: seq<T>, k: int)
    requires k < 0 && s != []
    ensures var r := JsSliceFrom(s, k); r != [] && r[|r| - 1] == s[|s| - 1]
  {
  }
}
