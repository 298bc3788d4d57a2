/**
 * The plugin object: the state `AutoPilot` keeps in its fields and changes in
 * place (the memory tiers, the id supply, the queue, the responded-recently
 * map, the channel sessions and the settings' channel lists), and the methods
 * that change it. Each method is proved against the functions of the other
 * modules, where the properties of the plugin's behaviour are proved.
 */
module AutoPilotCore {
  import opened Wrappers
  import opened JsText
  import opened Seqs
  import opened Memory
  import opened Eviction
  import opened Cascade
  import Important
  import Reply
  import TextUtils
  import Decision

  // ---------------------------------------------------------------------------
  // Channel-list toggles (AutoPilot.js:1863-1885)

  /** `l.indexOf(c)`: the first position holding `c`. */
  function Position(l: seq<string>, c: string): (r: Option<nat>)
    ensures r.Some? ==> r.value < |l| && l[r.value] == c && c !in l[..r.value]
    ensures r.None? ==> c !in l
  {
    if l == [] then None
    else if l[0] == c then Some(0)
    else
      match Position(l[1..], c)
      case None => None
      case Some(i) =>
        assert l[..i + 1] == [l[0]] + l[1..][..i];
        Some(i + 1)
  }

  /** The channel list after a toggle: the first occurrence of `c` spliced
    * out, or `c` pushed at the end when absent. */
  function Toggle(l: seq<string>, c: string): seq<string> {
    match Position(l, c)
    case Some(i) => l[..i] + l[i + 1..]
    case None => l + [c]
  }

  predicate NoDuplicates(l: seq<string>) {
    forall i, j :: 0 <= i < j < |l| ==> l[i] != l[j]
  }

  /** A toggle removes one occurrence of a listed channel and adds an unlisted
    * one at the end; every other channel keeps its count. */
  lemma ToggleCounts(l: seq<string>, c: string)
    ensures c in l ==> multiset(Toggle(l, c)) == multiset(l) - multiset{c}
    ensures c !in l ==> Toggle(l, c) == l + [c]
  {
    match Position(l, c)
    case None =>
    case Some(i) =>
      assert l == l[..i] + [c] + l[i + 1..];
  }

  /** Toggling a listed channel of a duplicate-free list removes it altogether
    * and leaves the list duplicate-free. */
  lemma ToggleRemoves(l: seq<string>, c: string)
    requires NoDuplicates(l) && c in l
    ensures c !in Toggle(l, c) && NoDuplicates(Toggle(l, c))
  {
    var i := Position(l, c).value;
    var r := Toggle(l, c);
    assert r == l[..i] + l[i + 1..];
    forall a | 0 <= a < |r| ensures r[a] == l[if a < i then a else a + 1] && r[a] != c {
      var a' := if a < i then a else a + 1;
      assert r[a] == l[a'];
      assert a' != i;
    }
    forall a, b | 0 <= a < b < |r| ensures r[a] != r[b] {
      var a' := if a < i then a else a + 1;
      var b' := if b < i then b else b + 1;
      assert r[a] == l[a'] && r[b] == l[b'];
    }
  }

  /** Toggling an unlisted channel of a duplicate-free list adds it and leaves
    * the list duplicate-free. */
  lemma ToggleAdds(l: seq<string>, c: string)
    requires NoDuplicates(l) && c !in l
    ensures c in Toggle(l, c) && NoDuplicates(Toggle(l, c))
  {
    ToggleCounts(l, c);
    var r := Toggle(l, c);
    assert r[|l|] == c;
    forall a, b | 0 <= a < b < |r| ensures r[a] != r[b] {
      assert r[a] == l[a];
      if b < |l| {
        assert r[b] == l[b];
      }
    }
  }

  /** On a list without duplicates a toggle flips membership of `c` and keeps
    * the list free of duplicates. */
  lemma ToggleFlips(l: seq<string>, c: string)
    requires NoDuplicates(l)
    ensures c in Toggle(l, c) <==> c !in l
    ensures NoDuplicates(Toggle(l, c))
  {
    if c in l {
      ToggleRemoves(l, c);
    } else {
      ToggleAdds(l, c);
    }
  }

  /** Toggling an unlisted channel twice gives back the list. */
  lemma ToggleTwice(l: seq<string>, c: string)
    requires c !in l
    ensures Toggle(Toggle(l, c), c) == l
  {
    ToggleCounts(l, c);
    var p := Position(l + [c], c);
    assert (l + [c])[|l|] == c;
    assert p.Some? && p.value == |l|;
    assert (l + [c])[..|l|] == l;
  }

  // ---------------------------------------------------------------------------
  // The message queue (AutoPilot.js:1161-1185)

  /** What `enqueueMessage` queues for a message that should be answered. */
  datatype QueueItem = QueueItem(channelId: string, content: string, dedupeKey: string, authorId: string)

  /** The items the drain loop hands to `handleReplyFlow`, in order: an item
    * is skipped when others remain behind it and the already-answered check
    * says yes. `answered` is that check, as a function of channel and content. */
  function Handled(q: seq<QueueItem>, answered: (string, string) -> bool): seq<QueueItem> {
    if q == [] then []
    else (if |q| > 1 && answered(q[0].channelId, q[0].content) then [] else [q[0]]) + Handled(q[1..], answered)
  }

  predicate Unanswered(answered: (string, string) -> bool, x: QueueItem) {
    !answered(x.channelId, x.content)
  }

  /** FIFO drain: of a queue ending in `last`, the items before it are handled
    * in queue order exactly when the check says they were not answered, and
    * `last` is always handled, after all of them. */
  lemma {:induction false} HandledIsFilter(front: seq<QueueItem>, last: QueueItem, answered: (string, string) -> bool)
    ensures Handled(front + [last], answered)
            == Filter(front, (x: QueueItem) => Unanswered(answered, x)) + [last]
  {
    if front == [] {
      assert front + [last] == [last];
    } else {
      assert (front + [last])[1..] == front[1..] + [last];
      HandledIsFilter(front[1..], last, answered);
    }
  }

  // ---------------------------------------------------------------------------
  // Important memory fed by the `/addmemory` loop (AutoPilot.js:1050-1066, 1540-1547)

  /** The important list after `addImportantMemory` of each text in turn. */
  function AddAllImportant(imp: seq<ImportantEntry>, settings: Settings, texts: seq<string>, now: int)
    : seq<ImportantEntry>
    decreases |texts|
  {
    if texts == [] then imp
    else
      Important.AddImportant(AddAllImportant(imp, settings, texts[..|texts| - 1], now),
                             settings.importantMemoryEnabled, settings.importantMemoryLimit,
                             texts[|texts| - 1], now)
  }

  /** Storing one more text is one more `addImportantMemory`. */
  lemma AddAllImportantSnoc(imp: seq<ImportantEntry>, settings: Settings, texts: seq<string>, t: string, now: int)
    ensures AddAllImportant(imp, settings, texts + [t], now)
            == Important.AddImportant(AddAllImportant(imp, settings, texts, now),
                                      settings.importantMemoryEnabled, settings.importantMemoryLimit, t, now)
  {
    assert (texts + [t])[..|texts|] == texts;
  }

  /** Disabled, the list is unchanged; enabled with a limit of at least 1, it
    * ends with the last stored text and stays within the limit. */
  lemma {:induction false} AddAllImportantBounded(imp: seq<ImportantEntry>, settings: Settings, texts: seq<string>, now: int)
    requires texts != []
    ensures !settings.importantMemoryEnabled ==> AddAllImportant(imp, settings, texts, now) == imp
    ensures settings.importantMemoryEnabled && settings.importantMemoryLimit >= 1 ==>
              var r := AddAllImportant(imp, settings, texts, now);
              |r| <= settings.importantMemoryLimit && r != []
              && r[|r| - 1] == ImportantEntry(texts[|texts| - 1], now)
    decreases |texts|
  {
    var before := AddAllImportant(imp, settings, texts[..|texts| - 1], now);
    if |texts| > 1 && !settings.importantMemoryEnabled {
      AddAllImportantBounded(imp, settings, texts[..|texts| - 1], now);
    }
    Important.AddImportantBounded(before, settings.importantMemoryEnabled, settings.importantMemoryLimit,
                                  texts[|texts| - 1], now);
  }

  /** `addPersonalityEntry`'s embedding: requested when a key is set. */
  function PersonalityEmbedding(settings: Settings, o: Oracles, text: string): Option<Vector> {
    if settings.openAiApiKey == "" then None else o.embed(text)
  }

  // ---------------------------------------------------------------------------
  // The plugin object

  // The notices `processOwnerCommand` sends back to the owner.
  const PushedToLongNotice: string := "Manually pushed Medium-Term to Long-Term memory."
  const PushedToMediumNotice: string := "Manually pushed Short-Term to Medium-Term memory."
  const ConversationEndedNotice: string := "Conversation ended, memory segments updated."
  const PersonalityAddedNotice: string := "Personality entry added to your profile."
  const UnknownCommandPrefix: string := "Unknown owner command: "

  class AutoPilot {
    var settings: Settings
    var stm: seq<Message>                       // shortTermMemory
    var medium: seq<Summary>                    // _memoryCache.mediumTermMemory
    var long: seq<Summary>                      // _memoryCache.longTermMemory
    var global: seq<GlobalEntry>                // _memoryCache.globalMemory
    var important: seq<ImportantEntry>          // _memoryCache.importantMemory
    var personality: seq<PersonalityEntry>      // _memoryCache.personalityMemory
    var nextId: Id                              // the fresh-id supply behind generateUniqueId
    var responded: map<string, int>             // respondedRecently
    var sessions: map<string, Decision.Session> // activeChannelSessions
    var queue: seq<QueueItem>                   // messageQueue
    var queueProcessing: bool

    /** The tiers the cascade reads and writes. */
    function TierState(): Tiers
      reads this
    {
      Tiers(stm, medium, long, nextId)
    }

    constructor ()
      ensures settings == DefaultSettings()
      ensures stm == [] && medium == [] && long == [] && global == [] && important == [] && personality == []
      ensures responded == map[] && sessions == map[] && queue == [] && !queueProcessing
    {
      settings := DefaultSettings();
      stm := [];
      medium := [];
      long := [];
      global := [];
      important := [];
      personality := [];
      nextId := 0;
      responded := map[];
      sessions := map[];
      queue := [];
      queueProcessing := false;
    }

    /** `loadAllMemories`: with a snapshot, every tier is replaced by the
      * stored array, or by `[]` when the stored value is not an array. */
    method LoadAllMemories(loaded: Option<Snapshot>)
      modifies this`medium, this`long, this`global, this`important, this`personality
      ensures loaded.None? ==> medium == old(medium) && long == old(long) && global == old(global)
                               && important == old(important) && personality == old(personality)
      ensures loaded.Some? ==>
                medium == ShapeTier(loaded.value.mediumTermMemory)
                && long == ShapeTier(loaded.value.longTermMemory)
                && global == ShapeTier(loaded.value.globalMemory)
                && important == ShapeTier(loaded.value.importantMemory)
                && personality == ShapeTier(loaded.value.personalityMemory)
    {
      if loaded.Some? {
        var data := loaded.value;
        medium := ShapeTier(data.mediumTermMemory);
        long := ShapeTier(data.longTermMemory);
        global := ShapeTier(data.globalMemory);
        important := ShapeTier(data.importantMemory);
        personality := ShapeTier(data.personalityMemory);
      }
    }

    method ToggleChannelWhitelist(c: string)
      modifies this`settings
      ensures settings == old(settings).(whitelist := Toggle(old(settings.whitelist), c))
    {
      var idx := Position(settings.whitelist, c);
      if idx.Some? {
        var w := settings.whitelist;
        settings := settings.(whitelist := w[..idx.value] + w[idx.value + 1..]);
      } else {
        settings := settings.(whitelist := settings.whitelist + [c]);
      }
    }

    method ToggleChannelProactiveMode(c: string)
      modifies this`settings
      ensures settings == old(settings).(proactiveModeChannels := Toggle(old(settings.proactiveModeChannels), c))
    {
      var idx := Position(settings.proactiveModeChannels, c);
      if idx.Some? {
        var p := settings.proactiveModeChannels;
        settings := settings.(proactiveModeChannels := p[..idx.value] + p[idx.value + 1..]);
      } else {
        settings := settings.(proactiveModeChannels := settings.proactiveModeChannels + [c]);
      }
    }

    method MarkAsResponded(key: string, now: int)
      modifies this`responded
      ensures responded == Decision.MarkResponded(old(responded), key, now)
    {
      responded := responded[key := now];
    }

    /** The session bookkeeping of an incoming message; `ended` says the
      * message was "!end session". */
    method UpdateSession(c: string, content: string, now: int) returns (ended: bool)
      modifies this`sessions
      ensures (sessions, ended) == Decision.SessionStep(old(sessions), c, now, settings.sessionIdleMs, content)
    {
      var session := if c in sessions then sessions[c] else Decision.Session(false, 0);
      if session.isActive && now - session.lastActivity > settings.sessionIdleMs {
        session := session.(isActive := false);
      }
      session := session.(lastActivity := now);
      ended := Decision.IsEndSession(content);
      if ended {
        session := session.(isActive := false);
      }
      sessions := sessions[c := session];
    }

    // -------------------------------------------------------------------------
    // Queue

    /** `processQueue`: drains the queue in order and returns the items handed
      * to the reply flow. A drain already under way makes it return at once. */
    method ProcessQueue(answered: (string, string) -> bool) returns (handled: seq<QueueItem>)
      modifies this`queue, this`queueProcessing
      ensures old(queueProcessing) ==> handled == [] && queue == old(queue) && queueProcessing
      ensures !old(queueProcessing) ==> handled == Handled(old(queue), answered) && queue == [] && !queueProcessing
    {
      handled := [];
      if queueProcessing {
        return;
      }
      queueProcessing := true;
      while |queue| > 0
        invariant handled + Handled(queue, answered) == Handled(old(queue), answered)
        decreases |queue|
      {
        var item := queue[0];
        ghost var q := queue;
        queue := queue[1..];
        if |queue| > 0 {
          var wasAnswered := answered(item.channelId, item.content);
          if wasAnswered {
            assert Handled(q, answered) == Handled(queue, answered);
            continue;
          }
        }
        assert Handled(q, answered) == [item] + Handled(queue, answered);
        handled := handled + [item];
      }
      queueProcessing := false;
    }

    /** `enqueueMessage`: push, then drain. */
    method EnqueueMessage(item: QueueItem, answered: (string, string) -> bool) returns (handled: seq<QueueItem>)
      modifies this`queue, this`queueProcessing
      ensures old(queueProcessing) ==> handled == [] && queue == old(queue) + [item] && queueProcessing
      ensures !old(queueProcessing) ==>
                handled == Filter(old(queue), (x: QueueItem) => Unanswered(answered, x)) + [item]
                && queue == [] && !queueProcessing
    {
      queue := queue + [item];
      handled := ProcessQueue(answered);
      HandledIsFilter(old(queue), item, answered);
    }

    // -------------------------------------------------------------------------
    // Important memory

    /** `addImportantMemory`, with the loop guard corrected to stop on an
      * empty list (the original never stops when the limit is 0 or less). */
    method AddImportantMemory(content: string, now: int)
      modifies this`important
      ensures important == Important.AddImportant(old(important), settings.importantMemoryEnabled,
                                                  settings.importantMemoryLimit, content, now)
    {
      if !settings.importantMemoryEnabled {
        return;
      }
      while |important| > 0 && |important| >= settings.importantMemoryLimit
        invariant Important.DropOldest(important, settings.importantMemoryLimit)
                  == Important.DropOldest(old(important), settings.importantMemoryLimit)
        decreases |important|
      {
        important := important[1..];
      }
      important := important + [ImportantEntry(content, now)];
    }

    /** The `/addmemory` loop of `generateReply`: at most three directives are
      * handled; each non-empty trimmed text is stored in important memory and
      * the matched directive is cut from the reply; an empty result becomes
      * "Ok.". `stored` lists the texts stored, in order. */
    method ApplyAddMemoryDirectives(reply0: string, now: int) returns (out: string, stored: seq<string>)
      modifies this`important
      ensures stored == Reply.Directives(reply0, 0).memories
      ensures out == Reply.FinalReply(reply0)
      ensures important == AddAllImportant(old(important), settings, stored, now)
    {
      ghost var total := Reply.Directives(reply0, 0);
      var reply := reply0;
      var count: nat := 0;
      stored := [];
      assert stored + total.memories == total.memories;
      while true
        invariant count <= 3
        invariant total == Reply.DirectiveOutcome(Reply.Directives(reply, count).reply,
                                                  stored + Reply.Directives(reply, count).memories)
        invariant important == AddAllImportant(old(important), settings, stored, now)
        decreases |reply|
      {
        var m := Reply.FirstDirective(reply);
        if m.None? || count + 1 > 3 {
          Reply.DirectivesStop(reply, count);
          assert stored + [] == stored;
          break;
        }
        var d := m.value;
        assert d.start <= d.group <= d.semi < |reply|;
        Reply.DirectivesAdvance(total, reply, d, count, stored);
        var content := Reply.DirectiveText(reply, d);
        if content != "" {
          AddImportantMemory(content, now);
          AddAllImportantSnoc(old(important), settings, stored, content, now);
          stored := stored + [content];
        }
        reply := Reply.RemoveDirective(reply, d);
        count := count + 1;
      }
      out := if reply == "" then "Ok." else reply;
    }

    // -------------------------------------------------------------------------
    // The memory cascade

    /** `updateMemoryEmbedding` applied to the long-term entry at position `k`. */
    method UpdateLongEmbedding(k: nat, o: Oracles)
      requires k < |long|
      modifies this`long
      ensures long == old(long)[k := Backfill(settings, o, old(long)[k])]
    {
      var mem := long[k];
      if !settings.longTermStorageEnabled || settings.openAiApiKey == "" || mem.embedding.Some? {
        return;
      }
      var emb := o.embed(mem.content);
      if emb.Some? {
        long := long[k := mem.(embedding := emb)];
      }
    }

    /** One pass of the summarising loop of `processShortTermMemoryForChannel`:
      * a successful summary of segment `i` is pushed as a medium-term segment
      * carrying the batch's group id. */
    method PushMediumSegment(splitted: seq<string>, i: nat, groupId: Id, c: string, o: Oracles, now: int,
                             ghost base: seq<Summary>)
      requires i < |splitted|
      requires medium == base + Segments(settings, o, ShortToMedium, splitted, i, groupId, groupId + 1, c, now)
      modifies this`medium
      ensures medium == base + Segments(settings, o, ShortToMedium, splitted, i + 1, groupId, groupId + 1, c, now)
    {
      var summary := SummaryOf(settings, o, splitted[i]);
      if Succeeded(summary) {
        SegmentsSucceeded(settings, o, ShortToMedium, splitted, i, groupId, groupId + 1, c, now);
        var rec := Summary(groupId, groupId, i + 1, MediumKind, c, SummarizerId, SummarizerName,
                           MediumContent(i + 1, summary.value), now, None);
        medium := medium + [rec];
        SnocAssoc(base, Segments(settings, o, ShortToMedium, splitted, i, groupId, groupId + 1, c, now), rec);
      } else {
        SegmentsFailed(settings, o, ShortToMedium, splitted, i, groupId, groupId + 1, c, now);
      }
    }

    /** The summarising loop of `processShortTermMemoryForChannel`. */
    method PushMediumSegments(splitted: seq<string>, groupId: Id, c: string, o: Oracles, now: int)
      modifies this`medium
      ensures medium == old(medium) + Segments(settings, o, ShortToMedium, splitted, |splitted|, groupId, groupId + 1, c, now)
    {
      var i := 0;
      while i < |splitted|
        invariant i <= |splitted|
        invariant medium == old(medium) + Segments(settings, o, ShortToMedium, splitted, i, groupId, groupId + 1, c, now)
      {
        PushMediumSegment(splitted, i, groupId, c, o, now, old(medium));
        i := i + 1;
      }
    }

    /** One pass of the summarising loop of `processMediumTermMemoryForChannel`:
      * a successful summary of segment `i` is pushed as a long-term summary
      * with a fresh id and then given its embedding. */
    method PushLongSegment(splitted: seq<string>, i: nat, groupId: Id, c: string, o: Oracles, now: int,
                           ghost base: seq<Summary>, ghost firstId: Id)
      requires i < |splitted|
      requires long == base + Segments(settings, o, MediumToLong, splitted, i, groupId, firstId, c, now)
      requires nextId == firstId + |Segments(settings, o, MediumToLong, splitted, i, groupId, firstId, c, now)|
      modifies this`long, this`nextId
      ensures long == base + Segments(settings, o, MediumToLong, splitted, i + 1, groupId, firstId, c, now)
      ensures nextId == firstId + |Segments(settings, o, MediumToLong, splitted, i + 1, groupId, firstId, c, now)|
    {
      var chunkSummary := SummaryOf(settings, o, splitted[i]);
      if !Succeeded(chunkSummary) {
        SegmentsFailed(settings, o, MediumToLong, splitted, i, groupId, firstId, c, now);
      } else {
        SegmentsSucceeded(settings, o, MediumToLong, splitted, i, groupId, firstId, c, now);
        ghost var prev := Segments(settings, o, MediumToLong, splitted, i, groupId, firstId, c, now);
        ghost var rec := Record(settings, o, MediumToLong, groupId, nextId, i + 1, c, chunkSummary.value, now);
        var ltmEntry := Summary(nextId, groupId, i + 1, LongKind, c, SummarizerId, SummarizerName,
                                LongContent(i + 1, chunkSummary.value), now, None);
        PromotedRecord(settings, o, groupId, nextId, i + 1, c, chunkSummary.value, now);
        nextId := nextId + 1;
        long := long + [ltmEntry];
        UpdateLongEmbedding(|long| - 1, o);
        assert long == base + prev + [rec];
        SnocAssoc(base, prev, rec);
      }
    }

    /** The summarising loop of `processMediumTermMemoryForChannel`. */
    method PushLongSegments(splitted: seq<string>, groupId: Id, c: string, o: Oracles, now: int)
      modifies this`long, this`nextId
      ensures long == old(long) + Segments(settings, o, MediumToLong, splitted, |splitted|, groupId, old(nextId), c, now)
      ensures nextId == old(nextId) + |Segments(settings, o, MediumToLong, splitted, |splitted|, groupId, old(nextId), c, now)|
    {
      var i := 0;
      while i < |splitted|
        invariant i <= |splitted|
        invariant long == old(long) + Segments(settings, o, MediumToLong, splitted, i, groupId, old(nextId), c, now)
        invariant nextId == old(nextId) + |Segments(settings, o, MediumToLong, splitted, i, groupId, old(nextId), c, now)|
      {
        PushLongSegment(splitted, i, groupId, c, o, now, old(long), old(nextId));
        i := i + 1;
      }
    }

    /** One pass of the summarising loop of `processLongTermMemoryForChannel`:
      * a successful summary of segment `i` becomes a long-term summary with a
      * fresh id, is given its embedding and then pushed. */
    method PushRecompactedSegment(splitted: seq<string>, i: nat, groupId: Id, c: string, o: Oracles, now: int,
                                  ghost base: seq<Summary>, ghost firstId: Id)
      requires i < |splitted|
      requires long == base + Segments(settings, o, Recompact, splitted, i, groupId, firstId, c, now)
      requires nextId == firstId + |Segments(settings, o, Recompact, splitted, i, groupId, firstId, c, now)|
      modifies this`long, this`nextId
      ensures long == base + Segments(settings, o, Recompact, splitted, i + 1, groupId, firstId, c, now)
      ensures nextId == firstId + |Segments(settings, o, Recompact, splitted, i + 1, groupId, firstId, c, now)|
    {
      var partialSummary := SummaryOf(settings, o, splitted[i]);
      if !Succeeded(partialSummary) {
        SegmentsFailed(settings, o, Recompact, splitted, i, groupId, firstId, c, now);
      } else {
        SegmentsSucceeded(settings, o, Recompact, splitted, i, groupId, firstId, c, now);
        var id := nextId;
        var entry := Summary(id, groupId, i + 1, LongKind, c, SummarizerId, SummarizerName,
                             Trim(partialSummary.value), now, None);
        nextId := nextId + 1;
        entry := Backfill(settings, o, entry);
        assert entry == Record(settings, o, Recompact, groupId, id, i + 1, c, partialSummary.value, now);
        long := long + [entry];
        SnocAssoc(base, Segments(settings, o, Recompact, splitted, i, groupId, firstId, c, now), entry);
      }
    }

    /** The summarising loop of `processLongTermMemoryForChannel`. */
    method PushRecompactedSegments(splitted: seq<string>, groupId: Id, c: string, o: Oracles, now: int)
      modifies this`long, this`nextId
      ensures long == old(long) + Segments(settings, o, Recompact, splitted, |splitted|, groupId, old(nextId), c, now)
      ensures nextId == old(nextId) + |Segments(settings, o, Recompact, splitted, |splitted|, groupId, old(nextId), c, now)|
    {
      var i := 0;
      while i < |splitted|
        invariant i <= |splitted|
        invariant long == old(long) + Segments(settings, o, Recompact, splitted, i, groupId, old(nextId), c, now)
        invariant nextId == old(nextId) + |Segments(settings, o, Recompact, splitted, i, groupId, old(nextId), c, now)|
      {
        PushRecompactedSegment(splitted, i, groupId, c, o, now, old(long), old(nextId));
        i := i + 1;
      }
    }

    /** `processLongTermMemoryForChannel`. */
    method ProcessLongTermMemory(c: string, o: Oracles, now: int)
      modifies this`long, this`nextId
      ensures TierState() == LongStage(settings, o, old(TierState()), c, now)
    {
      var longEntries := ChannelLong(long, c);
      if settings.longTermMemoryTriggerCount > 0 && |longEntries| >= settings.longTermMemoryTriggerCount
         && settings.useMemorySummaries
      {
        var splitted := o.split(LabelledContents("[Long Summary]: ", longEntries));
        if |splitted| > 0 {
          var groupId := nextId;
          nextId := nextId + 1;
          long := Filter(long, (m: Summary) => !IsChannelLong(c, m));
          PushRecompactedSegments(splitted, groupId, c, o, now);
          assert TierState() == Recompacted(settings, o, old(TierState()), splitted, c, now);
        }
      }
      assert TierState() == Recompaction(settings, o, old(TierState()), c, now);
      if settings.longTermMemoryLimit != -1 {
        var updatedEntries := ChannelLong(long, c);
        if |updatedEntries| > settings.longTermMemoryLimit {
          var removeIds := SurplusIds(updatedEntries, settings.longTermMemoryLimit);
          long := Filter(long, (m: Summary) => m.channelId != c || m.id !in removeIds);
        }
      }
    }

    /** `processMediumTermMemoryForChannel`. */
    method ProcessMediumTermMemory(c: string, o: Oracles, now: int, force: bool)
      modifies this`medium, this`long, this`nextId
      ensures TierState() == MediumStage(settings, o, old(TierState()), c, now, force)
    {
      var mediumMessages := ChannelMedium(medium, c);
      if (force && |mediumMessages| > 0) || (!force && |mediumMessages| >= settings.mediumTermMemoryTriggerCount) {
        var splitted := o.split(LabelledContents("[Medium Summary]: ", mediumMessages));
        if |splitted| > 0 {
          var groupId := nextId;
          nextId := nextId + 1;
          PushLongSegments(splitted, groupId, c, o, now);
          medium := Filter(medium, (m: Summary) => m.channelId != c);
          assert TierState() == MediumPromotion(settings, o, old(TierState()), splitted, c, now);
          ProcessLongTermMemory(c, o, now);
        }
      }
    }

    /** `processShortTermMemoryForChannel`. */
    method ProcessShortTermMemory(c: string, o: Oracles, now: int, force: bool)
      modifies this`stm, this`medium, this`long, this`nextId
      ensures TierState() == ShortStage(settings, o, old(TierState()), c, now, force)
    {
      var channelMsgs := ChannelMessages(stm, c);
      var retention := settings.shortTermMemoryRetention;
      if !force && |channelMsgs| <= settings.shortTermMemoryLimit {
        return;
      }
      var toSummarize := JsSlice(channelMsgs, 0, |channelMsgs| - retention);
      if |toSummarize| == 0 {
        return;
      }
      var splitted := o.split(Transcript(toSummarize));
      if |splitted| > 0 {
        PromoteShortTerm(splitted, c, o, now);
        ProcessMediumTermMemory(c, o, now, false);
      }
    }

    /** The promotion step of `processShortTermMemoryForChannel`, once the
      * transcript has been split into a non-empty list of parts. */
    method PromoteShortTerm(splitted: seq<string>, c: string, o: Oracles, now: int)
      modifies this`stm, this`medium, this`nextId
      ensures TierState() == ShortPromotion(settings, o, old(TierState()), splitted, c, now)
    {
      var channelMsgs := ChannelMessages(stm, c);
      var groupId := nextId;
      nextId := nextId + 1;
      PushMediumSegments(splitted, groupId, c, o, now);
      var retained := JsSliceFrom(channelMsgs, -settings.shortTermMemoryRetention);
      stm := OtherMessages(stm, c) + retained;
    }

    /** `shortTermMemoryPush`. */
    method ShortTermMemoryPush(msg: Message, o: Oracles, now: int)
      modifies this`stm, this`medium, this`long, this`nextId
      ensures TierState() == PushMessage(settings, o, old(TierState()), msg, now)
    {
      var m := msg;
      if m.content != "" {
        m := m.(content := TextUtils.StripWatermark(settings.aiWatermarkText, m.content));
      }
      stm := stm + [m];
      var count := |ChannelMessages(stm, m.channelId)|;
      if count > settings.shortTermMemoryLimit {
        ProcessShortTermMemory(m.channelId, o, now, false);
      }
    }

    /** `autoSummarizeIfNeeded`. */
    method AutoSummarizeIfNeeded(c: string, o: Oracles, now: int)
      modifies this`stm, this`medium, this`long, this`nextId
      ensures TierState() == AutoSummarize(settings, o, old(TierState()), c, now)
    {
      var count := |ChannelMessages(stm, c)|;
      if count >= settings.shortTermMemoryLimit {
        ProcessShortTermMemory(c, o, now, false);
      }
    }

    /** `checkAndStoreGlobalMemory`: a message holding one of the global-memory
      * phrases adds one global entry with a fresh id; any other message
      * changes nothing. */
    method CheckAndStoreGlobalMemory(authorId: string, authorName: string, content: string, now: int)
      modifies this`global, this`nextId
      ensures TextUtils.GlobalMemoryText(content).None? ==> global == old(global) && nextId == old(nextId)
      ensures TextUtils.GlobalMemoryText(content).Some? ==>
                global == old(global) + [GlobalEntry(old(nextId), authorId, authorName,
                                                     TextUtils.GlobalMemoryText(content).value, now)]
                && nextId == old(nextId) + 1
    {
      var raw := TextUtils.GlobalMemoryText(content);
      if raw.Some? {
        global := global + [GlobalEntry(nextId, authorId, authorName, raw.value, now)];
        nextId := nextId + 1;
      }
    }

    // -------------------------------------------------------------------------
    // Owner commands

    /** `addPersonalityEntry`, with the embedding request completed at once. */
    method AddPersonalityEntry(text: string, o: Oracles, now: int)
      modifies this`personality, this`nextId
      ensures personality == old(personality) + [PersonalityEntry(old(nextId), text, now, PersonalityEmbedding(settings, o, text))]
      ensures nextId == old(nextId) + 1
    {
      var newItem := PersonalityEntry(nextId, text, now, None);
      nextId := nextId + 1;
      personality := personality + [newItem];
      if settings.openAiApiKey != "" {
        var emb := o.embed(text);
        if emb.Some? {
          personality := personality[|personality| - 1 := newItem.(embedding := emb)];
        }
      }
    }

    /** `!pushtoltm`: a forced medium stage. */
    method PushToLongTermMemory(c: string, o: Oracles, now: int)
      modifies this`stm, this`medium, this`long, this`nextId
      ensures TierState() == OwnerPushToLongTerm(settings, o, old(TierState()), c, now)
    {
      ProcessMediumTermMemory(c, o, now, true);
    }

    /** `!pushtomtm`: a forced short stage. */
    method PushToMediumTermMemory(c: string, o: Oracles, now: int)
      modifies this`stm, this`medium, this`long, this`nextId
      ensures TierState() == OwnerPushToMediumTerm(settings, o, old(TierState()), c, now)
    {
      ProcessShortTermMemory(c, o, now, true);
    }

    /** `!convoend`: a forced short stage, then a forced medium stage. */
    method EndConversation(c: string, o: Oracles, now: int)
      modifies this`stm, this`medium, this`long, this`nextId
      ensures TierState() == OwnerConversationEnd(settings, o, old(TierState()), c, now)
    {
      ProcessShortTermMemory(c, o, now, true);
      ProcessMediumTermMemory(c, o, now, true);
    }

    /** One owner command: the command's stage and the notice it sends
      * back; `content` is the message an unknown command echoes. */
    method RunOwnerCommand(command: TextUtils.OwnerCommand, content: string, c: string, o: Oracles, now: int) returns (notice: Option<string>)
      modifies this`stm, this`medium, this`long, this`nextId, this`personality
      ensures match command
              case PushToLongTerm =>
                TierState() == OwnerPushToLongTerm(settings, o, old(TierState()), c, now)
                && personality == old(personality)
                && notice == Some(PushedToLongNotice)
              case PushToMediumTerm =>
                TierState() == OwnerPushToMediumTerm(settings, o, old(TierState()), c, now)
                && personality == old(personality)
                && notice == Some(PushedToMediumNotice)
              case ConversationEnd =>
                TierState() == OwnerConversationEnd(settings, o, old(TierState()), c, now)
                && personality == old(personality)
                && notice == Some(ConversationEndedNotice)
              case AddPersonality(raw) =>
                stm == old(stm) && medium == old(medium) && long == old(long)
                && (raw == "" ==> nextId == old(nextId) && personality == old(personality) && notice == None)
                && (raw != "" ==>
                      nextId == old(nextId) + 1
                      && personality == old(personality)
                                        + [PersonalityEntry(old(nextId), raw, now, PersonalityEmbedding(settings, o, raw))]
                      && notice == Some(PersonalityAddedNotice))
              case Unknown(text) =>
                TierState() == old(TierState()) && personality == old(personality)
                && notice == Some(UnknownCommandPrefix + content)
    {
      match command
      case PushToLongTerm =>
        PushToLongTermMemory(c, o, now);
        notice := Some(PushedToLongNotice);
      case PushToMediumTerm =>
        PushToMediumTermMemory(c, o, now);
        notice := Some(PushedToMediumNotice);
      case ConversationEnd =>
        EndConversation(c, o, now);
        notice := Some(ConversationEndedNotice);
      case AddPersonality(raw) =>
        notice := None;
        if raw != "" {
          AddPersonalityEntry(raw, o, now);
          notice := Some(PersonalityAddedNotice);
        }
      case Unknown(text) =>
        notice := Some(UnknownCommandPrefix + content);
    }

    /** `processOwnerCommand`: runs the command and returns the owner notice
      * sent back, if any. */
    method ProcessOwnerCommand(content: string, c: string, o: Oracles, now: int) returns (notice: Option<string>)
      modifies this`stm, this`medium, this`long, this`nextId, this`personality
      ensures match TextUtils.ParseOwnerCommand(content)
              case PushToLongTerm =>
                TierState() == OwnerPushToLongTerm(settings, o, old(TierState()), c, now)
                && personality == old(personality)
                && notice == Some(PushedToLongNotice)
              case PushToMediumTerm =>
                TierState() == OwnerPushToMediumTerm(settings, o, old(TierState()), c, now)
                && personality == old(personality)
                && notice == Some(PushedToMediumNotice)
              case ConversationEnd =>
                TierState() == OwnerConversationEnd(settings, o, old(TierState()), c, now)
                && personality == old(personality)
                && notice == Some(ConversationEndedNotice)
              case AddPersonality(raw) =>
                stm == old(stm) && medium == old(medium) && long == old(long)
                && (raw == "" ==> nextId == old(nextId) && personality == old(personality) && notice == None)
                && (raw != "" ==>
                      nextId == old(nextId) + 1
                      && personality == old(personality)
                                        + [PersonalityEntry(old(nextId), raw, now, PersonalityEmbedding(settings, o, raw))]
                      && notice == Some(PersonalityAddedNotice))
              case Unknown(text) =>
                TierState() == old(TierState()) && personality == old(personality)
                && notice == Some(UnknownCommandPrefix + content)
    {
      notice := RunOwnerCommand(TextUtils.ParseOwnerCommand(content), content, c, o, now);
    }
  }
}
