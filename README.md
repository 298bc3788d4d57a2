# AutoPilot memory and reply core, in Dafny

AutoPilot is a chat-client plugin that answers messages in whitelisted
channels with a language model. It keeps a tiered memory of each
conversation. This project models the plugin's in-memory bookkeeping and
text handling, and proves properties about it:

- **Memory cascade** (`Memory`, `Cascade`, `Eviction`, `Important`).
  - Short-term messages are summarised into medium-term segments once a channel holds more than `shortTermMemoryLimit` of them.
  - Medium-term segments are promoted into long-term summaries once there are `mediumTermMemoryTriggerCount` of them.
  - Long-term summaries are recompacted at `longTermMemoryTriggerCount` and evicted oldest-first at `longTermMemoryLimit`.
  - Embeddings are filled in at most once.
  - The important-memory list is bounded, first in, first out.
  - Every function that models one stage maps the tiers before the stage to the tiers after it.
- **Retrieval** (`Retrieval`): filter, score, stable sort by descending score, keep the top `topK`.
- **Text utilities** (`TextUtils`):
  - content normalisation, `[name]:` metadata stripping, the AI watermark and word chunking;
  - the image-attachment test, global-memory phrases and owner commands.
- **Reply post-processing** (`Reply`):
  - `/newmsg` splitting and `/noresponse` suppression;
  - the `/addmemory text;` directive loop, capped at three, with the `"Ok."` fallback.
- **Decisions** (`Decision`, `Conversation`):
  - the respond-mode rules, the dedupe window, the cooldown, per-channel sessions, the proactive time window and wait;
  - the short-term conversation window handed to the model.
- **The plugin object** (`AutoPilotCore`): class `AutoPilot` holds the mutable state.
  - Its fields are the tiers, the id supply, the responded-recently map, the sessions and the message queue.
  - Its methods update that state with the source's loops.
  - Each method's postcondition ties the new state to the specification functions above.

`JsText`, `Seqs` and `StableSort` model the JavaScript built-ins the source
relies on:

- string trimming, splitting, slicing with negative indices and ASCII lower-casing;
- a string's `length` and the `<=` order on strings, both counted in UTF-16 code units as JavaScript counts them;
- `Array.prototype.filter`;
- the stable `Array.prototype.sort`, as an ordering of positions by key and then by position.

`Wrappers` holds `Option`.

The language model, the splitter, the summariser, the embedder, the
intrigue classifier and `Math.random` are inputs: an `Oracles` value, or a
`draw` / `classify` / `answered` parameter. Clock readings are a `now`
parameter. `generateUniqueId` is a counter field `nextId`, a supply of
fresh ids.

Where the plugin's documented design and its code differ, the model follows
the code:

- A short-term pass keeps every message when `shortTermMemoryRetention` is 0.
  - When retention exceeds the message count, it keeps every message and still summarises a prefix.
  - So "exactly `retention` messages remain" holds only for `0 < retention <= count` (`Cascade.RetentionPartitions`).
- Recompaction also needs `longTermMemoryTriggerCount > 0`.
- Sessions never become active: nothing sets `isActive` to true.
- The important list keeps `limit - 1` old notes plus the new one. With a limit of 0 or less the source never terminates; see Findings.

## Model

| member | source | states |
|---|---|---|
| Memory.ShapeTier | AutoPilot.js:252-268 | a stored tier is restored as it is when it is an array, and as the empty list otherwise |
| AutoPilotCore.AutoPilot.constructor | AutoPilot.js:8-131 | the plugin starts with the default settings, every memory tier empty, nothing marked as responded, no sessions, an empty queue and no drain under way |
| AutoPilotCore.AutoPilot.LoadAllMemories | AutoPilot.js:234-269 | without a snapshot no tier changes; with one, each of the five cached tiers is replaced by the shaped stored field |
| AutoPilotCore.Position | AutoPilot.js:1864 | `indexOf`: the position found holds the channel and no earlier one does; none is found only when the channel is absent |
| AutoPilotCore.ToggleCounts | AutoPilot.js:1863-1873 | a listed channel loses exactly one occurrence and every other channel keeps its count; an unlisted channel is appended at the end |
| AutoPilotCore.ToggleRemoves | AutoPilot.js:1864-1866 | on a duplicate-free list, toggling a listed channel removes it altogether and keeps the list duplicate-free |
| AutoPilotCore.ToggleAdds | AutoPilot.js:1868-1869 | on a duplicate-free list, toggling an unlisted channel adds it and keeps the list duplicate-free |
| AutoPilotCore.ToggleFlips | AutoPilot.js:1863-1873 | on a duplicate-free list a toggle flips the channel's membership, both ways, and keeps the list duplicate-free |
| AutoPilotCore.ToggleTwice | AutoPilot.js:1863-1873 | toggling an unlisted channel twice gives back the original list |
| AutoPilotCore.AutoPilot.ToggleChannelWhitelist | AutoPilot.js:1863-1873 | only the whitelist changes, and it becomes the toggled list |
| AutoPilotCore.AutoPilot.ToggleChannelProactiveMode | AutoPilot.js:1875-1885 | only the proactive channel list changes, and it becomes the toggled list |
| AutoPilotCore.AutoPilot.MarkAsResponded | AutoPilot.js:1619-1621 | the responded map becomes the marked map (see `Decision.MarkResponded`, `Decision.DedupeWindow`) |
| AutoPilotCore.AutoPilot.UpdateSession | AutoPilot.js:437-453 | the sessions map and the "session ended" answer are one session step (see `Decision.SessionNeverActivates`) |
| AutoPilotCore.HandledIsFilter | AutoPilot.js:1169-1183 | of a queue ending in `last`, the earlier items are handled in queue order exactly when the answered-check says no, and `last` is always handled, after them |
| AutoPilotCore.AutoPilot.ProcessQueue | AutoPilot.js:1166-1185 | while a drain is under way nothing is handled and the queue is untouched; otherwise the queue is drained in order, the items handed on are the queue's handled items, and afterwards the queue is empty and no drain is under way |
| AutoPilotCore.AutoPilot.EnqueueMessage | AutoPilot.js:1161-1164 | the new item joins the queue; without a drain under way, every earlier item the check does not call answered is handled in order, then the new one, and the queue ends empty |
| AutoPilotCore.AutoPilot.AddImportantMemory | AutoPilot.js:1540-1547 | the important list becomes the corrected `addImportantMemory` of the old list (properties in `Important.AddImportantBounded`) |
| AutoPilotCore.AddAllImportantSnoc | AutoPilot.js:1053-1059 | storing one more directive text is one more `addImportantMemory`, applied after the earlier ones |
| AutoPilotCore.AddAllImportantBounded | AutoPilot.js:1053-1059 | after storing directive texts: disabled, the list is unchanged; enabled with a limit of at least 1, it holds at most `limit` notes and ends with the last text stored |
| AutoPilotCore.AutoPilot.ApplyAddMemoryDirectives | AutoPilot.js:1050-1066 | the texts stored are those of the directive loop, in order; the reply returned is the loop's final reply ("Ok." when empty); the important list is the old one with each stored text added in turn |
| AutoPilotCore.AutoPilot.UpdateLongEmbedding | AutoPilot.js:1116-1125 | only the long-term entry at `k` changes, and it becomes its backfilled self |
| AutoPilotCore.AutoPilot.PushMediumSegment | AutoPilot.js:637-651 | one loop pass: the medium tier grows by segment `i`'s record exactly when its summary succeeds |
| AutoPilotCore.AutoPilot.PushMediumSegments | AutoPilot.js:637-652 | the medium tier becomes the old tier followed by one well-numbered segment per successful summary, all under the batch's group id |
| AutoPilotCore.AutoPilot.PushLongSegment | AutoPilot.js:673-690 | one loop pass: a successful summary appends a long-term record with the next fresh id, then fills in its embedding; the id supply advances by the records added |
| AutoPilotCore.AutoPilot.PushLongSegments | AutoPilot.js:673-691 | the long tier becomes the old tier followed by the promotion's records, and the id supply advances by their number |
| AutoPilotCore.AutoPilot.PushRecompactedSegment | AutoPilot.js:719-737 | one recompaction pass: a successful summary becomes a trimmed long-term record with the next fresh id, gets its embedding, and is then pushed |
| AutoPilotCore.AutoPilot.PushRecompactedSegments | AutoPilot.js:719-738 | the long tier becomes the old tier followed by the recompaction's records, and the id supply advances by their number |
| AutoPilotCore.AutoPilot.ProcessLongTermMemory | AutoPilot.js:701-757 | the tiers become the long-term stage of the old tiers: recompaction, then eviction (properties in `Cascade.RecompactedReplaces`, `Cascade.LongStageWithinLimit`, `Cascade.LongStageFrame`) |
| AutoPilotCore.AutoPilot.ProcessMediumTermMemory | AutoPilot.js:661-699 | the tiers become the medium-term stage of the old tiers (properties in `Cascade.MediumStageClears`, `Cascade.MediumPromotionRecords`, `Cascade.MediumStageFrame`) |
| AutoPilotCore.AutoPilot.ProcessShortTermMemory | AutoPilot.js:616-659 | the tiers become the short-term stage of the old tiers (properties in `Cascade.ShortStageRetains`, `Cascade.ShortStageBelowLimit`, `Cascade.ShortPromotionSegments`) |
| AutoPilotCore.AutoPilot.PromoteShortTerm | AutoPilot.js:635-657 | once the transcript is split, the tiers become the short-term promotion: segments appended under one fresh group id, the channel cut to its retained messages, then the medium stage |
| AutoPilotCore.AutoPilot.ShortTermMemoryPush | AutoPilot.js:1527-1538 | the tiers become the push of the message (see `Cascade.PushAppends`) |
| AutoPilotCore.AutoPilot.AutoSummarizeIfNeeded | AutoPilot.js:759-766 | the tiers become the auto-summarise step (see `Cascade.AutoSummarizeAtLimit`) |
| AutoPilotCore.AutoPilot.CheckAndStoreGlobalMemory | AutoPilot.js:1549-1578 | a message without a global-memory phrase changes nothing; one with a phrase appends one global entry with a fresh id, the message's author and the extracted text |
| AutoPilotCore.AutoPilot.AddPersonalityEntry | AutoPilot.js:565-583 | one personality entry is appended with a fresh id, the text and the embedding (present only when a key is set and the embedder answers), and the id supply advances by one |
| AutoPilotCore.AutoPilot.PushToLongTermMemory | AutoPilot.js:531-540 | `!pushtoltm`: the tiers become a forced medium-term stage of the old tiers |
| AutoPilotCore.AutoPilot.PushToMediumTermMemory | AutoPilot.js:542-551 | `!pushtomtm`: the tiers become a forced short-term stage of the old tiers |
| AutoPilotCore.AutoPilot.EndConversation | AutoPilot.js:553-563 | the tiers become a forced short-term stage followed by a forced medium-term stage |
| AutoPilotCore.AutoPilot.ProcessOwnerCommand | AutoPilot.js:507-563 | per recognised command, the tiers change as that command's stage does and the notice sent back is that command's notice. `!addpersonality` with an empty argument changes nothing and sends nothing. An unknown command changes nothing and echoes the message |
| AutoPilotCore.AutoPilot.RunOwnerCommand | AutoPilot.js:509-523 | for each command, the tiers change as that command's stage does and the notice is that command's notice; `!addpersonality` with an empty argument changes nothing and sends nothing; an unknown command changes nothing and echoes the message |
| Cascade.SummaryOf | AutoPilot.js:768-789 | a summary is produced only when summaries are enabled and an API key is set, and it is trimmed |
| Cascade.BackfillAtMostOnce | AutoPilot.js:1116-1125 | backfilling changes nothing but the embedding, leaves an entry that has one alone, is idempotent, and fills a missing one with the embedding of the content |
| Cascade.RecordShape | AutoPilot.js:641-650 | a record is of channel `c`, carries the group id, segment number and timestamp, is a medium or long summary by stage, and has the group id (medium) or a fresh id (long) as its id |
| Cascade.SegmentsSucceeded | AutoPilot.js:637-651 | a segment whose summary succeeds appends exactly its record, with the next fresh id |
| Cascade.SegmentsFailed | AutoPilot.js:675-676 | a segment whose summary fails (null or empty) appends nothing and consumes no id |
| Cascade.SegmentsShape | AutoPilot.js:637-650 | a pass's records all belong to channel `c`, have the stage's kind, and carry strictly increasing segment numbers between 1 and the part count. Medium segments share the group id as their id; long-term records have consecutive ids |
| Cascade.SegmentsAllFail | AutoPilot.js:719-738 | when every summary fails, a pass adds no record |
| Cascade.Unmarked | AutoPilot.js:1528-1530 | a stored message differs from the pushed one only in its content. The content loses a trailing watermark line when it has one, and is otherwise kept |
| Cascade.ShortStageRetains | AutoPilot.js:654-656 | a short-term pass that goes ahead leaves the channel exactly its retained messages, placed after the other channels' messages, which are unchanged |
| Cascade.ShortPromotionSegments | AutoPilot.js:634-652 | a short-term promotion only appends to the medium tier, and what it appends is well numbered under one fresh group id. The id supply advances by one and the long tier is unchanged before the medium stage |
| Cascade.RetentionPartitions | AutoPilot.js:622-654 | with `0 < retention <= count`, the summarised prefix and the retained suffix split the channel's messages, and exactly `retention` are kept |
| Cascade.RetentionBeyondCount | AutoPilot.js:622-654 | with more retention than messages, every message is kept, yet the first `2 * count - retention` messages (none when negative) are still summarised |
| Cascade.RetentionZeroKeepsAll | AutoPilot.js:618-654 | with retention 0 every message is summarised and every message is kept |
| Cascade.ShortStageBelowLimit | AutoPilot.js:619-621 | without force, a channel holding at most `shortTermMemoryLimit` messages leaves every tier unchanged |
| Cascade.AutoSummarizeAtLimit | AutoPilot.js:759-766 | at or below the limit the auto-summarise step changes nothing: its `>=` test reaches a stage that tests `>` |
| Cascade.PushAppends | AutoPilot.js:1527-1538 | a push adds the unmarked message to its channel. Within the limit nothing else happens; above it, the unforced short-term stage runs on that channel |
| Cascade.MediumStageClears | AutoPilot.js:661-694 | a medium-term pass that goes ahead removes every medium segment of the channel and keeps every other channel's, in order |
| Cascade.MediumPromotionRecords | AutoPilot.js:670-691 | a medium promotion only appends to the long tier, and what it appends is well numbered with consecutive fresh ids after one group id. The id supply advances past them, and short-term memory is untouched |
| Cascade.RecompactedReplaces | AutoPilot.js:714-738 | recompaction replaces the channel's `long_summary` entries by exactly its new, well-numbered records and keeps other channels' entries as they were |
| Cascade.RecompactionLosesOnFailure | AutoPilot.js:716-738 | recompaction deletes before it summarises: when every summary fails, the channel has no `long_summary` entries left |
| Cascade.LongStageWithinLimit | AutoPilot.js:742-756 | with fresh ids and a limit of 0 or more, a long-term pass leaves the channel at most `longTermMemoryLimit` long summaries |
| Cascade.LongStageFrame | AutoPilot.js:701-757 | a long-term pass changes neither short-term nor medium-term memory |
| Cascade.MediumStageFrame | AutoPilot.js:661-699 | a medium-term pass never changes short-term memory |
| Cascade.ShortStageFresh | AutoPilot.js:616-659 | a short-term pass keeps long-term ids distinct and below the id supply |
| Cascade.MediumStageFresh | AutoPilot.js:661-699 | a medium-term pass keeps long-term ids distinct and below the id supply |
| Cascade.LongStageFresh | AutoPilot.js:701-757 | a long-term pass keeps long-term ids distinct and below the id supply |
| Cascade.CascadeFresh | AutoPilot.js:1606-1608 | every entry point keeps long-term ids distinct and below the id supply: push, auto-summarise and the three owner commands |
| Eviction.EvictKeepsOtherChannels | AutoPilot.js:751-753 | eviction never touches another channel's entries |
| Eviction.EvictWithinLimit | AutoPilot.js:742-746 | with no limit (-1), or at most `limit` channel entries, eviction changes nothing |
| Eviction.EvictedChannelLong | AutoPilot.js:743-753 | over the limit, the channel's remaining entries are exactly its original ones outside the surplus, in their original order |
| Eviction.EvictLeavesLimit | AutoPilot.js:746-753 | with distinct ids and a channel over its limit, exactly `limit` of its summaries remain |
| Eviction.EvictKeepsNewest | AutoPilot.js:747-753 | the remaining summaries are, as a multiset, the last `limit` of the channel's list stably sorted by timestamp |
| Eviction.EvictRemovesOldest | AutoPilot.js:747-750 | every removed summary is no newer than any kept one, and on equal timestamps the removed one stood earlier in the list |
| Eviction.EvictKeepsIds | AutoPilot.js:751-753 | eviction only removes entries, so ids stay distinct and below any bound they were below |
| Eviction.EvictBoundsChannel | AutoPilot.js:742-756 | with distinct ids and a limit of 0 or more, eviction leaves the channel at most `limit` summaries |
| Important.AsWrittenNeverStops | AutoPilot.js:1542-1544 | with a limit of 0 or less, the loop as written does not stop within any number of iterations, from any list |
| Important.AsWrittenAgrees | AutoPilot.js:1542-1544 | with a limit of 1 or more, the loop as written stops within `length` iterations, with the corrected loop's result |
| Important.DropOldestKeepsNewest | AutoPilot.js:1542-1544 | the corrected loop keeps exactly the newest notes: all of them below the limit, otherwise `limit - 1` (none for a limit of 0 or less) |
| Important.AddImportantBounded | AutoPilot.js:1540-1547 | disabled, nothing changes. Enabled, the list ends with the new note and holds at most `max(limit, 1)` notes; before the new note it keeps the newest old notes in order, all of them when below the limit |
| Retrieval.ScoreAll | AutoPilot.js:1081-1084 | one scored pair per candidate, in candidate order, each with the candidate's own score |
| Retrieval.RankLength | AutoPilot.js:1085-1086 | a `topK` of 0 or more bounds the results: exactly `topK` when there are enough candidates, otherwise all of them |
| Retrieval.RankSorted | AutoPilot.js:1085-1086 | results come in non-increasing score order |
| Retrieval.RankMembers | AutoPilot.js:1081-1086 | every result is a candidate carrying its own score |
| Retrieval.RankSelects | AutoPilot.js:1085-1086 | the results are drawn from the scored candidates, each no more often than it occurs there, and so their entries are drawn from the candidates |
| Retrieval.RankTakesBest | AutoPilot.js:1085-1086 | a candidate left out scores no higher than any result |
| Retrieval.RankStable | AutoPilot.js:1085 | of two results with equal scores, each is the candidate at its place in the stable sort order, and the earlier came from the earlier candidate |
| Retrieval.TopLongTermMembers | AutoPilot.js:1127-1143 | each long-term result is a stored `long_summary` with an embedding, of the channel unless instancing is disabled, scored by that embedding; no stored entry is returned more often than it is stored |
| Retrieval.TopPersonalityMembers | AutoPilot.js:1078-1087 | each personality result is a stored entry with an embedding, scored by that embedding; no stored entry is returned more often than it is stored |
| TextUtils.CollapseWs | AutoPilot.js:1589 | the result has only single plain spaces for whitespace, is empty exactly when the input is, and starts with a space exactly when the input starts with whitespace |
| TextUtils.CollapsePunct | AutoPilot.js:1590 | the result has no repeated `?`, `!` or `.`, is empty exactly when the input is, starts as the input does, and keeps whitespace collapsed |
| TextUtils.NormalizeContent | AutoPilot.js:1588-1592 | the result is trimmed, whitespace-collapsed and free of repeated marks |
| TextUtils.NormalizeFixpointIff | AutoPilot.js:1588-1592 | a string is unchanged by normalisation exactly when it is trimmed, collapsed and free of repeated marks |
| TextUtils.NormalizeIdempotent | AutoPilot.js:1588-1592 | normalising twice is normalising once |
| TextUtils.MetadataAt | AutoPilot.js:1595 | a metadata match starts with `[`, spans at least four characters and holds a `:` |
| TextUtils.StripMetadata | AutoPilot.js:1594-1596 | stripping never lengthens the text, and text without a `:` is unchanged |
| TextUtils.StripAfterPlainText | AutoPilot.js:1595 | the global replace goes on past plain text: text in which no block starts is kept as it is, and a block that follows it is removed with the whitespace after it, the rest being stripped in turn |
| TextUtils.StripWithoutBlocks | AutoPilot.js:1595 | a text in which no block starts at any position comes back unchanged |
| TextUtils.StripLeadingTag | AutoPilot.js:1595 | a leading `[tag]:` block and the whitespace after it are removed |
| TextUtils.StripTwoTags | AutoPilot.js:1595 | a leading `[name] [tag]:` block, both tags taken as one match, is removed with the whitespace after it |
| TextUtils.StripWatermark | AutoPilot.js:1598-1604 | a text ending with the watermark line loses exactly that line; any other text is unchanged |
| TextUtils.AppendWatermark | AutoPilot.js:223-228 | enabled with a non-empty text, stripping the appended watermark gives the text back; otherwise the text is returned unchanged |
| TextUtils.ChunkTextByWords | AutoPilot.js:1800-1820 | the accumulator loop returns the chunks of the chunking specification |
| TextUtils.ChunkGroupsInv | AutoPilot.js:1804-1818 | every word group is non-empty once joined, and its length in UTF-16 code units fits the size, or it is a single input word. The non-empty words across the groups are the input's, in order |
| TextUtils.ChunkTextsProperties | AutoPilot.js:1800-1820 | for a size of 0 or more, no chunk is empty, and a chunk whose UTF-16 length exceeds the size is one word of the input. The chunks are the groups joined by spaces and hold the input's non-empty words in order, none lost or repeated |
| TextUtils.ChunkCountsCodeUnits | AutoPilot.js:1806 | lengths are compared in UTF-16 code units: an emoji and `a` (three characters, four code units) with a size of 3 give two chunks |
| JsText.Utf16LenBounds | AutoPilot.js:1806 | a string's `length` lies between its character count and twice that, and equals the character count when every character is in the Basic Multilingual Plane |
| JsText.Utf16LenCountsUnits | AutoPilot.js:1806 | the `length` is the number of code units of the string's UTF-16 encoding |
| TextUtils.ImageUrlIgnoresQuery | AutoPilot.js:398-408 | a query string does not change whether an attachment URL names an image |
| TextUtils.FindImageAttachment | AutoPilot.js:398-409 | the attachment found is an image and no earlier one is; none is found only when no attachment is an image |
| TextUtils.GlobalMemoryText | AutoPilot.js:1550-1566 | a text is stored exactly when the lower-cased message holds one of the two phrases, and it is never empty |
| TextUtils.GlobalMemoryAfterPrefix | AutoPilot.js:1550-1566 | a message opening with the phrase, in any letter case, stores the rest of the message |
| TextUtils.RecogniseCommand | AutoPilot.js:508-523 | recognition never yields an unknown command |
| TextUtils.UnknownIffNoPrefix | AutoPilot.js:507-524 | a message is an unknown command exactly when none of the four prefixes opens it |
| TextUtils.AddPersonalityArgument | AutoPilot.js:515-516 | `!addpersonality` in any letter case, followed by text, adds the trimmed text |
| Reply.MarkerLen | AutoPilot.js:588 | a marker is 7 or 8 characters long, or absent |
| Reply.ReplaceCrlf | AutoPilot.js:586 | a text without carriage returns is unchanged |
| Reply.CrlfBecomesBreak | AutoPilot.js:586 | each `\r\n` becomes `\n`, and the texts on either side are rewritten independently |
| Reply.CrlfReplySameAsLf | AutoPilot.js:586-593 | when neither side holds a carriage return, a reply whose line break is `\r\n` sends the same lines as the reply with `\n` |
| Reply.OutgoingLines | AutoPilot.js:585-593 | every line sent is non-empty, trimmed, without a line break and not `/noresponse`; nothing is sent when a line is `/noresponse` |
| Reply.ReplyLinesShape | AutoPilot.js:589 | every candidate line is non-empty, trimmed and holds no line break |
| Reply.OutgoingOfLines | AutoPilot.js:589-593 | the lines sent are the candidate lines, or none when one of them is `/noresponse` |
| Reply.ReplaceMarkersBefore | AutoPilot.js:588 | plain text before a marker is copied as it is; the marker and the whitespace after it become one line break |
| Reply.MarkerSplitsLines | AutoPilot.js:586-593 | a marker in any letter case between two plain texts sends them as two trimmed lines, empty ones dropped, or nothing when one is `/noresponse` |
| Reply.SingleLineReply | AutoPilot.js:585-593 | a plain one-line reply is sent as one trimmed line, unless it is empty or `/noresponse` |
| Reply.LazySemicolon | AutoPilot.js:1050 | the lazy group ends at a `;` with no line terminator before it |
| Reply.DirectiveAt | AutoPilot.js:1050 | a directive match starts at the given position, has its group after the command and ends with `;` |
| Reply.FirstDirectiveLeftmost | AutoPilot.js:1053 | the match found is the leftmost one; when none is found, there is none anywhere |
| Reply.ReplaceFirst | AutoPilot.js:1060 | a string pattern replaces at most one occurrence: absent, the text is unchanged; present, the length changes by the difference |
| Reply.RemoveDirective | AutoPilot.js:1060 | cutting a handled directive makes the reply strictly shorter, which is why the loop ends |
| Reply.DirectiveText | AutoPilot.js:1056 | the text stored for a directive is trimmed |
| Reply.Directives | AutoPilot.js:1051-1062 | the loop stores at most three texts |
| Reply.DirectiveMemoriesTrimmed | AutoPilot.js:1056-1059 | every text stored is trimmed and not empty |
| Reply.DirectivesStop | AutoPilot.js:1053-1055 | with no match, or at a fourth one, the loop ends and stores nothing |
| Reply.DirectivesStep | AutoPilot.js:1053-1062 | one iteration stores the trimmed group when it is not empty and continues on the reply with the match cut and trimmed |
| Reply.DirectivesAdvance | AutoPilot.js:1053-1062 | the loop invariant survives one handled directive: what is left to do, after the texts stored so far, adds up to the same outcome |
| Reply.FinalReply | AutoPilot.js:1064-1066 | the reply returned is never empty, and it is the loop's reply when that is not empty |
| Reply.NoDirectiveUnchanged | AutoPilot.js:1050-1066 | a reply without directives stores nothing and comes back unchanged, or as "Ok." when empty |
| Reply.LeadingDirective | AutoPilot.js:1050-1062 | a reply that opens with one directive stores its text and keeps the trimmed rest |
| Decision.IntrigueContextShape | AutoPilot.js:1299-1301 | the classifier sees the channel's latest other messages, at most ten, in order, none of them the message judged |
| Decision.ShouldRespondModes | AutoPilot.js:1285-1345 | "always" and "attentive" answer; "mention" answers exactly when the plugin's user is mentioned; "random" exactly when the draw is below the chance; "human" with neither check flips a coin; any other mode never answers |
| Decision.HumanKeywordRule | AutoPilot.js:1331-1340 | in "human" mode with the keyword check, a message is answered exactly when it asks a question, runs past ten pieces, or contains a trigger word |
| Decision.AnyTriggerInIff | AutoPilot.js:1337-1340 | the trigger search succeeds exactly when some trigger occurs in the content |
| Decision.TriggersShape | AutoPilot.js:1333-1336 | every trigger word is non-empty and lower case |
| Decision.HumanAiRule | AutoPilot.js:1298-1330 | in "human" mode with the AI check, a message is answered exactly when the classifier answers with "yes" somewhere in its reply, in any letter case |
| Decision.MarkResponded | AutoPilot.js:1619-1621 | marking records the key at `now` and keeps every other key's time |
| Decision.DedupeWindow | AutoPilot.js:1610-1621 | after marking at a time above 0, the key is a duplicate exactly while fewer than `dedupeSeconds` seconds have passed; other keys keep their answer |
| Decision.CooldownMonotone | AutoPilot.js:1623-1630 | once answering is allowed, waiting longer never forbids it |
| Decision.CooldownAfterAnswer | AutoPilot.js:1623-1630 | right after an answer, a positive channel cooldown forbids another one at the same time |
| Decision.SessionNeverActivates | AutoPilot.js:437-453 | after a session step the channel's session is active only if it was active, not idle and not ended; its activity time is `now`; other channels' sessions are unchanged |
| Decision.SessionsStayInactive | AutoPilot.js:437-453 | sessions that start inactive stay inactive |
| Decision.TimeWindowBounds | AutoPilot.js:1438-1440 | with strings compared code unit by code unit, the window includes both ends, and a window whose start is after its end is never open |
| Decision.ProactiveWaitRange | AutoPilot.js:1432-1436 | for `min <= max` and a draw in [0, 1), the wait lies between min and max inclusive, and a draw of 0 gives min |
| Conversation.LastOfChannel | AutoPilot.js:1662-1664 | the position found holds the channel's last message; none is found only when the channel has no message |
| Conversation.ConversationItems | AutoPilot.js:1672-1711 | one conversation item per selected message, in order |
| Conversation.ItemShape | AutoPilot.js:1674-1707 | items keep channel and author. Ephemeral notes become system items with their raw content; other items keep their role, and their text opens with the author tag |
| Conversation.ConversationWindow | AutoPilot.js:1652-1671 | the selected messages are the last `min(limit, n)` of the `n` ordered window messages when `limit > 0`, and all of them otherwise; each is a stored message no later than `upToTime`, of the channel unless instancing is disabled |
| Conversation.MoveLastToEndPermutes | AutoPilot.js:1661-1667 | moving the channel's last message to the end only reorders the list |
| Conversation.ConversationSorted | AutoPilot.js:1660 | with instancing on, the selected messages are in timestamp order |
| Conversation.ConversationEndsWithChannel | AutoPilot.js:1661-1671 | with instancing off and a message of the channel in the window, the final message selected is the channel's latest one |

## Left out

- Network calls (chat completions, embeddings, Perplexity search) become oracle results in `Oracles`. Cosine similarity is an abstract score function, so no floating-point arithmetic is modelled.
- Asynchrony: every awaited call completes before the next step. Concurrent pushes during a summarisation are not modelled, nor are the global lock or timer-driven interleavings.
  - `shortTermMemoryPush` and `autoSummarizeIfNeeded` start a short-term pass without waiting for it; the model runs the pass to completion inside them.
- Each operation reads the clock once (`now`). The source reads `Date.now()` separately for every record, so its timestamps within one pass may differ.
- `generateUniqueId` returns base-36 strings; the model uses a natural-number counter. A medium segment's `segmentId` string is its (group id, segment number) pair.
- Persistence (`saveAllMemoriesToFile`, settings load/save) and toasts are not modelled. `loadAllMemoriesFromFile`'s two storage keys become one optional snapshot.
- Owner notices are returned rather than sent, and are returned even when no send module is present.
  - The error notices of the `.catch` handlers in `ownerPushToLTM`, `ownerPushToMTM` and `ownerConvoEnd` are not modelled: summariser failures are results here, never exceptions.
- `generateReply` is modelled only from its `/addmemory` loop on: prompt assembly, retrieval calls, the `/search` re-query loop and the fallback reply are not modelled.
  - `generateOptimizedQueryForMemory` (a further model call) is not modelled either.
- Cascade.SummaryOf: `summarizeMemorySnippet` also calls `detectNewPersonalityDetails` on every summary (AutoPilot.js:783), which can append a personality entry with a fresh id (AutoPilot.js:808-815), and a failure of that call turns the summary into `null` (AutoPilot.js:784-787). The model leaves that model call out: summaries produced by `SummaryOf`, and so by `AutoPilot.ProcessShortTermMemory`, `AutoPilot.ProcessMediumTermMemory` and `AutoPilot.ProcessLongTermMemory`, never change the personality tier or draw from the id supply.
- The message handler `onMessageCreate` is modelled piece by piece, not as one method: normalisation, stripping, dedupe, the image test, pushes, global memory, sessions and the respond decision. The whitelist and self-author tests are plain membership and equality checks.
- `handleReplyFlow` (typing pauses, typing indicator, WPM pacing, chunked sending) is not modelled. The queue drain returns the items it would hand to it.
- The proactive timer and `triggerProactiveMessage` are not modelled; only the time window and the random wait are.
- `toLowerCase` is modelled for ASCII letters only.
- `shortTermMemoryRetention || 0` is modelled for integer settings; undefined or NaN values are not. The `mediumTermMemoryLimit` setting is never read by the code and is not modelled.
- `buildShortTermConversation` removes the channel's last message by object identity; the model removes it by position, which is the same for distinct message objects.
- The class methods do not carry the id-freshness invariant as a postcondition. It is proved on the stage functions the methods are specified by (`Cascade.CascadeFresh`).
- Eviction.EvictLeavesLimit: needs distinct ids in the channel's long-term entries. Snapshots loaded from storage are not checked for this; ids the model hands out are distinct by `Cascade.CascadeFresh`.
- Retrieval.RankLength: states the length only for a `topK` of 0 or more. A negative `topK` slices from the end, as JavaScript does, and the model computes that too.
- Decision.ShouldRespondModes: in "mention" mode the mention list is a list of ids; the source's `mentions?.some(...)` on user objects is otherwise the same.
- The plugin lifecycle, module lookup, monkey-patching, the settings panel and the memory browsers are host-API and UI code and are not modelled.

## Findings

| source | as written | input that shows it | evidently intended | confidence | as-written member | corrected member |
|---|---|---|---|---|---|---|
| AutoPilot.js:1540-1547 | the loop drops the oldest note for as long as the list's length is at least `importantMemoryLimit`, without checking for an empty list | `importantMemoryEnabled` true and `importantMemoryLimit` 0. The panel's minimum of 1 is not enforced. An empty list still satisfies `0 >= 0` and `shift()` on it changes nothing, so the loop never ends | drop the oldest notes until the list is empty or below the limit, then append the new note | not executed | Important.AsWrittenNeverStops | Important.AddImportantBounded |
