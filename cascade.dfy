/**
 * The tiered memory cascade as functions of the tiers before a pass:
 * short-term messages are summarised into medium-term segments, medium-term
 * segments into long-term summaries, a channel's long-term summaries are
 * recompacted once there are enough of them, and the oldest are evicted
 * beyond `longTermMemoryLimit`. The splitter, the summariser's completion and
 * the embedding service are oracle functions; `now` is one clock reading
 * for the whole pass; ids come from the counter `nextId`.
 */
module Cascade {
  import opened Wrappers
  import opened JsText
  import opened Seqs
  import opened Memory
  import opened Eviction
  import TextUtils

  /** The external services the cascade consults. */
  datatype Oracles = Oracles(
    split: string -> seq<string>,   // autoSplitIfNeeded
    chat: string -> Option<string>, // the summariser's completion; None when the call throws
    embed: string -> Option<Vector>) // the embedding service; None on any failure

  /** The state a cascade pass reads and writes. */
  datatype Tiers = Tiers(stm: seq<Message>, medium: seq<Summary>, long: seq<Summary>, nextId: Id)

  /** `summarizeMemorySnippet`: null unless summaries are enabled and a key is
    * set, null when the call throws, otherwise the trimmed completion. */
  function SummaryOf(settings: Settings, o: Oracles, snippet: string): (r: Option<string>)
    ensures r.Some? ==> settings.useMemorySummaries && settings.openAiApiKey != "" && IsTrimmed(r.value)
  {
    if !settings.useMemorySummaries || settings.openAiApiKey == "" then None
    else
      match o.chat(snippet)
      case None => None
      case Some(text) => Some(Trim(text))
  }

  /** `if (summary)`: null and the empty string both count as failure. */
  predicate Succeeded(r: Option<string>) {
    r.Some? && r.value != ""
  }

  /** The embedding `updateMemoryEmbedding` stores for a fresh entry. */
  function EmbeddingOf(settings: Settings, o: Oracles, text: string): Option<Vector> {
    if !settings.longTermStorageEnabled || settings.openAiApiKey == "" then None else o.embed(text)
  }

  /** `updateMemoryEmbedding`: fill in a missing embedding when storage and a key allow it. */
  function Backfill(settings: Settings, o: Oracles, e: Summary): Summary {
    if !settings.longTermStorageEnabled || settings.openAiApiKey == "" || e.embedding.Some? then e
    else
      match o.embed(e.content)
      case None => e
      case Some(v) => e.(embedding := Some(v))
  }

  /** Backfill changes at most the embedding, only a missing one, and only once. */
  lemma BackfillAtMostOnce(settings: Settings, o: Oracles, e: Summary)
    ensures Backfill(settings, o, e).(embedding := e.embedding) == e
    ensures e.embedding.Some? ==> Backfill(settings, o, e) == e
    ensures Backfill(settings, o, Backfill(settings, o, e)) == Backfill(settings, o, e)
    ensures e.embedding.None? ==> Backfill(settings, o, e).embedding == EmbeddingOf(settings, o, e.content)
  {
  }

  function ChannelMessages(stm: seq<Message>, c: string): (r: seq<Message>)
    ensures |r| <= |stm|
  {
    Filter(stm, (m: Message) => m.channelId == c)
  }

  function OtherMessages(stm: seq<Message>, c: string): (r: seq<Message>)
    ensures |r| <= |stm|
  {
    Filter(stm, (m: Message) => m.channelId != c)
  }

  function ChannelMedium(medium: seq<Summary>, c: string): (r: seq<Summary>)
    ensures |r| <= |medium|
  {
    Filter(medium, (m: Summary) => m.channelId == c)
  }

  /** `Assistant (name) says: …` for assistant messages, `User (name) says: …` for every other role. */
  function SpeakerLine(m: Message): string {
    (if m.role == Assistant then "Assistant (" else "User (") + m.authorName + ") says: " + m.content
  }

  function Transcript(msgs: seq<Message>): string {
    Join(seq(|msgs|, i requires 0 <= i < |msgs| => SpeakerLine(msgs[i])), "\n")
  }

  function LabelledContents(tag: string, ms: seq<Summary>): string {
    Join(seq(|ms|, i requires 0 <= i < |ms| => tag + ms[i].content), "\n")
  }

  /** The author of every summary record. */
  const SummarizerId: string := "summarizer"
  const SummarizerName: string := "Summarizer"

  /** A medium segment's content: `[Segment #n]`, a line break, the summary. */
  function MediumContent(number: nat, summary: string): string {
    "[Segment #" + NatToString(number) + "]\n" + summary
  }

  /** A promoted long-term summary's content: `[MTM-Segment #n]`, a line break, the summary. */
  function LongContent(number: nat, summary: string): string {
    "[MTM-Segment #" + NatToString(number) + "]\n" + summary
  }

  /** Which promotion produces a record. */
  datatype Stage = ShortToMedium | MediumToLong | Recompact

  /** The record a successful summary of segment number `number` becomes. Medium
    * segments take the batch's group id as their id; long-term records take a fresh id. */
  function Record(settings: Settings, o: Oracles, stage: Stage, groupId: Id, id: Id, number: nat,
                  c: string, summary: string, now: int): Summary
  {
    match stage
    case ShortToMedium =>
      Summary(groupId, groupId, number, MediumKind, c, SummarizerId, SummarizerName,
              MediumContent(number, summary), now, None)
    case MediumToLong =>
      Backfill(settings, o, Summary(id, groupId, number, LongKind, c, SummarizerId, SummarizerName,
                                    LongContent(number, summary), now, None))
    case Recompact =>
      Backfill(settings, o, Summary(id, groupId, number, LongKind, c, SummarizerId, SummarizerName,
                                    Trim(summary), now, None))
  }

  /** A promoted long-term record is the backfilled summary with the `[MTM-Segment #n]` content. */
  lemma PromotedRecord(settings: Settings, o: Oracles, groupId: Id, id: Id, number: nat,
                       c: string, summary: string, now: int)
    ensures Record(settings, o, MediumToLong, groupId, id, number, c, summary, now)
            == Backfill(settings, o, Summary(id, groupId, number, LongKind, c, SummarizerId, SummarizerName,
                                             LongContent(number, summary), now, None))
  {
  }

  lemma RecordShape(settings: Settings, o: Oracles, stage: Stage, groupId: Id, id: Id, number: nat,
                    c: string, summary: string, now: int)
    ensures var r := Record(settings, o, stage, groupId, id, number, c, summary, now);
            r.channelId == c && r.groupId == groupId && r.segmentNumber == number && r.timestamp == now
            && r.kind == (if stage == ShortToMedium then MediumKind else LongKind)
            && r.id == (if stage == ShortToMedium then groupId else id)
  {
  }

  /** One iteration of a promotion loop: summarise `seg` and, if that
    * succeeds, append its record; a failed summary consumes no id. */
  function Appended(settings: Settings, o: Oracles, stage: Stage, prev: seq<Summary>, seg: string, number: nat,
                    groupId: Id, firstId: Id, c: string, now: int): (r: seq<Summary>)
    ensures |prev| <= |r| <= |prev| + 1
  {
    var s := SummaryOf(settings, o, seg);
    if Succeeded(s) then prev + [Record(settings, o, stage, groupId, firstId + |prev|, number, c, s.value, now)]
    else prev
  }

  /** The records the loop over the first `n` segments appends. */
  function Segments(settings: Settings, o: Oracles, stage: Stage, segs: seq<string>, n: nat,
                    groupId: Id, firstId: Id, c: string, now: int): (r: seq<Summary>)
    requires n <= |segs|
    ensures |r| <= n
  {
    if n == 0 then []
    else
      Appended(settings, o, stage, Segments(settings, o, stage, segs, n - 1, groupId, firstId, c, now),
               segs[n - 1], n, groupId, firstId, c, now)
  }

  /** One more segment whose summary succeeds appends its record. */
  lemma SegmentsSucceeded(settings: Settings, o: Oracles, stage: Stage, segs: seq<string>, i: nat,
                          groupId: Id, firstId: Id, c: string, now: int)
    requires i < |segs| && Succeeded(SummaryOf(settings, o, segs[i]))
    ensures var prev := Segments(settings, o, stage, segs, i, groupId, firstId, c, now);
            Segments(settings, o, stage, segs, i + 1, groupId, firstId, c, now)
            == prev + [Record(settings, o, stage, groupId, firstId + |prev|, i + 1, c,
                              SummaryOf(settings, o, segs[i]).value, now)]
  {
  }

  /** One more segment whose summary fails appends nothing. */
  lemma SegmentsFailed(settings: Settings, o: Oracles, stage: Stage, segs: seq<string>, i: nat,
                       groupId: Id, firstId: Id, c: string, now: int)
    requires i < |segs| && !Succeeded(SummaryOf(settings, o, segs[i]))
    ensures Segments(settings, o, stage, segs, i + 1, groupId, firstId, c, now)
            == Segments(settings, o, stage, segs, i, groupId, firstId, c, now)
  {
  }

  /** The records of one pass: all of channel `c`, of the stage's kind, with
    * increasing segment numbers between 1 and `n`; medium segments all carry
    * the group id, long-term records carry consecutive ids from `firstId`. */
  predicate WellNumbered(r: seq<Summary>, stage: Stage, n: nat, groupId: Id, firstId: Id, c: string) {
    (forall i :: 0 <= i < |r| ==>
       (r[i].channelId == c && r[i].groupId == groupId && 1 <= r[i].segmentNumber <= n
        && r[i].kind == (if stage == ShortToMedium then MediumKind else LongKind)
        && r[i].id == (if stage == ShortToMedium then groupId else firstId + i))) &&
    (forall i, j :: 0 <= i < j < |r| ==> r[i].segmentNumber < r[j].segmentNumber)
  }

  lemma {:induction false} SegmentsShape(settings: Settings, o: Oracles, stage: Stage, segs: seq<string>, n: nat,
                                         groupId: Id, firstId: Id, c: string, now: int)
    requires n <= |segs|
    ensures WellNumbered(Segments(settings, o, stage, segs, n, groupId, firstId, c, now), stage, n, groupId, firstId, c)
  {
    if n > 0 {
      var prev := Segments(settings, o, stage, segs, n - 1, groupId, firstId, c, now);
      SegmentsShape(settings, o, stage, segs, n - 1, groupId, firstId, c, now);
      AppendedShape(settings, o, stage, prev, segs[n - 1], n, groupId, firstId, c, now);
    }
  }

  lemma AppendedShape(settings: Settings, o: Oracles, stage: Stage, prev: seq<Summary>, seg: string, n: nat,
                      groupId: Id, firstId: Id, c: string, now: int)
    requires n > 0 && WellNumbered(prev, stage, n - 1, groupId, firstId, c)
    ensures WellNumbered(Appended(settings, o, stage, prev, seg, n, groupId, firstId, c, now), stage, n, groupId, firstId, c)
  {
    var s := SummaryOf(settings, o, seg);
    if Succeeded(s) {
      var rec := Record(settings, o, stage, groupId, firstId + |prev|, n, c, s.value, now);
      RecordShape(settings, o, stage, groupId, firstId + |prev|, n, c, s.value, now);
      WellNumberedSnoc(prev, rec, stage, n, groupId, firstId, c);
    } else {
      WellNumberedWiden(prev, stage, n, groupId, firstId, c);
    }
  }

  lemma WellNumberedSnoc(prev: seq<Summary>, rec: Summary, stage: Stage, n: nat, groupId: Id, firstId: Id, c: string)
    requires n > 0 && WellNumbered(prev, stage, n - 1, groupId, firstId, c)
    requires rec.channelId == c && rec.groupId == groupId && rec.segmentNumber == n
    requires rec.kind == (if stage == ShortToMedium then MediumKind else LongKind)
    requires rec.id == (if stage == ShortToMedium then groupId else firstId + |prev|)
    ensures WellNumbered(prev + [rec], stage, n, groupId, firstId, c)
  {
    var r := prev + [rec];
    forall i | 0 <= i < |r|
      ensures r[i].channelId == c && r[i].groupId == groupId && 1 <= r[i].segmentNumber <= n
              && r[i].kind == (if stage == ShortToMedium then MediumKind else LongKind)
              && r[i].id == (if stage == ShortToMedium then groupId else firstId + i)
    {
      if i < |prev| {
        assert r[i] == prev[i];
      }
    }
    forall i, j | 0 <= i < j < |r| ensures r[i].segmentNumber < r[j].segmentNumber {
      assert r[i] == prev[i];
      if j < |prev| {
        assert r[j] == prev[j];
      }
    }
  }

  lemma WellNumberedWiden(r: seq<Summary>, stage: Stage, n: nat, groupId: Id, firstId: Id, c: string)
    requires n > 0 && WellNumbered(r, stage, n - 1, groupId, firstId, c)
    ensures WellNumbered(r, stage, n, groupId, firstId, c)
  {
  }

  /** Every segment whose summary fails is dropped: no summary, no record. */
  lemma {:induction false} SegmentsAllFail(settings: Settings, o: Oracles, stage: Stage, segs: seq<string>, n: nat,
                                           groupId: Id, firstId: Id, c: string, now: int)
    requires n <= |segs|
    requires forall i :: 0 <= i < n ==> !Succeeded(SummaryOf(settings, o, segs[i]))
    ensures Segments(settings, o, stage, segs, n, groupId, firstId, c, now) == []
  {
    if n > 0 {
      SegmentsAllFail(settings, o, stage, segs, n - 1, groupId, firstId, c, now);
      assert !Succeeded(SummaryOf(settings, o, segs[n - 1]));
    }
  }

  /** `processLongTermMemoryForChannel`'s first half: once the channel has at
    * least `longTermMemoryTriggerCount` (> 0) long summaries and summaries are
    * enabled, they are removed and replaced by the summaries of their split text. */
  function Recompaction(settings: Settings, o: Oracles, t: Tiers, c: string, now: int): Tiers {
    var le := ChannelLong(t.long, c);
    if settings.longTermMemoryTriggerCount > 0 && |le| >= settings.longTermMemoryTriggerCount
       && settings.useMemorySummaries
    then
      var segs := o.split(LabelledContents("[Long Summary]: ", le));
      if segs == [] then t
      else Recompacted(settings, o, t, segs, c, now)
    else t
  }

  /** The replacement step of a recompaction: the channel's long summaries are
    * removed first, then one record per successfully summarised part is added. */
  function Recompacted(settings: Settings, o: Oracles, t: Tiers, segs: seq<string>, c: string, now: int): Tiers {
    var groupId := t.nextId;
    var kept := Filter(t.long, (m: Summary) => !IsChannelLong(c, m));
    var added := Segments(settings, o, Recompact, segs, |segs|, groupId, groupId + 1, c, now);
    t.(long := kept + added, nextId := groupId + 1 + |added|)
  }

  /** `processLongTermMemoryForChannel`: recompaction, then eviction. */
  function LongStage(settings: Settings, o: Oracles, t: Tiers, c: string, now: int): Tiers {
    var t1 := Recompaction(settings, o, t, c, now);
    t1.(long := EvictOldest(t1.long, c, settings.longTermMemoryLimit))
  }

  /** `processMediumTermMemoryForChannel`. */
  function MediumStage(settings: Settings, o: Oracles, t: Tiers, c: string, now: int, force: bool): Tiers {
    var mm := ChannelMedium(t.medium, c);
    if (force && |mm| > 0) || (!force && |mm| >= settings.mediumTermMemoryTriggerCount) then
      var segs := o.split(LabelledContents("[Medium Summary]: ", mm));
      if segs == [] then t
      else
        LongStage(settings, o, MediumPromotion(settings, o, t, segs, c, now), c, now)
    else t
  }

  /** The promotion loop of `processMediumTermMemoryForChannel`: one long-term
    * summary per successfully summarised segment, under a fresh group id, then
    * the channel's medium-term segments are dropped. */
  function MediumPromotion(settings: Settings, o: Oracles, t: Tiers, segs: seq<string>, c: string, now: int): Tiers {
    var groupId := t.nextId;
    var added := Segments(settings, o, MediumToLong, segs, |segs|, groupId, groupId + 1, c, now);
    Tiers(t.stm, Filter(t.medium, (m: Summary) => m.channelId != c), t.long + added, groupId + 1 + |added|)
  }

  /** The messages the short stage summarises: all but the last `retention`,
    * with JS's negative-end `slice` when `retention` exceeds the count. */
  function ToSummarize(msgs: seq<Message>, retention: int): seq<Message> {
    JsSlice(msgs, 0, |msgs| - retention)
  }

  /** The messages the short stage keeps: `slice(-retention)`, which is every
    * message when `retention` is 0. */
  function Retained(msgs: seq<Message>, retention: int): seq<Message> {
    JsSliceFrom(msgs, -retention)
  }

  /** `processShortTermMemoryForChannel`. */
  function ShortStage(settings: Settings, o: Oracles, t: Tiers, c: string, now: int, force: bool): Tiers {
    var msgs := ChannelMessages(t.stm, c);
    var retention := settings.shortTermMemoryRetention;
    if !force && |msgs| <= settings.shortTermMemoryLimit then t
    else
      var toSum := ToSummarize(msgs, retention);
      if toSum == [] then t
      else
        var segs := o.split(Transcript(toSum));
        if segs == [] then t
        else
          MediumStage(settings, o, ShortPromotion(settings, o, t, segs, c, now), c, now, false)
  }

  /** The promotion step of `processShortTermMemoryForChannel`: one medium-term
    * segment per successfully summarised part, all under one fresh group id,
    * then the channel's short-term messages are cut down to the retained ones. */
  function ShortPromotion(settings: Settings, o: Oracles, t: Tiers, segs: seq<string>, c: string, now: int): Tiers {
    var groupId := t.nextId;
    var added := Segments(settings, o, ShortToMedium, segs, |segs|, groupId, groupId + 1, c, now);
    var stm := OtherMessages(t.stm, c) + Retained(ChannelMessages(t.stm, c), settings.shortTermMemoryRetention);
    Tiers(stm, t.medium + added, t.long, groupId + 1)
  }

  /** `autoSummarizeIfNeeded`: an unforced short stage once the channel holds
    * at least `shortTermMemoryLimit` messages. */
  function AutoSummarize(settings: Settings, o: Oracles, t: Tiers, c: string, now: int): Tiers {
    if |ChannelMessages(t.stm, c)| >= settings.shortTermMemoryLimit then ShortStage(settings, o, t, c, now, false)
    else t
  }

  /** `shortTermMemoryPush`: the watermark is stripped from non-empty content,
    * the message is appended, and an unforced short stage runs once the
    * channel holds more than `shortTermMemoryLimit` messages. */
  function PushMessage(settings: Settings, o: Oracles, t: Tiers, m: Message, now: int): Tiers {
    var t1 := t.(stm := t.stm + [Unmarked(settings, m)]);
    if |ChannelMessages(t1.stm, m.channelId)| > settings.shortTermMemoryLimit
    then ShortStage(settings, o, t1, m.channelId, now, false)
    else t1
  }

  /** The message as `shortTermMemoryPush` stores it: the watermark line is
    * taken off non-empty content, nothing else changes. */
  function Unmarked(settings: Settings, m: Message): (r: Message)
    ensures r.(content := m.content) == m
    ensures m.content == "" ==> r == m
    ensures m.content != "" && EndsWith(m.content, TextUtils.WatermarkSuffix(settings.aiWatermarkText))
            ==> r.content + TextUtils.WatermarkSuffix(settings.aiWatermarkText) == m.content
    ensures !EndsWith(m.content, TextUtils.WatermarkSuffix(settings.aiWatermarkText)) ==> r == m
  {
    if m.content != "" then m.(content := TextUtils.StripWatermark(settings.aiWatermarkText, m.content)) else m
  }

  /** `!pushtoltm`, `!pushtomtm` and `!convoend`. */
  function OwnerPushToLongTerm(settings: Settings, o: Oracles, t: Tiers, c: string, now: int): Tiers {
    MediumStage(settings, o, t, c, now, true)
  }

  function OwnerPushToMediumTerm(settings: Settings, o: Oracles, t: Tiers, c: string, now: int): Tiers {
    ShortStage(settings, o, t, c, now, true)
  }

  function OwnerConversationEnd(settings: Settings, o: Oracles, t: Tiers, c: string, now: int): Tiers {
    MediumStage(settings, o, ShortStage(settings, o, t, c, now, true), c, now, true)
  }

  // ---------------------------------------------------------------------------
  // Fresh ids

  /** The long-term tier's ids are distinct and all below the id counter. */
  predicate Fresh(t: Tiers) {
    DistinctIds(t.long) && IdsBelow(t.long, t.nextId)
  }

  /** The ids of `b` count up from `firstId`. */
  predicate ConsecutiveIds(b: seq<Summary>, firstId: Id) {
    forall i :: 0 <= i < |b| ==> b[i].id == firstId + i
  }

  /** Appending records with consecutive ids from `firstId >= bound` to a tier
    * whose ids are distinct and below `bound` keeps them distinct. */
  lemma AppendConsecutive(a: seq<Summary>, b: seq<Summary>, bound: Id, firstId: Id)
    requires DistinctIds(a) && IdsBelow(a, bound) && bound <= firstId
    requires ConsecutiveIds(b, firstId)
    ensures DistinctIds(a + b) && IdsBelow(a + b, firstId + |b|)
  {
    var r := a + b;
    forall i | 0 <= i < |r| ensures r[i].id < firstId + |b| {
      if i >= |a| {
        assert r[i] == b[i - |a|];
      }
    }
    forall i, j | 0 <= i < j < |r| ensures r[i].id != r[j].id {
      if j < |a| {
        assert r[i] == a[i] && r[j] == a[j];
      } else if i < |a| {
        assert r[i] == a[i] && r[j] == b[j - |a|];
      } else {
        assert r[i] == b[i - |a|] && r[j] == b[j - |a|];
      }
    }
  }

  /** The records of a long-term promotion carry consecutive ids from `firstId`. */
  lemma LongRecordIds(settings: Settings, o: Oracles, stage: Stage, segs: seq<string>,
                      groupId: Id, firstId: Id, c: string, now: int)
    requires stage != ShortToMedium
    ensures ConsecutiveIds(Segments(settings, o, stage, segs, |segs|, groupId, firstId, c, now), firstId)
  {
    SegmentsShape(settings, o, stage, segs, |segs|, groupId, firstId, c, now);
  }

  lemma RecompactedFresh(settings: Settings, o: Oracles, t: Tiers, segs: seq<string>, c: string, now: int)
    requires Fresh(t)
    ensures Fresh(Recompacted(settings, o, t, segs, c, now))
  {
    var groupId := t.nextId;
    var kept := Filter(t.long, (m: Summary) => !IsChannelLong(c, m));
    var added := Segments(settings, o, Recompact, segs, |segs|, groupId, groupId + 1, c, now);
    FilterKeepsIds(t.long, (m: Summary) => !IsChannelLong(c, m), t.nextId);
    LongRecordIds(settings, o, Recompact, segs, groupId, groupId + 1, c, now);
    AppendConsecutive(kept, added, t.nextId, groupId + 1);
  }

  lemma RecompactionFresh(settings: Settings, o: Oracles, t: Tiers, c: string, now: int)
    requires Fresh(t)
    ensures Fresh(Recompaction(settings, o, t, c, now))
  {
    var le := ChannelLong(t.long, c);
    var segs := o.split(LabelledContents("[Long Summary]: ", le));
    RecompactedFresh(settings, o, t, segs, c, now);
  }

  lemma LongStageFresh(settings: Settings, o: Oracles, t: Tiers, c: string, now: int)
    requires Fresh(t)
    ensures Fresh(LongStage(settings, o, t, c, now))
  {
    var t1 := Recompaction(settings, o, t, c, now);
    RecompactionFresh(settings, o, t, c, now);
    EvictKeepsIds(t1.long, c, settings.longTermMemoryLimit, t1.nextId);
  }

  /** With fresh ids and a limit `>= 0`, a long-term pass leaves the channel at
    * most `longTermMemoryLimit` long summaries. */
  lemma LongStageWithinLimit(settings: Settings, o: Oracles, t: Tiers, c: string, now: int)
    requires Fresh(t) && settings.longTermMemoryLimit >= 0
    ensures |ChannelLong(LongStage(settings, o, t, c, now).long, c)| <= settings.longTermMemoryLimit
  {
    var t1 := Recompaction(settings, o, t, c, now);
    RecompactionFresh(settings, o, t, c, now);
    EvictBoundsChannel(t1.long, c, settings.longTermMemoryLimit, t1.nextId);
  }

  lemma MediumPromotionFresh(settings: Settings, o: Oracles, t: Tiers, segs: seq<string>, c: string, now: int)
    requires Fresh(t)
    ensures Fresh(MediumPromotion(settings, o, t, segs, c, now))
  {
    var groupId := t.nextId;
    var added := Segments(settings, o, MediumToLong, segs, |segs|, groupId, groupId + 1, c, now);
    LongRecordIds(settings, o, MediumToLong, segs, groupId, groupId + 1, c, now);
    AppendConsecutive(t.long, added, t.nextId, groupId + 1);
  }

  lemma MediumStageFresh(settings: Settings, o: Oracles, t: Tiers, c: string, now: int, force: bool)
    requires Fresh(t)
    ensures Fresh(MediumStage(settings, o, t, c, now, force))
  {
    var mm := ChannelMedium(t.medium, c);
    if (force && |mm| > 0) || (!force && |mm| >= settings.mediumTermMemoryTriggerCount) {
      var segs := o.split(LabelledContents("[Medium Summary]: ", mm));
      if segs != [] {
        MediumPromotionFresh(settings, o, t, segs, c, now);
        LongStageFresh(settings, o, MediumPromotion(settings, o, t, segs, c, now), c, now);
      }
    }
  }

  lemma ShortStageFresh(settings: Settings, o: Oracles, t: Tiers, c: string, now: int, force: bool)
    requires Fresh(t)
    ensures Fresh(ShortStage(settings, o, t, c, now, force))
  {
    var msgs := ChannelMessages(t.stm, c);
    var segs := o.split(Transcript(ToSummarize(msgs, settings.shortTermMemoryRetention)));
    assert Fresh(ShortPromotion(settings, o, t, segs, c, now));
    MediumStageFresh(settings, o, ShortPromotion(settings, o, t, segs, c, now), c, now, false);
  }

  /** Every entry point of the cascade keeps long-term ids fresh. */
  lemma CascadeFresh(settings: Settings, o: Oracles, t: Tiers, c: string, m: Message, now: int)
    requires Fresh(t)
    ensures Fresh(PushMessage(settings, o, t, m, now))
    ensures Fresh(AutoSummarize(settings, o, t, c, now))
    ensures Fresh(OwnerPushToLongTerm(settings, o, t, c, now))
    ensures Fresh(OwnerPushToMediumTerm(settings, o, t, c, now))
    ensures Fresh(OwnerConversationEnd(settings, o, t, c, now))
  {
    assert Fresh(t.(stm := t.stm + [Unmarked(settings, m)]));
    ShortStageFresh(settings, o, t.(stm := t.stm + [Unmarked(settings, m)]), m.channelId, now, false);
    ShortStageFresh(settings, o, t, c, now, false);
    MediumStageFresh(settings, o, t, c, now, true);
    ShortStageFresh(settings, o, t, c, now, true);
    MediumStageFresh(settings, o, ShortStage(settings, o, t, c, now, true), c, now, true);
  }

  // ---------------------------------------------------------------------------
  // What each stage does to the tiers

  /** The long-term pass touches only the long tier and the id counter. */
  lemma LongStageFrame(settings: Settings, o: Oracles, t: Tiers, c: string, now: int)
    ensures LongStage(settings, o, t, c, now).stm == t.stm
    ensures LongStage(settings, o, t, c, now).medium == t.medium
  {
  }

  /** The medium-term pass never touches short-term memory. */
  lemma MediumStageFrame(settings: Settings, o: Oracles, t: Tiers, c: string, now: int, force: bool)
    ensures MediumStage(settings, o, t, c, now, force).stm == t.stm
  {
    var mm := ChannelMedium(t.medium, c);
    var segs := o.split(LabelledContents("[Medium Summary]: ", mm));
    LongStageFrame(settings, o, MediumPromotion(settings, o, t, segs, c, now), c, now);
  }

  /** Every element of `s` that passes `p` is kept, in a list of only such elements. */
  lemma FilterAllKept<T(!new)>(s: seq<T>, p: T -> bool)
    ensures forall x :: x in Filter(s, p) ==> p(x)
  {
    FilterMembers(s, p);
  }

  /** Cutting channel `c` down to a sub-list `kept` of its messages leaves `c`
    * with exactly `kept` and every other channel as it was. */
  lemma ReplaceChannel(stm: seq<Message>, c: string, kept: seq<Message>)
    requires forall x :: x in kept ==> x in ChannelMessages(stm, c)
    ensures ChannelMessages(OtherMessages(stm, c) + kept, c) == kept
    ensures OtherMessages(OtherMessages(stm, c) + kept, c) == OtherMessages(stm, c)
  {
    var isC := (m: Message) => m.channelId == c;
    var other := (m: Message) => m.channelId != c;
    FilterAppend(OtherMessages(stm, c), kept, isC);
    FilterAppend(OtherMessages(stm, c), kept, other);
    FilterAllKept(stm, other);
    FilterAllKept(stm, isC);
    FilterNone(OtherMessages(stm, c), isC);
    FilterAll(kept, isC);
    FilterNone(kept, other);
    FilterFilter(stm, other, other);
  }

  /** A short stage that goes ahead (forced or over the limit, something to
    * summarise, and at least one part) leaves channel `c` exactly its retained
    * messages, leaves the other channels' messages as they were, and appends
    * the new medium-term segments, all of channel `c` and carrying the group id. */
  lemma ShortStageRetains(settings: Settings, o: Oracles, t: Tiers, c: string, now: int, force: bool)
    requires var msgs := ChannelMessages(t.stm, c);
             (force || |msgs| > settings.shortTermMemoryLimit)
             && ToSummarize(msgs, settings.shortTermMemoryRetention) != []
             && o.split(Transcript(ToSummarize(msgs, settings.shortTermMemoryRetention))) != []
    ensures var r := ShortStage(settings, o, t, c, now, force);
            r.stm == OtherMessages(t.stm, c) + Retained(ChannelMessages(t.stm, c), settings.shortTermMemoryRetention)
            && ChannelMessages(r.stm, c) == Retained(ChannelMessages(t.stm, c), settings.shortTermMemoryRetention)
            && OtherMessages(r.stm, c) == OtherMessages(t.stm, c)
  {
    var msgs := ChannelMessages(t.stm, c);
    var retention := settings.shortTermMemoryRetention;
    var segs := o.split(Transcript(ToSummarize(msgs, retention)));
    var t1 := ShortPromotion(settings, o, t, segs, c, now);
    MediumStageFrame(settings, o, t1, c, now, false);
    ReplaceChannel(t.stm, c, Retained(msgs, retention));
  }

  /** The medium-term segments a short stage appends all belong to channel `c`,
    * share the batch's group id as their id, and are numbered increasingly. */
  lemma ShortPromotionSegments(settings: Settings, o: Oracles, t: Tiers, segs: seq<string>, c: string, now: int)
    ensures var r := ShortPromotion(settings, o, t, segs, c, now);
            |r.medium| >= |t.medium| && r.medium[..|t.medium|] == t.medium
            && WellNumbered(r.medium[|t.medium|..], ShortToMedium, |segs|, t.nextId, t.nextId + 1, c)
            && r.nextId == t.nextId + 1 && r.long == t.long
  {
    var added := Segments(settings, o, ShortToMedium, segs, |segs|, t.nextId, t.nextId + 1, c, now);
    SegmentsShape(settings, o, ShortToMedium, segs, |segs|, t.nextId, t.nextId + 1, c, now);
    var r := ShortPromotion(settings, o, t, segs, c, now);
    assert r.medium[|t.medium|..] == added;
  }

  /** With `0 < retention <= |msgs|`, the summarised prefix and the retained
    * suffix split the channel's messages, and exactly `retention` are kept. */
  lemma RetentionPartitions(msgs: seq<Message>, retention: int)
    requires 0 < retention <= |msgs|
    ensures ToSummarize(msgs, retention) + Retained(msgs, retention) == msgs
    ensures |Retained(msgs, retention)| == retention
  {
    assert msgs[..|msgs| - retention] + msgs[|msgs| - retention..] == msgs;
  }

  /** With more retention than messages (possible when forced), `slice(0,
    * length - retention)` counts its negative end from the back: the first
    * `2 * length - retention` messages are summarised and yet every message is kept. */
  lemma RetentionBeyondCount(msgs: seq<Message>, retention: int)
    requires |msgs| < retention
    ensures Retained(msgs, retention) == msgs
    ensures ToSummarize(msgs, retention) == msgs[..if retention <= 2 * |msgs| then 2 * |msgs| - retention else 0]
  {
  }

  /** With retention 0 (the `|| 0` default) `slice(0, length - 0)` summarises
    * every message and `slice(-0)` keeps every message as well. */
  lemma RetentionZeroKeepsAll(msgs: seq<Message>)
    ensures ToSummarize(msgs, 0) == msgs && Retained(msgs, 0) == msgs
  {
  }

  /** Without force, the short stage does nothing while the channel holds at
    * most `shortTermMemoryLimit` messages. */
  lemma ShortStageBelowLimit(settings: Settings, o: Oracles, t: Tiers, c: string, now: int)
    requires |ChannelMessages(t.stm, c)| <= settings.shortTermMemoryLimit
    ensures ShortStage(settings, o, t, c, now, false) == t
  {
  }

  /** `autoSummarizeIfNeeded` tests `>=` but the unforced short stage it calls
    * tests `>`: at exactly `shortTermMemoryLimit` messages nothing happens. */
  lemma AutoSummarizeAtLimit(settings: Settings, o: Oracles, t: Tiers, c: string, now: int)
    requires |ChannelMessages(t.stm, c)| <= settings.shortTermMemoryLimit
    ensures AutoSummarize(settings, o, t, c, now) == t
  {
  }

  /** Pushing a message appends it (watermark removed) to short-term memory;
    * once its channel then holds more than `shortTermMemoryLimit` messages the
    * unforced short stage runs on that channel, otherwise nothing else changes. */
  lemma PushAppends(settings: Settings, o: Oracles, t: Tiers, m: Message, now: int)
    ensures var t1 := t.(stm := t.stm + [Unmarked(settings, m)]);
            var n := |ChannelMessages(t.stm, m.channelId)|;
            |ChannelMessages(t1.stm, m.channelId)| == n + 1
            && (n + 1 <= settings.shortTermMemoryLimit ==> PushMessage(settings, o, t, m, now) == t1)
            && (n + 1 > settings.shortTermMemoryLimit ==>
                  PushMessage(settings, o, t, m, now) == ShortStage(settings, o, t1, m.channelId, now, false))
  {
    FilterAppend(t.stm, [Unmarked(settings, m)], (x: Message) => x.channelId == m.channelId);
  }

  /** A medium stage that goes ahead removes all of channel `c`'s medium-term
    * segments and keeps every other channel's, in order. */
  lemma MediumStageClears(settings: Settings, o: Oracles, t: Tiers, c: string, now: int, force: bool)
    requires var mm := ChannelMedium(t.medium, c);
             ((force && |mm| > 0) || (!force && |mm| >= settings.mediumTermMemoryTriggerCount))
             && o.split(LabelledContents("[Medium Summary]: ", mm)) != []
    ensures var r := MediumStage(settings, o, t, c, now, force);
            ChannelMedium(r.medium, c) == [] && r.medium == Filter(t.medium, (m: Summary) => m.channelId != c)
  {
    var mm := ChannelMedium(t.medium, c);
    var segs := o.split(LabelledContents("[Medium Summary]: ", mm));
    var t1 := MediumPromotion(settings, o, t, segs, c, now);
    LongStageFrame(settings, o, t1, c, now);
    FilterAllKept(t.medium, (m: Summary) => m.channelId != c);
    FilterNone(t1.medium, (m: Summary) => m.channelId == c);
  }

  /** Before its long-term pass, a medium stage appends to the long tier one
    * record per successfully summarised part: all of channel `c`, of kind
    * `long_summary`, with consecutive fresh ids after the group id. */
  lemma MediumPromotionRecords(settings: Settings, o: Oracles, t: Tiers, segs: seq<string>, c: string, now: int)
    ensures var r := MediumPromotion(settings, o, t, segs, c, now);
            |r.long| >= |t.long| && r.long[..|t.long|] == t.long
            && WellNumbered(r.long[|t.long|..], MediumToLong, |segs|, t.nextId, t.nextId + 1, c)
            && r.nextId == t.nextId + 1 + (|r.long| - |t.long|) && r.stm == t.stm
  {
    var added := Segments(settings, o, MediumToLong, segs, |segs|, t.nextId, t.nextId + 1, c, now);
    SegmentsShape(settings, o, MediumToLong, segs, |segs|, t.nextId, t.nextId + 1, c, now);
    var r := MediumPromotion(settings, o, t, segs, c, now);
    assert r.long[|t.long|..] == added;
  }

  /** Every element of a well-numbered long-term batch is a `long_summary` of channel `c`. */
  lemma WellNumberedChannelLong(r: seq<Summary>, stage: Stage, n: nat, groupId: Id, firstId: Id, c: string)
    requires stage != ShortToMedium && WellNumbered(r, stage, n, groupId, firstId, c)
    ensures forall x :: x in r ==> IsChannelLong(c, x)
  {
    forall x | x in r ensures IsChannelLong(c, x) {
      var i :| 0 <= i < |r| && r[i] == x;
    }
  }

  /** A recompaction replaces the channel's `long_summary` entries by exactly
    * the new records, which are well numbered, and keeps every other channel's
    * entries as they were. */
  lemma RecompactedReplaces(settings: Settings, o: Oracles, t: Tiers, segs: seq<string>, c: string, now: int)
    ensures var added := Segments(settings, o, Recompact, segs, |segs|, t.nextId, t.nextId + 1, c, now);
            var r := Recompacted(settings, o, t, segs, c, now);
            ChannelLong(r.long, c) == added
            && WellNumbered(added, Recompact, |segs|, t.nextId, t.nextId + 1, c)
            && OtherChannels(r.long, c) == OtherChannels(t.long, c)
  {
    var added := Segments(settings, o, Recompact, segs, |segs|, t.nextId, t.nextId + 1, c, now);
    SegmentsShape(settings, o, Recompact, segs, |segs|, t.nextId, t.nextId + 1, c, now);
    WellNumberedChannelLong(added, Recompact, |segs|, t.nextId, t.nextId + 1, c);
    ReplaceChannelLong(t.long, added, c);
    ReplaceKeepsOtherChannels(t.long, added, c);
  }

  /** Dropping the channel's `long_summary` entries and appending `added`, all
    * of them the channel's, leaves the channel exactly `added`. */
  lemma ReplaceChannelLong(long: seq<Summary>, added: seq<Summary>, c: string)
    requires forall x :: x in added ==> IsChannelLong(c, x)
    ensures ChannelLong(Filter(long, (m: Summary) => !IsChannelLong(c, m)) + added, c) == added
  {
    var notLong := (m: Summary) => !IsChannelLong(c, m);
    var isLong := (m: Summary) => IsChannelLong(c, m);
    var kept := Filter(long, notLong);
    FilterAppend(kept, added, isLong);
    FilterAllKept(long, notLong);
    FilterNone(kept, isLong);
    FilterAll(added, isLong);
  }

  /** ... and leaves every other channel's entries as they were. */
  lemma ReplaceKeepsOtherChannels(long: seq<Summary>, added: seq<Summary>, c: string)
    requires forall x :: x in added ==> IsChannelLong(c, x)
    ensures OtherChannels(Filter(long, (m: Summary) => !IsChannelLong(c, m)) + added, c) == OtherChannels(long, c)
  {
    var notLong := (m: Summary) => !IsChannelLong(c, m);
    var other := (m: Summary) => m.channelId != c;
    var kept := Filter(long, notLong);
    FilterAppend(kept, added, other);
    FilterNone(added, other);
    FilterConj(long, notLong, other, other);
  }

  /** Recompaction deletes before it summarises: when every part's summary
    * fails, the channel is left with no long-term summaries at all. */
  lemma RecompactionLosesOnFailure(settings: Settings, o: Oracles, t: Tiers, segs: seq<string>, c: string, now: int)
    requires forall i :: 0 <= i < |segs| ==> !Succeeded(SummaryOf(settings, o, segs[i]))
    ensures ChannelLong(Recompacted(settings, o, t, segs, c, now).long, c) == []
  {
    RecompactedReplaces(settings, o, t, segs, c, now);
    SegmentsAllFail(settings, o, Recompact, segs, |segs|, t.nextId, t.nextId + 1, c, now);
  }
}
