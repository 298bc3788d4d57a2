/**
 * Whether to answer a message (`shouldRespondToMessage`), the dedupe window,
 * the response cooldown, the per-channel session bookkeeping, the proactive
 * time window and the proactive wait draw. `Math.random()` is a parameter
 * `draw` in [0, 1); the intrigue classifier is an oracle from the recent
 * transcript and the message to its answer (None when it fails).
 */
module Decision {
  import opened Wrappers
  import opened JsText
  import opened Seqs
  import opened Memory

  // ---------------------------------------------------------------------------
  // shouldRespondToMessage (AutoPilot.js:1285-1345)

  /** The other messages of the channel, the last ten of them, that the
    * intrigue classifier is shown. */
  function IntrigueContext(stm: seq<Message>, c: string, messageId: string): seq<Message> {
    JsSliceFrom(Filter(stm, (m: Message) => m.channelId == c && m.messageId != messageId), -10)
  }

  /** The classifier sees at most ten earlier messages, all of the channel,
    * none of them the message being judged, and the latest ones of those. */
  lemma IntrigueContextShape(stm: seq<Message>, c: string, messageId: string)
    ensures var ctx := IntrigueContext(stm, c, messageId);
            var all := Filter(stm, (m: Message) => m.channelId == c && m.messageId != messageId);
            |ctx| == (if |all| < 10 then |all| else 10)
            && ctx == all[|all| - |ctx|..]
            && forall m :: m in ctx ==> m in stm && m.channelId == c && m.messageId != messageId
  {
    var p := (m: Message) => m.channelId == c && m.messageId != messageId;
    FilterMembers(stm, p);
    var all := Filter(stm, p);
    var ctx := IntrigueContext(stm, c, messageId);
    forall m | m in ctx ensures m in stm && m.channelId == c && m.messageId != messageId {
      var i :| 0 <= i < |ctx| && ctx[i] == m;
      assert m == all[|all| - |ctx| + i];
    }
  }

  function ContextLine(m: Message): string {
    "[" + m.authorName + "]: " + m.content
  }

  function ContextTranscript(ctx: seq<Message>): string {
    Join(seq(|ctx|, i requires 0 <= i < |ctx| => ContextLine(ctx[i])), "\n")
  }

  /** `triggerWords.split(",").map(t => t.trim().toLowerCase()).filter(Boolean)`. */
  function Triggers(triggerWords: string): seq<string> {
    Filter(Lowered(SplitOn(triggerWords, ',')), (t: string) => t != "")
  }

  function Lowered(parts: seq<string>): (r: seq<string>)
    ensures |r| == |parts|
  {
    seq(|parts|, i requires 0 <= i < |parts| => ToLower(Trim(parts[i])))
  }

  /** The `for … of triggers` search: some trigger occurs in the lower-cased content. */
  function AnyTriggerIn(lowered: string, triggers: seq<string>): bool {
    if triggers == [] then false
    else Contains(lowered, triggers[0]) || AnyTriggerIn(lowered, triggers[1..])
  }

  lemma {:induction false} AnyTriggerInIff(lowered: string, triggers: seq<string>)
    ensures AnyTriggerIn(lowered, triggers) <==> exists t :: t in triggers && Contains(lowered, t)
  {
    if triggers != [] {
      AnyTriggerInIff(lowered, triggers[1..]);
      assert triggers == [triggers[0]] + triggers[1..];
    }
  }

  /** The keyword rule of the "human" mode: a question mark, more than ten
    * whitespace-separated pieces, or a trigger word anywhere in the content. */
  predicate Intriguing(settings: Settings, content: string) {
    Contains(content, "?") || |SplitWs(content)| > 10
    || AnyTriggerIn(ToLower(content), Triggers(settings.triggerWords))
  }

  /** `shouldRespondToMessage`. `mentions` is the message's mention list (None
    * when absent); `draw` is the one `Math.random()` value the rule consults. */
  function ShouldRespond(settings: Settings, selfId: string, mentions: Option<seq<string>>,
                         stm: seq<Message>, c: string, messageId: string, content: string,
                         classify: (string, string) -> Option<string>, draw: real): bool
  {
    var mode := settings.respondMode;
    if mode == "always" then true
    else if mode == "mention" then mentions.Some? && selfId in mentions.value
    else if mode == "random" then draw < settings.respondChance
    else if mode == "attentive" then true
    else if mode == "human" then
      if settings.useAiIntrigueCheck then
        match classify(ContextTranscript(IntrigueContext(stm, c, messageId)), content)
        case None => false
        case Some(answer) => Contains(ToLower(answer), "yes")
      else if settings.useIntriguingCheck then Intriguing(settings, content)
      else draw < 0.5
    else false
  }

  /** What each mode decides; an unknown mode never answers. */
  lemma ShouldRespondModes(settings: Settings, selfId: string, mentions: Option<seq<string>>,
                           stm: seq<Message>, c: string, messageId: string, content: string,
                           classify: (string, string) -> Option<string>, draw: real)
    ensures var r := ShouldRespond(settings, selfId, mentions, stm, c, messageId, content, classify, draw);
            (settings.respondMode in {"always", "attentive"} ==> r)
            && (settings.respondMode == "mention" ==> (r <==> mentions.Some? && selfId in mentions.value))
            && (settings.respondMode == "random" ==> (r <==> draw < settings.respondChance))
            && ((settings.respondMode == "human" && !settings.useAiIntrigueCheck && !settings.useIntriguingCheck)
                ==> (r <==> draw < 0.5))
            && (settings.respondMode !in {"always", "mention", "random", "attentive", "human"} ==> !r)
  {
  }

  /** In "human" mode with the keyword check (and no AI check), a message is
    * answered exactly when it asks a question, runs past ten pieces, or
    * contains one of the trimmed, lower-cased, non-empty trigger words. */
  lemma HumanKeywordRule(settings: Settings, selfId: string, mentions: Option<seq<string>>,
                         stm: seq<Message>, c: string, messageId: string, content: string,
                         classify: (string, string) -> Option<string>, draw: real)
    requires settings.respondMode == "human" && !settings.useAiIntrigueCheck && settings.useIntriguingCheck
    ensures ShouldRespond(settings, selfId, mentions, stm, c, messageId, content, classify, draw)
            <==> (Contains(content, "?") || |SplitWs(content)| > 10
                  || exists t :: t in Triggers(settings.triggerWords) && Contains(ToLower(content), t))
  {
    assert ShouldRespond(settings, selfId, mentions, stm, c, messageId, content, classify, draw)
           == Intriguing(settings, content);
    AnyTriggerInIff(ToLower(content), Triggers(settings.triggerWords));
  }

  /** Every trigger word is non-empty, trimmed and lower case. */
  lemma TriggersShape(triggerWords: string)
    ensures forall t :: t in Triggers(triggerWords) ==> t != "" && ToLower(t) == t
  {
    var lowered := Lowered(SplitOn(triggerWords, ','));
    FilterMembers(lowered, (t: string) => t != "");
    LoweredIsLower(SplitOn(triggerWords, ','));
  }

  lemma LoweredIsLower(parts: seq<string>)
    ensures forall t :: t in Lowered(parts) ==> ToLower(t) == t
  {
    var lowered := Lowered(parts);
    forall t | t in lowered ensures ToLower(t) == t {
      var i :| 0 <= i < |lowered| && lowered[i] == t;
      ToLowerIdempotent(Trim(parts[i]));
    }
  }

  lemma {:induction false} ToLowerIdempotent(s: string)
    ensures ToLower(ToLower(s)) == ToLower(s)
  {
    if s != [] {
      ToLowerIdempotent(s[1..]);
      ToLowerAppend([s[0]], s[1..]);
      ToLowerAppend([ToLowerChar(s[0])], ToLower(s[1..]));
      assert ToLower(s) == [ToLowerChar(s[0])] + ToLower(s[1..]);
    }
  }

  /** In "human" mode with the AI check the classifier's answer decides:
    * answered exactly when the answer contains "yes" in any case. */
  lemma HumanAiRule(settings: Settings, selfId: string, mentions: Option<seq<string>>,
                    stm: seq<Message>, c: string, messageId: string, content: string,
                    classify: (string, string) -> Option<string>, draw: real)
    requires settings.respondMode == "human" && settings.useAiIntrigueCheck
    ensures var answer := classify(ContextTranscript(IntrigueContext(stm, c, messageId)), content);
            ShouldRespond(settings, selfId, mentions, stm, c, messageId, content, classify, draw)
            <==> answer.Some? && Contains(ToLower(answer.value), "yes")
  {
  }

  // ---------------------------------------------------------------------------
  // Dedupe window and cooldown (AutoPilot.js:1610-1630)

  /** `isDuplicateMessage`: the key was marked (at a non-zero time, `t &&`)
    * less than `dedupeSeconds` seconds ago. */
  predicate IsDuplicate(responded: map<string, int>, key: string, now: int, dedupeSeconds: int) {
    key in responded && responded[key] != 0 && now - responded[key] < dedupeSeconds * 1000
  }

  /** `markAsResponded`. */
  function MarkResponded(responded: map<string, int>, key: string, now: int): (r: map<string, int>)
    ensures key in r && r[key] == now
    ensures forall k :: k in responded && k != key ==> k in r && r[k] == responded[k]
    ensures r.Keys == responded.Keys + {key}
  {
    responded[key := now]
  }

  /** After marking a key at time `t > 0`, a check at `now` reports a
    * duplicate exactly while `now - t < dedupeSeconds * 1000`; other keys
    * keep their answer. */
  lemma DedupeWindow(responded: map<string, int>, key: string, t: int, now: int, dedupeSeconds: int, other: string)
    requires t > 0 && other != key
    ensures IsDuplicate(MarkResponded(responded, key, t), key, now, dedupeSeconds)
            <==> now - t < dedupeSeconds * 1000
    ensures IsDuplicate(MarkResponded(responded, key, t), other, now, dedupeSeconds)
            == IsDuplicate(responded, other, now, dedupeSeconds)
  {
  }

  /** `canRespondNow`: both the channel's and the global cooldown have passed;
    * a channel that never answered counts as having answered at time 0. */
  predicate CanRespondNow(settings: Settings, lastChannel: map<string, int>, lastGlobal: int, c: string, now: int) {
    var lc := if c in lastChannel then lastChannel[c] else 0;
    now - lc >= settings.responseCooldownMs && now - lastGlobal >= settings.globalResponseCooldownMs
  }

  /** Once allowed, waiting longer never forbids answering. */
  lemma CooldownMonotone(settings: Settings, lastChannel: map<string, int>, lastGlobal: int, c: string,
                         now: int, later: int)
    requires now <= later && CanRespondNow(settings, lastChannel, lastGlobal, c, now)
    ensures CanRespondNow(settings, lastChannel, lastGlobal, c, later)
  {
  }

  /** Right after an answer at `now` (recorded for the channel and globally),
    * a positive channel cooldown forbids another one at the same time. */
  lemma CooldownAfterAnswer(settings: Settings, lastChannel: map<string, int>, c: string, now: int)
    requires settings.responseCooldownMs > 0
    ensures !CanRespondNow(settings, lastChannel[c := now], now, c, now)
  {
  }

  // ---------------------------------------------------------------------------
  // Per-channel sessions (AutoPilot.js:437-453)

  datatype Session = Session(isActive: bool, lastActivity: int)

  /** The owner's "!end session" message, in any case and spacing around it. */
  predicate IsEndSession(content: string) {
    ToLower(Trim(content)) == "!end session"
  }

  /** The session bookkeeping for an incoming message of channel `c` at `now`:
    * create an inactive session if missing, expire an idle active one, record
    * the activity, and close the session on "!end session". The second
    * component says whether the message was "!end session". */
  function SessionStep(sessions: map<string, Session>, c: string, now: int, idleMs: int, content: string)
    : (map<string, Session>, bool)
  {
    var s0 := if c in sessions then sessions[c] else Session(false, 0);
    var s1 := if s0.isActive && now - s0.lastActivity > idleMs then s0.(isActive := false) else s0;
    var s2 := s1.(lastActivity := now);
    var ended := IsEndSession(content);
    var s3 := if ended then s2.(isActive := false) else s2;
    (sessions[c := s3], ended)
  }

  /** A session step never activates a session: the channel's session is
    * active afterwards only if it was active and not idle and not ended, its
    * last activity is `now`, and every other channel's session is unchanged. */
  lemma SessionNeverActivates(sessions: map<string, Session>, c: string, now: int, idleMs: int, content: string)
    ensures var (r, ended) := SessionStep(sessions, c, now, idleMs, content);
            c in r && r[c].lastActivity == now
            && (r[c].isActive <==> c in sessions && sessions[c].isActive
                                   && now - sessions[c].lastActivity <= idleMs && !ended)
            && (forall k :: k != c ==> (k in r <==> k in sessions) && (k in r ==> r[k] == sessions[k]))
  {
  }

  predicate AllInactive(sessions: map<string, Session>) {
    forall k :: k in sessions ==> !sessions[k].isActive
  }

  /** Since nothing ever sets `isActive` to true, sessions that start inactive stay inactive. */
  lemma SessionsStayInactive(sessions: map<string, Session>, c: string, now: int, idleMs: int, content: string)
    requires AllInactive(sessions)
    ensures AllInactive(SessionStep(sessions, c, now, idleMs, content).0)
  {
    SessionNeverActivates(sessions, c, now, idleMs, content);
  }

  // ---------------------------------------------------------------------------
  // Proactive window and wait (AutoPilot.js:1432-1440, 1364-1367)

  /** `isTimeInRange` on the "HH:MM" strings, with JS string comparison. */
  predicate IsTimeInRange(current: string, start: string, end: string) {
    StrLe(start, current) && StrLe(current, end)
  }

  /** The window `checkProactiveMessages` uses, with its "07:00"/"17:00" fallbacks. */
  predicate InProactiveWindow(settings: Settings, current: string) {
    var start := if settings.proactiveActiveTimeStart == "" then "07:00" else settings.proactiveActiveTimeStart;
    var end := if settings.proactiveActiveTimeEnd == "" then "17:00" else settings.proactiveActiveTimeEnd;
    IsTimeInRange(current, start, end)
  }

  lemma StrLeTrans(a: string, b: string, c: string)
    requires StrLe(a, b) && StrLe(b, c)
    ensures StrLe(a, c)
  {
    UnitsLeTrans(Utf16(a), Utf16(b), Utf16(c));
  }

  lemma StrLeRefl(a: string)
    ensures StrLe(a, a)
  {
    UnitsLeRefl(Utf16(a));
  }

  lemma {:induction false} UnitsLeTrans(a: seq<int>, b: seq<int>, c: seq<int>)
    requires UnitsLe(a, b) && UnitsLe(b, c)
    ensures UnitsLe(a, c)
  {
    if a != [] && b != [] && c != [] && a[0] == b[0] && b[0] == c[0] {
      UnitsLeTrans(a[1..], b[1..], c[1..]);
    }
  }

  lemma {:induction false} UnitsLeRefl(a: seq<int>)
    ensures UnitsLe(a, a)
  {
    if a != [] {
      UnitsLeRefl(a[1..]);
    }
  }

  /** The window is inclusive at both ends, and a window that wraps past
    * midnight (start after end, e.g. "22:00" to "06:00") is never open. */
  lemma TimeWindowBounds(current: string, start: string, end: string)
    ensures StrLe(start, end) ==> IsTimeInRange(start, start, end) && IsTimeInRange(end, start, end)
    ensures !StrLe(start, end) ==> !IsTimeInRange(current, start, end)
  {
    StrLeRefl(start);
    StrLeRefl(end);
    if IsTimeInRange(current, start, end) {
      StrLeTrans(start, current, end);
    }
  }

  /** `randomProactiveWait`: `Math.floor(draw * (max - min + 1)) + min`. */
  function ProactiveWait(minMs: int, maxMs: int, draw: real): int {
    (draw * (maxMs - minMs + 1) as real).Floor + minMs
  }

  /** For `min <= max` and a draw in [0, 1) the wait lies between min and max
    * inclusive, and the draw 0 gives exactly the minimum. */
  lemma ProactiveWaitRange(minMs: int, maxMs: int, draw: real)
    requires minMs <= maxMs && 0.0 <= draw < 1.0
    ensures minMs <= ProactiveWait(minMs, maxMs, draw) <= maxMs
    ensures draw == 0.0 ==> ProactiveWait(minMs, maxMs, draw) == minMs
  {
    var w := (maxMs - minMs + 1) as real;
    assert 0.0 <= draw * w < w;
  }
}
