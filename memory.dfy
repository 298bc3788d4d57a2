/**
 * The plugin's records: messages held in short-term memory, the summary
 * records of the medium and long tiers, global, important and personality
 * entries, the settings that drive the cascade, and the persisted snapshot
 * that is reshaped on load.
 */
module Memory {
  import opened Wrappers

  /** Identifiers handed out by `generateUniqueId`, modelled as a fresh-number supply. */
  type Id = nat

  /** An embedding vector as returned by the embedding service. */
  type Vector = seq<real>

  datatype Role = User | Assistant | System

  /** A short-term entry: a user or assistant message, or an ephemeral system note.
    * `imageUrl` is `Some` for the entries pushed with `type: "image"`. */
  datatype Message = Message(
    channelId: string,
    authorId: string,
    authorName: string,
    role: Role,
    content: string,
    timestamp: int,
    messageId: string,
    imageUrl: Option<string>,
    ephemeral: bool)

  /** A medium-term (`kind == "medium_summary"`) or long-term (`"long_summary"`)
    * summary record. Medium records carry `segmentId = groupId_segmentNumber`,
    * which is the pair (groupId, segmentNumber) here; their `id` is the group id. */
  datatype Summary = Summary(
    id: Id,
    groupId: Id,
    segmentNumber: nat,
    kind: string,
    channelId: string,
    authorId: string,
    authorName: string,
    content: string,
    timestamp: int,
    embedding: Option<Vector>)

  const MediumKind: string := "medium_summary"
  const LongKind: string := "long_summary"

  datatype ImportantEntry = ImportantEntry(content: string, timestamp: int)

  datatype GlobalEntry = GlobalEntry(id: Id, authorId: string, authorName: string, content: string, timestamp: int)

  datatype PersonalityEntry = PersonalityEntry(id: Id, content: string, timestamp: int, embedding: Option<Vector>)

  /** The settings the modelled core reads. Numbers are JS numbers that the
    * settings panel fills with `parseInt`, so they are integers of any sign
    * (the panel's min/max attributes are not enforced). */
  datatype Settings = Settings(
    whitelist: seq<string>,
    proactiveModeChannels: seq<string>,
    proactiveWaitMinMs: int,
    proactiveWaitMaxMs: int,
    proactiveActiveTimeStart: string,
    proactiveActiveTimeEnd: string,
    shortTermMemoryLimit: int,
    shortTermMemoryRetention: int,
    mediumTermMemoryTriggerCount: int,
    longTermMemoryTriggerCount: int,
    longTermMemoryLimit: int,
    useMemorySummaries: bool,
    longTermStorageEnabled: bool,
    disableChannelInstancingForMemories: bool,
    ownerId: string,
    openAiApiKey: string,
    useAiIntrigueCheck: bool,
    sessionIdleMs: int,
    respondMode: string,
    respondChance: real,
    triggerWords: string,
    useIntriguingCheck: bool,
    responseCooldownMs: int,
    globalResponseCooldownMs: int,
    dedupeSeconds: int,
    importantMemoryEnabled: bool,
    importantMemoryLimit: int,
    aiWatermarkEnabled: bool,
    aiWatermarkText: string)

  /** The default `aiWatermarkText`. */
  const DefaultWatermarkText: string :=
    "This content is AI generated. Messages shared are processed in accordance with OpenAI's [privacy policy](https://openai.com/privacy). Content generated may be misleading or inaccurate. Verify important information."

  /** The constructor's defaults. */
  function DefaultSettings(): Settings {
    Settings(
      whitelist := [],
      proactiveModeChannels := [],
      proactiveWaitMinMs := 1800000,
      proactiveWaitMaxMs := 7200000,
      proactiveActiveTimeStart := "07:00",
      proactiveActiveTimeEnd := "17:00",
      shortTermMemoryLimit := 20,
      shortTermMemoryRetention := 5,
      mediumTermMemoryTriggerCount := 10,
      longTermMemoryTriggerCount := 5,
      longTermMemoryLimit := -1,
      useMemorySummaries := true,
      longTermStorageEnabled := true,
      disableChannelInstancingForMemories := false,
      ownerId := "",
      openAiApiKey := "",
      useAiIntrigueCheck := true,
      sessionIdleMs := 120000,
      respondMode := "human",
      respondChance := 0.5,
      triggerWords := "help, question, idea",
      useIntriguingCheck := false,
      responseCooldownMs := 3000,
      globalResponseCooldownMs := 3000,
      dedupeSeconds := 10,
      importantMemoryEnabled := true,
      importantMemoryLimit := 10,
      aiWatermarkEnabled := false,
      aiWatermarkText := DefaultWatermarkText)
  }

  /** A field of the persisted snapshot: an array, or some other JSON value. */
  datatype Loaded<T> = IsArray(items: seq<T>) | NotArray

  /** The memory snapshot as read back from storage. */
  datatype Snapshot = Snapshot(
    mediumTermMemory: Loaded<Summary>,
    longTermMemory: Loaded<Summary>,
    globalMemory: Loaded<GlobalEntry>,
    importantMemory: Loaded<ImportantEntry>,
    personalityMemory: Loaded<PersonalityEntry>)

  /** `Array.isArray(x) ? x : []`: a tier is restored only from an array. */
  function ShapeTier<T>(field: Loaded<T>): (r: seq<T>)
    ensures field.IsArray? ==> r == field.items
    ensures field.NotArray? ==> r == []
  {
    match field
    case IsArray(items) => items
    case NotArray => []
  }
}
