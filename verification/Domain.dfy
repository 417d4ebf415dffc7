/** Values shared by the whole model: time, byte strings, errors and the ingest entities. */
module Domain {

  newtype byte = x: int | 0 <= x < 256

  /** A Go string: a sequence of bytes whose length is counted in bytes. */
  type Bytes = seq<byte>

  /** An instant, in nanoseconds since the Unix epoch. */
  type Time = int

  /** A span of time, in nanoseconds. */
  type Duration = int

  const SECOND: Duration := 1_000_000_000
  const MINUTE: Duration := 60 * SECOND
  const HOUR: Duration := 60 * MINUTE

  /** The zero value of Go's time type: the first instant of the year 1. */
  const ZERO_TIME: Time := -62_135_596_800 * SECOND

  datatype Option<+T> = None | Some(value: T)

  /** An error of a repository call: its text, and whether it wraps the transient sentinel. */
  datatype Error = Error(text: string, transient: bool)

  /** The bytes of an ASCII literal. */
  function Ascii(s: string): (b: Bytes)
    ensures |b| == |s|
  {
    seq(|s|, i requires 0 <= i < |s| => (s[i] as int % 256) as byte)
  }

  datatype EventKey = EventKey(eventType: Bytes, source: Bytes, eventID: Bytes)

  datatype AccountInput = AccountInput(externalID: Bytes, email: string, status: string)

  datatype ConversationInput = ConversationInput(
    externalID: Bytes, channel: string, status: string, startedAt: Time, endedAt: Option<Time>)

  datatype MessageInput = MessageInput(externalID: Bytes, role: string, contentMasked: string, createdAt: Time)

  datatype AttemptInput = AttemptInput(
    externalID: Bytes, provider: string, model: string, tokensIn: int, tokensOut: int,
    costUSD: real, latencyMS: int, success: bool, errorCode: Option<string>, createdAt: Time)

  datatype ConversationEvent = ConversationEvent(
    source: Bytes, eventID: Bytes, account: AccountInput, conversation: ConversationInput,
    message: Option<MessageInput>)

  datatype SnapshotEvent = SnapshotEvent(
    source: Bytes, eventID: Bytes, capturedAt: Time, vpnPeerCount: int, openClawUp: bool,
    cpuPct: real, memPct: real)

  datatype AttemptEvent = AttemptEvent(
    source: Bytes, eventID: Bytes, account: AccountInput, conversation: ConversationInput,
    attempt: AttemptInput)

  /** A stored event payload. `Undecodable` stands for bytes that do not parse. */
  datatype Payload =
    | ConversationPayload(conversation: ConversationEvent)
    | SnapshotPayload(snapshot: SnapshotEvent)
    | AttemptPayload(attempt: AttemptEvent)
    | Undecodable
}
