/**
 * The envelope protocol spoken between the worker's listener and the admin's client:
 * a message is a type tag plus a payload kept as raw bytes, decoded only once the
 * receiver has switched on the tag.
 */
module Protocol {
  import opened Wrappers

  type byte = x: int | 0 <= x < 256

  predicate IsKnownTag(s: string)
  {
    s == "system_info" || s == "metrics" || s == "admin_info" || s == "command"
    || s == "ping" || s == "pong" || s == "disconnect"
  }

  /** A tag string that names none of the seven tags. */
  type UnknownTag = s: string | !IsKnownTag(s) witness ""

  /**
   * The tag of an envelope. The Go type is an open string: the seven tags the two sides
   * use get their own constructor, and every other string arrives as `Unknown`, so each
   * string has exactly one representation.
   */
  datatype MessageType =
    | SystemInfo
    | Metrics
    | AdminInfo
    | Command
    | Ping
    | Pong
    | Disconnect
    | Unknown(tag: UnknownTag)

  /** The wire spelling of a tag. */
  function TagString(t: MessageType): string
  {
    match t
    case SystemInfo => "system_info"
    case Metrics => "metrics"
    case AdminInfo => "admin_info"
    case Command => "command"
    case Ping => "ping"
    case Pong => "pong"
    case Disconnect => "disconnect"
    case Unknown(s) => s
  }

  /** Reading a tag off the wire: every string is accepted. */
  function ParseTag(s: string): (t: MessageType)
    ensures t.Unknown? <==> !IsKnownTag(s)
  {
    if s == "system_info" then SystemInfo
    else if s == "metrics" then Metrics
    else if s == "admin_info" then AdminInfo
    else if s == "command" then Command
    else if s == "ping" then Ping
    else if s == "pong" then Pong
    else if s == "disconnect" then Disconnect
    else Unknown(s)
  }

  /** Every string read as a tag is written back unchanged, unlisted ones included. */
  lemma TagStringParse(s: string)
    ensures TagString(ParseTag(s)) == s
  {
  }

  /** Every tag survives being written and read back. */
  lemma ParseTagString(t: MessageType)
    ensures ParseTag(TagString(t)) == t
  {
  }

  /** The seven tags are spelled differently, so dispatch on the tag is unambiguous. */
  lemma TagsDistinct(t: MessageType, u: MessageType)
    requires TagString(t) == TagString(u)
    ensures t == u
  {
    ParseTagString(t);
    ParseTagString(u);
  }

  /** An envelope. The payload is never interpreted by the envelope layer. */
  datatype Message = Message(msgType: MessageType, payload: seq<byte>)

  /**
   * One result of reading the next envelope off a connection: an envelope, or a decode error
   * (a malformed stream, or the peer closing it).
   */
  datatype Inbound = Received(msg: Message) | DecodeError

  /** The system snapshot a worker sends once per connection. */
  datatype SystemInfoPayload = SystemInfoPayload(
    hostname: string,
    os: string,
    architecture: string,
    ipAddress: string,
    cpuUsage: real,
    ramUsage: real,
    ramTotal: nat,
    ramUsed: nat,
    gpuName: string,
    gpuUsage: real,
    internetSpeed: string,
    uptime: nat)

  /** The live metrics a worker streams; no identity, the connection is the identity. */
  datatype MetricsPayload = MetricsPayload(cpuUsage: real, ramUsage: real, gpuUsage: real)

  /** The admin's hostname, sent once right after it connects. */
  datatype AdminInfoPayload = AdminInfoPayload(hostname: string)

  /** A command with its arguments; declared by the protocol, decoded by no receiver. */
  datatype CommandPayload = CommandPayload(command: string, args: seq<string>)

  /**
   * The JSON payload encoding, which belongs to Go's standard library: one encoder and
   * one partial decoder per payload schema.
   */
  datatype PayloadCodec = PayloadCodec(
    encodeSystemInfo: SystemInfoPayload -> seq<byte>,
    decodeSystemInfo: seq<byte> -> Option<SystemInfoPayload>,
    encodeMetrics: MetricsPayload -> seq<byte>,
    decodeMetrics: seq<byte> -> Option<MetricsPayload>,
    encodeAdminInfo: AdminInfoPayload -> seq<byte>,
    decodeAdminInfo: seq<byte> -> Option<AdminInfoPayload>)
  {
    /** What the model relies on from the JSON library: decoding undoes encoding. */
    ghost predicate Valid()
    {
      && (forall p :: decodeSystemInfo(encodeSystemInfo(p)) == Some(p))
      && (forall p :: decodeMetrics(encodeMetrics(p)) == Some(p))
      && (forall p :: decodeAdminInfo(encodeAdminInfo(p)) == Some(p))
    }
  }

  /** Ping, pong and disconnect carry intent only. */
  predicate IsControl(t: MessageType)
  {
    t == Ping || t == Pong || t == Disconnect
  }

  /** A control envelope is built from its tag alone; the payload stays empty (JSON `null`). */
  function ControlMessage(t: MessageType): (m: Message)
    requires IsControl(t)
    ensures m.msgType == t && m.payload == []
  {
    Message(t, [])
  }

  function SystemInfoMessage(codec: PayloadCodec, p: SystemInfoPayload): Message
  {
    Message(SystemInfo, codec.encodeSystemInfo(p))
  }

  function MetricsMessage(codec: PayloadCodec, p: MetricsPayload): Message
  {
    Message(Metrics, codec.encodeMetrics(p))
  }

  function AdminInfoMessage(codec: PayloadCodec, hostname: string): Message
  {
    Message(AdminInfo, codec.encodeAdminInfo(AdminInfoPayload(hostname)))
  }
}
