/** One control message of src/io/message.rs: how it becomes a raw message and how a raw
    message becomes one.  The constants are those of Linux, as the libc crate gives them. */
module ControlMessage {
  import opened Wrappers
  import opened Layout
  import opened AddressText

  const SOL_SOCKET: i32 := 1
  const IPPROTO_IP: i32 := 0
  const IPPROTO_IPV6: i32 := 41
  const SOL_TLS: i32 := 282
  const SCM_RIGHTS: i32 := 1
  const SCM_CREDENTIALS: i32 := 2
  const SCM_TIMESTAMP: i32 := 29
  const SCM_TIMESTAMPNS: i32 := 35
  const SCM_TIMESTAMPING: i32 := 37
  const IP_TTL: i32 := 2
  const IP_PKTINFO: i32 := 8
  const IP_RECVERR: i32 := 11
  const IPV6_RECVERR: i32 := 25
  const IPV6_PKTINFO: i32 := 50
  const IPV6_HOPLIMIT: i32 := 52
  const IPV6_TCLASS: i32 := 67
  const TLS_SET_RECORD_TYPE: i32 := 1
  const TLS_GET_RECORD_TYPE: i32 := 2

  // ---------- messages ----------

  /** A `SystemTime`: seconds since the epoch, negative before it, and nanoseconds. */
  datatype SystemTime = SystemTime(secs: i64, nanos: nanosecond)
  type nanosecond = x: nat | x < 1_000_000_000

  datatype PacketInfo = PacketInfo(interfaceIndex: u32, destination: IpAddress, specific: Option<IpAddress>)

  datatype Ecn = NotEct | Ect0 | Ect1 | Ce
  datatype Dscp =
    | Default | ExpeditedForwarding
    | ClassSelector1 | ClassSelector2 | ClassSelector3 | ClassSelector4
    | ClassSelector5 | ClassSelector6 | ClassSelector7
    | AssuredForwarding11 | AssuredForwarding12 | AssuredForwarding13
    | AssuredForwarding21 | AssuredForwarding22 | AssuredForwarding23
    | AssuredForwarding31 | AssuredForwarding32 | AssuredForwarding33
    | AssuredForwarding41 | AssuredForwarding42 | AssuredForwarding43
    | Other(value: u8)
  datatype TrafficClass = TrafficClass(ecn: Ecn, dscp: Dscp)

  /** ChangeCipherSpec, Alert, Handshake, ApplicationData and Heartbeat. */
  type RecordType = x: byte | 20 <= x <= 24 witness 20

  datatype SocketMessage =
    | Rights(fds: seq<i32>)
    | Credentials(processId: u32, userId: u32, groupId: u32)
    | Timestamp(time: SystemTime)
    | DetailedTimestamp(software: SystemTime, hardware: SystemTime)
  datatype V4Message = V4PacketInfo(info4: PacketInfo) | TimeToLive(ttl: i32)
  datatype V6Message = V6PacketInfo(info6: PacketInfo) | HopLimit(hops: i32) | Class(traffic: TrafficClass)
  datatype TlsMessage = SetRecordType(toSend: RecordType) | GetRecordType(got: RecordType)

  datatype Message =
    | Socket(socket: SocketMessage)
    | IpV4(v4: V4Message)
    | IpV6(v6: V6Message)
    | Tls(tls: TlsMessage)

  // ---------- traffic class ----------

  function EcnBits(e: Ecn): u8 {
    match e case NotEct => 0 case Ect0 => 2 case Ect1 => 1 case Ce => 3
  }

  function DscpBits(d: Dscp): u8 {
    match d
    case Default => 0
    case ClassSelector1 => 8
    case ClassSelector2 => 16
    case ClassSelector3 => 24
    case ClassSelector4 => 32
    case ClassSelector5 => 40
    case ClassSelector6 => 48
    case ClassSelector7 => 56
    case ExpeditedForwarding => 46
    case AssuredForwarding11 => 10
    case AssuredForwarding12 => 12
    case AssuredForwarding13 => 14
    case AssuredForwarding21 => 18
    case AssuredForwarding22 => 20
    case AssuredForwarding23 => 22
    case AssuredForwarding31 => 26
    case AssuredForwarding32 => 28
    case AssuredForwarding33 => 30
    case AssuredForwarding41 => 34
    case AssuredForwarding42 => 36
    case AssuredForwarding43 => 38
    case Other(value) => value
  }

  /** Six bits of code point, named where the code point has a name. */
  function DscpOf(bits: u8): Dscp {
    match bits
    case 0 => Default
    case 8 => ClassSelector1
    case 16 => ClassSelector2
    case 24 => ClassSelector3
    case 32 => ClassSelector4
    case 40 => ClassSelector5
    case 48 => ClassSelector6
    case 56 => ClassSelector7
    case 46 => ExpeditedForwarding
    case 10 => AssuredForwarding11
    case 12 => AssuredForwarding12
    case 14 => AssuredForwarding13
    case 18 => AssuredForwarding21
    case 20 => AssuredForwarding22
    case 22 => AssuredForwarding23
    case 26 => AssuredForwarding31
    case 28 => AssuredForwarding32
    case 30 => AssuredForwarding33
    case 34 => AssuredForwarding41
    case 36 => AssuredForwarding42
    case 38 => AssuredForwarding43
    case _ => Other(bits)
  }

  /** The shift by two drops the upper bits of the code point. */
  function ClassByte(c: TrafficClass): u8 {
    DscpBits(c.dscp) * 4 % 256 + EcnBits(c.ecn)
  }

  function ClassOf(b: u8): TrafficClass {
    TrafficClass(if b % 4 == 0 then NotEct else if b % 4 == 1 then Ect1 else if b % 4 == 2 then Ect0 else Ce,
                 DscpOf(b / 4))
  }

  // ---------- preparing ----------

  datatype Raw = Raw(level: i32, kind: i32, payload: seq<byte>)

  datatype PrepareError =
    | Unsendable(kind: i32)
    | PacketInfoConversion(info: PacketInfo)
    | ExpectedIpV4PacketInfo
    | ExpectedIpV6PacketInfo
    | TimeBeforeEpoch   // the source panics here

  function Reversed(b: Bytes4): seq<byte> { [b[3], b[2], b[1], b[0]] }

  /** The conversion of `PacketInfo` that both levels start with. */
  function PacketInfoPayload(p: PacketInfo): Result<seq<byte>, PrepareError> {
    match p.destination
    case V4(dst) =>
      if p.specific.Some? && p.specific.value.V4?
      then Ok(I32(AsI32(p.interfaceIndex)) + Reversed(p.specific.value.bytes4) + Reversed(dst))
      else Err(PacketInfoConversion(p))
    case V6(dst) => Ok(dst + U32(p.interfaceIndex))
  }

  function PrepareSocket(m: SocketMessage): Result<Raw, PrepareError> {
    match m
    case Rights(fds) => Ok(Raw(SOL_SOCKET, SCM_RIGHTS, I32s(fds)))
    case Credentials(pid, uid, gid) => Ok(Raw(SOL_SOCKET, SCM_CREDENTIALS, I32(AsI32(pid)) + U32(uid) + U32(gid)))
    case Timestamp(t) =>
      if t.secs < 0 then Err(TimeBeforeEpoch)
      else Ok(Raw(SOL_SOCKET, SCM_TIMESTAMP, I64(t.secs) + I64(t.nanos / 1000)))
    case DetailedTimestamp(_, _) => Err(Unsendable(SCM_TIMESTAMPING))
  }

  function Prepare(m: Message): Result<Raw, PrepareError> {
    match m
    case Socket(s) => PrepareSocket(s)
    case IpV4(V4PacketInfo(p)) =>
      (match PacketInfoPayload(p)
       case Err(e) => Err(e)
       case Ok(payload) => if p.destination.V4? then Ok(Raw(IPPROTO_IP, IP_PKTINFO, payload))
           else Err(ExpectedIpV4PacketInfo))
    case IpV4(TimeToLive(ttl)) => Ok(Raw(IPPROTO_IP, IP_TTL, I32(ttl)))
    case IpV6(V6PacketInfo(p)) =>
      (match PacketInfoPayload(p)
       case Err(e) => Err(e)
       case Ok(payload) => if p.destination.V6? then Ok(Raw(IPPROTO_IPV6, IPV6_PKTINFO, payload))
           else Err(ExpectedIpV6PacketInfo))
    case IpV6(HopLimit(hops)) => Ok(Raw(IPPROTO_IPV6, IPV6_HOPLIMIT, I32(hops)))
    case IpV6(Class(c)) => Ok(Raw(IPPROTO_IPV6, IPV6_TCLASS, I32(ClassByte(c))))
    case Tls(SetRecordType(t)) => Ok(Raw(SOL_TLS, TLS_SET_RECORD_TYPE, [t]))
    case Tls(GetRecordType(_)) => Err(Unsendable(TLS_GET_RECORD_TYPE))
  }

  // ---------- parsing ----------

  datatype ParseError =
    | InvalidLevel(level: i32)
    | InvalidType(level: i32, kind: i32)
    | WrongLength(level: i32, kind: i32, expected: nat, actual: nat)
    | WrongTimestampCount(actual: nat)
    | ExtendedSocketError(level: i32, error: seq<byte>)
    | NullPointer
    | InvalidHeaderLength(expected: nat, actual: nat)
    | TimeOutOfRange   // the source panics here
    | UndefinedRecordType(value: byte)   // the source makes an enum value that does not exist

  /** How long the payload of a message type has to be, given how long it is. */
  function ExpectedLength(level: i32, kind: i32, actual: nat): Result<nat, ParseError> {
    if level == SOL_SOCKET then
      if kind == SCM_RIGHTS then Ok(actual / 4 * 4)
      else if kind == SCM_CREDENTIALS then Ok(12)
      else if kind == SCM_TIMESTAMP || kind == SCM_TIMESTAMPNS then Ok(16)
      else if kind == SCM_TIMESTAMPING then Ok(actual / 16 * 16)
      else Err(InvalidType(level, kind))
    else if level == IPPROTO_IP then
      if kind == IP_PKTINFO then Ok(12)
      else if kind == IP_TTL then Ok(4)
      else if kind == IP_RECVERR then Ok(16)
      else Err(InvalidType(level, kind))
    else if level == IPPROTO_IPV6 then
      if kind == IPV6_PKTINFO then Ok(20)
      else if kind == IPV6_HOPLIMIT || kind == IPV6_TCLASS then Ok(4)
      else if kind == IPV6_RECVERR then Ok(16)
      else Err(InvalidType(level, kind))
    else if level == SOL_TLS then
      if kind == TLS_GET_RECORD_TYPE then Ok(1) else Err(InvalidType(level, kind))
    else Err(InvalidLevel(level))
  }

  /** The checks that come before the payload is read. */
  function CheckHeader(level: i32, kind: i32, actual: nat): (e: Option<ParseError>) {
    match ExpectedLength(level, kind, actual)
    case Err(e) => Some(e)
    case Ok(n) => if n == actual then None else Some(WrongLength(level, kind, n, actual))
  }

  /** `UNIX_EPOCH + Duration::new(secs, nanos)`. */
  function TimeOf(secs: u64, nanos: u32): Result<SystemTime, ParseError> {
    var total := secs + nanos / 1_000_000_000;
    if total < 0x8000_0000_0000_0000 then Ok(SystemTime(total, nanos % 1_000_000_000)) else Err(TimeOutOfRange)
  }

  /** A timeval; the product is taken in 32 bits. */
  function TimeOfVal(data: seq<byte>): Result<SystemTime, ParseError>
    requires |data| == 16
  {
    TimeOf(AsU64(GetI64(data[..8])), AsU64(GetI64(data[8..])) % 0x1_0000_0000 * 1000 % 0x1_0000_0000)
  }

  function TimeOfSpec(data: seq<byte>): Result<SystemTime, ParseError>
    requires |data| == 16
  {
    TimeOf(AsU64(GetI64(data[..8])), AsU64(GetI64(data[8..])) % 0x1_0000_0000)
  }

  function ReadSocket(kind: i32, data: seq<byte>): Result<SocketMessage, ParseError>
    requires CheckHeader(SOL_SOCKET, kind, |data|).None?
  {
    if kind == SCM_RIGHTS then Ok(Rights(GetI32s(data)))
    else if kind == SCM_CREDENTIALS then
      Ok(Credentials(AsU32(GetI32(data[..4])), GetU32(data[4..8]), GetU32(data[8..])))
    else if kind == SCM_TIMESTAMP then
      (match TimeOfVal(data) case Ok(t) => Ok(Timestamp(t)) case Err(e) => Err(e))
    else if kind == SCM_TIMESTAMPNS then
      (match TimeOfSpec(data) case Ok(t) => Ok(Timestamp(t)) case Err(e) => Err(e))
    else if |data| / 16 != 3 then Err(WrongTimestampCount(|data| / 16))
    else
      match (TimeOfSpec(data[..16]), TimeOfSpec(data[32..]))
      case (Ok(s), Ok(h)) => Ok(DetailedTimestamp(s, h))
      case _ => Err(TimeOutOfRange)
  }

  /** The payload as the message it stands for; its length has been checked. */
  function Read(level: i32, kind: i32, data: seq<byte>): Result<Message, ParseError>
    requires CheckHeader(level, kind, |data|).None?
  {
    if level == SOL_SOCKET then
      (match ReadSocket(kind, data) case Ok(m) => Ok(Socket(m)) case Err(e) => Err(e))
    else if level == IPPROTO_IP then
      if kind == IP_PKTINFO then
        Ok(IpV4(V4PacketInfo(PacketInfo(AsU32(GetI32(data[..4])), V4(Reversed(data[8..])),
            Some(V4(Reversed(data[4..8])))))))
      else if kind == IP_TTL then Ok(IpV4(TimeToLive(GetI32(data))))
      else Err(ExtendedSocketError(level, data))
    else if level == IPPROTO_IPV6 then
      if kind == IPV6_PKTINFO then Ok(IpV6(V6PacketInfo(PacketInfo(GetU32(data[16..]), V6(data[..16]), None))))
      else if kind == IPV6_HOPLIMIT then Ok(IpV6(HopLimit(GetI32(data))))
      else if kind == IPV6_TCLASS then Ok(IpV6(Class(ClassOf(AsU32(GetI32(data)) % 256))))
      else Err(ExtendedSocketError(level, data))
    else if 20 <= data[0] <= 24 then Ok(Tls(GetRecordType(data[0])))
    else Err(UndefinedRecordType(data[0]))
  }

  // ---------- what survives ----------

  function NormalDscp(d: Dscp): Dscp {
    if d.Other? then DscpOf(d.value % 64) else d
  }

  /** What a message is after the round trip: time in microseconds, no specific destination
      for IPv6, and a code point of six bits under its name. */
  function Normal(m: Message): Message {
    match m
    case Socket(Timestamp(t)) => Socket(Timestamp(SystemTime(t.secs, t.nanos / 1000 * 1000)))
    case IpV6(V6PacketInfo(p)) => IpV6(V6PacketInfo(p.(specific := None)))
    case IpV6(Class(c)) => IpV6(Class(TrafficClass(c.ecn, NormalDscp(c.dscp))))
    case _ => m
  }

  lemma NamedDscp(d: Dscp)
    requires !d.Other?
    ensures DscpBits(d) < 64 && DscpOf(DscpBits(d)) == d
  {
  }

  lemma ClassBits(d: int, e: int)
    requires 0 <= d < 256 && 0 <= e < 4
    ensures 0 <= d * 4 % 256 + e < 256
    ensures (d * 4 % 256 + e) / 4 == d % 64 && (d * 4 % 256 + e) % 4 == e
  {
  }

  lemma ClassRoundTrip(c: TrafficClass)
    ensures ClassOf(ClassByte(c)) == TrafficClass(c.ecn, NormalDscp(c.dscp))
  {
    ClassBits(DscpBits(c.dscp), EcnBits(c.ecn));
    if !c.dscp.Other? {
      NamedDscp(c.dscp);
      assert DscpBits(c.dscp) % 64 == DscpBits(c.dscp);
    }
  }

  lemma NormalIdempotent(m: Message)
    ensures Normal(Normal(m)) == Normal(m)
  {
    if m.IpV6? && m.v6.Class? {
      ClassRoundTrip(m.v6.traffic);
    }
  }

  /** What parsing a prepared message gives. */
  function Expect(m: Message): Result<Message, ParseError> {
    if m.Tls? && m.tls.SetRecordType? then Err(InvalidType(SOL_TLS, TLS_SET_RECORD_TYPE)) else Ok(Normal(m))
  }

  function Parse(raw: Raw): Result<Message, ParseError> {
    match CheckHeader(raw.level, raw.kind, |raw.payload|)
    case Some(e) => Err(e)
    case None => Read(raw.level, raw.kind, raw.payload)
  }

  lemma CredentialsRoundTrip(pid: u32, uid: u32, gid: u32)
    ensures Parse(Raw(SOL_SOCKET, SCM_CREDENTIALS, I32(AsI32(pid)) + U32(uid) + U32(gid)))
        == Ok(Socket(Credentials(pid, uid, gid)))
  {
    RoundTrip32(uid, AsI32(pid));
    RoundTrip32(gid, 0);
    var p := I32(AsI32(pid)) + U32(uid) + U32(gid);
    assert p[..4] == I32(AsI32(pid)) && p[4..8] == U32(uid) && p[8..] == U32(gid);
  }

  lemma TimeValRoundTrip(secs: i64, micros: nat)
    requires secs >= 0 && micros < 1_000_000
    ensures TimeOfVal(I64(secs) + I64(micros)) == Ok(SystemTime(secs, micros * 1000))
  {
    RoundTrip64(0, secs);
    RoundTrip64(0, micros);
    var p := I64(secs) + I64(micros);
    assert p[..8] == I64(secs) && p[8..] == I64(micros);
    SmallTime(secs, micros);
  }

  lemma SmallTime(secs: i64, micros: nat)
    requires secs >= 0 && micros < 1_000_000
    ensures micros % 0x1_0000_0000 * 1000 % 0x1_0000_0000 == micros * 1000
    ensures TimeOf(secs, micros * 1000) == Ok(SystemTime(secs, micros * 1000))
  {
  }

  lemma SocketRoundTrip(m: SocketMessage)
    requires PrepareSocket(m).Ok?
    ensures Parse(PrepareSocket(m).value) == Expect(Socket(m))
  {
    match m
    case Rights(fds) => RoundTrip32s(fds);
    case Credentials(pid, uid, gid) => CredentialsRoundTrip(pid, uid, gid);
    case Timestamp(t) => TimeValRoundTrip(t.secs, t.nanos / 1000);
  }

  lemma PacketInfoRoundTrip(p: PacketInfo)
    requires PacketInfoPayload(p).Ok?
    ensures p.destination.V4? ==>
        Parse(Raw(IPPROTO_IP, IP_PKTINFO, PacketInfoPayload(p).value)) == Ok(IpV4(V4PacketInfo(p)))
    ensures p.destination.V6? ==>
        Parse(Raw(IPPROTO_IPV6, IPV6_PKTINFO, PacketInfoPayload(p).value))
            == Ok(IpV6(V6PacketInfo(p.(specific := None))))
  {
    RoundTrip32(p.interfaceIndex, AsI32(p.interfaceIndex));
    var data := PacketInfoPayload(p).value;
    match p.destination
    case V4(dst) =>
      var s := p.specific.value.bytes4;
      assert data[..4] == I32(AsI32(p.interfaceIndex)) && data[4..8] == Reversed(s) && data[8..] == Reversed(dst);
      assert Reversed(Reversed(s)) == s && Reversed(Reversed(dst)) == dst;
    case V6(dst) =>
      assert data[..16] == dst && data[16..] == U32(p.interfaceIndex);
  }

  lemma TtlParses(n: i32)
    ensures Parse(Raw(IPPROTO_IP, IP_TTL, I32(n))) == Ok(IpV4(TimeToLive(n)))
  {
    RoundTrip32(0, n);
  }

  lemma HopsParse(n: i32)
    ensures Parse(Raw(IPPROTO_IPV6, IPV6_HOPLIMIT, I32(n))) == Ok(IpV6(HopLimit(n)))
  {
    RoundTrip32(0, n);
  }

  lemma ClassParses(c: TrafficClass)
    ensures Parse(Raw(IPPROTO_IPV6, IPV6_TCLASS, I32(ClassByte(c))))
        == Ok(IpV6(Class(TrafficClass(c.ecn, NormalDscp(c.dscp)))))
  {
    var b := ClassByte(c);
    RoundTrip32(0, b);
    ClassRoundTrip(c);
    var payload := I32(b);
    assert GetI32(payload) == b && AsU32(b) % 256 == b;
  }

  lemma V4RoundTrip(m: V4Message)
    requires Prepare(IpV4(m)).Ok?
    ensures Parse(Prepare(IpV4(m)).value) == Ok(IpV4(m))
  {
    match m
    case TimeToLive(ttl) => TtlParses(ttl);
    case V4PacketInfo(p) => PacketInfoRoundTrip(p);
  }

  lemma V6RoundTrip(m: V6Message)
    requires Prepare(IpV6(m)).Ok?
    ensures Parse(Prepare(IpV6(m)).value) == Ok(Normal(IpV6(m)))
  {
    match m
    case HopLimit(hops) => HopsParse(hops);
    case Class(c) => ClassParses(c);
    case V6PacketInfo(p) => PacketInfoRoundTrip(p);
  }

  /** Every message that can be prepared parses back to its normal form, except the TLS record
      type, which has no parser. */
  lemma MessageRoundTrip(m: Message)
    requires Prepare(m).Ok?
    ensures Parse(Prepare(m).value) == Expect(m)
  {
    match m
    case Socket(s) => SocketRoundTrip(s);
    case IpV4(v) => V4RoundTrip(v);
    case IpV6(v) => V6RoundTrip(v);
    case Tls(t) =>
  }
}
