/** Control messages as they come from the kernel, and as they look on the wire: what the round
    trip does not say about src/io/message.rs. */
module ControlReceive {
  import opened Wrappers
  import opened Layout
  import opened AddressText
  import opened ControlMessage

  // ---------- integers as bytes ----------

  lemma LeOnce(n: nat, width: nat)
    requires width > 0
    ensures Le(n, width) == [n % 256] + Le(n / 256, width - 1)
  {
  }

  /** Least significant byte first. */
  lemma U32Bytes(n: u32)
    ensures U32(n) == [n % 256, n / 0x100 % 256, n / 0x1_0000 % 256, n / 0x100_0000 % 256]
  {
    LeOnce(n, |FOUR|);
    LeOnce(n / 256, |FOUR| - 1);
    LeOnce(n / 256 / 256, |FOUR| - 2);
    LeOnce(n / 256 / 256 / 256, |FOUR| - 3);
    assert n / 256 / 256 == n / 0x1_0000 && n / 256 / 256 / 256 == n / 0x100_0000;
  }

  lemma Shift(x: nat, low: nat)
    ensures (256 * x + low) % 256 == low % 256 && (256 * x + low) / 256 == x + low / 256
  {
  }

  lemma LeShift(x: nat, low: nat, width: nat)
    requires width > 0
    ensures Le(256 * x + low, width) == [low % 256] + Le(x + low / 256, width - 1)
  {
    Shift(x, low);
    LeOnce(256 * x + low, width);
  }

  lemma LeTwo(x: nat, low: nat, width: nat)
    requires width >= 2 && low < 0x1_0000
    ensures Le(0x1_0000 * x + low, width) == [low % 256, low / 256] + Le(x, width - 2)
  {
    var high := low / 256;
    assert 0x1_0000 * x + low == 256 * (256 * x) + low && high % 256 == high && high / 256 == 0;
    LeShift(256 * x, low, width);
    LeShift(x, high, width - 1);
    assert [low % 256, high] + Le(x, width - 2) == [low % 256] + ([high] + Le(x, width - 2));
  }

  lemma U32Pair(a: nat, b: nat)
    requires a < 0x1_0000 && b < 0x1_0000
    ensures U32(0x1_0000 * b + a) == [a % 256, a / 256, b % 256, b / 256]
  {
    LeTwo(b, a, |FOUR|);
    LeTwo(0, b, |FOUR| - 2);
  }

  lemma U64Pair(a: nat, b: nat, high: u32)
    requires a < 0x1_0000 && b < 0x1_0000
    ensures Le(0x1_0000 * (0x1_0000 * high + b) + a, |EIGHT|) == [a % 256, a / 256, b % 256, b / 256] + U32(high)
  {
    var x := 0x1_0000 * high + b;
    assert |EIGHT| - 2 - 2 == |FOUR|;
    LeTwo(x, a, |EIGHT|);
    LeTwo(high, b, |EIGHT| - 2);
    assert Le(x, |EIGHT| - 2) == [b % 256, b / 256] + U32(high);
  }

  /** Eight bytes are the lower four and the upper four. */
  lemma U64Bytes(low: u32, high: u32)
    ensures U64(high * 0x1_0000_0000 + low) == U32(low) + U32(high)
  {
    var a, b := low % 0x1_0000, low / 0x1_0000;
    U32Pair(a, b);
    U64Pair(a, b, high);
    assert 0x1_0000 * (0x1_0000 * high + b) + a == high * 0x1_0000_0000 + low;
  }

  // ---------- what the constants and layouts come to on the wire ----------

  lemma RightsWire()
    ensures Prepare(Socket(Rights([3, -1]))) == Ok(Raw(1, 1, [3, 0, 0, 0, 255, 255, 255, 255]))
  {
    var both: seq<i32>, last: seq<i32> := [3, -1], [-1];
    U32Bytes(3);
    U32Bytes(0xFFFF_FFFF);
    assert both[1..] == last && last[1..] == [];
    assert I32s(last) == I32(-1);
    assert I32s(both) == [3, 0, 0, 0, 255, 255, 255, 255];
  }

  lemma CredentialsWire()
    ensures Prepare(Socket(Credentials(0x0102, 3, 0x8000_0000)))
         == Ok(Raw(1, 2, [2, 1, 0, 0] + [3, 0, 0, 0] + [0, 0, 0, 128]))
  {
    U32Bytes(0x0102);
    U32Bytes(3);
    U32Bytes(0x8000_0000);
  }

  lemma LongWire()
    ensures I64(0x1_0000_0002) == [2, 0, 0, 0, 1, 0, 0, 0] && I64(3) == [3, 0, 0, 0, 0, 0, 0, 0]
  {
    U64Bytes(2, 1);
    U64Bytes(3, 0);
    U32Bytes(0);
    U32Bytes(1);
    U32Bytes(2);
    U32Bytes(3);
  }

  /** Seconds, then microseconds; the rest of the nanoseconds is dropped. */
  lemma TimestampWire()
    ensures Prepare(Socket(Timestamp(SystemTime(0x1_0000_0002, 3999))))
         == Ok(Raw(1, 29, [2, 0, 0, 0, 1, 0, 0, 0] + [3, 0, 0, 0, 0, 0, 0, 0]))
  {
    LongWire();
  }

  /** Interface, specific destination, destination. */
  lemma V4InfoWire()
    ensures Prepare(IpV4(V4PacketInfo(PacketInfo(7, V4([1, 2, 3, 4]), Some(V4([5, 6, 7, 8]))))))
         == Ok(Raw(0, 8, [7, 0, 0, 0] + [8, 7, 6, 5] + [4, 3, 2, 1]))
  {
    U32Bytes(7);
  }

  /** Destination, interface. */
  lemma V6InfoWire(address: Bytes16)
    ensures Prepare(IpV6(V6PacketInfo(PacketInfo(7, V6(address), None)))) == Ok(Raw(41, 50, address + [7, 0, 0, 0]))
  {
    U32Bytes(7);
  }

  lemma HopsWire()
    ensures Prepare(IpV4(TimeToLive(64))) == Ok(Raw(0, 2, [64, 0, 0, 0]))
    ensures Prepare(IpV6(HopLimit(-1))) == Ok(Raw(41, 52, [255, 255, 255, 255]))
  {
    U32Bytes(64);
    U32Bytes(0xFFFF_FFFF);
  }

  lemma ClassWire()
    ensures Prepare(IpV6(Class(TrafficClass(Ect0, ExpeditedForwarding)))) == Ok(Raw(41, 67, [186, 0, 0, 0]))
  {
    U32Bytes(186);
  }

  /** Bits beyond the six of a code point are lost. */
  lemma WideClassWire()
    ensures Prepare(IpV6(Class(TrafficClass(Ect1, Other(65))))) == Ok(Raw(41, 67, [5, 0, 0, 0]))
  {
    U32Bytes(5);
  }

  lemma TlsWire(t: RecordType)
    ensures Prepare(Tls(SetRecordType(t))) == Ok(Raw(282, 1, [t]))
  {
  }

  /** Class selectors count in eights (RFC 2474); RFC 3246 has 46 for expedited forwarding. */
  lemma SelectorPoints()
    ensures DscpBits(ClassSelector1) == 8 * 1 && DscpBits(ClassSelector2) == 8 * 2 && DscpBits(ClassSelector3) == 8 * 3
    ensures DscpBits(ClassSelector4) == 8 * 4 && DscpBits(ClassSelector5) == 8 * 5 && DscpBits(ClassSelector6) == 8 * 6
    ensures DscpBits(ClassSelector7) == 8 * 7 && DscpBits(Default) == 0 && DscpBits(ExpeditedForwarding) == 46
  {
  }

  /** Assured forwarding adds two for each drop precedence to its class (RFC 2597). */
  lemma AssuredPoints()
    ensures DscpBits(AssuredForwarding11) == 8 * 1 + 2 && DscpBits(AssuredForwarding12) == 8 * 1 + 4
    ensures DscpBits(AssuredForwarding13) == 8 * 1 + 6 && DscpBits(AssuredForwarding21) == 8 * 2 + 2
    ensures DscpBits(AssuredForwarding22) == 8 * 2 + 4 && DscpBits(AssuredForwarding23) == 8 * 2 + 6
    ensures DscpBits(AssuredForwarding31) == 8 * 3 + 2 && DscpBits(AssuredForwarding32) == 8 * 3 + 4
    ensures DscpBits(AssuredForwarding33) == 8 * 3 + 6 && DscpBits(AssuredForwarding41) == 8 * 4 + 2
    ensures DscpBits(AssuredForwarding42) == 8 * 4 + 4 && DscpBits(AssuredForwarding43) == 8 * 4 + 6
  {
  }

  /** The two bits of congestion notification (section 5 of RFC 3168). */
  lemma CongestionBits()
    ensures EcnBits(NotEct) == 0 && EcnBits(Ect1) == 1 && EcnBits(Ect0) == 2 && EcnBits(Ce) == 3
  {
  }

  /** Any traffic class byte is read, and writing it again gives the byte back. */
  lemma ClassBytesReadBack(b: byte)
    ensures ClassByte(ClassOf(b)) == b
  {
  }

  // ---------- what can be sent ----------

  /** The messages that can be prepared, in the sender's terms. */
  predicate Sendable(m: Message) {
    match m
    case Socket(Timestamp(t)) => t.secs >= 0
    case Socket(DetailedTimestamp(_, _)) => false
    case IpV4(V4PacketInfo(p)) => p.destination.V4? && p.specific.Some? && p.specific.value.V4?
    case IpV6(V6PacketInfo(p)) => p.destination.V6?
    case Tls(GetRecordType(_)) => false
    case _ => true
  }

  /** Preparing fails exactly for the others, each with its own error. */
  lemma PreparableExact(m: Message)
    ensures Prepare(m).Ok? <==> Sendable(m)
    ensures m.Socket? && m.socket.DetailedTimestamp? ==> Prepare(m) == Err(Unsendable(37))
    ensures m.Tls? && m.tls.GetRecordType? ==> Prepare(m) == Err(Unsendable(2))
    ensures m.Socket? && m.socket.Timestamp? && m.socket.time.secs < 0 ==> Prepare(m) == Err(TimeBeforeEpoch)
    ensures m.IpV4? && m.v4.V4PacketInfo? && m.v4.info4.destination.V6? ==> Prepare(m) == Err(ExpectedIpV4PacketInfo)
    ensures m.IpV4? && m.v4.V4PacketInfo? && m.v4.info4.destination.V4? && !Sendable(m) ==>
              Prepare(m) == Err(PacketInfoConversion(m.v4.info4))
    ensures m.IpV6? && m.v6.V6PacketInfo? && m.v6.info6.destination.V4? ==>
              Prepare(m) == if m.v6.info6.specific.Some? && m.v6.info6.specific.value.V4?
                            then Err(ExpectedIpV6PacketInfo)
                            else Err(PacketInfoConversion(m.v6.info6))
  {
  }

  // ---------- messages that are only received ----------

  /** A `timespec` or `timeval`. */
  function Spec(secs: i64, fraction: i64): seq<byte> {
    I64(secs) + I64(fraction)
  }

  lemma SpecParts(secs: i64, fraction: i64)
    ensures var data := Spec(secs, fraction);
            |data| == 16 && GetI64(data[..8]) == secs && GetI64(data[8..]) == fraction
  {
    RoundTrip64(0, secs);
    RoundTrip64(0, fraction);
    var data := Spec(secs, fraction);
    assert data[..8] == I64(secs) && data[8..] == I64(fraction);
  }

  lemma SpecOf(data: seq<byte>, secs: i64, nanos: u32)
    requires |data| == 16 && GetI64(data[..8]) == secs >= 0 && GetI64(data[8..]) == nanos
    ensures TimeOfSpec(data) == TimeOf(secs, nanos)
  {
    assert nanos % 0x1_0000_0000 == nanos;
  }

  lemma SpecTime(secs: i64, nanos: u32)
    requires secs >= 0
    ensures |Spec(secs, nanos)| == 16 && TimeOfSpec(Spec(secs, nanos)) == TimeOf(secs, nanos)
  {
    SpecParts(secs, nanos);
    SpecOf(Spec(secs, nanos), secs, nanos);
  }

  lemma TimeExact(t: SystemTime)
    requires t.secs >= 0
    ensures TimeOf(t.secs, t.nanos) == Ok(t)
  {
  }

  lemma SpecReads(t: SystemTime)
    requires t.secs >= 0
    ensures |Spec(t.secs, t.nanos)| == 16 && TimeOfSpec(Spec(t.secs, t.nanos)) == Ok(t)
  {
    SpecTime(t.secs, t.nanos);
    TimeExact(t);
  }

  lemma ValOf(data: seq<byte>, secs: i64, micros: u32)
    requires |data| == 16 && GetI64(data[..8]) == secs >= 0 && GetI64(data[8..]) == micros
    ensures TimeOfVal(data) == TimeOf(secs, micros * 1000 % 0x1_0000_0000)
  {
    assert micros % 0x1_0000_0000 == micros;
  }

  /** A `timeval`, with its product in 32 bits. */
  lemma ValTime(secs: i64, micros: u32)
    requires secs >= 0
    ensures |Spec(secs, micros)| == 16 && TimeOfVal(Spec(secs, micros)) == TimeOf(secs, micros * 1000 % 0x1_0000_0000)
  {
    SpecParts(secs, micros);
    ValOf(Spec(secs, micros), secs, micros);
  }

  /** Both kinds of a single time are read by their own conversion. */
  lemma OneTime(data: seq<byte>, t: SystemTime)
    requires |data| == 16
    ensures TimeOfVal(data) == Ok(t) ==> Parse(Raw(1, 29, data)) == Ok(Socket(Timestamp(t)))
    ensures TimeOfSpec(data) == Ok(t) ==> Parse(Raw(1, 35, data)) == Ok(Socket(Timestamp(t)))
  {
  }

  /** Software and hardware time are the first and the third of three; the second is not looked
      at, and nanoseconds are kept. */
  lemma DetailedTimes(s: SystemTime, h: SystemTime, legacy: seq<byte>)
    requires s.secs >= 0 && h.secs >= 0 && |legacy| == 16
    ensures Parse(Raw(1, 37, Spec(s.secs, s.nanos) + legacy + Spec(h.secs, h.nanos)))
        == Ok(Socket(DetailedTimestamp(s, h)))
  {
    SpecReads(s);
    SpecReads(h);
    var a, c := Spec(s.secs, s.nanos), Spec(h.secs, h.nanos);
    var data := a + legacy + c;
    assert data[..16] == a && data[32..] == c;
  }

  lemma NanoTime(t: SystemTime)
    requires t.secs >= 0
    ensures Parse(Raw(1, 35, Spec(t.secs, t.nanos))) == Ok(Socket(Timestamp(t)))
  {
    SpecReads(t);
    OneTime(Spec(t.secs, t.nanos), t);
  }

  lemma MicroTime(secs: i64, micros: i64)
    requires secs >= 0 && 0 <= micros < 1_000_000
    ensures Parse(Raw(1, 29, Spec(secs, micros))) == Ok(Socket(Timestamp(SystemTime(secs, micros * 1000))))
  {
    TimeValRoundTrip(secs, micros);
    OneTime(Spec(secs, micros), SystemTime(secs, micros * 1000));
  }

  /** Fractions of a second and more are carried. */
  lemma NanosCarry(secs: i64, nanos: u32)
    requires 0 <= secs && secs + nanos / 1_000_000_000 < 0x8000_0000_0000_0000
    ensures Parse(Raw(1, 35, Spec(secs, nanos)))
         == Ok(Socket(Timestamp(SystemTime(secs + nanos / 1_000_000_000, nanos % 1_000_000_000))))
  {
    SpecTime(secs, nanos);
    OneTime(Spec(secs, nanos), SystemTime(secs + nanos / 1_000_000_000, nanos % 1_000_000_000));
  }

  lemma WrapOnce(micros: nat)
    requires micros < 2 * 4_294_967
    ensures micros * 1000 % 0x1_0000_0000
         == if micros <= 4_294_967 then micros * 1000 else micros * 1000 - 0x1_0000_0000
  {
  }

  /** Microseconds become nanoseconds in 32 bits: from 4294968 on they wrap around. */
  lemma MicrosWrap(secs: i64, micros: nat)
    requires 0 <= secs < 0x7FFF_FFFF && micros < 2 * 4_294_967
    ensures Parse(Raw(1, 29, Spec(secs, micros)))
         == (var nanos := if micros <= 4_294_967 then micros * 1000 else micros * 1000 - 0x1_0000_0000;
             Ok(Socket(Timestamp(SystemTime(secs + nanos / 1_000_000_000, nanos % 1_000_000_000)))))
  {
    ValTime(secs, micros);
    WrapOnce(micros);
    var nanos := if micros <= 4_294_967 then micros * 1000 else micros * 1000 - 0x1_0000_0000;
    OneTime(Spec(secs, micros), SystemTime(secs + nanos / 1_000_000_000, nanos % 1_000_000_000));
  }

  /** Times before the epoch do not fit; the source panics. */
  lemma TimesBeforeEpoch(secs: i64, fraction: i64, kind: i32)
    requires secs < 0 && (kind == 29 || kind == 35)
    ensures Parse(Raw(1, kind, Spec(secs, fraction))) == Err(TimeOutOfRange)
  {
    SpecParts(secs, fraction);
  }

  lemma WrongTimestampCounts(data: seq<byte>)
    requires |data| % 16 == 0 && |data| != 48
    ensures Parse(Raw(1, 37, data)) == Err(WrongTimestampCount(|data| / 16))
  {
  }

  lemma RecordTypeReceived(b: byte)
    ensures Parse(Raw(282, 2, [b])) == if 20 <= b <= 24 then Ok(Tls(GetRecordType(b))) else Err(UndefinedRecordType(b))
  {
  }

  /** Errors of the socket come as errors, whatever they say. */
  lemma SocketErrorsReceived(data: seq<byte>)
    requires |data| == 16
    ensures Parse(Raw(0, 11, data)) == Err(ExtendedSocketError(0, data))
    ensures Parse(Raw(41, 25, data)) == Err(ExtendedSocketError(41, data))
  {
  }

  /** Only the lowest byte of a traffic class counts. */
  lemma ClassReceived(low: byte, rest: seq<byte>)
    requires |rest| == 3
    ensures Parse(Raw(41, 67, [low] + rest)) == Ok(IpV6(Class(ClassOf(low))))
  {
    var data := [low] + rest;
    assert data[1..] == rest;
    FromLeLow(data);
  }

  lemma FromLeLow(s: seq<byte>)
    requires |s| == 4
    ensures AsU32(GetI32(s)) % 256 == s[0]
  {
  }

  // ---------- messages that are refused ----------

  /** Payloads of one length. */
  predicate Sized(level: i32, kind: i32, size: nat) {
    || (level == 1 && kind == 2 && size == 12)
    || (level == 1 && (kind == 29 || kind == 35) && size == 16)
    || (level == 0 && ((kind == 8 && size == 12) || (kind == 2 && size == 4) || (kind == 11 && size == 16)))
    || (level == 41 && ((kind == 50 && size == 20) || ((kind == 52 || kind == 67) && size == 4)
        || (kind == 25 && size == 16)))
    || (level == 282 && kind == 2 && size == 1)
  }

  lemma WrongLengths(level: i32, kind: i32, size: nat, data: seq<byte>)
    requires Sized(level, kind, size) && |data| != size
    ensures Parse(Raw(level, kind, data)) == Err(WrongLength(level, kind, size, |data|))
  {
  }

  /** Arrays of whole elements. */
  lemma BrokenArrays(data: seq<byte>)
    ensures |data| % 4 != 0 ==> Parse(Raw(1, 1, data)) == Err(WrongLength(1, 1, |data| - |data| % 4, |data|))
    ensures |data| % 16 != 0 ==> Parse(Raw(1, 37, data)) == Err(WrongLength(1, 37, |data| - |data| % 16, |data|))
  {
  }

  predicate KnownKind(level: i32, kind: i32) {
    || (level == 1 && (kind == 1 || kind == 2 || kind == 29 || kind == 35 || kind == 37))
    || (level == 0 && (kind == 8 || kind == 2 || kind == 11))
    || (level == 41 && (kind == 50 || kind == 52 || kind == 67 || kind == 25))
    || (level == 282 && kind == 2)
  }

  lemma UnknownKinds(level: i32, kind: i32, data: seq<byte>)
    requires !KnownKind(level, kind)
    ensures Parse(Raw(level, kind, data))
         == Err(if level == 1 || level == 0 || level == 41
             || level == 282 then InvalidType(level, kind) else InvalidLevel(level))
  {
  }
}
