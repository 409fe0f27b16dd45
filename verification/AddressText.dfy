/** The text forms of addresses of src/net/address.rs (section 2.2 of RFC 4291), as functions
    on strings.  The methods with the loops of the source are in Address.dfy. */
module AddressText {
  import opened Wrappers
  import opened Text
  import opened Layout

  type group = x: nat | x < 65536

  /** The error kinds of the source; each carries the text it complains about. */
  datatype AddressError =
    | InvalidV4Format(text: string)
    | InvalidV4Value(text: string)
    | InvalidUncompressedFormat(text: string)
    | InvalidUncompressedValue(text: string)
    | InvalidCompressedFormat(text: string)
    | InvalidCompressedValue(text: string)
    | InvalidMappedFormat(text: string)

  // ---------- digits ----------

  function Digit(d: nat): char
    requires d < 16
  {
    "0123456789abcdef"[d]
  }

  function DigitValue(c: char): Option<nat> {
    if '0' <= c <= '9' then Some(c as int - '0' as int)
    else if 'a' <= c <= 'f' then Some(c as int - 'a' as int + 10)
    else if 'A' <= c <= 'F' then Some(c as int - 'A' as int + 10)
    else None
  }

  /** Octets are decimal, groups hexadecimal. */
  type Radix = n: nat | n == 10 || n == 16 witness 10

  predicate DigitIn(c: char, radix: Radix) {
    DigitValue(c).Some? && DigitValue(c).value < radix
  }

  function Shifted(v: nat, radix: Radix, digit: nat): nat {
    (if radix == 10 then 10 * v else 16 * v) + digit
  }

  /** The value of a digit string, most significant digit first. */
  function Value(s: string, radix: Radix): nat
    requires AllDigits(s, radix)
  {
    if s == "" then 0
    else
      assert DigitIn(s[|s| - 1], radix);
      Shifted(Value(s[..|s| - 1], radix), radix, DigitValue(s[|s| - 1]).value)
  }

  predicate AllDigits(s: string, radix: Radix) {
    forall i :: 0 <= i < |s| ==> DigitIn(s[i], radix)
  }

  /** What is left after an optional plus sign. */
  function Unsigned(s: string): string {
    if |s| > 1 && s[0] == '+' then s[1..] else s
  }

  /** `from_str_radix` of an unsigned integer type: an optional plus sign, then digits. */
  function ParseUnsigned(s: string, radix: Radix, max: nat): (v: Option<nat>)
    ensures v.Some? ==> v.value <= max
  {
    var digits := Unsigned(s);
    if digits == "" || !AllDigits(digits, radix) then None
    else if Value(digits, radix) > max then None
    else Some(Value(digits, radix))
  }

  function Hex4(v: group): string {
    [Digit(v / 4096), Digit(v / 256 % 16), Digit(v / 16 % 16), Digit(v % 16)]
  }

  function Decimal(b: byte): string {
    if b >= 100 then [Digit(b / 100), Digit(b / 10 % 10), Digit(b % 10)]
    else if b >= 10 then [Digit(b / 10), Digit(b % 10)]
    else [Digit(b)]
  }

  // ---------- groups ----------

  /** Drops leading zeros, but never the last character. */
  function StripZeros(p: string): string {
    if ByteLen(p) > 1 && p[0] == '0' then StripZeros(p[1..]) else p
  }

  /** Fills up to four bytes with leading zeros. */
  function PadZeros(p: string): string
    decreases 4 - ByteLen(p)
  {
    if ByteLen(p) < 4 then PadZeros("0" + p) else p
  }

  function Trimmed(parts: seq<string>): seq<string> {
    seq(|parts|, i requires 0 <= i < |parts| => Trim(parts[i]))
  }

  function Stripped(parts: seq<string>): seq<string> {
    seq(|parts|, i requires 0 <= i < |parts| => StripZeros(parts[i]))
  }

  function Padded(parts: seq<string>): seq<string> {
    seq(|parts|, i requires 0 <= i < |parts| => PadZeros(parts[i]))
  }

  function Zeros(n: nat): seq<string> {
    seq(n, _ => "0000")
  }

  // ---------- runs of zero groups ----------

  /** How many of the groups just before position n are zero. */
  function ZerosBefore(g: seq<string>, n: nat): (z: nat)
    requires n <= |g|
    ensures z <= n
    ensures forall i :: n - z <= i < n ==> g[i] == "0"
    ensures z < n ==> g[n - z - 1] != "0"
  {
    if n == 0 || g[n - 1] != "0" then 0 else 1 + ZerosBefore(g, n - 1)
  }

  predicate ZeroRun(g: seq<string>, start: nat, len: nat) {
    start + len <= |g| && forall i :: start <= i < start + len ==> g[i] == "0"
  }

  /** The run the scan of the first n groups settles on; start -1 and length 0 if there is none. */
  function LongestRun(g: seq<string>, n: nat): (r: (int, nat))
    requires n <= |g|
    ensures r.1 == 0 ==> r.0 == -1
    ensures r.1 > 0 ==> 0 <= r.0 && r.0 + r.1 <= n
  {
    if n == 0 then (-1, 0)
    else
      var (start, len) := LongestRun(g, n - 1);
      var z := ZerosBefore(g, n);
      if z > len then (n - z, z) else (start, len)
  }

  /** The run (start, len) is the leftmost of the longest zero runs among the first n groups. */
  ghost predicate LeftmostLongest(g: seq<string>, n: nat, start: int, len: nat) {
    && (len > 0 ==> start >= 0 && start + len <= n && ZeroRun(g, start, len))
    && (len == 0 ==> start == -1)
    && forall a: nat, l: nat {:trigger ZeroRun(g, a, l)} ::
         0 < l && a + l <= n && ZeroRun(g, a, l) ==> l < len || (l == len && start <= a)
  }

  /** The scan finds the run that section 4.2.3 of RFC 5952 asks for. */
  lemma {:induction false} LongestRunIsLeftmostLongest(g: seq<string>, n: nat)
    requires n <= |g|
    ensures LeftmostLongest(g, n, LongestRun(g, n).0, LongestRun(g, n).1)
  {
    if n > 0 {
      LongestRunIsLeftmostLongest(g, n - 1);
      var (start, len) := LongestRun(g, n);
      var z := ZerosBefore(g, n);
      forall a: nat, l: nat {:trigger ZeroRun(g, a, l)} | 0 < l && a + l <= n && ZeroRun(g, a, l)
        ensures l < len || (l == len && start <= a)
      {
        if a + l == n {
          assert n - z <= a;
        }
      }
    }
  }

  // ---------- compression ----------

  predicate GroupSized(p: string) {
    1 <= ByteLen(p) <= 4
  }

  /** The parts of a compressed address, for a zero run (start, len): an empty part stands for
      the elided run, and no address starts or ends with a single colon.  The last but one
      cases are those of a single zero group at an edge, where nothing is elided and the empty
      part is added all the same. */
  function CompressAt(g: seq<string>, start: int, len: nat): seq<string>
    requires |g| == 8 && (len > 0 ==> 0 <= start && start + len <= 8)
  {
    if len == 8 then ["", "", ""]
    else if len > 1 then
      (if start == 0 then [""] else []) + g[..start] + [""] + g[start + len..] + (if start + len == 8 then [""] else [])
    else if len == 1 && start == 0 then [""] + g
    else if len == 1 && start == 7 then g + [""]
    else g
  }

  function Compress(g: seq<string>): seq<string>
    requires |g| == 8
  {
    var (start, len) := LongestRun(g, |g|);
    CompressAt(g, start, len)
  }

  function CompressText(text: string): Result<string, AddressError> {
    var parts := Trimmed(Split(text, ':'));
    if |parts| != 8 then Err(InvalidUncompressedFormat(text))
    else if exists i :: 0 <= i < 8 && !GroupSized(parts[i]) then Err(InvalidUncompressedValue(text))
    else Ok(Join(Compress(Stripped(parts)), ':'))
  }

  // ---------- expansion ----------

  function DropEmptyFirst(parts: seq<string>): seq<string> {
    if parts != [] && parts[0] == "" then parts[1..] else parts
  }

  function DropEmptyLast(parts: seq<string>): seq<string> {
    if parts != [] && parts[|parts| - 1] == "" then parts[..|parts| - 1] else parts
  }

  /** Position of the first empty part, or the number of parts. */
  function FirstEmpty(parts: seq<string>): (k: nat)
    ensures k <= |parts|
    ensures forall i :: 0 <= i < k ==> parts[i] != ""
    ensures k < |parts| ==> parts[k] == ""
  {
    if parts == [] || parts[0] == "" then 0 else 1 + FirstEmpty(parts[1..])
  }

  /** Puts zero groups for the empty part at k, at least one and otherwise up to eight groups. */
  function Expand(parts: seq<string>, k: nat): seq<string>
    requires k < |parts|
  {
    Padded(parts[..k]) + Zeros(if |parts| < 8 then 9 - |parts| else 1) + Padded(parts[k + 1..])
  }

  function UncompressParts(parts: seq<string>, text: string): Result<string, AddressError> {
    var k := FirstEmpty(parts);
    if (exists i :: 0 <= i < |parts| && ByteLen(parts[i]) > 4)
       || (exists i :: k < i < |parts| && parts[i] == "") then Err(InvalidCompressedValue(text))
    else if k < |parts| then Ok(Join(Expand(parts, k), ':'))
    else if |parts| != 8 then Err(InvalidCompressedFormat(text))
    else Ok(Join(Padded(parts), ':'))
  }

  function UncompressText(text: string): Result<string, AddressError> {
    var parts := Trimmed(Split(text, ':'));
    if |parts| > 9 || |parts| < 3 then Err(InvalidCompressedFormat(text))
    else UncompressParts(DropEmptyLast(DropEmptyFirst(parts)), text)
  }

  // ---------- eight groups and sixteen bytes ----------

  function GroupOf(hi: byte, lo: byte): group { hi * 256 + lo }

  function BytesOfGroups(v: seq<group>): seq<byte> {
    seq(2 * |v|, i requires 0 <= i < 2 * |v| => if i % 2 == 0 then v[i / 2] / 256 else v[i / 2] % 256)
  }

  function GroupsOfBytes(b: seq<byte>): seq<group> {
    seq(|b| / 2, i requires 0 <= i < |b| / 2 => GroupOf(b[2 * i], b[2 * i + 1]))
  }

  function HexGroups(v: seq<group>): seq<string> {
    seq(|v|, i requires 0 <= i < |v| => Hex4(v[i]))
  }

  function UncompressedText(b: seq<byte>): string {
    Join(HexGroups(GroupsOfBytes(b)), ':')
  }

  predicate HexGroup(p: string) {
    ParseUnsigned(p, 16, 65535).Some?
  }

  function GroupValue(p: string): group
    requires HexGroup(p)
  {
    ParseUnsigned(p, 16, 65535).value
  }

  function ParseGroups(parts: seq<string>): seq<group>
    requires forall i :: 0 <= i < |parts| ==> HexGroup(parts[i])
  {
    seq(|parts|, i requires 0 <= i < |parts| => GroupValue(parts[i]))
  }

  function BytesOfText(text: string): Result<Bytes16, AddressError> {
    var parts := Split(text, ':');
    if |parts| != 8 then Err(InvalidCompressedFormat(text))
    else if exists i :: 0 <= i < 8 && !HexGroup(parts[i]) then Err(InvalidCompressedValue(text))
    else Ok(BytesOfGroups(ParseGroups(parts)))
  }

  // ---------- addresses ----------

  type Bytes4 = s: seq<byte> | |s| == 4 witness [0, 0, 0, 0]
  type Bytes16 = s: seq<byte> | |s| == 16 witness seq(16, _ => 0)

  /** Bytes are in network order. */
  datatype IpAddress =
    | V4(bytes4: Bytes4)
    | V6(bytes16: Bytes16)

  predicate DecimalByte(p: string) {
    ParseUnsigned(p, 10, 255).Some?
  }

  function ByteValue(p: string): byte
    requires DecimalByte(p)
  {
    ParseUnsigned(p, 10, 255).value
  }

  function V4Bytes(text: string): Result<Bytes4, AddressError> {
    var parts := Split(text, '.');
    if |parts| != 4 then Err(InvalidV4Format(text))
    else if exists i :: 0 <= i < 4 && !DecimalByte(parts[i]) then Err(InvalidV4Value(text))
    else Ok(seq(4, i requires 0 <= i < 4 => ByteValue(parts[i])))
  }

  function V4Text(b: seq<byte>): string
    requires |b| == 4
  {
    Join([Decimal(b[0]), Decimal(b[1]), Decimal(b[2]), Decimal(b[3])], '.')
  }

  predicate IsCompressedV6(text: string) {
    Contains(text, "::") && Count(text, ':') <= 7
  }

  predicate IsMappedV6(text: string) {
    "::ffff:" <= text && '.' in text
  }

  predicate IsUncompressedV6(text: string) {
    Count(text, ':') == 7 && !Contains(text, "::")
  }

  predicate IsV6(text: string) {
    IsCompressedV6(text) || IsUncompressedV6(text) || IsMappedV6(text)
  }

  predicate IsV4(text: string) {
    Count(text, '.') == 3 && ':' !in text
  }

  const MAPPED_PREFIX: seq<byte> := [0, 0, 0, 0, 0, 0, 0, 0, 0, 0, 255, 255]

  predicate IsMapped(b: seq<byte>) {
    MAPPED_PREFIX <= b
  }

  function ParseMapped(text: string): Result<IpAddress, AddressError> {
    match AfterFirst(text, "::ffff:")
    case None => Err(InvalidMappedFormat(text))
    case Some(v4) =>
      match V4Bytes(v4)
      case Err(e) => Err(e)
      case Ok(b) => Ok(V6(MAPPED_PREFIX + b))
  }

  /** `IpAddress::v6`: brackets are removed first, then mapped, compressed and full forms. */
  function ParseV6(text: string): Result<IpAddress, AddressError>
    decreases |text|
  {
    if "[" <= text && EndsWith(text, ']') && |text| > 1 then ParseV6(text[1..|text| - 1])
    else if IsMappedV6(text) then ParseMapped(text)
    else
      var full := if IsCompressedV6(text) then UncompressText(text) else Ok(text);
      match full
      case Err(e) => Err(e)
      case Ok(t) =>
        match BytesOfText(t)
        case Err(e) => Err(e)
        case Ok(b) => Ok(V6(b))
  }

  /** Parsing a text either decides by itself or asks the host name resolver. */
  datatype Parsed =
    | Address(address: IpAddress)
    | Rejected(error: AddressError)
    | AskResolver(hostname: string)

  function TryFrom(text: string): Parsed {
    var t := Trim(text);
    if IsV4(t) then
      match V4Bytes(t)
      case Ok(b) => Address(V4(b))
      case Err(e) => Rejected(e)
    else if IsV6(t) then
      match ParseV6(t)
      case Ok(a) => Address(a)
      case Err(e) => Rejected(e)
    else AskResolver(t)
  }

  function Display(a: IpAddress): string {
    match a
    case V4(b) => V4Text(b)
    case V6(b) =>
      if IsMapped(b) then "::ffff:" + V4Text(b[12..])
      else
        match CompressText(UncompressedText(b))
        case Ok(text) => text
        case Err(_) => UncompressedText(b)
  }
}
