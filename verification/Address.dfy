/** The loops of src/net/address.rs, proved against the functions of AddressText. */
module Address {
  import opened Wrappers
  import opened Text
  import opened Layout
  import opened AddressText

  function Removed(parts: seq<string>, i: nat): seq<string>
    requires i < |parts|
  {
    parts[..i] + parts[i + 1..]
  }

  function Inserted(parts: seq<string>, i: nat, p: string): seq<string>
    requires i <= |parts|
  {
    parts[..i] + [p] + parts[i..]
  }

  /** `split(':')` with every part trimmed. */
  method TrimmedParts(addr: string) returns (parts: seq<string>)
    ensures parts == Trimmed(Split(addr, ':'))
  {
    var raw := Split(addr, ':');
    parts := [];
    for i := 0 to |raw|
      invariant parts == Trimmed(raw)[..i]
    {
      parts := parts + [Trim(raw[i])];
    }
  }

  /** Checks the size of every group and strips its leading zeros in place. */
  method StripAll(given: seq<string>) returns (ok: bool, parts: seq<string>)
    ensures ok <==> forall i :: 0 <= i < |given| ==> GroupSized(given[i])
    ensures ok ==> parts == Stripped(given)
  {
    parts := given;
    for i := 0 to |parts|
      invariant |parts| == |given|
      invariant forall j :: 0 <= j < i ==> GroupSized(given[j]) && parts[j] == StripZeros(given[j])
      invariant forall j :: i <= j < |given| ==> parts[j] == given[j]
    {
      if ByteLen(parts[i]) == 0 || ByteLen(parts[i]) > 4 {
        return false, parts;
      }
      while ByteLen(parts[i]) > 1 && parts[i][0] == '0'
        invariant |parts| == |given| && StripZeros(parts[i]) == StripZeros(given[i])
        invariant forall j :: 0 <= j < |given| && j != i ==>
            parts[j] == if j < i then StripZeros(given[j]) else given[j]
        decreases |parts[i]|
      {
        parts := parts[i := parts[i][1..]];
      }
    }
    ok := true;
  }

  /** The scan for the leftmost longest run of zero groups. */
  method ScanZeros(parts: seq<string>) returns (doubleColonIndex: int, mostZeroes: nat)
    ensures (doubleColonIndex, mostZeroes) == LongestRun(parts, |parts|)
  {
    doubleColonIndex, mostZeroes := -1, 0;
    var zeroCount := 0;
    for i := 0 to |parts|
      invariant (doubleColonIndex, mostZeroes) == LongestRun(parts, i)
      invariant zeroCount == ZerosBefore(parts, i)
    {
      if |parts[i]| == 1 && parts[i][0] == '0' {
        assert parts[i] == "0";
        zeroCount := zeroCount + 1;
        if zeroCount > mostZeroes {
          mostZeroes := zeroCount;
          doubleColonIndex := (i + 1) - zeroCount;
        }
      } else {
        zeroCount := 0;
      }
    }
  }

  /** Removes all but one group of the run and clears that one. */
  method ElideRun(given: seq<string>, start: nat, len: nat) returns (parts: seq<string>)
    requires len > 1 && start + len <= |given|
    ensures parts == given[..start] + [""] + given[start + len..]
  {
    parts := given;
    var remaining := len;
    while remaining > 1
      invariant 1 <= remaining <= len
      invariant parts == given[..start] + given[start + len - remaining..]
    {
      parts := Removed(parts, start);
      remaining := remaining - 1;
    }
    parts := parts[start := ""];
  }

  lemma EdgeParts(g: seq<string>, start: int, len: nat, elided: seq<string>)
    requires |g| == 8 && len < 8 && (len == 0 ==> start == -1) && (len > 0 ==> 0 <= start && start + len <= 8)
    requires elided == if len > 1 then g[..start] + [""] + g[start + len..] else g
    ensures CompressAt(g, start, len) == (if start == 0 then [""] else []) + elided
        + (if start != 0 && start == |elided| - 1 then [""] else [])
  {
    if len > 1 && start == 0 {
      assert g[..0] == [] && start + len != 8;
    }
  }

  /** Elides the run if it is longer than one group and adds the empty edge parts. */
  method Recombine(g: seq<string>, doubleColonIndex: int, mostZeroes: nat) returns (text: string)
    requires |g| == 8 && forall i :: 0 <= i < 8 ==> g[i] != ""
    requires mostZeroes == 0 ==> doubleColonIndex == -1
    requires mostZeroes > 0 ==> 0 <= doubleColonIndex && doubleColonIndex + mostZeroes <= 8
    ensures text == Join(CompressAt(g, doubleColonIndex, mostZeroes), ':')
  {
    var parts := g;
    if doubleColonIndex > -1 && mostZeroes > 1 {
      parts := ElideRun(parts, doubleColonIndex, mostZeroes);
    }
    ghost var elided := parts;
    assert |elided| == if mostZeroes > 1 then 9 - mostZeroes else 8;
    if |parts| == 1 && parts[0] == "" {
      JoinColons();
      return "::";
    } else if doubleColonIndex == 0 {
      parts := Inserted(parts, 0, "");
      assert parts == [""] + elided;
    } else if doubleColonIndex == |parts| - 1 {
      parts := parts + [""];
    }
    assert parts == (if doubleColonIndex == 0 then [""] else []) + elided
                    + (if doubleColonIndex != 0 && doubleColonIndex == |elided| - 1 then [""] else []);
    EdgeParts(g, doubleColonIndex, mostZeroes, elided);
    text := Join(parts, ':');
  }

  lemma {:induction false} StripKeepsSome(p: string)
    requires p != ""
    ensures StripZeros(p) != ""
    decreases |p|
  {
    if ByteLen(p) > 1 && p[0] == '0' {
      assert ByteLen(p) == 1 + ByteLen(p[1..]);
      StripKeepsSome(p[1..]);
    }
  }

  /** `compress_v6`. */
  method CompressV6(addr: string) returns (r: Result<string, AddressError>)
    ensures r == CompressText(addr)
  {
    var parts := TrimmedParts(addr);
    ghost var trimmed := parts;
    if |parts| != 8 {
      return Err(InvalidUncompressedFormat(addr));
    }
    var ok;
    ok, parts := StripAll(parts);
    if !ok {
      return Err(InvalidUncompressedValue(addr));
    }
    forall i | 0 <= i < 8 ensures parts[i] != "" {
      StripKeepsSome(trimmed[i]);
    }
    var doubleColonIndex, mostZeroes := ScanZeros(parts);
    var text := Recombine(parts, doubleColonIndex, mostZeroes);
    r := Ok(text);
  }

  lemma JoinColons()
    ensures Join(["", "", ""], ':') == "::"
  {
    assert Join(["", ""], ':') == ":";
    assert ["", "", ""][1..] == ["", ""];
  }

  /** Fills every non-empty part up to four bytes and finds the empty one, in one pass. */
  method PadAll(given: seq<string>) returns (ok: bool, parts: seq<string>, doubleColonIndex: int)
    ensures ok <==> (forall i :: 0 <= i < |given| ==> ByteLen(given[i]) <= 4)
                    && (forall i :: FirstEmpty(given) < i < |given| ==> given[i] != "")
    ensures ok ==> |parts| == |given|
                   && (forall i :: 0 <= i < |given| ==> parts[i] == if given[i] == "" then "" else PadZeros(given[i]))
                   && doubleColonIndex == if FirstEmpty(given) < |given| then FirstEmpty(given) else -1
  {
    parts := given;
    doubleColonIndex := -1;
    var k := FirstEmpty(given);
    for i := 0 to |parts|
      invariant |parts| == |given|
      invariant doubleColonIndex == if k < i then k else -1
      invariant forall j :: 0 <= j < i ==> ByteLen(given[j]) <= 4 && (given[j] == "" ==> j == k)
                                           && parts[j] == if given[j] == "" then "" else PadZeros(given[j])
      invariant forall j :: i <= j < |given| ==> parts[j] == given[j]
    {
      if ByteLen(parts[i]) > 4 {
        return false, parts, doubleColonIndex;
      }
      if parts[i] == "" {
        if doubleColonIndex == -1 {
          doubleColonIndex := i;
          continue;
        } else {
          return false, parts, doubleColonIndex;
        }
      }
      while ByteLen(parts[i]) < 4
        invariant |parts| == |given| && PadZeros(parts[i]) == PadZeros(given[i])
        invariant ByteLen(given[i]) <= 4 && ByteLen(parts[i]) <= 4
        invariant forall j :: 0 <= j < |given| && j != i ==>
                    parts[j] == if j < i then (if given[j] == "" then "" else PadZeros(given[j])) else given[j]
        decreases 4 - ByteLen(parts[i])
      {
        parts := parts[i := "0" + parts[i]];
      }
    }
    ok := true;
  }

  /** Replaces the empty part by zero groups, as many as are missing. */
  method FillZeros(given: seq<string>, filled: seq<string>, k: nat) returns (parts: seq<string>)
    requires k < |given| == |filled| && filled[..k] == Padded(given[..k]) && filled[k + 1..] == Padded(given[k + 1..])
    ensures parts == Expand(given, k)
  {
    parts := filled[k := "0000"];
    ghost var n := 1;
    while |parts| < 8
      invariant n >= 1 && |parts| == |given| + n - 1 && (n > 1 ==> |parts| <= 8)
      invariant parts == Padded(given[..k]) + Zeros(n) + Padded(given[k + 1..])
    {
      parts := Inserted(parts, k, "0000");
      n := n + 1;
    }
  }

  /** The parts of `uncompress_v6` after the empty edge parts are gone. */
  method ExpandParts(given: seq<string>, addr: string) returns (r: Result<string, AddressError>)
    ensures r == UncompressParts(given, addr)
  {
    var ok, parts, doubleColonIndex := PadAll(given);
    if !ok {
      return Err(InvalidCompressedValue(addr));
    }
    if doubleColonIndex == -1 {
      if |parts| != 8 {
        return Err(InvalidCompressedFormat(addr));
      }
      assert parts == Padded(given);
      return Ok(Join(parts, ':'));
    }
    var k := doubleColonIndex;
    assert parts[..k] == Padded(given[..k]) && parts[k + 1..] == Padded(given[k + 1..]);
    parts := FillZeros(given, parts, k);
    r := Ok(Join(parts, ':'));
  }

  /** `uncompress_v6`. */
  method UncompressV6(addr: string) returns (r: Result<string, AddressError>)
    ensures r == UncompressText(addr)
  {
    var parts := TrimmedParts(addr);
    if |parts| > 9 || |parts| < 3 {
      return Err(InvalidCompressedFormat(addr));
    }
    ghost var given := parts;
    if parts[0] == "" {
      parts := Removed(parts, 0);
    }
    assert parts == DropEmptyFirst(given);
    if parts[|parts| - 1] == "" {
      parts := parts[..|parts| - 1];
    }
    assert parts == DropEmptyLast(DropEmptyFirst(given));
    r := ExpandParts(parts, addr);
  }

  /** The first n groups are in the bytes. */
  ghost predicate Filled(parts: seq<string>, b: seq<byte>, n: nat) {
    && |b| == 16 && n <= 8 == |parts|
    && forall j :: 0 <= j < n ==>
         HexGroup(parts[j]) && b[2 * j] == GroupValue(parts[j]) / 256 && b[2 * j + 1] == GroupValue(parts[j]) % 256
  }

  lemma FilledStep(parts: seq<string>, b: seq<byte>, i: nat)
    requires i < 8 && Filled(parts, b, i) && HexGroup(parts[i])
    ensures var v := GroupValue(parts[i]); Filled(parts, b[2 * i := v / 256][2 * i + 1 := v % 256], i + 1)
  {
  }

  lemma FilledIs(parts: seq<string>, b: seq<byte>)
    requires Filled(parts, b, 8)
    ensures b == BytesOfGroups(ParseGroups(parts))
  {
    forall i | 0 <= i < 16 ensures b[i] == BytesOfGroups(ParseGroups(parts))[i] {
      var j := i / 2;
      assert i == 2 * j || i == 2 * j + 1;
    }
  }

  /** `uncompressed_v6_as_bytes`. */
  method UncompressedV6AsBytes(addr: string) returns (r: Result<Bytes16, AddressError>)
    ensures r == BytesOfText(addr)
  {
    var parts := Split(addr, ':');
    if |parts| != 8 {
      return Err(InvalidCompressedFormat(addr));
    }
    var bytes := new byte[16];
    for i := 0 to |parts|
      invariant Filled(parts, bytes[..], i)
    {
      var part := ParseUnsigned(parts[i], 16, 65535);
      if part.None? {
        assert !HexGroup(parts[i]);
        return Err(InvalidCompressedValue(addr));
      }
      FilledStep(parts, bytes[..], i);
      ghost var before: seq<byte> := bytes[..];
      var hi: byte, lo: byte := part.value / 256, part.value % 256;
      bytes[2 * i], bytes[2 * i + 1] := hi, lo;
      ghost var once: seq<byte> := before[2 * i := hi];
      assert bytes[..] == once[2 * i + 1 := lo];
    }
    FilledIs(parts, bytes[..]);
    r := Ok(bytes[..]);
  }

  /** `bytes_as_uncompressed_v6`. */
  method BytesAsUncompressedV6(bytes: seq<byte>) returns (text: string)
    requires |bytes| == 16
    ensures text == UncompressedText(bytes)
  {
    var parts := [];
    for i := 0 to 8
      invariant parts == HexGroups(GroupsOfBytes(bytes))[..i]
    {
      parts := parts + [Hex4(GroupOf(bytes[i * 2], bytes[i * 2 + 1]))];
    }
    assert parts == HexGroups(GroupsOfBytes(bytes));
    text := Join(parts, ':');
  }

  /** `v4_bytes_from_str`. */
  method V4BytesFromStr(addr: string) returns (r: Result<Bytes4, AddressError>)
    ensures r == V4Bytes(addr)
  {
    var parts := Split(addr, '.');
    if |parts| != 4 {
      return Err(InvalidV4Format(addr));
    }
    var bytes := new byte[4];
    for i := 0 to 4
      invariant forall j :: 0 <= j < i ==> DecimalByte(parts[j]) && bytes[j] == ByteValue(parts[j])
    {
      var part := ParseUnsigned(parts[i], 10, 255);
      if part.None? {
        return Err(InvalidV4Value(addr));
      }
      bytes[i] := part.value;
    }
    assert bytes[..] == V4Bytes(addr).value;
    r := Ok(bytes[..]);
  }
}
