/** Buffers of control messages (sections 5.1 to 5.3 of RFC 3542 describe the layout): the
    preparer that writes them and the two walkers that read them. */
module ControlBuffer {
  import opened Wrappers
  import opened Layout
  import opened ControlMessage

  /** Size of the header: a length of eight bytes, the level and the type. */
  const HEADER: nat := 16

  function Align(n: nat): nat { n + 7 - (n + 7) % 8 }

  /** CMSG_LEN and CMSG_SPACE take and return 32-bit unsigned integers. */
  function CmsgLen(n: u32): u32 { (HEADER + n) % 0x1_0000_0000 }
  function CmsgSpace(n: u32): u32 { (Align(n) + HEADER) % 0x1_0000_0000 }

  /** The payload is one that CMSG_LEN and CMSG_SPACE can express. */
  predicate Fits(raw: Raw) {
    |raw.payload| + HEADER + 7 < 0x1_0000_0000
  }

  function Space(raw: Raw): nat {
    HEADER + Align(|raw.payload|)
  }

  function TotalSpace(raws: seq<Raw>): nat {
    if raws == [] then 0 else Space(raws[0]) + TotalSpace(raws[1..])
  }

  // ---------- what a prepared buffer is ----------

  function CmsgLenOf(raw: Raw): nat { HEADER + |raw.payload| }

  /** At the offset stand a header and the payload, then padding of any value. */
  predicate Cell(raw: Raw, buf: seq<byte>, offset: nat) {
    && offset + Space(raw) <= |buf|
    && buf[offset..offset + 8] == Le(CmsgLenOf(raw), |EIGHT|)
    && buf[offset + 8..offset + 12] == I32(raw.level)
    && buf[offset + 12..offset + 16] == I32(raw.kind)
    && buf[offset + 16..offset + 16 + |raw.payload|] == raw.payload
  }

  /** From the offset on the buffer holds exactly the given messages. */
  predicate PreparedAt(raws: seq<Raw>, buf: seq<byte>, offset: nat)
    decreases |raws|
  {
    if raws == [] then offset == |buf|
    else Cell(raws[0], buf, offset) && PreparedAt(raws[1..], buf, offset + Space(raws[0]))
  }

  predicate Prepared(raws: seq<Raw>, buf: seq<byte>) {
    PreparedAt(raws, buf, 0)
  }

  ghost predicate AllFit(raws: seq<Raw>) {
    forall i :: 0 <= i < |raws| ==> Fits(raws[i])
  }

  lemma {:induction false} PreparedLength(raws: seq<Raw>, buf: seq<byte>, offset: nat)
    requires PreparedAt(raws, buf, offset)
    ensures |buf| == offset + TotalSpace(raws)
    decreases |raws|
  {
    if raws != [] {
      PreparedLength(raws[1..], buf, offset + Space(raws[0]));
    }
  }

  lemma SliceBehind(x: seq<byte>, y: seq<byte>, from: nat, to: nat)
    requires from <= to <= |y|
    ensures (x + y)[|x| + from..|x| + to] == y[from..to]
  {
  }

  lemma SliceBefore(x: seq<byte>, y: seq<byte>, from: nat, to: nat)
    requires from <= to <= |x|
    ensures (x + y)[from..to] == x[from..to]
  {
  }

  lemma CellShift(raw: Raw, x: seq<byte>, y: seq<byte>, offset: nat)
    ensures Cell(raw, x + y, |x| + offset) <==> Cell(raw, y, offset)
  {
    if offset + Space(raw) <= |y| {
      SliceBehind(x, y, offset, offset + 8);
      SliceBehind(x, y, offset + 8, offset + 12);
      SliceBehind(x, y, offset + 12, offset + 16);
      SliceBehind(x, y, offset + 16, offset + 16 + |raw.payload|);
    }
  }

  lemma CellPrefix(raw: Raw, x: seq<byte>, y: seq<byte>, offset: nat)
    requires offset + Space(raw) <= |x|
    ensures Cell(raw, x + y, offset) <==> Cell(raw, x, offset)
  {
    SliceBefore(x, y, offset, offset + 8);
    SliceBefore(x, y, offset + 8, offset + 12);
    SliceBefore(x, y, offset + 12, offset + 16);
    SliceBefore(x, y, offset + 16, offset + 16 + |raw.payload|);
  }

  lemma {:induction false} PreparedShift(raws: seq<Raw>, x: seq<byte>, y: seq<byte>, offset: nat)
    ensures PreparedAt(raws, x + y, |x| + offset) <==> PreparedAt(raws, y, offset)
    decreases |raws|
  {
    if raws != [] {
      CellShift(raws[0], x, y, offset);
      PreparedShift(raws[1..], x, y, offset + Space(raws[0]));
    }
  }

  lemma PreparedHead(raw: Raw, rest: seq<Raw>, buf: seq<byte>, offset: nat)
    ensures PreparedAt([raw] + rest, buf, offset) <==>
        Cell(raw, buf, offset) && PreparedAt(rest, buf, offset + Space(raw))
  {
    assert ([raw] + rest)[1..] == rest;
  }

  lemma PrefixHead(raw: Raw, x: seq<byte>, z: seq<byte>, offset: nat)
    requires offset + Space(raw) <= |x| && x <= z
    ensures Cell(raw, z, offset) <==> Cell(raw, x, offset)
  {
    assert z == x + z[|x|..];
    CellPrefix(raw, x, z[|x|..], offset);
  }

  /** Where the first part ends, the second goes on. */
  lemma {:induction false} PreparedSplit(a: seq<Raw>, b: seq<Raw>, x: seq<byte>, z: seq<byte>, offset: nat)
    requires |x| == offset + TotalSpace(a) && x <= z
    ensures PreparedAt(a + b, z, offset) <==> PreparedAt(a, x, offset) && PreparedAt(b, z, |x|)
    decreases |a|
  {
    if a == [] {
      assert a + b == b;
    } else {
      var raw, rest := a[0], a[1..];
      PrefixHead(raw, x, z, offset);
      PreparedSplit(rest, b, x, z, offset + Space(raw));
      assert [raw] + (rest + b) == a + b && [raw] + rest == a;
      PreparedHead(raw, rest + b, z, offset);
      PreparedHead(raw, rest, x, offset);
    }
  }

  /** Preparing a concatenation is concatenating the prepared parts, padding aside. */
  lemma PreparedConcat(a: seq<Raw>, b: seq<Raw>, x: seq<byte>, y: seq<byte>)
    requires |x| == TotalSpace(a)
    ensures Prepared(a + b, x + y) <==> Prepared(a, x) && Prepared(b, y)
  {
    PreparedSplit(a, b, x, x + y, 0);
    PreparedShift(b, x, y, 0);
  }

  // ---------- the preparer ----------

  function PrepareAll(msgs: seq<Message>): Result<seq<Raw>, PrepareError> {
    if msgs == [] then Ok([])
    else
      match Prepare(msgs[0])
      case Err(e) => Err(e)
      case Ok(raw) =>
        match PrepareAll(msgs[1..])
        case Err(e) => Err(e)
        case Ok(rest) => Ok([raw] + rest)
  }

  lemma {:induction false} PrepareAllSnoc(msgs: seq<Message>, m: Message)
    ensures PrepareAll(msgs + [m])
         == match PrepareAll(msgs)
            case Err(e) => Err(e)
            case Ok(raws) => match Prepare(m) case Err(e) => Err(e) case Ok(raw) => Ok(raws + [raw])
  {
    if msgs == [] {
      assert msgs + [m] == [m] && [m][1..] == [];
      assert PrepareAll([m][1..]) == Ok([]);
      if Prepare(m).Ok? {
        assert [Prepare(m).value] + [] == [] + [Prepare(m).value];
      }
    } else {
      assert (msgs + [m])[0] == msgs[0] && (msgs + [m])[1..] == msgs[1..] + [m];
      PrepareAllSnoc(msgs[1..], m);
      if Prepare(msgs[0]).Ok? && PrepareAll(msgs[1..]).Ok? && Prepare(m).Ok? {
        var raw, raws, last := Prepare(msgs[0]).value, PrepareAll(msgs[1..]).value, Prepare(m).value;
        assert [raw] + (raws + [last]) == ([raw] + raws) + [last];
      }
    }
  }

  lemma {:induction false} PrepareAllPrefix(msgs: seq<Message>, i: nat)
    requires i <= |msgs| && PrepareAll(msgs[..i]).Err?
    ensures PrepareAll(msgs) == PrepareAll(msgs[..i])
    decreases |msgs| - i
  {
    if i < |msgs| {
      assert msgs[..i + 1] == msgs[..i] + [msgs[i]];
      PrepareAllSnoc(msgs[..i], msgs[i]);
      PrepareAllPrefix(msgs, i + 1);
    } else {
      assert msgs[..i] == msgs;
    }
  }

  lemma {:induction false} TotalSnoc(raws: seq<Raw>, raw: Raw)
    ensures TotalSpace(raws + [raw]) == TotalSpace(raws) + Space(raw)
  {
    if raws == [] {
      assert [raw][1..] == [];
    } else {
      assert (raws + [raw])[1..] == raws[1..] + [raw];
      TotalSnoc(raws[1..], raw);
    }
  }

  lemma {:induction false} TotalSplit(raws: seq<Raw>, i: nat)
    requires i <= |raws|
    ensures TotalSpace(raws) == TotalSpace(raws[..i]) + TotalSpace(raws[i..])
  {
    if i > 0 {
      assert raws[1..][..i - 1] == raws[..i][1..] && raws[1..][i - 1..] == raws[i..];
      TotalSplit(raws[1..], i - 1);
    }
  }

  /** Copies bytes into the buffer. */
  method Write(buf: array<byte>, offset: nat, data: seq<byte>)
    requires offset + |data| <= buf.Length
    modifies buf
    ensures buf[..offset] == old(buf[..offset])
    ensures buf[offset..offset + |data|] == data
  {
    for i := 0 to |data|
      invariant buf[..offset] == old(buf[..offset])
      invariant buf[offset..offset + i] == data[..i]
    {
      buf[offset + i] := data[i];
    }
  }

  function Header(raw: Raw): (h: seq<byte>)
    ensures |h| == HEADER
  {
    Le(CmsgLenOf(raw), |EIGHT|) + I32(raw.level) + I32(raw.kind)
  }

  lemma SliceOfSlice(s: seq<byte>, offset: nat, n: nat, a: nat, b: nat)
    requires offset + n <= |s| && a <= b <= n
    ensures s[offset + a..offset + b] == s[offset..offset + n][a..b]
  {
    var x, y := s[offset + a..offset + b], s[offset..offset + n][a..b];
    assert |x| == |y| && forall i :: 0 <= i < |x| ==> x[i] == y[i];
  }

  lemma CellOfParts(raw: Raw, buf: seq<byte>, offset: nat)
    requires offset + Space(raw) <= |buf| && buf[offset..offset + 16] == Header(raw)
    requires buf[offset + 16..offset + 16 + |raw.payload|] == raw.payload
    ensures Cell(raw, buf, offset)
  {
    var h := Header(raw);
    SliceOfSlice(buf, offset, 16, 0, 8);
    SliceOfSlice(buf, offset, 16, 8, 12);
    SliceOfSlice(buf, offset, 16, 12, 16);
    assert h[0..8] == Le(CmsgLenOf(raw), |EIGHT|) && h[8..12] == I32(raw.level) && h[12..16] == I32(raw.kind);
  }

  /** Writes the header and the payload of one message; the padding stays as it was. */
  method WriteCell(buf: array<byte>, offset: nat, raw: Raw)
    requires offset + Space(raw) <= buf.Length && Fits(raw)
    modifies buf
    ensures Cell(raw, buf[..], offset)
    ensures buf[..offset] == old(buf[..offset])
  {
    FittingSpace(raw);
    var len := CmsgLen(|raw.payload|);
    Write(buf, offset, Le(len, |EIGHT|) + I32(raw.level) + I32(raw.kind));
    ghost var before := buf[..offset + 16];
    assert before[..offset] == buf[..offset] && before[offset..] == buf[offset..offset + 16];
    Write(buf, offset + 16, raw.payload);
    assert buf[..offset + 16] == before;
    assert buf[..offset] == before[..offset];
    assert buf[..][offset..offset + 16] == before[offset..];
    assert buf[..][offset + 16..offset + 16 + |raw.payload|] == buf[offset + 16..offset + 16 + |raw.payload|];
    CellOfParts(raw, buf[..], offset);
  }

  /** The first loop of `try_prepare_multi`. */
  method PrepareRaws(msgs: seq<Message>) returns (r: Result<seq<Raw>, PrepareError>)
    ensures r == PrepareAll(msgs)
  {
    var raws := [];
    for i := 0 to |msgs|
      invariant PrepareAll(msgs[..i]) == Ok(raws)
    {
      assert msgs[..i + 1] == msgs[..i] + [msgs[i]];
      PrepareAllSnoc(msgs[..i], msgs[i]);
      match Prepare(msgs[i])
      case Err(e) =>
        PrepareAllPrefix(msgs, i + 1);
        return Err(e);
      case Ok(raw) =>
        raws := raws + [raw];
    }
    assert msgs[..|msgs|] == msgs;
    r := Ok(raws);
  }

  /** The sum of the spaces. */
  method SumSpaces(raws: seq<Raw>) returns (total: nat)
    requires AllFit(raws)
    ensures total == TotalSpace(raws)
  {
    total := 0;
    for i := 0 to |raws|
      invariant total == TotalSpace(raws[..i])
    {
      assert raws[..i + 1] == raws[..i] + [raws[i]];
      TotalSnoc(raws[..i], raws[i]);
      total := total + CmsgSpace(|raws[i].payload|);
    }
    assert raws[..|raws|] == raws;
  }

  lemma CellCut(raw: Raw, buf: seq<byte>, offset: nat)
    requires offset <= |buf|
    ensures Cell(raw, buf, offset) ==> Cell(raw, buf[offset..offset + Space(raw)], 0)
  {
    if Cell(raw, buf, offset) {
      var c := buf[offset..offset + Space(raw)];
      CellPrefix(raw, buf[..offset] + c, buf[offset + Space(raw)..], offset);
      assert buf[..offset] + c + buf[offset + Space(raw)..] == buf;
      CellShift(raw, buf[..offset], c, 0);
    }
  }

  lemma NextCell(raws: seq<Raw>, i: nat, before: seq<byte>, buf: seq<byte>)
    requires i < |raws| && |before| <= |buf| && buf[..|before|] == before
    requires Prepared(raws[..i], before) && Cell(raws[i], buf, |before|)
    ensures Prepared(raws[..i + 1], buf[..|before| + Space(raws[i])])
  {
    var end := |before| + Space(raws[i]);
    var cell := buf[|before|..end];
    assert raws[..i + 1] == raws[..i] + [raws[i]];
    assert buf[..end] == before + cell;
    PreparedLength(raws[..i], before, 0);
    CellCut(raws[i], buf, |before|);
    PreparedOne(raws[i], cell);
    PreparedConcat(raws[..i], [raws[i]], before, cell);
  }

  lemma TotalUpTo(raws: seq<Raw>, i: nat)
    requires i < |raws|
    ensures TotalSpace(raws[..i + 1]) == TotalSpace(raws[..i]) + Space(raws[i]) <= TotalSpace(raws)
  {
    TotalSnoc(raws[..i], raws[i]);
    assert raws[..i + 1] == raws[..i] + [raws[i]];
    TotalSplit(raws, i + 1);
  }

  /** One round of the second loop of `try_prepare_multi`. */
  method FillNext(bytes: array<byte>, raws: seq<Raw>, i: nat, offset: nat) returns (next: nat)
    requires i < |raws| && AllFit(raws) && bytes.Length == TotalSpace(raws)
    requires offset == TotalSpace(raws[..i]) <= bytes.Length && Prepared(raws[..i], bytes[..offset])
    modifies bytes
    ensures next == TotalSpace(raws[..i + 1]) <= bytes.Length && Prepared(raws[..i + 1], bytes[..next])
  {
    TotalUpTo(raws, i);
    FittingSpace(raws[i]);
    var raw, space := raws[i], CmsgSpace(|raws[i].payload|);
    next := offset + space;
    ghost var before := bytes[..offset];
    WriteCell(bytes, offset, raw);
    ghost var now := bytes[..];
    assert now[..offset] == before;
    NextCell(raws, i, before, now);
    assert bytes[..next] == now[..next];
  }

  /** The payloads that fit are those whose space does not wrap around. */
  lemma FitsExact(raw: Raw)
    ensures Fits(raw) <==> Space(raw) < 0x1_0000_0000
  {
  }

  lemma FittingSpace(raw: Raw)
    requires Fits(raw)
    ensures CmsgSpace(|raw.payload|) == Space(raw) && CmsgLen(|raw.payload|) == CmsgLenOf(raw)
  {
  }

  /** The second loop of `try_prepare_multi`: the buffer is filled message by message. */
  method FillCells(bytes: array<byte>, raws: seq<Raw>)
    requires AllFit(raws) && bytes.Length == TotalSpace(raws)
    modifies bytes
    ensures Prepared(raws, bytes[..])
  {
    var offset := 0;
    for i := 0 to |raws|
      invariant offset == TotalSpace(raws[..i]) <= bytes.Length
      invariant Prepared(raws[..i], bytes[..offset])
    {
      offset := FillNext(bytes, raws, i, offset);
    }
    assert raws[..|raws|] == raws;
    assert bytes[..offset] == bytes[..];
  }

  /** `try_prepare_multi`: a fresh buffer with arbitrary contents, filled. */
  method TryPrepareMulti(msgs: seq<Message>) returns (r: Result<array<byte>, PrepareError>)
    requires PrepareAll(msgs).Ok? ==> AllFit(PrepareAll(msgs).value)
    ensures r.Ok? ==> PrepareAll(msgs).Ok? && fresh(r.value) && Prepared(PrepareAll(msgs).value, r.value[..])
    ensures r.Err? ==> PrepareAll(msgs) == Err(r.error)
  {
    var prepared := PrepareRaws(msgs);
    if prepared.Err? {
      return Err(prepared.error);
    }
    var total := SumSpaces(prepared.value);
    var bytes := new byte[total];
    FillCells(bytes, prepared.value);
    r := Ok(bytes);
  }

  /** A buffer of one message is one cell. */
  lemma PreparedOne(raw: Raw, cell: seq<byte>)
    ensures Prepared([raw], cell) <==> |cell| == Space(raw) && Cell(raw, cell, 0)
  {
    assert PreparedAt([raw][1..], cell, Space(raw)) <==> Space(raw) == |cell|;
  }

  /** `try_prepare`: the buffer is one that `try_prepare_multi` could return for the single message. */
  method TryPrepare(msg: Message) returns (r: Result<array<byte>, PrepareError>)
    requires Prepare(msg).Ok? ==> Fits(Prepare(msg).value)
    ensures r.Ok? ==> Prepare(msg).Ok? && fresh(r.value) && Prepared([Prepare(msg).value], r.value[..])
    ensures r.Err? ==> Prepare(msg) == Err(r.error)
  {
    var prepared := Prepare(msg);
    if prepared.Err? {
      return Err(prepared.error);
    }
    FittingSpace(prepared.value);
    var bytes := new byte[CmsgSpace(|prepared.value.payload|)];
    WriteCell(bytes, 0, prepared.value);
    PreparedOne(prepared.value, bytes[..]);
    r := Ok(bytes);
  }

  // ---------- reading ----------

  /** `try_parse_single` at an offset of the buffer.  A read past the end of the buffer is an
      outcome of its own: the source does not check for it. */
  datatype Single =
    | Message(message: ControlMessage.Message)
    | Error(error: ParseError)
    | ReadOutOfBounds

  function LengthAt(buf: seq<byte>, offset: nat): u64
    requires offset + HEADER <= |buf|
  {
    GetU64(buf[offset..offset + 8])
  }

  function RawAt(buf: seq<byte>, offset: nat): Raw
    requires offset + HEADER <= |buf| && HEADER <= LengthAt(buf, offset) <= |buf| - offset
  {
    Raw(GetI32(buf[offset + 8..offset + 12]), GetI32(buf[offset + 12..offset + 16]),
        buf[offset + HEADER..offset + LengthAt(buf, offset)])
  }

  function ParseSingle(buf: seq<byte>, offset: nat): Single {
    if offset + HEADER > |buf| then ReadOutOfBounds
    else
      var size := LengthAt(buf, offset);
      if size < HEADER then Error(InvalidHeaderLength(HEADER, size))
      else if offset + size <= |buf| then
        (match Parse(RawAt(buf, offset)) case Ok(m) => Message(m) case Err(e) => Error(e))
      else
        // level, type and length are checked before the payload is touched
        match CheckHeader(GetI32(buf[offset + 8..offset + 12]), GetI32(buf[offset + 12..offset + 16]), size - HEADER)
        case Some(e) => Error(e)
        case None => ReadOutOfBounds
  }

  /** What walking a buffer gives; `Diverges` if a space of zero keeps the offset in place. */
  datatype Walk =
    | Messages(messages: seq<ControlMessage.Message>)
    | Failed(error: ParseError)
    | OutOfBounds
    | Diverges

  function After(m: ControlMessage.Message, rest: Walk): Walk {
    if rest.Messages? then Messages([m] + rest.messages) else rest
  }

  /** The space a message takes by its header, as `try_parse_from_slice` computes it. */
  function SpaceAt(buf: seq<byte>, offset: nat): u32
    requires offset + HEADER <= |buf| && LengthAt(buf, offset) >= HEADER
  {
    CmsgSpace((LengthAt(buf, offset) - HEADER) % 0x1_0000_0000)
  }

  function WalkSlice(buf: seq<byte>, offset: nat): Walk
    decreases |buf| - offset
  {
    if offset >= |buf| then Messages([])
    else
      match ParseSingle(buf, offset)
      case ReadOutOfBounds => OutOfBounds
      case Error(e) => Failed(e)
      case Message(m) =>
        if SpaceAt(buf, offset) == 0 then Diverges
        else After(m, WalkSlice(buf, offset + SpaceAt(buf, offset)))
  }

  /** CMSG_NXTHDR: the next header has to be inside the buffer, and its message too. */
  function NextHeader(buf: seq<byte>, offset: nat): (next: Option<nat>)
    requires offset + HEADER <= |buf|
    ensures next.Some? ==> offset < next.value && next.value + HEADER <= |buf|
  {
    var size := LengthAt(buf, offset);
    if size < HEADER then None
    else
      var next := offset + Align(size);
      if next + HEADER > |buf| || next + Align(LengthAt(buf, next)) > |buf| then None else Some(next)
  }

  function WalkHeaders(buf: seq<byte>, offset: nat): Walk
    requires offset + HEADER <= |buf|
    decreases |buf| - offset
  {
    match ParseSingle(buf, offset)
    case ReadOutOfBounds => OutOfBounds
    case Error(e) => Failed(e)
    case Message(m) =>
      match NextHeader(buf, offset)
      case None => Messages([m])
      case Some(next) => After(m, WalkHeaders(buf, next))
  }

  /** `try_parse_from_msghdr` on a control buffer. */
  function WalkMsghdr(buf: seq<byte>): Walk {
    if |buf| < HEADER then Failed(NullPointer) else WalkHeaders(buf, 0)
  }

  // ---------- the walkers as loops ----------

  function Onto(parsed: seq<ControlMessage.Message>, rest: Walk): Walk {
    if rest.Messages? then Messages(parsed + rest.messages) else rest
  }

  lemma OntoAfter(parsed: seq<ControlMessage.Message>, m: ControlMessage.Message, rest: Walk)
    ensures Onto(parsed, After(m, rest)) == Onto(parsed + [m], rest)
  {
    if rest.Messages? {
      assert parsed + ([m] + rest.messages) == parsed + [m] + rest.messages;
    }
  }

  lemma WalkOne(buf: seq<byte>, offset: nat, m: ControlMessage.Message)
    requires offset < |buf| && ParseSingle(buf, offset) == Message(m)
    ensures offset + HEADER <= |buf| && HEADER <= LengthAt(buf, offset)
    ensures var space := SpaceAt(buf, offset);
            WalkSlice(buf, offset) == if space == 0 then Diverges else After(m, WalkSlice(buf, offset + space))
  {
  }

  lemma WalkStops(buf: seq<byte>, offset: nat, parsed: seq<ControlMessage.Message>)
    requires offset < |buf|
    ensures ParseSingle(buf, offset).ReadOutOfBounds? ==> Onto(parsed, WalkSlice(buf, offset)) == OutOfBounds
    ensures ParseSingle(buf, offset).Error? ==>
              Onto(parsed, WalkSlice(buf, offset)) == Failed(ParseSingle(buf, offset).error)
  {
  }

  /** `try_parse_from_slice`. */
  method TryParseFromSlice(buf: seq<byte>) returns (r: Walk)
    ensures r == WalkSlice(buf, 0)
  {
    var parsed := [];
    var offset := 0;
    while offset < |buf|
      invariant WalkSlice(buf, 0) == Onto(parsed, WalkSlice(buf, offset))
      decreases |buf| - offset
    {
      WalkStops(buf, offset, parsed);
      match ParseSingle(buf, offset)
      case ReadOutOfBounds => return OutOfBounds;
      case Error(e) => return Failed(e);
      case Message(m) =>
        WalkOne(buf, offset, m);
        var space := SpaceAt(buf, offset);
        if space == 0 {
          return Diverges;
        }
        OntoAfter(parsed, m, WalkSlice(buf, offset + space));
        parsed := parsed + [m];
        offset := offset + space;
    }
    r := Messages(parsed);
  }

  /** `try_parse_from_msghdr`. */
  method TryParseFromMsghdr(buf: seq<byte>) returns (r: Walk)
    ensures r == WalkMsghdr(buf)
  {
    if |buf| < HEADER {
      return Failed(NullPointer);
    }
    var parsed := [];
    var current: Option<nat> := Some(0);
    while current.Some?
      invariant current.Some? ==>
          current.value + HEADER <= |buf| && WalkMsghdr(buf) == Onto(parsed, WalkHeaders(buf, current.value))
      invariant current.None? ==> WalkMsghdr(buf) == Messages(parsed)
      decreases if current.Some? then |buf| - current.value + 1 else 0
    {
      match ParseSingle(buf, current.value)
      case ReadOutOfBounds => return OutOfBounds;
      case Error(e) => return Failed(e);
      case Message(m) =>
        var next := NextHeader(buf, current.value);
        if next.Some? {
          OntoAfter(parsed, m, WalkHeaders(buf, next.value));
        }
        parsed := parsed + [m];
        current := next;
    }
    r := Messages(parsed);
  }
}
