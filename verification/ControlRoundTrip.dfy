/** Reading back what was prepared, for every value of the padding. */
module ControlRoundTrip {
  import opened Wrappers
  import opened Layout
  import opened ControlMessage
  import opened ControlBuffer

  function Then(first: Result<ControlMessage.Message, ParseError>, rest: Walk): Walk {
    match first
    case Err(e) => Failed(e)
    case Ok(m) => After(m, rest)
  }

  /** What both walkers make of a prepared list: the normal forms, up to the first message
      that has no parser. */
  function ExpectAll(msgs: seq<ControlMessage.Message>): Walk {
    if msgs == [] then Messages([])
    else
      Then(Expect(msgs[0]), ExpectAll(msgs[1..]))
  }

  /** The messages up to the first error, or what comes at the end. */
  function Fold(results: seq<Result<ControlMessage.Message, ParseError>>, end: Walk): Walk {
    if results == [] then end else Then(results[0], Fold(results[1..], end))
  }

  function Parsed(raws: seq<Raw>): seq<Result<ControlMessage.Message, ParseError>> {
    seq(|raws|, i requires 0 <= i < |raws| => Parse(raws[i]))
  }

  /** Where the messages of a prepared buffer start, and where it ends. */
  function Offset(raws: seq<Raw>, i: nat): nat
    requires i <= |raws|
  {
    TotalSpace(raws[..i])
  }

  function Offsets(raws: seq<Raw>): seq<nat> {
    seq(|raws| + 1, i requires 0 <= i <= |raws| => Offset(raws, i))
  }

  lemma {:induction false} PreparedParse(msgs: seq<ControlMessage.Message>)
    requires PrepareAll(msgs).Ok?
    ensures |PrepareAll(msgs).value| == |msgs| && Fold(Parsed(PrepareAll(msgs).value), Messages([])) == ExpectAll(msgs)
  {
    if msgs != [] {
      PreparedParse(msgs[1..]);
      MessageRoundTrip(msgs[0]);
      var raws := PrepareAll(msgs).value;
      assert raws[1..] == PrepareAll(msgs[1..]).value;
      assert Parsed(raws)[1..] == Parsed(raws[1..]);
    }
  }

  lemma AlignHeader(n: nat)
    ensures Align(HEADER + n) == HEADER + Align(n) <= HEADER + n + 7
  {
  }

  lemma SpaceReads(raw: Raw)
    requires Fits(raw)
    ensures CmsgSpace((CmsgLenOf(raw) - HEADER) % 0x1_0000_0000) == Space(raw) == Align(CmsgLenOf(raw)) > 0
  {
    AlignHeader(|raw.payload|);
    assert (CmsgLenOf(raw) - HEADER) % 0x1_0000_0000 == |raw.payload|;
  }

  lemma FieldsRead(raw: Raw, buf: seq<byte>, offset: nat)
    requires Fits(raw) && Cell(raw, buf, offset)
    ensures GetU64(buf[offset..offset + 8]) == CmsgLenOf(raw)
    ensures GetI32(buf[offset + 8..offset + 12]) == raw.level
    ensures GetI32(buf[offset + 12..offset + 16]) == raw.kind
  {
    RoundTrip64(CmsgLenOf(raw), 0);
    RoundTrip32(0, raw.level);
    RoundTrip32(0, raw.kind);
  }

  /** The header and the payload of a prepared message are read back, and the space computed
      from the header is the space the message was given. */
  lemma CellReads(raw: Raw, buf: seq<byte>, offset: nat)
    requires Fits(raw) && Cell(raw, buf, offset)
    ensures LengthAt(buf, offset) == CmsgLenOf(raw)
    ensures RawAt(buf, offset) == raw
    ensures SpaceAt(buf, offset) == Space(raw) == Align(CmsgLenOf(raw)) > 0
  {
    FieldsRead(raw, buf, offset);
    SpaceReads(raw);
  }

  function AsSingle(r: Result<ControlMessage.Message, ParseError>): Single {
    match r
    case Ok(m) => Message(m)
    case Err(e) => Error(e)
  }

  lemma CellParses(raw: Raw, buf: seq<byte>, offset: nat)
    requires Fits(raw) && Cell(raw, buf, offset)
    ensures offset + HEADER <= |buf| && ParseSingle(buf, offset) == AsSingle(Parse(raw))
  {
    CellReads(raw, buf, offset);
  }

  // ---------- one message after the other ----------

  /** One message is read here, and both ways to the next message lead there. */
  predicate ReadsOne(first: Result<ControlMessage.Message, ParseError>, here: nat, there: nat, last: bool,
                     buf: seq<byte>) {
    && here < there && here + HEADER <= |buf| && HEADER <= LengthAt(buf, here)
    && ParseSingle(buf, here) == AsSingle(first)
    && SpaceAt(buf, here) == there - here
    && NextHeader(buf, here) == (if last then None else Some(there))
  }

  /** At the offsets the parser of single messages gives the results in turn; what is left behind
      them is shorter than a header. */
  ghost predicate Reads(results: seq<Result<ControlMessage.Message, ParseError>>, offsets: seq<nat>, buf: seq<byte>) {
    && |offsets| == |results| + 1 && offsets[|results|] <= |buf| < offsets[|results|] + HEADER
    && forall i :: 0 <= i < |results| ==> ReadsOne(results[i], offsets[i], offsets[i + 1], i + 1 == |results|, buf)
  }

  lemma NoNextHeader(raw: Raw, buf: seq<byte>, offset: nat)
    requires Fits(raw) && Cell(raw, buf, offset) && |buf| < offset + Space(raw) + HEADER
    ensures NextHeader(buf, offset) == None
  {
    CellReads(raw, buf, offset);
  }

  lemma NextHeaderIs(raw: Raw, next: Raw, buf: seq<byte>, offset: nat)
    requires Fits(raw) && Fits(next) && Cell(raw, buf, offset) && Cell(next, buf, offset + Space(raw))
    ensures NextHeader(buf, offset) == Some(offset + Space(raw))
  {
    CellReads(raw, buf, offset);
    CellReads(next, buf, offset + Space(raw));
  }

  lemma CellReadsOne(raw: Raw, buf: seq<byte>, here: nat, last: bool)
    requires Fits(raw) && Cell(raw, buf, here)
    requires NextHeader(buf, here) == if last then None else Some(here + Space(raw))
    ensures ReadsOne(Parse(raw), here, here + Space(raw), last, buf)
  {
    CellParses(raw, buf, here);
    CellReads(raw, buf, here);
  }

  lemma FirstReads(raw: Raw, rest: seq<Raw>, x: seq<byte>, buf: seq<byte>, here: nat)
    requires Fits(raw) && AllFit(rest) && Cell(raw, x, here) && PreparedAt(rest, x, here + Space(raw))
    requires x <= buf && |buf| < |x| + HEADER
    ensures ReadsOne(Parse(raw), here, here + Space(raw), rest == [], buf)
  {
    PrefixHead(raw, x, buf, here);
    if rest != [] {
      PrefixHead(rest[0], x, buf, here + Space(raw));
      NextHeaderIs(raw, rest[0], buf, here);
    } else {
      NoNextHeader(raw, buf, here);
    }
    CellReadsOne(raw, buf, here, rest == []);
  }

  lemma PreparedTail(raws: seq<Raw>, i: nat, buf: seq<byte>, offset: nat)
    requires i < |raws| && PreparedAt(raws[i..], buf, offset)
    ensures Cell(raws[i], buf, offset) && PreparedAt(raws[i + 1..], buf, offset + Space(raws[i]))
  {
    assert raws[i..][1..] == raws[i + 1..];
  }

  lemma {:induction false} PreparedFrom(raws: seq<Raw>, i: nat, buf: seq<byte>)
    requires i <= |raws| && Prepared(raws, buf)
    ensures PreparedAt(raws[i..], buf, Offset(raws, i))
  {
    if i == 0 {
      assert raws[0..] == raws && raws[..0] == [];
    } else {
      PreparedFrom(raws, i - 1, buf);
      PreparedTail(raws, i - 1, buf, Offset(raws, i - 1));
      TotalUpTo(raws, i - 1);
    }
  }

  lemma ReadsAt(raws: seq<Raw>, i: nat, x: seq<byte>, buf: seq<byte>)
    requires i < |raws| && AllFit(raws) && Prepared(raws, x) && x <= buf && |buf| < |x| + HEADER
    ensures ReadsOne(Parse(raws[i]), Offset(raws, i), Offset(raws, i + 1), i + 1 == |raws|, buf)
  {
    var here, rest := Offset(raws, i), raws[i + 1..];
    assert Cell(raws[i], x, here) && PreparedAt(rest, x, here + Space(raws[i])) by {
      PreparedFrom(raws, i, x);
      PreparedTail(raws, i, x, here);
    }
    assert Offset(raws, i + 1) == here + Space(raws[i]) by {
      TotalUpTo(raws, i);
    }
    FirstReads(raws[i], rest, x, buf, here);
  }

  lemma PreparedReads(raws: seq<Raw>, x: seq<byte>, buf: seq<byte>)
    requires AllFit(raws) && Prepared(raws, x) && x <= buf && |buf| < |x| + HEADER
    ensures Reads(Parsed(raws), Offsets(raws), buf)
  {
    PreparedLength(raws, x, 0);
    assert raws[..|raws|] == raws;
    forall i | 0 <= i < |raws|
      ensures ReadsOne(Parse(raws[i]), Offset(raws, i), Offset(raws, i + 1), i + 1 == |raws|, buf)
    {
      ReadsAt(raws, i, x, buf);
    }
  }

  lemma SliceStep(buf: seq<byte>, offset: nat, first: Result<ControlMessage.Message, ParseError>, space: nat)
    requires offset + HEADER <= |buf| && HEADER <= LengthAt(buf, offset)
    requires ParseSingle(buf, offset) == AsSingle(first) && SpaceAt(buf, offset) == space > 0
    ensures WalkSlice(buf, offset) == Then(first, WalkSlice(buf, offset + space))
  {
  }

  lemma HeaderStep(buf: seq<byte>, offset: nat, first: Result<ControlMessage.Message, ParseError>, next: nat)
    requires offset + HEADER <= |buf| && ParseSingle(buf, offset) == AsSingle(first)
    requires NextHeader(buf, offset) == Some(next)
    ensures WalkHeaders(buf, offset) == Then(first, WalkHeaders(buf, next))
  {
  }

  lemma LastHeader(buf: seq<byte>, offset: nat, first: Result<ControlMessage.Message, ParseError>)
    requires offset + HEADER <= |buf| && ParseSingle(buf, offset) == AsSingle(first)
    requires NextHeader(buf, offset) == None
    ensures WalkHeaders(buf, offset) == Then(first, Messages([]))
  {
  }

  lemma {:induction false} SliceFrom(results: seq<Result<ControlMessage.Message, ParseError>>, offsets: seq<nat>,
                                     i: nat, buf: seq<byte>)
    requires i <= |results| && Reads(results, offsets, buf)
    ensures WalkSlice(buf, offsets[i]) == Fold(results[i..], WalkSlice(buf, offsets[|results|]))
    decreases |results| - i
  {
    if i < |results| {
      SliceFrom(results, offsets, i + 1, buf);
      assert ReadsOne(results[i], offsets[i], offsets[i + 1], i + 1 == |results|, buf);
      SliceStep(buf, offsets[i], results[i], offsets[i + 1] - offsets[i]);
      assert results[i..][1..] == results[i + 1..];
    }
  }

  lemma {:induction false} HeadersFrom(results: seq<Result<ControlMessage.Message, ParseError>>, offsets: seq<nat>,
                                       i: nat, buf: seq<byte>)
    requires i < |results| && Reads(results, offsets, buf)
    ensures offsets[i] + HEADER <= |buf| && WalkHeaders(buf, offsets[i]) == Fold(results[i..], Messages([]))
    decreases |results| - i
  {
    assert ReadsOne(results[i], offsets[i], offsets[i + 1], i + 1 == |results|, buf);
    assert results[i..][1..] == results[i + 1..];
    if i + 1 < |results| {
      HeadersFrom(results, offsets, i + 1, buf);
      HeaderStep(buf, offsets[i], results[i], offsets[i + 1]);
    } else {
      LastHeader(buf, offsets[i], results[i]);
    }
  }

  // ---------- round trips ----------

  lemma FromStart(raws: seq<Raw>)
    ensures Offsets(raws)[0] == 0 && Parsed(raws)[0..] == Parsed(raws)
  {
    assert raws[..0] == [];
  }

  /** Whatever the messages are, and whoever made the buffer: both walkers parse each of them up to
      the first error.  Up to fifteen bytes behind the last make the slice walker read outside the
      buffer; the other one does not see them. */
  lemma ReceivedList(raws: seq<Raw>, x: seq<byte>, tail: seq<byte>)
    requires AllFit(raws) && Prepared(raws, x) && |tail| < HEADER
    ensures WalkSlice(x + tail, 0) == Fold(Parsed(raws), if tail == [] then Messages([]) else OutOfBounds)
    ensures raws != [] ==> WalkMsghdr(x + tail) == Fold(Parsed(raws), Messages([]))
  {
    var buf := x + tail;
    PreparedReads(raws, x, buf);
    PreparedLength(raws, x, 0);
    assert raws[..|raws|] == raws;
    FromStart(raws);
    SliceFrom(Parsed(raws), Offsets(raws), 0, buf);
    if raws != [] {
      HeadersFrom(Parsed(raws), Offsets(raws), 0, buf);
    }
  }

  /** The buffer is one that `try_prepare_multi` could return, with any padding. */
  ghost predicate PreparedFor(msgs: seq<ControlMessage.Message>, buf: seq<byte>) {
    PrepareAll(msgs).Ok? && AllFit(PrepareAll(msgs).value) && Prepared(PrepareAll(msgs).value, buf)
  }

  /** Parsing a prepared list gives its normal forms, or the error of its first message that
      has no parser; it never reads outside the buffer and always moves forward. */
  lemma SliceRoundTrip(msgs: seq<ControlMessage.Message>, buf: seq<byte>)
    requires PreparedFor(msgs, buf)
    ensures WalkSlice(buf, 0) == ExpectAll(msgs)
    ensures WalkSlice(buf, 0).Messages? || WalkSlice(buf, 0).Failed?
  {
    ReceivedList(PrepareAll(msgs).value, buf, []);
    assert buf + [] == buf;
    PreparedParse(msgs);
    ExpectDecides(msgs);
  }

  lemma {:induction false} ExpectDecides(msgs: seq<ControlMessage.Message>)
    ensures ExpectAll(msgs).Messages? || ExpectAll(msgs).Failed?
    ensures ExpectAll(msgs).Messages? <==> forall i :: 0 <= i < |msgs| ==> Expect(msgs[i]).Ok?
    ensures ExpectAll(msgs).Messages? ==>
              |ExpectAll(msgs).messages| == |msgs|
              && forall i :: 0 <= i < |msgs| ==> ExpectAll(msgs).messages[i] == Normal(msgs[i])
  {
    if msgs != [] {
      ExpectDecides(msgs[1..]);
      assert msgs == [msgs[0]] + msgs[1..];
    }
  }

  /** The round trip succeeds exactly when no message sets a TLS record type, and then every
      message comes back in its normal form. */
  lemma RoundTripExact(msgs: seq<ControlMessage.Message>, buf: seq<byte>)
    requires PreparedFor(msgs, buf)
    ensures WalkSlice(buf, 0).Messages? <==> forall i :: 0 <= i < |msgs| ==>
        !(msgs[i].Tls? && msgs[i].tls.SetRecordType?)
    ensures WalkSlice(buf, 0).Messages? ==>
              WalkSlice(buf, 0).messages == seq(|msgs|, i requires 0 <= i < |msgs| => Normal(msgs[i]))
  {
    SliceRoundTrip(msgs, buf);
    ExpectDecides(msgs);
  }

  /** The two walkers agree on every non-empty prepared list; on the empty one they differ. */
  lemma WalkersAgree(msgs: seq<ControlMessage.Message>, buf: seq<byte>)
    requires PreparedFor(msgs, buf)
    ensures msgs != [] <==> WalkMsghdr(buf) == WalkSlice(buf, 0)
    ensures msgs == [] ==> WalkMsghdr(buf) == Failed(NullPointer) && WalkSlice(buf, 0) == Messages([])
  {
    SliceRoundTrip(msgs, buf);
    PreparedParse(msgs);
    ReceivedList(PrepareAll(msgs).value, buf, []);
    assert buf + [] == buf;
  }

  /** Messages already in normal form come back unchanged. */
  lemma NormalFormsSurvive(msgs: seq<ControlMessage.Message>, buf: seq<byte>)
    requires PreparedFor(msgs, buf)
    requires forall i :: 0 <= i < |msgs| ==> msgs[i] == Normal(msgs[i]) && Expect(msgs[i]).Ok?
    ensures WalkSlice(buf, 0) == Messages(msgs)
  {
    SliceRoundTrip(msgs, buf);
    ExpectDecides(msgs);
  }
}
