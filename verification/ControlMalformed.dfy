/** Buffers of control messages that nobody prepared, and one buffer byte by byte. */
module ControlMalformed {
  import opened Wrappers
  import opened Layout
  import opened ControlMessage
  import opened ControlBuffer
  import opened ControlRoundTrip
  import opened ControlReceive

  /** A hop limit of 64 in 24 bytes: the length of header and payload, level, type, the payload,
      and four bytes of padding. */
  lemma BufferWire(p: seq<byte>)
    requires |p| == 4
    ensures Prepared([Raw(41, 52, I32(64))],
                     [20, 0, 0, 0, 0, 0, 0, 0] + [41, 0, 0, 0] + [52, 0, 0, 0] + [64, 0, 0, 0] + p)
  {
    var raw := Raw(41, 52, I32(64));
    var length, level, kind, payload: seq<byte> := [20, 0, 0, 0, 0, 0, 0, 0], [41, 0, 0, 0], [52, 0, 0, 0],
        [64, 0, 0, 0];
    var buf := length + level + kind + payload + p;
    U64Bytes(20, 0);
    U32Bytes(0);
    U32Bytes(20);
    U32Bytes(41);
    U32Bytes(52);
    U32Bytes(64);
    assert Le(20, |EIGHT|) == length && I32(41) == level && I32(52) == kind && I32(64) == payload;
    assert buf[..8] == length && buf[8..12] == level && buf[12..16] == kind && buf[16..20] == payload;
    PreparedOne(raw, buf);
  }

  /** A length too short for its own header. */
  lemma ShortHeader(buf: seq<byte>, offset: nat)
    requires offset + HEADER <= |buf| && LengthAt(buf, offset) < HEADER
    ensures WalkSlice(buf, offset) == Failed(InvalidHeaderLength(16, LengthAt(buf, offset)))
    ensures WalkHeaders(buf, offset) == Failed(InvalidHeaderLength(16, LengthAt(buf, offset)))
  {
  }

  /** A message of a kind that does not fit its length is refused before its payload is read, be
      it inside the buffer or not; one that fits is read, and a payload beyond the buffer is read
      outside of it. */
  lemma LongMessage(buf: seq<byte>, offset: nat)
    requires offset + HEADER <= |buf| && LengthAt(buf, offset) > |buf| - offset
    ensures var level, kind := GetI32(buf[offset + 8..offset + 12]), GetI32(buf[offset + 12..offset + 16]);
            var size := LengthAt(buf, offset) - HEADER;
            WalkSlice(buf, offset)
            == match CheckHeader(level, kind, size) case Some(e) => Failed(e) case None => OutOfBounds
  {
  }

  /** A header that claims more than the buffer holds is not seen by the header walker. */
  lemma TruncatedNext(raw: Raw, buf: seq<byte>, offset: nat)
    requires Fits(raw) && Cell(raw, buf, offset) && offset + Space(raw) + HEADER <= |buf|
    requires offset + Space(raw) + LengthAt(buf, offset + Space(raw)) > |buf|
    ensures WalkHeaders(buf, offset) == Then(Parse(raw), Messages([]))
  {
    CellReads(raw, buf, offset);
    CellParses(raw, buf, offset);
    LastHeader(buf, offset, Parse(raw));
  }

  /** A slice of less than four gibibytes is walked to its end or to an error. */
  lemma {:induction false} WalkEnds(buf: seq<byte>, offset: nat)
    requires |buf| < 0x1_0000_0000 - 24
    ensures WalkSlice(buf, offset) != Diverges
    decreases |buf| - offset
  {
    if offset < |buf| && ParseSingle(buf, offset).Message? {
      var m := ParseSingle(buf, offset).message;
      WalkOne(buf, offset, m);
      ParsedInside(buf, offset);
      SpaceGrows(LengthAt(buf, offset), |buf|);
      WalkEnds(buf, offset + SpaceAt(buf, offset));
    }
  }

  lemma ParsedInside(buf: seq<byte>, offset: nat)
    requires ParseSingle(buf, offset).Message?
    ensures offset + HEADER <= |buf| && HEADER <= LengthAt(buf, offset) <= |buf| - offset
  {
  }

  lemma SpaceGrows(size: nat, limit: nat)
    requires HEADER <= size <= limit < 0x1_0000_0000 - 24
    ensures CmsgSpace((size - HEADER) % 0x1_0000_0000) >= size
  {
  }
}
