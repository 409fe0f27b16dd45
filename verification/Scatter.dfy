/** Vectored reads (src/io/buffers.rs): the memory handed to the kernel, and what becomes
    visible of it. */
module Scatter {
  import opened Wrappers
  import opened Words
  import opened Layout

  /** `spare` is the memory behind the visible bytes, whatever it holds. */
  datatype Buffer = Buffer(data: seq<byte>, spare: seq<byte>)

  /** A piece of memory: the first bytes of the spare part of a buffer. */
  datatype IoVec = IoVec(buffer: nat, length: nat)

  datatype InvalidIoVec = NoDataForIoVecs | TooManyIoVecs(requested: nat, max: nat)

  datatype BufferOverflow = BufferOverflow(requested: nat, available: nat, buffers: seq<Buffer>)

  // ---------- the kernel's side ----------

  function IoVecs(buffers: seq<Buffer>, first: nat): seq<IoVec> {
    if buffers == [] then []
    else (if buffers[0].spare == [] then [] else [IoVec(first, |buffers[0].spare|)]) + IoVecs(buffers[1..], first + 1)
  }

  function CheckIoVecs(iovecs: seq<IoVec>, max: nat): Result<seq<IoVec>, InvalidIoVec> {
    if iovecs == [] then Err(NoDataForIoVecs)
    else if |iovecs| > max then Err(TooManyIoVecs(|iovecs|, max))
    else Ok(iovecs)
  }

  lemma IoVecsStep(buffers: seq<Buffer>, i: nat)
    requires i < |buffers|
    ensures IoVecs(buffers[i..], i)
         == (if buffers[i].spare == [] then [] else [IoVec(i, |buffers[i].spare|)]) + IoVecs(buffers[i + 1..], i + 1)
  {
    assert buffers[i..][1..] == buffers[i + 1..] && buffers[i..][0] == buffers[i];
  }

  method GenerateIoVecs(buffers: seq<Buffer>, max: nat) returns (r: Result<seq<IoVec>, InvalidIoVec>)
    ensures r == CheckIoVecs(IoVecs(buffers, 0), max)
  {
    var iovecs := [];
    assert buffers[0..] == buffers;
    for i := 0 to |buffers|
      invariant iovecs + IoVecs(buffers[i..], i) == IoVecs(buffers, 0)
    {
      IoVecsStep(buffers, i);
      if |buffers[i].spare| == 0 {
        continue;
      }
      iovecs := iovecs + [IoVec(i, |buffers[i].spare|)];
    }
    assert iovecs + [] == iovecs;
    r := CheckIoVecs(iovecs, max);
  }

  /** One to the maximum of pieces are handed out as they are; the errors say which bound is
      broken, and by how many. */
  lemma PiecesExact(buffers: seq<Buffer>, max: nat)
    ensures var r, n := CheckIoVecs(IoVecs(buffers, 0), max), |IoVecs(buffers, 0)|;
            && n == |Roomy(buffers)|
            && (r.Ok? <==> 1 <= n <= max) && (r.Ok? ==> r.value == IoVecs(buffers, 0))
            && (n == 0 ==> r == Err(NoDataForIoVecs))
            && (n > max && n > 0 ==> r == Err(TooManyIoVecs(n, max)))
  {
    PiecesCount(buffers, 0);
  }

  /** The buffers that have room. */
  function Roomy(buffers: seq<Buffer>): seq<Buffer> {
    if buffers == [] then [] else (if buffers[0].spare == [] then [] else [buffers[0]]) + Roomy(buffers[1..])
  }

  lemma {:induction false} PiecesCount(buffers: seq<Buffer>, first: nat)
    ensures |IoVecs(buffers, first)| == |Roomy(buffers)|
  {
    if buffers != [] {
      PiecesCount(buffers[1..], first + 1);
    }
  }

  function Write(b: Buffer, bytes: seq<byte>): Buffer
    requires |bytes| <= |b.spare|
  {
    b.(spare := bytes + b.spare[|bytes|..])
  }

  /** The kernel fills the pieces in order. */
  function Fill(buffers: seq<Buffer>, iovecs: seq<IoVec>, bytes: seq<byte>): seq<Buffer>
    decreases |iovecs|
  {
    if iovecs == [] then buffers
    else
      var v := iovecs[0];
      var k := Min(v.length, |bytes|);
      var filled := if v.buffer < |buffers| && k <= |buffers[v.buffer].spare|
                    then buffers[v.buffer := Write(buffers[v.buffer], bytes[..k])] else buffers;
      Fill(filled, iovecs[1..], bytes[k..])
  }

  /** The same, buffer by buffer. */
  function FillAll(buffers: seq<Buffer>, bytes: seq<byte>): seq<Buffer> {
    if buffers == [] then []
    else
      var k := Min(|buffers[0].spare|, |bytes|);
      [Write(buffers[0], bytes[..k])] + FillAll(buffers[1..], bytes[k..])
  }

  lemma ReplaceHead(done: seq<Buffer>, buffers: seq<Buffer>, b: Buffer)
    requires buffers != []
    ensures (done + buffers)[|done|] == buffers[0]
    ensures (done + buffers)[|done| := b] == done + [b] + buffers[1..]
  {
  }

  lemma FillPiece(done: seq<Buffer>, buffers: seq<Buffer>, rest: seq<IoVec>, bytes: seq<byte>)
    requires buffers != []
    ensures var k := Min(|buffers[0].spare|, |bytes|);
            Fill(done + buffers, [IoVec(|done|, |buffers[0].spare|)] + rest, bytes)
            == Fill(done + [Write(buffers[0], bytes[..k])] + buffers[1..], rest, bytes[k..])
  {
    var k := Min(|buffers[0].spare|, |bytes|);
    var iovecs := [IoVec(|done|, |buffers[0].spare|)] + rest;
    ReplaceHead(done, buffers, Write(buffers[0], bytes[..k]));
    assert iovecs[1..] == rest;
  }

  lemma FillNone(done: seq<Buffer>, buffers: seq<Buffer>, first: nat)
    requires buffers != [] && buffers[0].spare == []
    ensures Write(buffers[0], []) == buffers[0]
    ensures done + [buffers[0]] + buffers[1..] == done + buffers
    ensures IoVecs(buffers, first) == IoVecs(buffers[1..], first + 1)
  {
  }

  lemma FillHead(done: seq<Buffer>, buffers: seq<Buffer>, bytes: seq<byte>)
    requires buffers != []
    ensures var k := Min(|buffers[0].spare|, |bytes|);
            Fill(done + buffers, IoVecs(buffers, |done|), bytes)
            == Fill(done + [Write(buffers[0], bytes[..k])] + buffers[1..], IoVecs(buffers[1..], |done| + 1), bytes[k..])
  {
    if buffers[0].spare == [] {
      FillNone(done, buffers, |done|);
      assert bytes[0..] == bytes && bytes[..0] == [];
    } else {
      FillPiece(done, buffers, IoVecs(buffers[1..], |done| + 1), bytes);
    }
  }

  lemma Regroup(a: seq<Buffer>, b: seq<Buffer>, c: seq<Buffer>)
    ensures a + (b + c) == (a + b) + c
  {
  }

  lemma {:induction false} FillIs(done: seq<Buffer>, buffers: seq<Buffer>, bytes: seq<byte>)
    ensures Fill(done + buffers, IoVecs(buffers, |done|), bytes) == done + FillAll(buffers, bytes)
    decreases |buffers|
  {
    if buffers == [] {
      assert done + [] == done;
    } else {
      var k := Min(|buffers[0].spare|, |bytes|);
      var head := [Write(buffers[0], bytes[..k])];
      FillHead(done, buffers, bytes);
      FillIs(done + head, buffers[1..], bytes[k..]);
      var rest := FillAll(buffers[1..], bytes[k..]);
      Regroup(done, head, rest);
    }
  }

  // ---------- the program's side ----------

  /** `chunk_mut`: a full buffer grows, by memory that the kernel never saw. */
  function Chunk(b: Buffer, junk: seq<byte>): seq<byte> {
    if b.spare == [] then junk else b.spare
  }

  function Expose(b: Buffer, n: nat, junk: seq<byte>): Buffer {
    var chunk := Chunk(b, junk);
    var k := Min(n, |chunk|);
    Buffer(b.data + chunk[..k], chunk[k..])
  }

  function TotalChunk(buffers: seq<Buffer>, junk: seq<byte>): nat {
    if buffers == [] then 0 else |Chunk(buffers[0], junk)| + TotalChunk(buffers[1..], junk)
  }

  function TotalSpare(buffers: seq<Buffer>): nat {
    if buffers == [] then 0 else |buffers[0].spare| + TotalSpare(buffers[1..])
  }

  /** Makes n bytes visible, from the front. */
  function Advance(buffers: seq<Buffer>, n: nat, junk: seq<byte>): seq<Buffer> {
    if buffers == [] then []
    else [Expose(buffers[0], n, junk)] + Advance(buffers[1..], n - Min(n, |Chunk(buffers[0], junk)|), junk)
  }

  lemma AdvanceStep(buffers: seq<Buffer>, i: nat, left: nat, junk: seq<byte>)
    requires i < |buffers|
    ensures var k := Min(left, |Chunk(buffers[i], junk)|);
            && Advance(buffers[i..], left, junk) == [Expose(buffers[i], left, junk)]
                + Advance(buffers[i + 1..], left - k, junk)
            && TotalChunk(buffers[i..], junk) == |Chunk(buffers[i], junk)| + TotalChunk(buffers[i + 1..], junk)
  {
    assert buffers[i..][1..] == buffers[i + 1..] && buffers[i..][0] == buffers[i];
  }

  /** The first i buffers are done, and their chunks account for some of the bytes. */
  ghost predicate Accounted(buffers: seq<Buffer>, i: nat, total: nat, accounted: nat, result: seq<Buffer>,
      junk: seq<byte>) {
    && i <= |buffers| && accounted <= total
    && result + Advance(buffers[i..], total - accounted, junk) == Advance(buffers, total, junk)
    && accounted + Min(total - accounted, TotalChunk(buffers[i..], junk)) == Min(total, TotalChunk(buffers, junk))
  }

  lemma AccountedStep(buffers: seq<Buffer>, i: nat, total: nat, accounted: nat, result: seq<Buffer>, junk: seq<byte>)
    requires i < |buffers| && Accounted(buffers, i, total, accounted, result, junk)
    ensures Accounted(buffers, i + 1, total, accounted + Min(total - accounted, |Chunk(buffers[i], junk)|),
                      result + [Expose(buffers[i], total - accounted, junk)], junk)
  {
    var left := total - accounted;
    AdvanceStep(buffers, i, left, junk);
    var head := [Expose(buffers[i], left, junk)];
    var rest := Advance(buffers[i + 1..], left - Min(left, |Chunk(buffers[i], junk)|), junk);
    Regroup(result, head, rest);
  }

  /** `into_bytes`: fails exactly when the chunks hold fewer bytes, and says how many they hold. */
  method IntoBytes(buffers: seq<Buffer>, total: nat, junk: seq<byte>) returns (r: Result<seq<Buffer>, BufferOverflow>)
    ensures r.Ok? <==> total <= TotalChunk(buffers, junk)
    ensures r.Ok? ==> r.value == Advance(buffers, total, junk)
    ensures r.Err? ==> r.error == BufferOverflow(total, TotalChunk(buffers, junk), Advance(buffers, total, junk))
  {
    var accounted: nat := 0;
    var result := [];
    assert buffers[0..] == buffers && [] + Advance(buffers, total, junk) == Advance(buffers, total, junk);
    for i := 0 to |buffers|
      invariant accounted <= total && Accounted(buffers, i, total, accounted, result, junk)
    {
      AccountedStep(buffers, i, total, accounted, result, junk);
      var here := Min(total - accounted, |Chunk(buffers[i], junk)|);
      result := result + [Expose(buffers[i], total - accounted, junk)];
      accounted := accounted + here;
    }
    assert result + [] == result;
    if accounted < total {
      return Err(BufferOverflow(total, accounted, result));
    }
    r := Ok(result);
  }

  /** What became visible. */
  function Exposed(before: seq<Buffer>, after: seq<Buffer>): seq<byte> {
    if before == [] || after == [] || |after[0].data| < |before[0].data| then []
    else after[0].data[|before[0].data|..] + Exposed(before[1..], after[1..])
  }

  /** The read into the buffers, and back. */
  function Read(buffers: seq<Buffer>, bytes: seq<byte>, junk: seq<byte>): seq<Buffer> {
    Advance(Fill(buffers, IoVecs(buffers, 0), bytes), |bytes|, junk)
  }

  lemma AdvanceHead(b: Buffer, rest: seq<Buffer>, n: nat, junk: seq<byte>)
    ensures Advance([b] + rest, n, junk) == [Expose(b, n, junk)] + Advance(rest, n - Min(n, |Chunk(b, junk)|), junk)
  {
    assert ([b] + rest)[1..] == rest;
  }

  /** Each buffer still starts with what was visible of it. */
  ghost predicate Kept(before: seq<Buffer>, after: seq<Buffer>) {
    |before| == |after| && forall i :: 0 <= i < |before| ==> before[i].data <= after[i].data
  }

  lemma KeptHead(b: Buffer, rest: seq<Buffer>, c: Buffer, more: seq<Buffer>)
    requires b.data <= c.data && Kept(rest, more)
    ensures Kept([b] + rest, [c] + more)
  {
  }

  /** Each buffer has the memory that it had, and what it grew by. */
  ghost predicate SameSizes(before: seq<Buffer>, after: seq<Buffer>, junk: seq<byte>) {
    |before| == |after|
    && forall i :: 0 <= i < |before| ==>
        |after[i].data| + |after[i].spare| == |before[i].data| + |Chunk(before[i], junk)|
  }

  lemma SizesHead(b: Buffer, rest: seq<Buffer>, c: Buffer, more: seq<Buffer>, junk: seq<byte>)
    requires |c.data| + |c.spare| == |b.data| + |Chunk(b, junk)| && SameSizes(rest, more, junk)
    ensures SameSizes([b] + rest, [c] + more, junk)
  {
  }

  lemma ExposeSize(b: Buffer, bytes: seq<byte>, n: nat, junk: seq<byte>)
    requires |bytes| <= |b.spare|
    ensures var c := Expose(Write(b, bytes), n, junk); |c.data| + |c.spare| == |b.data| + |Chunk(b, junk)|
  {
  }

  lemma {:induction false} BothSizes(buffers: seq<Buffer>, bytes: seq<byte>, n: nat, junk: seq<byte>)
    requires n <= |bytes|
    ensures SameSizes(buffers, Both(buffers, bytes, n, junk), junk)
    decreases |buffers|
  {
    if buffers != [] {
      var b, rest := buffers[0], buffers[1..];
      var k, left := Min(|b.spare|, |bytes|), n - Min(n, |Chunk(b, junk)|);
      LeftFits(b, bytes, n, junk);
      BothSizes(rest, bytes[k..], left, junk);
      ExposeSize(b, bytes[..k], n, junk);
      SizesHead(b, rest, Expose(Write(b, bytes[..k]), n, junk), Both(rest, bytes[k..], left, junk), junk);
      assert [b] + rest == buffers;
    }
  }

  /** No byte of memory is lost: what is not visible yet is still spare. */
  lemma ReadSizes(buffers: seq<Buffer>, bytes: seq<byte>, junk: seq<byte>)
    ensures SameSizes(buffers, Read(buffers, bytes, junk), junk)
  {
    FillIs([], buffers, bytes);
    assert [] + buffers == buffers && [] + FillAll(buffers, bytes) == FillAll(buffers, bytes);
    BothIs(buffers, bytes, |bytes|, junk);
    BothSizes(buffers, bytes, |bytes|, junk);
  }

  lemma {:induction false} AdvanceKeeps(buffers: seq<Buffer>, bytes: seq<byte>, n: nat, junk: seq<byte>)
    ensures Kept(buffers, Advance(FillAll(buffers, bytes), n, junk))
    decreases |buffers|
  {
    if buffers != [] {
      var b, rest := buffers[0], buffers[1..];
      var k := Min(|b.spare|, |bytes|);
      var head, tail := Write(b, bytes[..k]), FillAll(rest, bytes[k..]);
      var left := n - Min(n, |Chunk(head, junk)|);
      AdvanceHead(head, tail, n, junk);
      AdvanceKeeps(rest, bytes[k..], left, junk);
      KeptHead(b, rest, Expose(head, n, junk), Advance(tail, left, junk));
      assert buffers == [b] + rest;
    }
  }

  /** Every read leaves the bytes that were visible where they were. */
  lemma ReadKeeps(buffers: seq<Buffer>, bytes: seq<byte>, junk: seq<byte>)
    ensures Kept(buffers, Read(buffers, bytes, junk))
  {
    FillIs([], buffers, bytes);
    assert [] + buffers == buffers && [] + FillAll(buffers, bytes) == FillAll(buffers, bytes);
    AdvanceKeeps(buffers, bytes, |bytes|, junk);
  }

  /** No full buffer stands before the end of n bytes. */
  predicate NoFullBefore(buffers: seq<Buffer>, n: nat) {
    forall i :: 0 <= i < |buffers| && buffers[i].spare == [] ==> n <= TotalSpare(buffers[..i])
  }

  lemma FullTail(buffers: seq<Buffer>, n: nat)
    requires buffers != []
    ensures NoFullBefore(buffers, n) <==>
              (buffers[0].spare == [] ==> n == 0) && NoFullBefore(buffers[1..], n - Min(n, |buffers[0].spare|))
  {
    var b, rest := buffers[0], buffers[1..];
    var left := n - Min(n, |b.spare|);
    forall i | 0 <= i < |rest|
      ensures TotalSpare(buffers[..i + 1]) == |b.spare| + TotalSpare(rest[..i]) && buffers[i + 1] == rest[i]
    {
      assert buffers[..i + 1][1..] == rest[..i];
    }
    if NoFullBefore(buffers, n) {
      assert buffers[..0] == [];
      forall i | 0 <= i < |rest| && rest[i].spare == [] ensures left <= TotalSpare(rest[..i]) {
        assert n <= TotalSpare(buffers[..i + 1]);
      }
    }
    if (b.spare == [] ==> n == 0) && NoFullBefore(rest, left) {
      forall i | 0 <= i < |buffers| && buffers[i].spare == [] ensures n <= TotalSpare(buffers[..i]) {
        if i > 0 {
          assert rest[i - 1].spare == [];
        }
      }
    }
  }

  /** What becomes visible of one buffer: bytes that were received, or junk. */
  function Visible(b: Buffer, bytes: seq<byte>, n: nat, junk: seq<byte>): seq<byte>
    requires n <= |bytes|
  {
    if b.spare == [] then junk[..Min(n, |junk|)] else bytes[..Min(n, |b.spare|)]
  }

  /** What becomes visible, buffer by buffer. */
  function Shown(buffers: seq<Buffer>, bytes: seq<byte>, n: nat, junk: seq<byte>): seq<byte>
    requires n <= |bytes|
  {
    if buffers == [] then []
    else
      var b := buffers[0];
      Visible(b, bytes, n, junk) + Shown(buffers[1..], bytes[Min(|b.spare|, |bytes|)..],
          n - Min(n, |Chunk(b, junk)|), junk)
  }

  /** Both sides of the read, buffer by buffer. */
  function Both(buffers: seq<Buffer>, bytes: seq<byte>, n: nat, junk: seq<byte>): seq<Buffer>
    requires n <= |bytes|
  {
    if buffers == [] then []
    else
      var b := buffers[0];
      var k := Min(|b.spare|, |bytes|);
      [Expose(Write(b, bytes[..k]), n, junk)] + Both(buffers[1..], bytes[k..], n - Min(n, |Chunk(b, junk)|), junk)
  }

  lemma WrittenChunk(b: Buffer, bytes: seq<byte>, junk: seq<byte>)
    requires |bytes| <= |b.spare|
    ensures |Chunk(Write(b, bytes), junk)| == |Chunk(b, junk)|
  {
  }

  /** What is still to be shown was still to be received. */
  lemma LeftFits(b: Buffer, bytes: seq<byte>, n: nat, junk: seq<byte>)
    requires n <= |bytes|
    ensures n - Min(n, |Chunk(b, junk)|) <= |bytes| - Min(|b.spare|, |bytes|)
  {
  }

  lemma AdvanceOn(head: Buffer, tail: seq<Buffer>, n: nat, size: nat, junk: seq<byte>)
    requires |Chunk(head, junk)| == size
    ensures Advance([head] + tail, n, junk) == [Expose(head, n, junk)] + Advance(tail, n - Min(n, size), junk)
  {
    AdvanceHead(head, tail, n, junk);
  }

  lemma FillCons(buffers: seq<Buffer>, bytes: seq<byte>)
    requires buffers != []
    ensures var k := Min(|buffers[0].spare|, |bytes|);
            FillAll(buffers, bytes) == [Write(buffers[0], bytes[..k])] + FillAll(buffers[1..], bytes[k..])
  {
  }

  lemma {:induction false} BothIs(buffers: seq<Buffer>, bytes: seq<byte>, n: nat, junk: seq<byte>)
    requires n <= |bytes|
    ensures Advance(FillAll(buffers, bytes), n, junk) == Both(buffers, bytes, n, junk)
    decreases |buffers|
  {
    if buffers != [] {
      var b := buffers[0];
      var k, size := Min(|b.spare|, |bytes|), |Chunk(b, junk)|;
      LeftFits(b, bytes, n, junk);
      BothIs(buffers[1..], bytes[k..], n - Min(n, size), junk);
      WrittenChunk(b, bytes[..k], junk);
      FillCons(buffers, bytes);
      AdvanceOn(Write(b, bytes[..k]), FillAll(buffers[1..], bytes[k..]), n, size, junk);
    }
  }

  lemma ExposedStep(b: Buffer, rest: seq<Buffer>, after: Buffer, more: seq<Buffer>, visible: seq<byte>)
    requires after.data == b.data + visible
    ensures Exposed([b] + rest, [after] + more) == visible + Exposed(rest, more)
  {
    assert after.data[|b.data|..] == visible;
    assert ([b] + rest)[1..] == rest && ([after] + more)[1..] == more;
  }

  lemma ExposeData(b: Buffer, bytes: seq<byte>, n: nat, junk: seq<byte>)
    requires n <= |bytes|
    ensures Expose(Write(b, bytes[..Min(|b.spare|, |bytes|)]), n, junk).data == b.data + Visible(b, bytes, n, junk)
  {
    var k, used := Min(|b.spare|, |bytes|), Min(n, |b.spare|);
    if b.spare != [] {
      assert (bytes[..k] + b.spare[k..])[..used] == bytes[..used];
    }
  }

  lemma {:induction false} ShownIs(buffers: seq<Buffer>, bytes: seq<byte>, n: nat, junk: seq<byte>)
    requires n <= |bytes|
    ensures Exposed(buffers, Both(buffers, bytes, n, junk)) == Shown(buffers, bytes, n, junk)
    decreases |buffers|
  {
    if buffers != [] {
      var b, rest := buffers[0], buffers[1..];
      var k, left := Min(|b.spare|, |bytes|), n - Min(n, |Chunk(b, junk)|);
      ShownIs(rest, bytes[k..], left, junk);
      ExposeData(b, bytes, n, junk);
      ExposedStep(b, rest, Expose(Write(b, bytes[..k]), n, junk), Both(rest, bytes[k..], left, junk),
                  Visible(b, bytes, n, junk));
      assert buffers == [b] + rest;
    }
  }

  /** The same condition, buffer by buffer. */
  predicate Covered(buffers: seq<Buffer>, n: nat) {
    buffers == []
    || ((buffers[0].spare == [] ==> n == 0) && Covered(buffers[1..], n - Min(n, |buffers[0].spare|)))
  }

  lemma {:induction false} CoveredIs(buffers: seq<Buffer>, n: nat)
    ensures Covered(buffers, n) <==> NoFullBefore(buffers, n)
  {
    if buffers != [] {
      FullTail(buffers, n);
      CoveredIs(buffers[1..], n - Min(n, |buffers[0].spare|));
    }
  }

  lemma {:induction false} ShownAll(buffers: seq<Buffer>, bytes: seq<byte>, junk: seq<byte>)
    requires |bytes| <= TotalSpare(buffers) && Covered(buffers, |bytes|)
    ensures Shown(buffers, bytes, |bytes|, junk) == bytes
    decreases |buffers|
  {
    if buffers != [] {
      var k := Min(|buffers[0].spare|, |bytes|);
      ShownAll(buffers[1..], bytes[k..], junk);
      assert bytes[..k] + bytes[k..] == bytes;
      if buffers[0].spare == [] {
        assert bytes[k..] == bytes;
      }
    }
  }

  function Other(b: byte): byte { if b == 0 then 1 else 0 }

  function Zeros(n: nat): seq<byte> { seq(n, i => 0) }

  /** Bytes that a read loses behind a full buffer. */
  function Lost(buffers: seq<Buffer>, n: nat, junk: seq<byte>): (bytes: seq<byte>)
    requires junk != []
    ensures |bytes| == n
  {
    if buffers == [] || n == 0 then Zeros(n)
    else if buffers[0].spare == [] then [Other(junk[0])] + Zeros(n - 1)
    else
      var k := Min(n, |buffers[0].spare|);
      Zeros(k) + Lost(buffers[1..], n - k, junk)
  }

  lemma {:induction false} LostIsLost(buffers: seq<Buffer>, n: nat, junk: seq<byte>)
    requires junk != [] && !Covered(buffers, n)
    ensures Shown(buffers, Lost(buffers, n, junk), n, junk) != Lost(buffers, n, junk)
    decreases |buffers|
  {
    if n == 0 {
      NothingIsCovered(buffers);
    } else if buffers[0].spare == [] {
      LostAtOnce(buffers, n, junk);
    } else {
      LostIsLost(buffers[1..], n - Min(n, |buffers[0].spare|), junk);
      LostLater(buffers, n, junk);
    }
  }

  lemma {:induction false} NothingIsCovered(buffers: seq<Buffer>)
    ensures Covered(buffers, 0)
  {
    if buffers != [] {
      NothingIsCovered(buffers[1..]);
    }
  }

  lemma LostLater(buffers: seq<Buffer>, n: nat, junk: seq<byte>)
    requires junk != [] && n > 0 && buffers != [] && buffers[0].spare != []
    requires var left := n - Min(n, |buffers[0].spare|);
             Shown(buffers[1..], Lost(buffers[1..], left, junk), left, junk) != Lost(buffers[1..], left, junk)
    ensures Shown(buffers, Lost(buffers, n, junk), n, junk) != Lost(buffers, n, junk)
  {
    var k := Min(n, |buffers[0].spare|);
    var rest := Lost(buffers[1..], n - k, junk);
    ShownBehind(buffers, rest, n, junk);
    SamePrefix(Zeros(k), Shown(buffers[1..], rest, n - k, junk), rest);
  }

  lemma LostAtOnce(buffers: seq<Buffer>, n: nat, junk: seq<byte>)
    requires junk != [] && n > 0 && buffers != [] && buffers[0].spare == []
    ensures Shown(buffers, Lost(buffers, n, junk), n, junk) != Lost(buffers, n, junk)
  {
    var bytes := Lost(buffers, n, junk);
    assert Shown(buffers, bytes, n, junk)[0] == junk[0] && bytes[0] == Other(junk[0]);
  }

  lemma SplitAt(a: seq<byte>, b: seq<byte>)
    ensures (a + b)[..|a|] == a && (a + b)[|a|..] == b
  {
  }

  lemma ShownRoom(buffers: seq<Buffer>, bytes: seq<byte>, junk: seq<byte>)
    requires buffers != [] && buffers[0].spare != []
    ensures var k := Min(|bytes|, |buffers[0].spare|);
            Shown(buffers, bytes, |bytes|, junk) == bytes[..k] + Shown(buffers[1..], bytes[k..], |bytes| - k, junk)
  {
  }

  lemma ShownBehind(buffers: seq<Buffer>, rest: seq<byte>, n: nat, junk: seq<byte>)
    requires buffers != [] && buffers[0].spare != []
    requires var k := Min(n, |buffers[0].spare|); |rest| == n - k
    ensures var k := Min(n, |buffers[0].spare|);
            Shown(buffers, Zeros(k) + rest, n, junk) == Zeros(k) + Shown(buffers[1..], rest, n - k, junk)
  {
    var k := Min(n, |buffers[0].spare|);
    SplitAt(Zeros(k), rest);
    ShownRoom(buffers, Zeros(k) + rest, junk);
  }

  lemma SamePrefix(a: seq<byte>, x: seq<byte>, y: seq<byte>)
    requires x != y
    ensures a + x != a + y
  {
    assert (a + x)[|a|..] == x && (a + y)[|a|..] == y;
  }

  /** A read of n bytes that the kernel could store makes exactly the bytes received visible,
      whatever they are, exactly when no full buffer stands before their end.  A full buffer
      gets no piece of the read, but grows when its bytes are made visible. */
  lemma ScatterExact(buffers: seq<Buffer>, n: nat, junk: seq<byte>)
    requires junk != [] && n <= TotalSpare(buffers)
    ensures (forall bytes: seq<byte> :: |bytes| == n ==> Exposed(buffers, Read(buffers, bytes, junk)) == bytes)
            <==> NoFullBefore(buffers, n)
  {
    CoveredIs(buffers, n);
    if NoFullBefore(buffers, n) {
      forall bytes: seq<byte> | |bytes| == n ensures Exposed(buffers, Read(buffers, bytes, junk)) == bytes {
        ReadShows(buffers, bytes, junk);
        ShownAll(buffers, bytes, junk);
      }
    } else {
      var bytes := Lost(buffers, n, junk);
      ReadShows(buffers, bytes, junk);
      LostIsLost(buffers, n, junk);
      assert |bytes| == n && Exposed(buffers, Read(buffers, bytes, junk)) != bytes;
    }
  }

  /** A full buffer in front of one with room: a byte that is read is lost behind what the full
      buffer grew by. */
  lemma FullBufferHidesByte(x: byte, junk: seq<byte>)
    requires junk != [] && x != junk[0]
    ensures var buffers := [Buffer([], []), Buffer([], [0])];
            Exposed(buffers, Read(buffers, [x], junk)) != [x]
  {
    var buffers := [Buffer([], []), Buffer([], [0])];
    ReadShows(buffers, [x], junk);
    assert Shown(buffers, [x], |[x]|, junk)[0] == junk[0];
  }

  lemma ReadShows(buffers: seq<Buffer>, bytes: seq<byte>, junk: seq<byte>)
    ensures Exposed(buffers, Read(buffers, bytes, junk)) == Shown(buffers, bytes, |bytes|, junk)
  {
    FillIs([], buffers, bytes);
    assert [] + buffers == buffers && [] + FillAll(buffers, bytes) == FillAll(buffers, bytes);
    BothIs(buffers, bytes, |bytes|, junk);
    ShownIs(buffers, bytes, |bytes|, junk);
  }

  /** With room in every buffer the chunks are the spare parts, so `into_bytes` fails exactly
      when more bytes are claimed than all of them hold, and no buffer is in the way. */
  lemma {:induction false} RoomEverywhere(buffers: seq<Buffer>, n: nat, junk: seq<byte>)
    requires forall i :: 0 <= i < |buffers| ==> buffers[i].spare != []
    ensures TotalChunk(buffers, junk) == TotalSpare(buffers) && NoFullBefore(buffers, n)
  {
    if buffers != [] {
      RoomEverywhere(buffers[1..], n, junk);
    }
  }
}
