/** What the text forms of addresses guarantee: nothing is lost on the way to text and back. */
module AddressRoundTrip {
  import opened Wrappers
  import opened Text
  import opened Layout
  import opened AddressText

  // ---------- digits ----------

  /** Characters that neither separate, nor are trimmed, nor are signs. */
  predicate Plain(c: char) {
    '0' <= c <= '9' || 'a' <= c <= 'f'
  }

  predicate PlainText(s: string) {
    forall i :: 0 <= i < |s| ==> Plain(s[i])
  }

  lemma DigitPlain(d: nat)
    requires d < 16
    ensures Plain(Digit(d)) && DigitValue(Digit(d)) == Some(d)
  {
  }

  lemma ValueSnoc(s: string, c: char, radix: Radix)
    requires AllDigits(s, radix)
    requires DigitIn(c, radix)
    ensures Value(s + [c], radix) == Shifted(Value(s, radix), radix, DigitValue(c).value)
  {
    assert (s + [c])[..|s|] == s;
  }

  lemma {:induction false} ValueZero(s: string, radix: Radix)
    requires AllDigits(s, radix)
    ensures Value("0" + s, radix) == Value(s, radix)
  {
    if s == "" {
      assert "0" + s == "" + ['0'];
      ValueSnoc("", '0', radix);
    } else {
      var n := |s| - 1;
      assert forall i :: 0 <= i < n ==> DigitIn(s[..n][i], radix);
      ValueZero(s[..n], radix);
      assert "0" + s == ("0" + s[..n]) + [s[n]];
      ValueSnoc("0" + s[..n], s[n], radix);
    }
  }

  lemma ValueOne(c: char, radix: Radix)
    requires DigitIn(c, radix)
    ensures Value([c], radix) == DigitValue(c).value
  {
    assert [c][..0] == "";
  }

  lemma Value2(c: char, d: char, radix: Radix)
    requires DigitIn(c, radix) && DigitIn(d, radix)
    ensures Value([c], radix) == DigitValue(c).value
    ensures Value([c, d], radix) == Shifted(DigitValue(c).value, radix, DigitValue(d).value)
  {
    ValueOne(c, radix);
    ValueSnoc([c], d, radix);
    assert [c, d] == [c] + [d];
  }

  lemma Value4(c: char, d: char, e: char, f: char, radix: Radix)
    requires DigitIn(c, radix) && DigitIn(d, radix) && DigitIn(e, radix) && DigitIn(f, radix)
    ensures Value([c, d, e], radix) == Shifted(Value([c, d], radix), radix, DigitValue(e).value)
    ensures Value([c, d, e, f], radix) == Shifted(Value([c, d, e], radix), radix, DigitValue(f).value)
  {
    assert [c, d, e] == [c, d] + [e] && [c, d, e, f] == [c, d, e] + [f];
    ValueSnoc([c, d], e, radix);
    ValueSnoc([c, d, e], f, radix);
  }

  lemma FourDigits(v: group)
    ensures (((v / 4096) * 16 + v / 256 % 16) * 16 + v / 16 % 16) * 16 + v % 16 == v
  {
  }

  lemma Hex4Value(v: group)
    ensures PlainText(Hex4(v)) && |Hex4(v)| == 4
    ensures AllDigits(Hex4(v), 16)
    ensures Value(Hex4(v), 16) == v
  {
    var a, b, c, d := v / 4096, v / 256 % 16, v / 16 % 16, v % 16;
    DigitPlain(a); DigitPlain(b); DigitPlain(c); DigitPlain(d);
    Value2(Digit(a), Digit(b), 16);
    Value4(Digit(a), Digit(b), Digit(c), Digit(d), 16);
    FourDigits(v);
  }

  lemma UnsignedDigits(s: string, radix: Radix, max: nat)
    requires PlainText(s) && s != "" && AllDigits(s, radix)
    ensures ParseUnsigned(s, radix, max) == if Value(s, radix) <= max then Some(Value(s, radix)) else None
  {
  }

  lemma ThreeDigits(b: byte)
    ensures ((b / 100) * 10 + b / 10 % 10) * 10 + b % 10 == b
    ensures b < 100 ==> b / 10 % 10 == b / 10
  {
  }

  lemma DecimalDigits(b: byte)
    ensures PlainText(Decimal(b)) && Decimal(b) != ""
    ensures AllDigits(Decimal(b), 10)
    ensures Value(Decimal(b), 10) == b
  {
    ThreeDigits(b);
    if b >= 100 {
      HighDecimal(b);
    } else {
      LowDecimal(b);
    }
  }

  lemma HighDecimal(b: byte)
    requires b >= 100
    ensures var d := Decimal(b);
            && PlainText(d) && d != "" && AllDigits(d, 10) && Value(d, 10) == b
  {
    var x, y, z := b / 100, b / 10 % 10, b % 10;
    DigitPlain(x); DigitPlain(y); DigitPlain(z);
    Value2(Digit(x), Digit(y), 10);
    Value4(Digit(x), Digit(y), Digit(z), Digit(z), 10);
    ThreeDigits(b);
  }

  lemma LowDecimal(b: byte)
    requires b < 100
    ensures var d := Decimal(b);
            && PlainText(d) && d != "" && AllDigits(d, 10) && Value(d, 10) == b
  {
    if b < 10 {
      DigitPlain(b);
      Value2(Digit(b), Digit(b), 10);
    } else {
      TwoDigits(b / 10, b % 10);
    }
  }

  lemma TwoDigits(y: nat, z: nat)
    requires y < 10 && z < 10
    ensures var d := [Digit(y), Digit(z)];
            && PlainText(d) && AllDigits(d, 10) && Value(d, 10) == y * 10 + z
  {
    DigitPlain(y); DigitPlain(z);
    Value2(Digit(y), Digit(z), 10);
  }

  lemma DecimalValue(b: byte)
    ensures PlainText(Decimal(b)) && Decimal(b) != ""
    ensures ParseUnsigned(Decimal(b), 10, 255) == Some(b)
  {
    DecimalDigits(b);
    UnsignedDigits(Decimal(b), 10, 255);
  }

  lemma PlainDigits(s: string)
    requires PlainText(s)
    ensures AllDigits(s, 16)
    ensures Ascii(s) && ':' !in s && '.' !in s && '[' !in s
    ensures Trim(s) == s
  {
    TrimSolid(s);
  }

  // ---------- stripping and padding ----------

  lemma {:induction false} StripPlain(p: string)
    requires PlainText(p) && p != ""
    ensures var q := StripZeros(p);
            && PlainText(q) && 1 <= |q| <= |p|
            && AllDigits(p, 16) && AllDigits(q, 16)
            && Value(q, 16) == Value(p, 16)
            && (|q| > 1 ==> q[0] != '0')
  {
    PlainDigits(p);
    AsciiLen(p);
    if ByteLen(p) > 1 && p[0] == '0' {
      StripPlain(p[1..]);
      PlainDigits(p[1..]);
      ValueZero(p[1..], 16);
      assert p == "0" + p[1..];
    }
  }

  /** Stripped zeros are exactly the ones padding puts back. */
  lemma {:induction false} PadStrip(p: string)
    requires Ascii(p) && 1 <= |p| <= 4
    ensures PadZeros(StripZeros(p)) == PadZeros(p)
  {
    AsciiLen(p);
    if |p| > 1 && p[0] == '0' {
      AsciiLen(p[1..]);
      PadStrip(p[1..]);
      assert "0" + p[1..] == p;
    }
  }

  // ---------- compressed text and back ----------

  /** Four characters of ASCII that are neither a colon nor white space. */
  predicate Group4(p: string) {
    |p| == 4 && Ascii(p) && ':' !in p && forall i :: 0 <= i < 4 ==> !White(p[i])
  }

  ghost predicate Groups4(g: seq<string>) {
    |g| == 8 && forall i :: 0 <= i < 8 ==> Group4(g[i])
  }

  predicate Solid(p: string) {
    ':' !in p && forall i :: 0 <= i < |p| ==> !White(p[i])
  }

  lemma {:induction false} StripSolid(p: string)
    requires Solid(p) && Ascii(p) && p != ""
    ensures Solid(StripZeros(p)) && Ascii(StripZeros(p)) && 1 <= |StripZeros(p)| <= |p|
  {
    AsciiLen(p);
    if ByteLen(p) > 1 && p[0] == '0' {
      StripSolid(p[1..]);
    }
  }

  lemma SolidParts(parts: seq<string>)
    requires parts != [] && forall i :: 0 <= i < |parts| ==> Solid(parts[i])
    ensures Trimmed(Split(Join(parts, ':'), ':')) == parts
  {
    SplitJoin(parts, ':');
    forall i | 0 <= i < |parts| ensures Trim(parts[i]) == parts[i] {
      TrimSolid(parts[i]);
    }
  }

  lemma StrippedSolid(g: seq<string>)
    requires Groups4(g)
    ensures var s := Stripped(g);
            |s| == 8 && forall i :: 0 <= i < 8 ==> Solid(s[i]) && Ascii(s[i]) && 1 <= |s[i]| <= 4
  {
    forall i | 0 <= i < 8
      ensures Solid(StripZeros(g[i])) && Ascii(StripZeros(g[i])) && 1 <= |StripZeros(g[i])| <= 4
    {
      StripSolid(g[i]);
    }
  }

  lemma CompressGroups4(g: seq<string>)
    requires Groups4(g)
    ensures CompressText(Join(g, ':')) == Ok(Join(Compress(Stripped(g)), ':'))
  {
    SolidParts(g);
    forall i | 0 <= i < 8 ensures GroupSized(g[i]) {
      AsciiLen(g[i]);
    }
  }

  /** What compression leaves after the empty edge parts are dropped again. */
  function ElidedAt(s: seq<string>, start: int, len: nat): seq<string>
    requires |s| == 8 && (len > 0 ==> 0 <= start && start + len <= 8)
  {
    if len > 1 then s[..start] + [""] + s[start + len..] else s
  }

  predicate EdgeInFront(start: int, len: nat) {
    len == 8 || (len >= 1 && start == 0)
  }

  predicate EdgeBehind(start: int, len: nat) {
    len == 8 || (len > 1 && start + len == 8) || (len == 1 && start == 7)
  }

  function EmptyIf(c: bool): seq<string> {
    if c then [""] else []
  }

  lemma CompressShape(s: seq<string>, start: int, len: nat)
    requires |s| == 8 && (len > 0 ==> 0 <= start && start + len <= 8)
    ensures CompressAt(s, start, len)
         == EmptyIf(EdgeInFront(start, len)) + ElidedAt(s, start, len) + EmptyIf(EdgeBehind(start, len))
  {
  }

  lemma DropEdges(mid: seq<string>, front: bool, back: bool)
    requires mid != [] && (front || mid[0] != "") && (back || mid[|mid| - 1] != "")
    ensures DropEmptyLast(DropEmptyFirst(EmptyIf(front) + mid + EmptyIf(back))) == mid
  {
    var parts := EmptyIf(front) + mid + EmptyIf(back);
    assert DropEmptyFirst(parts) == mid + EmptyIf(back);
  }

  lemma CompressDropsAt(s: seq<string>, start: int, len: nat)
    requires |s| == 8 && forall i :: 0 <= i < 8 ==> s[i] != ""
    requires len > 0 ==> 0 <= start && start + len <= 8
    ensures 3 <= |CompressAt(s, start, len)| <= 9
    ensures DropEmptyLast(DropEmptyFirst(CompressAt(s, start, len))) == ElidedAt(s, start, len)
  {
    CompressShape(s, start, len);
    DropEdges(ElidedAt(s, start, len), EdgeInFront(start, len), EdgeBehind(start, len));
  }

  /** Short forms s of the groups g: not empty, at most four characters, and padding undoes them. */
  ghost predicate ShortFormsOf(s: seq<string>, g: seq<string>) {
    |s| == |g| && forall i :: 0 <= i < |s| ==> s[i] != "" && ByteLen(s[i]) <= 4 && PadZeros(s[i]) == g[i]
  }

  lemma ExpandRun(g: seq<string>, s: seq<string>, start: nat, len: nat)
    requires |g| == 8 && ShortFormsOf(s, g)
    requires len > 1 && start + len <= 8 && forall i :: start <= i < start + len ==> g[i] == "0000"
    ensures Expand(ElidedAt(s, start, len), start) == g
  {
    var parts := ElidedAt(s, start, len);
    assert parts[..start] == s[..start] && parts[start + 1..] == s[start + len..];
    assert Padded(s[..start]) == g[..start];
    assert Padded(s[start + len..]) == g[start + len..];
    assert Zeros(len) == g[start..start + len];
    assert g[..start] + g[start..start + len] + g[start + len..] == g;
  }

  lemma FirstEmptyIs(parts: seq<string>, k: nat)
    requires k <= |parts| && (forall i :: 0 <= i < k ==> parts[i] != "") && (k < |parts| ==> parts[k] == "")
    ensures FirstEmpty(parts) == k
  {
  }

  lemma ElidedExpandsAt(g: seq<string>, s: seq<string>, start: int, len: nat, text: string)
    requires |g| == 8 && ShortFormsOf(s, g)
    requires len > 0 ==> 0 <= start && start + len <= 8 && forall i :: start <= i < start + len ==> g[i] == "0000"
    ensures UncompressParts(ElidedAt(s, start, len), text) == Ok(Join(g, ':'))
  {
    var parts := ElidedAt(s, start, len);
    if len > 1 {
      assert forall i :: 0 <= i < |parts| && i != start ==> parts[i] in s;
      assert ByteLen(parts[start]) == 0;
      FirstEmptyIs(parts, start);
      ExpandRun(g, s, start, len);
    } else {
      FirstEmptyIs(parts, 8);
      assert Padded(parts) == g;
    }
  }

  lemma ElidedExpands(g: seq<string>, text: string)
    requires Groups4(g)
    ensures var s := Stripped(g); var (start, len) := LongestRun(s, |s|);
            UncompressParts(ElidedAt(s, start, len), text) == Ok(Join(g, ':'))
  {
    var s := Stripped(g);
    StrippedSolid(g);
    var (start, len) := LongestRun(s, |s|);
    LongestRunIsLeftmostLongest(s, |s|);
    forall i | 0 <= i < 8
      ensures s[i] != "" && ByteLen(s[i]) <= 4 && PadZeros(s[i]) == g[i]
    {
      AsciiLen(g[i]);
      AsciiLen(s[i]);
      PadStrip(g[i]);
    }
    PadOne();
    ElidedExpandsAt(g, s, start, len, text);
  }

  lemma PadStep(p: string)
    requires Ascii(p) && |p| < 4
    ensures PadZeros(p) == PadZeros("0" + p)
  {
    AsciiLen(p);
  }

  lemma PadOne()
    ensures PadZeros("0") == "0000"
  {
    PadStep("0");
    PadStep("00");
    PadStep("000");
    assert "0" + "0" == "00" && "0" + "00" == "000" && "0" + "000" == "0000";
    AsciiLen("0000");
  }

  lemma UncompressJoined(parts: seq<string>)
    requires 3 <= |parts| <= 9 && forall i :: 0 <= i < |parts| ==> Solid(parts[i])
    ensures UncompressText(Join(parts, ':')) == UncompressParts(DropEmptyLast(DropEmptyFirst(parts)), Join(parts, ':'))
  {
    SolidParts(parts);
  }

  lemma CompressSolid(s: seq<string>, start: int, len: nat)
    requires |s| == 8 && forall i :: 0 <= i < 8 ==> Solid(s[i])
    requires len > 0 ==> 0 <= start && start + len <= 8
    ensures forall i :: 0 <= i < |CompressAt(s, start, len)| ==> Solid(CompressAt(s, start, len)[i])
  {
    var parts := CompressAt(s, start, len);
    forall i | 0 <= i < |parts| ensures parts[i] == "" || parts[i] in s {
    }
  }

  /** Expanding a compressed address gives back the eight groups, whatever the groups are,
      a single zero group at an edge included. */
  lemma UncompressCompress(g: seq<string>)
    requires Groups4(g)
    ensures CompressText(Join(g, ':')).Ok?
    ensures UncompressText(CompressText(Join(g, ':')).value) == Ok(Join(g, ':'))
  {
    var s := Stripped(g);
    CompressGroups4(g);
    StrippedSolid(g);
    var (start, len) := LongestRun(s, |s|);
    CompressDropsAt(s, start, len);
    CompressSolid(s, start, len);
    UncompressJoined(CompressAt(s, start, len));
    ElidedExpands(g, Join(CompressAt(s, start, len), ':'));
  }

  /** The same for every text whose parts are eight groups of four. */
  lemma UncompressCompressText(t: string)
    requires Groups4(Split(t, ':'))
    ensures CompressText(t).Ok?
    ensures UncompressText(CompressText(t).value) == Ok(t)
  {
    JoinSplit(t, ':');
    UncompressCompress(Split(t, ':'));
  }

  // ---------- bytes and back ----------

  lemma HexGroups4(v: seq<group>)
    requires |v| == 8
    ensures Groups4(HexGroups(v)) && forall i :: 0 <= i < 8 ==> PlainText(HexGroups(v)[i])
  {
    forall i | 0 <= i < 8 ensures Group4(Hex4(v[i])) && PlainText(Hex4(v[i])) {
      Hex4Value(v[i]);
      PlainDigits(Hex4(v[i]));
    }
  }

  lemma BytesGroups(b: seq<byte>)
    requires |b| == 16
    ensures |GroupsOfBytes(b)| == 8 && BytesOfGroups(GroupsOfBytes(b)) == b
  {
    var v := GroupsOfBytes(b);
    forall i | 0 <= i < 16
      ensures BytesOfGroups(v)[i] == b[i]
    {
      assert v[i / 2] == GroupOf(b[2 * (i / 2)], b[2 * (i / 2) + 1]);
      GroupHalves(b[2 * (i / 2)], b[2 * (i / 2) + 1]);
    }
  }

  lemma GroupHalves(hi: byte, lo: byte)
    ensures GroupOf(hi, lo) / 256 == hi && GroupOf(hi, lo) % 256 == lo
  {
  }

  /** Eight parts that parse to the groups v are read back as the bytes of v. */
  lemma ReadGroups(parts: seq<string>, v: seq<group>)
    requires |parts| == |v| == 8 && Separable(parts, ':')
    requires forall i :: 0 <= i < 8 ==> ParseUnsigned(parts[i], 16, 65535) == Some(v[i])
    ensures BytesOfText(Join(parts, ':')) == Ok(BytesOfGroups(v))
  {
    SplitJoin(parts, ':');
    assert forall i :: 0 <= i < 8 ==> HexGroup(parts[i]);
    assert ParseGroups(parts) == v;
  }

  lemma HexParses(v: group)
    ensures ParseUnsigned(Hex4(v), 16, 65535) == Some(v)
    ensures ParseUnsigned(StripZeros(Hex4(v)), 16, 65535) == Some(v)
    ensures ':' !in Hex4(v) && ':' !in StripZeros(Hex4(v))
  {
    Hex4Value(v);
    PlainDigits(Hex4(v));
    StripPlain(Hex4(v));
    PlainDigits(StripZeros(Hex4(v)));
  }

  lemma UncompressedReadsBack(b: seq<byte>)
    requires |b| == 16
    ensures BytesOfText(UncompressedText(b)) == Ok(b)
    ensures BytesOfText(Join(Stripped(HexGroups(GroupsOfBytes(b))), ':')) == Ok(b)
  {
    BytesGroups(b);
    var v := GroupsOfBytes(b);
    forall i | 0 <= i < 8
      ensures ParseUnsigned(Hex4(v[i]), 16, 65535) == Some(v[i]) && ':' !in Hex4(v[i])
      ensures ParseUnsigned(StripZeros(Hex4(v[i])), 16, 65535) == Some(v[i]) && ':' !in StripZeros(Hex4(v[i]))
    {
      HexParses(v[i]);
    }
    ReadGroups(HexGroups(v), v);
    ReadGroups(Stripped(HexGroups(v)), v);
  }

  // ---------- which parser a displayed address reaches ----------

  /** The longest zero run is a single group and it is the first group, or the last and only one. */
  predicate SingleZeroAtEdge(b: seq<byte>)
    requires |b| == 16
  {
    var v := GroupsOfBytes(b);
    && (forall i :: 0 <= i < 7 ==> !(v[i] == 0 && v[i + 1] == 0))
    && (v[0] == 0 || (v[7] == 0 && forall i :: 0 <= i < 7 ==> v[i] != 0))
  }

  function ShortGroups(b: seq<byte>): (s: seq<string>)
    requires |b| == 16
    ensures |s| == 8
  {
    Stripped(HexGroups(GroupsOfBytes(b)))
  }

  lemma ZeroGroup(v: group)
    ensures StripZeros(Hex4(v)) == "0" <==> v == 0
  {
    Hex4Value(v);
    StripPlain(Hex4(v));
    var q := StripZeros(Hex4(v));
    if v == 0 && |q| > 1 {
      LeadingDigit(q);
    }
    if q == "0" {
      ValueSnoc("", '0', 16);
      assert q == "" + ['0'];
    }
    if v == 0 && |q| == 1 {
      ValueSnoc("", q[0], 16);
      assert q == "" + [q[0]];
    }
  }

  lemma {:induction false} LeadingDigit(q: string)
    requires PlainText(q) && q != "" && q[0] != '0'
    ensures AllDigits(q, 16) && Value(q, 16) > 0
  {
    PlainDigits(q);
    if |q| == 1 {
      ValueSnoc("", q[0], 16);
      assert q == "" + [q[0]];
    } else {
      var n := |q| - 1;
      LeadingDigit(q[..n]);
      ValueSnoc(q[..n], q[n], 16);
      assert q == q[..n] + [q[n]];
    }
  }

  /** Zero runs of strings are zero runs of groups. */
  lemma RunOfGroups(v: seq<group>, s: seq<string>, a: nat, l: nat)
    requires |v| == |s| == 8 && (forall i :: 0 <= i < 8 ==> (s[i] == "0" <==> v[i] == 0))
    ensures ZeroRun(s, a, l) <==> a + l <= 8 && forall i :: a <= i < a + l ==> v[i] == 0
  {
  }

  lemma EdgeRunAt(v: seq<group>, s: seq<string>, start: int, len: nat)
    requires |v| == |s| == 8 && LeftmostLongest(s, 8, start, len)
    requires forall i :: 0 <= i < 8 ==> (s[i] == "0" <==> v[i] == 0)
    ensures len == 1 && (start == 0 || start == 7)
       <==> (forall i :: 0 <= i < 7 ==> !(v[i] == 0 && v[i + 1] == 0))
            && (v[0] == 0 || (v[7] == 0 && forall i :: 0 <= i < 7 ==> v[i] != 0))
  {
    if len > 1 {
      RunOfGroups(v, s, start, len);
      assert v[start] == 0 && v[start + 1] == 0;
    } else {
      forall i | 0 <= i < 7 ensures !(v[i] == 0 && v[i + 1] == 0) {
        RunOfGroups(v, s, i, 2);
      }
      forall i | 0 <= i < 8 && v[i] == 0 ensures len == 1 && start <= i {
        RunOfGroups(v, s, i, 1);
        assert ZeroRun(s, i, 1);
      }
      if len == 1 {
        RunOfGroups(v, s, start, 1);
        assert v[start] == 0;
      }
    }
  }

  /** The edge class in terms of the run the compressor finds. */
  lemma EdgeRun(b: seq<byte>)
    requires |b| == 16
    ensures var s := ShortGroups(b); var (start, len) := LongestRun(s, |s|);
            SingleZeroAtEdge(b) <==> len == 1 && (start == 0 || start == 7)
  {
    var v, s := GroupsOfBytes(b), ShortGroups(b);
    var (start, len) := LongestRun(s, |s|);
    forall i | 0 <= i < 8 ensures s[i] == "0" <==> v[i] == 0 {
      ZeroGroup(v[i]);
    }
    LongestRunIsLeftmostLongest(s, |s|);
    EdgeRunAt(v, s, start, len);
  }

  lemma ShortGroupsSolid(b: seq<byte>)
    requires |b| == 16
    ensures forall i :: 0 <= i < 8 ==>
        Solid(ShortGroups(b)[i]) && ShortGroups(b)[i] != "" && PlainText(ShortGroups(b)[i])
  {
    var v := GroupsOfBytes(b);
    HexGroups4(v);
    StrippedSolid(HexGroups(v));
    forall i | 0 <= i < 8 ensures PlainText(ShortGroups(b)[i]) {
      Hex4Value(v[i]);
      StripPlain(Hex4(v[i]));
    }
  }

  lemma DisplayedParts(b: seq<byte>)
    requires |b| == 16 && !IsMapped(b)
    ensures var parts := Compress(ShortGroups(b));
            && Display(V6(b)) == Join(parts, ':')
            && |parts| >= 3 && Separable(parts, ':')
            && forall i :: 0 <= i < |parts| ==> PlainText(parts[i])
  {
    DisplayIsJoin(b);
    ShortGroupsSolid(b);
    var s := ShortGroups(b);
    var (start, len) := LongestRun(s, |s|);
    CompressDropsAt(s, start, len);
    CompressKeeps(s, start, len);
  }

  lemma DisplayIsJoin(b: seq<byte>)
    requires |b| == 16 && !IsMapped(b)
    ensures Display(V6(b)) == Join(Compress(ShortGroups(b)), ':')
  {
    HexGroups4(GroupsOfBytes(b));
    CompressGroups4(HexGroups(GroupsOfBytes(b)));
  }

  lemma CompressKeeps(s: seq<string>, start: int, len: nat)
    requires |s| == 8 && (forall i :: 0 <= i < 8 ==> PlainText(s[i]) && ':' !in s[i])
    requires len > 0 ==> 0 <= start && start + len <= 8
    ensures var parts := CompressAt(s, start, len);
            Separable(parts, ':') && forall i :: 0 <= i < |parts| ==> PlainText(parts[i])
  {
    var parts := CompressAt(s, start, len);
    forall i | 0 <= i < |parts| ensures parts[i] == "" || parts[i] in s {
    }
  }

  lemma DisplayedChars(b: seq<byte>)
    requires |b| == 16 && !IsMapped(b)
    ensures var t := Display(V6(b));
            && ':' in t && '.' !in t && Trim(t) == t && !("[" <= t)
            && Count(t, ':') == |Compress(ShortGroups(b))| - 1
            && (Contains(t, "::") <==> HasGap(Compress(ShortGroups(b))))
  {
    var parts := Compress(ShortGroups(b));
    var t := Join(parts, ':');
    DisplayedParts(b);
    forall c | c in t ensures Plain(c) || c == ':' {
      InJoin(parts, ':', c);
    }
    InJoin(parts, ':', ':');
    TrimSolid(t);
    SplitJoin(parts, ':');
    CountParts(t, ':');
    DoubledJoin(parts, ':');
    DoubledIsContains(t, ':');
    assert t[0] in t;
  }

  lemma GapIsRunAt(s: seq<string>, start: int, len: nat)
    requires |s| == 8 && forall i :: 0 <= i < 8 ==> s[i] != ""
    requires len > 0 ==> 0 <= start && start + len <= 8
    ensures var parts := CompressAt(s, start, len);
            && (HasGap(parts) <==> len > 1)
            && (len > 1 ==> |parts| <= 8)
            && (len <= 1 ==> |parts| == if len == 1 && (start == 0 || start == 7) then 9 else 8)
  {
    var parts := CompressAt(s, start, len);
    if len > 1 {
      var k := if start == 0 then 1 else start;
      assert 0 < k < |parts| - 1 && parts[k] == "";
    } else {
      assert forall k :: 0 < k < |parts| - 1 ==> parts[k] != "";
    }
  }

  /** Exactly an elided run of two or more groups leaves an empty part between colons. */
  lemma GapIsRun(s: seq<string>)
    requires |s| == 8 && forall i :: 0 <= i < 8 ==> s[i] != ""
    ensures var (start, len) := LongestRun(s, |s|);
            && (HasGap(Compress(s)) <==> len > 1)
            && (len > 1 ==> |Compress(s)| <= 8)
            && (len <= 1 ==> |Compress(s)| == if len == 1 && (start == 0 || start == 7) then 9 else 8)
  {
    var (start, len) := LongestRun(s, |s|);
    GapIsRunAt(s, start, len);
  }

  lemma CompressedParses(b: seq<byte>)
    requires |b| == 16 && !IsMapped(b)
    requires HasGap(Compress(ShortGroups(b)))
    ensures TryFrom(Display(V6(b))) == Address(V6(b))
  {
    var g := HexGroups(GroupsOfBytes(b));
    DisplayedChars(b);
    DisplayedParts(b);
    ShortGroupsSolid(b);
    GapIsRun(ShortGroups(b));
    HexGroups4(GroupsOfBytes(b));
    CompressGroups4(g);
    UncompressCompress(g);
    UncompressedReadsBack(b);
  }

  lemma UncompressedParses(b: seq<byte>)
    requires |b| == 16 && !IsMapped(b)
    requires Compress(ShortGroups(b)) == ShortGroups(b)
    ensures TryFrom(Display(V6(b))) == Address(V6(b))
  {
    DisplayedChars(b);
    DisplayedParts(b);
    ShortGroupsSolid(b);
    GapIsRun(ShortGroups(b));
    assert !HasGap(Compress(ShortGroups(b)));
    UncompressedReadsBack(b);
  }

  lemma EdgeAsksResolver(b: seq<byte>)
    requires |b| == 16 && !IsMapped(b) && SingleZeroAtEdge(b)
    ensures TryFrom(Display(V6(b))) == AskResolver(Display(V6(b)))
  {
    DisplayedChars(b);
    ShortGroupsSolid(b);
    EdgeRun(b);
    GapIsRun(ShortGroups(b));
  }

  /** 0:1:1:1:1:1:1:1 is displayed with an empty part in front, and taken for a host name. */
  lemma EdgeExample()
    ensures var b := [0, 0] + Ones();
            && !IsMapped(b) && SingleZeroAtEdge(b)
            && Display(V6(b)) == ":0:1:1:1:1:1:1:1"
            && TryFrom(Display(V6(b))) == AskResolver(":0:1:1:1:1:1:1:1")
  {
    var b := [0, 0] + Ones();
    EdgeIsSingle();
    EdgeAsksResolver(b);
    DisplayIsJoin(b);
    EdgeIsElided();
    JoinOfEdge();
  }

  lemma ShortAt(b: seq<byte>, i: nat, d: nat)
    requires |b| == 16 && i < 8 && d < 2 && GroupsOfBytes(b)[i] == d
    ensures ShortGroups(b)[i] == if d == 0 then "0" else "1"
  {
    ShortOfDigit(d);
    assert ShortGroups(b)[i] == StripZeros(Hex4(GroupsOfBytes(b)[i]));
  }

  lemma EdgeShorts(b: seq<byte>)
    requires |b| == 16 && GroupsOfBytes(b)[0] == 0 && forall i :: 1 <= i < 8 ==> GroupsOfBytes(b)[i] == 1
    ensures ShortGroups(b) == ["0"] + seq(7, i => "1")
  {
    var s, t := ShortGroups(b), ["0"] + seq(7, i => "1");
    forall i | 0 <= i < 8 ensures s[i] == t[i] {
      ShortAt(b, i, if i == 0 then 0 else 1);
    }
  }

  lemma EdgeIsElided()
    ensures Compress(ShortGroups([0, 0] + Ones())) == [""] + (["0"] + seq(7, i => "1"))
  {
    var b := [0, 0] + Ones();
    var s := ShortGroups(b);
    EdgeIsSingle();
    EdgeShorts(b);
    EdgeRun(b);
    LongestRunIsLeftmostLongest(s, |s|);
    assert ZeroRun(s, 0, 1);
    assert LongestRun(s, |s|) == (0, 1);
  }

  function Ones(): seq<byte> {
    seq(14, i => i % 2)
  }

  lemma EdgeIsSingle()
    ensures var b := [0, 0] + Ones();
            && !IsMapped(b) && SingleZeroAtEdge(b)
            && GroupsOfBytes(b) == [0, 1, 1, 1, 1, 1, 1, 1]
  {
    var b := [0, 0] + Ones();
    var v := GroupsOfBytes(b);
    assert v[0] == GroupOf(b[0], b[1]) == 0;
    forall i | 1 <= i < 8 ensures v[i] == 1 {
      assert v[i] == GroupOf(b[2 * i], b[2 * i + 1]);
    }
    assert b[1] == 0 && b[3] == 1;
  }

  lemma ShortOfDigit(d: nat)
    requires d < 2
    ensures StripZeros(Hex4(d)) == [Digit(d)]
  {
    assert Hex4(d) == ['0', '0', '0', Digit(d)];
    assert Hex4(d)[1..] == ['0', '0', Digit(d)] && ['0', '0', Digit(d)][1..] == ['0', Digit(d)];
    assert ['0', Digit(d)][1..] == [Digit(d)];
    AsciiLen(Hex4(d)); AsciiLen(['0', '0', Digit(d)]); AsciiLen(['0', Digit(d)]); AsciiLen([Digit(d)]);
  }

  function OnesText(n: nat): string {
    if n <= 1 then "1" else "1:" + OnesText(n - 1)
  }

  lemma {:induction false} JoinOnes(n: nat)
    requires n >= 1
    ensures Join(seq(n, i => "1"), ':') == OnesText(n)
  {
    var ones := seq(n, i => "1");
    if n > 1 {
      JoinOnes(n - 1);
      assert ones == ["1"] + seq(n - 1, i => "1");
      JoinTwo("1", seq(n - 1, i => "1"));
    }
  }

  lemma JoinOfEdge()
    ensures Join([""] + (["0"] + seq(7, i => "1")), ':') == ":0:1:1:1:1:1:1:1"
  {
    var ones := seq(7, i => "1");
    JoinOnes(7);
    JoinTwo("0", ones);
    JoinTwo("", ["0"] + ones);
    assert OnesText(7) == "1:1:1:1:1:1:1";
  }

  // ---------- dotted quads ----------

  function Decimals(b: seq<byte>): seq<string> {
    seq(|b|, i requires 0 <= i < |b| => Decimal(b[i]))
  }

  lemma DecimalsReadBack(b: seq<byte>)
    ensures var parts := Decimals(b);
            Separable(parts, '.') && forall i :: 0 <= i < |parts| ==>
                DecimalByte(parts[i]) && ByteValue(parts[i]) == b[i] && PlainText(parts[i])
  {
    var parts := Decimals(b);
    forall i | 0 <= i < |b|
      ensures DecimalByte(parts[i]) && ByteValue(parts[i]) == b[i] && PlainText(parts[i]) && '.' !in parts[i]
    {
      DecimalValue(b[i]);
      PlainDigits(parts[i]);
    }
  }

  lemma V4TextIsJoin(b: seq<byte>)
    requires |b| == 4
    ensures V4Text(b) == Join(Decimals(b), '.')
  {
    assert Decimals(b) == [Decimal(b[0]), Decimal(b[1]), Decimal(b[2]), Decimal(b[3])];
  }

  lemma V4ReadsBack(b: seq<byte>)
    requires |b| == 4
    ensures V4Bytes(V4Text(b)) == Ok(b)
    ensures Count(V4Text(b), '.') == 3 && ':' !in V4Text(b)
    ensures forall c :: c in V4Text(b) ==> !White(c)
  {
    DecimalsReadBack(b);
    V4TextIsJoin(b);
    SplitJoin(Decimals(b), '.');
    CountParts(V4Text(b), '.');
    V4Chars(b);
    V4OfParts(b);
  }

  lemma V4Chars(b: seq<byte>)
    requires |b| == 4 && V4Text(b) == Join(Decimals(b), '.')
    ensures forall c :: c in V4Text(b) ==> Plain(c) || c == '.'
  {
    DecimalsReadBack(b);
    forall c | c in V4Text(b) ensures Plain(c) || c == '.' {
      InJoin(Decimals(b), '.', c);
    }
  }

  lemma V4OfParts(b: seq<byte>)
    requires |b| == 4 && Split(V4Text(b), '.') == Decimals(b)
    ensures V4Bytes(V4Text(b)) == Ok(b)
  {
    DecimalsReadBack(b);
    assert V4Bytes(V4Text(b)).value == b;
  }

  lemma V4Parses(b: seq<byte>)
    requires |b| == 4
    ensures TryFrom(Display(V4(b))) == Address(V4(b))
  {
    V4ReadsBack(b);
    TrimSolid(V4Text(b));
  }

  lemma MappedText(t: string, v4: string)
    requires t == "::ffff:" + v4 && Count(v4, '.') == 3
    requires forall c :: c in v4 ==> !White(c)
    ensures Trim(t) == t && !IsV4(t) && IsMappedV6(t) && !("[" <= t) && AfterFirst(t, "::ffff:") == Some(v4)
  {
    TrimSolid(t);
    assert t[|"::ffff:"|..] == v4;
    assert t[0] == ':';
    if '.' !in v4 {
      NoCount(v4, '.');
    }
  }

  lemma MappedParses(b: seq<byte>)
    requires |b| == 16 && IsMapped(b)
    ensures TryFrom(Display(V6(b))) == Address(V6(b))
  {
    var v4 := V4Text(b[12..]);
    V4ReadsBack(b[12..]);
    MappedRoute(v4, b[12..]);
    assert b == MAPPED_PREFIX + b[12..];
  }

  lemma MappedRoute(v4: string, b: seq<byte>)
    requires |b| == 4 && V4Bytes(v4) == Ok(b) && Count(v4, '.') == 3
    requires forall c :: c in v4 ==> !White(c)
    ensures TryFrom("::ffff:" + v4) == Address(V6(MAPPED_PREFIX + b))
  {
    MappedText("::ffff:" + v4, v4);
  }

  lemma {:induction false} NoCount(s: string, c: char)
    requires c !in s
    ensures Count(s, c) == 0
  {
    if s != "" {
      NoCount(s[1..], c);
    }
  }

  // ---------- main results ----------

  /** Parsing a displayed address gives the address back exactly unless it is a V6 address,
      not a mapped one, whose only zero run is a single group at an edge.  Those the parser
      takes for a host name. */
  lemma DisplayRoundTrip(a: IpAddress)
    ensures TryFrom(Display(a)) == Address(a) <==> !(a.V6? && !IsMapped(a.bytes16) && SingleZeroAtEdge(a.bytes16))
    ensures TryFrom(Display(a)) == Address(a) || TryFrom(Display(a)) == AskResolver(Display(a))
  {
    if a.V4? {
      V4Parses(a.bytes4);
    } else if IsMapped(a.bytes16) {
      MappedParses(a.bytes16);
    } else if SingleZeroAtEdge(a.bytes16) {
      EdgeAsksResolver(a.bytes16);
    } else {
      var b := a.bytes16;
      ShortGroupsSolid(b);
      EdgeRun(b);
      GapIsRun(ShortGroups(b));
      if HasGap(Compress(ShortGroups(b))) {
        CompressedParses(b);
      } else {
        UncompressedParses(b);
      }
    }
  }

  ghost predicate ZeroGroups(b: seq<byte>, start: nat, len: nat)
    requires |b| == 16
  {
    start + len <= 8 && forall i :: start <= i < start + len ==> GroupsOfBytes(b)[i] == 0
  }

  lemma ShortGroup(v: group)
    ensures var p := StripZeros(Hex4(v));
            PlainText(p) && p != "" && (p[0] == '0' ==> p == "0")
  {
    Hex4Value(v);
    StripPlain(Hex4(v));
  }

  lemma ShortGroupsShort(b: seq<byte>)
    requires |b| == 16
    ensures forall i :: 0 <= i < 8 ==>
              var p := ShortGroups(b)[i];
              PlainText(p) && p != "" && (p[0] == '0' ==> p == "0") && (p == "0" <==> GroupsOfBytes(b)[i] == 0)
  {
    forall i | 0 <= i < 8
      ensures var p := ShortGroups(b)[i];
              PlainText(p) && p != "" && (p[0] == '0' ==> p == "0") && (p == "0" <==> GroupsOfBytes(b)[i] == 0)
    {
      ZeroGroup(GroupsOfBytes(b)[i]);
      ShortGroup(GroupsOfBytes(b)[i]);
    }
  }

  lemma ZeroGroupsRun(b: seq<byte>, start: int, len: nat)
    requires |b| == 16 && LeftmostLongest(ShortGroups(b), 8, start, len)
    ensures len > 1 ==> start >= 0 && ZeroGroups(b, start, len)
    ensures forall a: nat, l: nat :: 1 < l && ZeroGroups(b, a, l) ==> l < len || (l == len && start <= a)
  {
    ShortGroupsShort(b);
    forall a: nat, l: nat | 1 < l && ZeroGroups(b, a, l)
      ensures l < len || (l == len && start <= a)
    {
      assert ZeroRun(ShortGroups(b), a, l);
    }
  }

  /** Sections 4.1 to 4.3 of RFC 5952 outside the edge class: no group but zero itself starts
      with a zero, letters are small, and "::" stands for exactly the leftmost longest run of
      at least two zero groups. */
  lemma CanonicalText(b: seq<byte>)
    requires |b| == 16 && !IsMapped(b) && !SingleZeroAtEdge(b)
    ensures var s := ShortGroups(b); var (start, len) := LongestRun(s, |s|);
            && (len > 1 ==> start >= 0 && ZeroGroups(b, start, len))
            && (forall a: nat, l: nat :: 1 < l && ZeroGroups(b, a, l) ==> l < len || (l == len && start <= a))
            && (forall i :: 0 <= i < 8 ==> PlainText(s[i]) && s[i] != "" && (s[i][0] == '0' ==> s[i] == "0"))
            && Display(V6(b)) == if len > 1 then Join(s[..start], ':') + "::" + Join(s[start + len..], ':')
                else Join(s, ':')
  {
    var s := ShortGroups(b);
    var (start, len) := LongestRun(s, |s|);
    LongestRunIsLeftmostLongest(s, |s|);
    ZeroGroupsRun(b, start, len);
    ShortGroupsShort(b);
    CanonicalDisplay(b);
  }

  lemma CanonicalDisplay(b: seq<byte>)
    requires |b| == 16 && !IsMapped(b) && !SingleZeroAtEdge(b)
    ensures var s := ShortGroups(b); var (start, len) := LongestRun(s, |s|);
            && (len > 1 ==> 0 <= start && start + len <= 8)
            && Display(V6(b)) == if len > 1 then Join(s[..start], ':') + "::" + Join(s[start + len..], ':')
                else Join(s, ':')
  {
    var s := ShortGroups(b);
    var (start, len) := LongestRun(s, |s|);
    DisplayIsJoin(b);
    EdgeRun(b);
    LongestRunIsLeftmostLongest(s, |s|);
    if len > 1 {
      AroundRun(s, start, len);
    }
  }

  lemma AroundRun(s: seq<string>, start: nat, len: nat)
    requires |s| == 8 && len > 1 && start + len <= 8
    ensures Join(CompressAt(s, start, len), ':') == Join(s[..start], ':') + "::" + Join(s[start + len..], ':')
  {
    JoinAround(s[..start], s[start + len..]);
    if len == 8 {
      assert [""] + s[..0] + [""] + s[8..] + [""] == ["", "", ""];
    }
  }

  lemma JoinTwo(p: string, rest: seq<string>)
    requires rest != []
    ensures Join([p] + rest, ':') == p + ":" + Join(rest, ':')
  {
    assert ([p] + rest)[1..] == rest;
  }

  lemma JoinGap(first: string, tail: seq<string>)
    requires tail != []
    ensures Join([first] + ([""] + tail), ':') == first + "::" + Join(tail, ':')
  {
    JoinTwo("", tail);
    JoinTwo(first, [""] + tail);
    assert first + ":" + ("" + ":" + Join(tail, ':')) == first + "::" + Join(tail, ':');
  }

  lemma {:induction false} JoinAround(a: seq<string>, b: seq<string>)
    ensures Join((if a == [] then [""] else []) + a + [""] + b + (if b == [] then [""] else []), ':')
         == Join(a, ':') + "::" + Join(b, ':')
    decreases |a|
  {
    var tail := if b == [] then [""] else b;
    var parts := (if a == [] then [""] else []) + a + [""] + b + (if b == [] then [""] else []);
    if |a| <= 1 {
      var first := if a == [] then "" else a[0];
      assert parts == [first] + ([""] + tail);
      JoinGap(first, tail);
    } else {
      JoinAround(a[1..], b);
      var rest := a[1..] + [""] + b + (if b == [] then [""] else []);
      assert parts == [a[0]] + rest;
      assert [] + a[1..] == a[1..];
      JoinTwo(a[0], rest);
      assert a[0] + ":" + (Join(a[1..], ':') + "::" + Join(b, ':'))
          == (a[0] + ":" + Join(a[1..], ':')) + "::" + Join(b, ':');
    }
  }
}
