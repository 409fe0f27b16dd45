/** Texts in capitals and in brackets (src/net/address.rs). */
module AddressCapitals {
  import opened Wrappers
  import opened Text
  import opened Layout
  import opened AddressText
  import opened AddressRoundTrip

  /** The hexadecimal letter in capital form. */
  function Capital(c: char): char {
    if 'a' <= c <= 'f' then "ABCDEF"[c as int - 'a' as int] else c
  }

  function Capitals(s: string): string {
    seq(|s|, i requires 0 <= i < |s| => Capital(s[i]))
  }

  function AllCapitals(parts: seq<string>): seq<string> {
    seq(|parts|, i requires 0 <= i < |parts| => Capitals(parts[i]))
  }

  /** The digits of a group from the capital alphabet. */
  function Capital4(v: group): string {
    var digits := "0123456789ABCDEF";
    [digits[v / 4096], digits[v / 256 % 16], digits[v / 16 % 16], digits[v % 16]]
  }

  lemma CapitalDigit(d: nat)
    requires d < 16
    ensures Capital(Digit(d)) == "0123456789ABCDEF"[d]
  {
  }

  lemma CapitalsOfHex(v: group)
    ensures Capitals(Hex4(v)) == Capital4(v)
  {
    CapitalDigit(v / 4096);
    CapitalDigit(v / 256 % 16);
    CapitalDigit(v / 16 % 16);
    CapitalDigit(v % 16);
  }

  // ---------- characters ----------

  lemma CapitalKeeps(c: char)
    ensures DigitValue(Capital(c)) == DigitValue(c)
    ensures White(Capital(c)) <==> White(c)
    ensures CharBytes(Capital(c)) == CharBytes(c)
    ensures Capital(c) == c || ('a' <= c <= 'f' && 'A' <= Capital(c) <= 'F')
  {
  }

  lemma CapitalsConcat(a: string, b: string)
    ensures Capitals(a + b) == Capitals(a) + Capitals(b)
  {
  }

  lemma CapitalsSlice(s: string, i: nat, j: nat)
    requires i <= j <= |s|
    ensures Capitals(s[i..j]) == Capitals(s)[i..j]
  {
  }

  lemma CapitalsTail(s: string)
    requires s != ""
    ensures Capitals(s)[0] == Capital(s[0]) && Capitals(s)[1..] == Capitals(s[1..])
    ensures Capitals(s) == [Capital(s[0])] + Capitals(s[1..])
  {
  }

  // ---------- strings ----------

  lemma {:induction false} CapitalsLen(s: string)
    ensures ByteLen(Capitals(s)) == ByteLen(s)
  {
    if s != "" {
      CapitalsTail(s);
      CapitalKeeps(s[0]);
      CapitalsLen(s[1..]);
    }
  }

  lemma {:induction false} CapitalsTrim(s: string)
    ensures Trim(Capitals(s)) == Capitals(Trim(s))
    decreases |s|
  {
    if s != "" {
      var n := |s| - 1;
      CapitalKeeps(s[0]);
      CapitalKeeps(s[n]);
      CapitalsTail(s);
      CapitalsSlice(s, 0, n);
      if White(s[0]) {
        CapitalsTrim(s[1..]);
      } else if White(s[n]) {
        CapitalsTrim(s[..n]);
      }
    }
  }

  /** The separators in use are no letters. */
  predicate Mark(c: char) {
    c == ':' || c == '.'
  }

  lemma AllCons(p: string, rest: seq<string>)
    ensures AllCapitals([p] + rest) == [Capitals(p)] + AllCapitals(rest)
  {
  }

  lemma AllTail(parts: seq<string>)
    requires parts != []
    ensures AllCapitals(parts)[0] == Capitals(parts[0]) && AllCapitals(parts)[1..] == AllCapitals(parts[1..])
  {
  }

  lemma {:induction false} CapitalsSplit(s: string, sep: char)
    requires Mark(sep)
    ensures Split(Capitals(s), sep) == AllCapitals(Split(s, sep))
  {
    if s == "" {
      AllCons("", []);
      assert [""] + [] == [""] && AllCapitals([]) == [] && Capitals("") == "";
    } else {
      var rest := Split(s[1..], sep);
      CapitalsTail(s);
      CapitalKeeps(s[0]);
      CapitalsSplit(s[1..], sep);
      if s[0] == sep {
        AllCons("", rest);
        assert Capitals("") == "";
      } else {
        CapitalsConcat([s[0]], rest[0]);
        assert Capitals([s[0]]) == [Capital(s[0])];
        AllCons([s[0]] + rest[0], rest[1..]);
        AllTail(rest);
      }
    }
  }

  lemma {:induction false} CapitalsJoin(parts: seq<string>, sep: char)
    requires Mark(sep)
    ensures Join(AllCapitals(parts), sep) == Capitals(Join(parts, sep))
  {
    if |parts| > 1 {
      CapitalsJoin(parts[1..], sep);
      assert AllCapitals(parts)[1..] == AllCapitals(parts[1..]);
      CapitalsConcat(parts[0] + [sep], Join(parts[1..], sep));
      CapitalsConcat(parts[0], [sep]);
      assert Capitals([sep]) == [sep];
    }
  }

  lemma {:induction false} CapitalsCount(s: string, c: char)
    requires Mark(c)
    ensures Count(Capitals(s), c) == Count(s, c)
  {
    if s != "" {
      CapitalsTail(s);
      CapitalKeeps(s[0]);
      CapitalsCount(s[1..], c);
    }
  }

  lemma CapitalsHas(s: string, c: char)
    requires Mark(c)
    ensures c in Capitals(s) <==> c in s
  {
    forall i | 0 <= i < |s| ensures Capitals(s)[i] == c <==> s[i] == c {
      CapitalKeeps(s[i]);
    }
  }

  lemma CapitalsDoubled(s: string)
    ensures Contains(Capitals(s), "::") <==> Contains(s, "::")
  {
    DoubledIsContains(s, ':');
    DoubledIsContains(Capitals(s), ':');
    forall i | 0 <= i < |s| ensures Capitals(s)[i] == ':' <==> s[i] == ':' {
      CapitalKeeps(s[i]);
    }
  }

  // ---------- groups ----------

  lemma {:induction false} CapitalsPad(p: string)
    ensures PadZeros(Capitals(p)) == Capitals(PadZeros(p))
    decreases 4 - ByteLen(p)
  {
    CapitalsLen(p);
    if ByteLen(p) < 4 {
      CapitalsConcat("0", p);
      assert Capitals("0") == "0";
      assert ("0" + p)[1..] == p;
      CapitalsPad("0" + p);
    }
  }

  lemma CapitalsDigits(s: string, radix: Radix)
    ensures AllDigits(Capitals(s), radix) <==> AllDigits(s, radix)
  {
    forall i | 0 <= i < |s| ensures DigitIn(Capitals(s)[i], radix) <==> DigitIn(s[i], radix) {
      CapitalKeeps(s[i]);
    }
    if !AllDigits(s, radix) {
      var i :| 0 <= i < |s| && !DigitIn(s[i], radix);
      assert !DigitIn(Capitals(s)[i], radix);
    }
  }

  lemma {:induction false} CapitalsValue(s: string, radix: Radix)
    requires AllDigits(s, radix)
    ensures AllDigits(Capitals(s), radix) && Value(Capitals(s), radix) == Value(s, radix)
  {
    CapitalsDigits(s, radix);
    if s != "" {
      var n := |s| - 1;
      assert AllDigits(s[..n], radix);
      CapitalsValue(s[..n], radix);
      CapitalsSlice(s, 0, n);
      CapitalKeeps(s[n]);
    }
  }

  lemma CapitalsUnsigned(s: string)
    ensures Unsigned(Capitals(s)) == Capitals(Unsigned(s))
  {
    if s != "" {
      CapitalKeeps(s[0]);
      CapitalsTail(s);
    }
  }

  lemma CapitalsNumber(s: string, radix: Radix, max: nat)
    ensures ParseUnsigned(Capitals(s), radix, max) == ParseUnsigned(s, radix, max)
  {
    CapitalsUnsigned(s);
    CapitalsDigits(Unsigned(s), radix);
    if AllDigits(Unsigned(s), radix) {
      CapitalsValue(Unsigned(s), radix);
    }
  }

  /** A group in capitals has its value. */
  lemma CapitalGroup(v: group)
    ensures ParseUnsigned(Capital4(v), 16, 65535) == Some(v)
  {
    CapitalsOfHex(v);
    CapitalsNumber(Hex4(v), 16, 65535);
    HexParses(v);
  }

  lemma CapitalsPadded(parts: seq<string>)
    ensures Padded(AllCapitals(parts)) == AllCapitals(Padded(parts))
  {
    forall i | 0 <= i < |parts| ensures PadZeros(Capitals(parts[i])) == Capitals(PadZeros(parts[i])) {
      CapitalsPad(parts[i]);
    }
  }

  lemma CapitalsTrimmed(parts: seq<string>)
    ensures Trimmed(AllCapitals(parts)) == AllCapitals(Trimmed(parts))
  {
    forall i | 0 <= i < |parts| ensures Trim(Capitals(parts[i])) == Capitals(Trim(parts[i])) {
      CapitalsTrim(parts[i]);
    }
  }

  // ---------- expansion ----------

  lemma CapitalsDrop(parts: seq<string>)
    ensures DropEmptyLast(DropEmptyFirst(AllCapitals(parts))) == AllCapitals(DropEmptyLast(DropEmptyFirst(parts)))
  {
    var first := DropEmptyFirst(parts);
    assert DropEmptyFirst(AllCapitals(parts)) == AllCapitals(first);
    assert DropEmptyLast(AllCapitals(first)) == AllCapitals(DropEmptyLast(first));
  }

  lemma {:induction false} CapitalsFirstEmpty(parts: seq<string>)
    ensures FirstEmpty(AllCapitals(parts)) == FirstEmpty(parts)
  {
    if parts != [] {
      AllTail(parts);
      assert Capitals(parts[0]) == "" <==> parts[0] == "";
      CapitalsFirstEmpty(parts[1..]);
    }
  }

  lemma CapitalsExpand(parts: seq<string>, k: nat)
    requires k < |parts|
    ensures Expand(AllCapitals(parts), k) == AllCapitals(Expand(parts, k))
  {
    var n := if |parts| < 8 then 9 - |parts| else 1;
    CapitalsPadded(parts[..k]);
    CapitalsPadded(parts[k + 1..]);
    assert AllCapitals(parts)[..k] == AllCapitals(parts[..k]);
    assert AllCapitals(parts)[k + 1..] == AllCapitals(parts[k + 1..]);
    assert Capitals("0000") == "0000";
    assert AllCapitals(Zeros(n)) == Zeros(n);
    AllConcat(Padded(parts[..k]), Zeros(n));
    AllConcat(Padded(parts[..k]) + Zeros(n), Padded(parts[k + 1..]));
  }

  lemma AllConcat(a: seq<string>, b: seq<string>)
    ensures AllCapitals(a + b) == AllCapitals(a) + AllCapitals(b)
  {
  }

  lemma CapitalsLong(parts: seq<string>)
    ensures (exists i :: 0 <= i < |parts| && ByteLen(AllCapitals(parts)[i]) > 4)
       <==> (exists i :: 0 <= i < |parts| && ByteLen(parts[i]) > 4)
  {
    forall i | 0 <= i < |parts| ensures ByteLen(AllCapitals(parts)[i]) == ByteLen(parts[i]) {
      CapitalsLen(parts[i]);
    }
  }

  lemma CapitalsUncompressParts(parts: seq<string>, text: string)
    ensures var r, c := UncompressParts(parts, text), UncompressParts(AllCapitals(parts), Capitals(text));
            (c.Ok? <==> r.Ok?) && (r.Ok? ==> c.value == Capitals(r.value))
  {
    var k := FirstEmpty(parts);
    CapitalsFirstEmpty(parts);
    CapitalsLong(parts);
    assert forall i :: 0 <= i < |parts| ==> (AllCapitals(parts)[i] == "" <==> parts[i] == "");
    if k < |parts| {
      CapitalsExpand(parts, k);
      CapitalsJoin(Expand(parts, k), ':');
    } else {
      CapitalsPadded(parts);
      CapitalsJoin(Padded(parts), ':');
    }
  }

  lemma CapitalsUncompress(text: string)
    ensures var r, c := UncompressText(text), UncompressText(Capitals(text));
            (c.Ok? <==> r.Ok?) && (r.Ok? ==> c.value == Capitals(r.value))
  {
    var parts := Trimmed(Split(text, ':'));
    CapitalsSplit(text, ':');
    CapitalsTrimmed(Split(text, ':'));
    CapitalsDrop(parts);
    CapitalsUncompressParts(DropEmptyLast(DropEmptyFirst(parts)), text);
  }

  lemma CapitalsBytes(text: string)
    ensures var r, c := BytesOfText(text), BytesOfText(Capitals(text));
            (c.Ok? <==> r.Ok?) && (r.Ok? ==> c.value == r.value)
  {
    var parts := Split(text, ':');
    CapitalsSplit(text, ':');
    forall i | 0 <= i < |parts|
      ensures ParseUnsigned(AllCapitals(parts)[i], 16, 65535) == ParseUnsigned(parts[i], 16, 65535)
    {
      CapitalsNumber(parts[i], 16, 65535);
    }
    if r :| r == BytesOfText(text) && r.Ok? {
      assert ParseGroups(AllCapitals(parts)) == ParseGroups(parts);
    }
  }

  // ---------- addresses ----------

  lemma CapitalsBrackets(text: string)
    ensures "[" <= Capitals(text) <==> "[" <= text
    ensures EndsWith(Capitals(text), ']') <==> EndsWith(text, ']')
  {
    if text != "" {
      CapitalKeeps(text[0]);
      CapitalKeeps(text[|text| - 1]);
    }
  }

  lemma {:induction false} CapitalsParseV6(text: string)
    requires '.' !in text
    ensures var r, c := ParseV6(text), ParseV6(Capitals(text));
            (c.Ok? <==> r.Ok?) && (r.Ok? ==> c.value == r.value)
    decreases |text|
  {
    CapitalsBrackets(text);
    CapitalsHas(text, '.');
    if "[" <= text && EndsWith(text, ']') && |text| > 1 {
      CapitalsSlice(text, 1, |text| - 1);
      CapitalsParseV6(text[1..|text| - 1]);
    } else {
      CapitalsDoubled(text);
      CapitalsCount(text, ':');
      CapitalsUncompress(text);
      var full := if IsCompressedV6(text) then UncompressText(text) else Ok(text);
      if full.Ok? {
        CapitalsBytes(full.value);
      }
    }
  }

  lemma TrimShrinks(s: string, c: char)
    requires c in Trim(s)
    ensures c in s
  {
  }

  /** A text without dots is taken for an address in capitals exactly if it is as it stands, and
      for the same address. */
  lemma CapitalsParse(text: string, a: IpAddress)
    requires '.' !in text
    ensures TryFrom(Capitals(text)) == Address(a) <==> TryFrom(text) == Address(a)
  {
    var t := Trim(text);
    CapitalsTrim(text);
    if '.' in t {
      TrimShrinks(text, '.');
    }
    CapitalsHas(t, '.');
    CapitalsHas(t, ':');
    CapitalsCount(t, '.');
    CapitalsCount(t, ':');
    CapitalsDoubled(t);
    CapitalsParseV6(t);
    NoCount(t, '.');
  }

  /** The text between brackets is parsed as the bare text is, if by its colons it looks like an
      address. */
  lemma BracketsParse(t: string)
    ensures IsCompressedV6(t) || IsUncompressedV6(t) ==>
              TryFrom("[" + t + "]") == match ParseV6(t) case Ok(a) => Address(a) case Err(e) => Rejected(e)
    ensures !IsCompressedV6(t) && !IsUncompressedV6(t) ==> !TryFrom("[" + t + "]").Address? || !(':' in t)
  {
    var text := "[" + t + "]";
    BracketsStay(t);
    CountBrackets(t, ':');
    DoubledBrackets(t);
    if ':' !in t {
      NoCount(t, ':');
      DoubledIsContains(t, ':');
    }
    assert IsV6(text) <== IsCompressedV6(t) || IsUncompressedV6(t);
    assert ParseV6(text) == ParseV6(t);
  }

  lemma BracketsStay(t: string)
    ensures var text := "[" + t + "]";
            && Trim(text) == text && "[" <= text && EndsWith(text, ']') && |text| > 1 && text[1..|text| - 1] == t
  {
  }

  lemma {:induction false} CountSnoc(s: string, d: char, c: char)
    ensures Count(s + [d], c) == Count(s, c) + if d == c then 1 else 0
  {
    if s != "" {
      assert (s + [d])[1..] == s[1..] + [d];
      CountSnoc(s[1..], d, c);
    }
  }

  lemma CountBrackets(t: string, c: char)
    requires Mark(c)
    ensures Count("[" + t + "]", c) == Count(t, c)
    ensures c in "[" + t + "]" <==> c in t
  {
    assert ("[" + t + "]")[1..] == t + "]";
    CountSnoc(t, ']', c);
  }

  lemma DoubledBrackets(t: string)
    ensures Contains("[" + t + "]", "::") <==> Contains(t, "::")
  {
    var text := "[" + t + "]";
    DoubledIsContains(t, ':');
    DoubledIsContains(text, ':');
    if Doubled(t, ':') {
      var i :| 0 <= i < |t| - 1 && t[i] == ':' && t[i + 1] == ':';
      assert text[i + 1] == ':' && text[i + 2] == ':';
    }
    if Doubled(text, ':') {
      var i :| 0 <= i < |text| - 1 && text[i] == ':' && text[i + 1] == ':';
      assert t[i - 1] == ':' && t[i] == ':';
    }
  }

  // ---------- displays ----------

  lemma MappedLooks(b: seq<byte>)
    requires |b| == 4
    ensures IsCompressedV6("::ffff:" + V4Text(b))
  {
    var v4 := V4Text(b);
    V4ReadsBack(b);
    MappedParts(v4);
    CountParts("::ffff:" + v4, ':');
    assert At("::ffff:" + v4, "::", 0);
  }

  /** The display of a V6 address in brackets parses back exactly if the address is mapped or not
      in the edge class. */
  lemma BracketedDisplay(b: seq<byte>)
    requires |b| == 16
    ensures TryFrom("[" + Display(V6(b)) + "]") == Address(V6(b)) <==> IsMapped(b) || !SingleZeroAtEdge(b)
  {
    var t := Display(V6(b));
    DisplayRoundTrip(V6(b));
    BracketsParse(t);
    if IsMapped(b) {
      V4ReadsBack(b[12..]);
      MappedLooks(b[12..]);
      MappedSolid(V4Text(b[12..]));
    } else {
      DisplayedChars(b);
    }
  }

  lemma MappedSolid(v4: string)
    requires forall c :: c in v4 ==> !White(c)
    ensures Trim("::ffff:" + v4) == "::ffff:" + v4 && ':' in "::ffff:" + v4
  {
    TrimSolid("::ffff:" + v4);
    assert ("::ffff:" + v4)[0] == ':';
  }

  /** The display of a V6 address in capitals parses back exactly if the address is neither
      mapped nor in the edge class.  The prefix of mapped addresses has to be in small letters. */
  lemma CapitalDisplay(b: seq<byte>)
    requires |b| == 16
    ensures TryFrom(Capitals(Display(V6(b)))) == Address(V6(b)) <==> !IsMapped(b) && !SingleZeroAtEdge(b)
  {
    if IsMapped(b) {
      CapitalMapped(b[12..]);
    } else {
      DisplayedChars(b);
      CapitalsParse(Display(V6(b)), V6(b));
      DisplayRoundTrip(V6(b));
    }
  }

  lemma MappedParts(v4: string)
    requires ':' !in v4
    ensures Split("::ffff:" + v4, ':') == ["", "", "ffff", v4]
  {
    SplitFirst("ffff", v4, ':');
    SplitPrefix(v4, "", ':');
    assert v4 + "" == v4;
    SplitFirst("", "ffff" + ":" + v4, ':');
    SplitFirst("", ":" + ("ffff" + ":" + v4), ':');
    assert "" + ":" + ("ffff" + ":" + v4) == ":" + ("ffff" + ":" + v4);
    assert "::ffff:" + v4 == "" + ":" + (":" + ("ffff" + ":" + v4));
  }

  lemma {:induction false} JoinLength(parts: seq<string>, sep: char)
    requires forall i :: 0 <= i < |parts| ==> parts[i] != ""
    ensures |Join(parts, sep)| >= 2 * |parts| - 1
  {
    if |parts| > 1 {
      JoinLength(parts[1..], sep);
    }
  }

  lemma V4Long(b: seq<byte>)
    requires |b| == 4
    ensures ByteLen(V4Text(b)) > 4
  {
    var t := V4Text(b);
    V4TextIsJoin(b);
    V4Chars(b);
    JoinLength(Decimals(b), '.');
    assert forall i :: 0 <= i < |t| ==> t[i] in t;
    AsciiLen(t);
  }

  lemma LongPartFails(parts: seq<string>, i: nat, text: string)
    requires i < |parts| && ByteLen(parts[i]) > 4
    ensures UncompressParts(parts, text).Err?
  {
  }

  lemma CapitalMappedParts(v4: string)
    requires ':' !in v4 && ByteLen(v4) > 4 && forall c :: c in v4 ==> !White(c)
    ensures var c := Capitals("::ffff:" + v4); UncompressText(c) == Err(InvalidCompressedValue(c))
  {
    var t := "::ffff:" + v4;
    MappedParts(v4);
    CapitalsSplit(t, ':');
    CapitalsLen(v4);
    TrimSolid(v4);
    var parts := Split(t, ':');
    assert Trimmed(parts) == parts;
    CapitalsTrimmed(parts);
    CapitalsDrop(parts);
    assert v4 != "";
    assert DropEmptyFirst(parts) == ["", "ffff", v4];
    var rest := DropEmptyLast(DropEmptyFirst(parts));
    assert rest == ["", "ffff", v4];
    assert AllCapitals(rest)[2] == Capitals(v4);
    LongPartFails(AllCapitals(rest), 2, Capitals(t));
  }

  lemma CapitalPrefix(v4: string)
    ensures var c := Capitals("::ffff:" + v4);
            && c[0] == ':' && ':' in c && !IsMappedV6(c) && Contains(c, "::") && !("[" <= c)
            && (':' !in v4 ==> IsCompressedV6(c))
  {
    var t := "::ffff:" + v4;
    var c := Capitals(t);
    assert t[..2] == "::" && t[2] == 'f';
    assert c[0] == ':' && c[2] == 'F';
    assert At(t, "::", 0);
    CapitalsDoubled(t);
    if ':' !in v4 {
      MappedParts(v4);
      CapitalsCount(t, ':');
      CountParts(t, ':');
    }
  }

  /** Without the small prefix a mapped address is read as a compressed one, with a last part
      that is too long. */
  lemma CapitalMapped(b: seq<byte>)
    requires |b| == 4
    ensures var c := Capitals("::ffff:" + V4Text(b)); TryFrom(c) == Rejected(InvalidCompressedValue(c))
  {
    var v4 := V4Text(b);
    var t := "::ffff:" + v4;
    V4ReadsBack(b);
    V4Long(b);
    CapitalMappedParts(v4);
    CapitalPrefix(v4);
    CapitalSolid(v4);
    CompressedRoute(Capitals(t));
  }

  lemma CapitalSolid(v4: string)
    requires forall c :: c in v4 ==> !White(c)
    ensures Trim(Capitals("::ffff:" + v4)) == Capitals("::ffff:" + v4)
  {
    TrimSolid("::ffff:" + v4);
    CapitalsTrim("::ffff:" + v4);
  }

  lemma CompressedRoute(t: string)
    requires Trim(t) == t && ':' in t && !IsMappedV6(t) && IsCompressedV6(t) && !("[" <= t) && UncompressText(t).Err?
    ensures TryFrom(t) == Rejected(UncompressText(t).error)
  {
  }
}
