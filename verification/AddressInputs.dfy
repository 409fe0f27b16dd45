/** What the parsers of src/net/address.rs make of input that no address is displayed as. */
module AddressInputs {
  import opened Wrappers
  import opened Text
  import opened Layout
  import opened AddressText
  import opened AddressRoundTrip
  import opened AddressCapitals

  // ---------- numbers ----------

  /** Digits stand for their value, with or without a plus sign, as long as it is in range. */
  lemma DigitsParse(s: string, radix: Radix, max: nat)
    requires s != "" && AllDigits(s, radix)
    ensures ParseUnsigned(s, radix, max) == if Value(s, radix) <= max then Some(Value(s, radix)) else None
    ensures ParseUnsigned("+" + s, radix, max) == ParseUnsigned(s, radix, max)
  {
    assert DigitIn(s[0], radix);
    assert ("+" + s)[1..] == s;
  }

  /** Leading zeros do not count. */
  lemma ZerosParse(s: string, radix: Radix, max: nat)
    requires s != "" && AllDigits(s, radix)
    ensures ParseUnsigned("0" + s, radix, max) == ParseUnsigned(s, radix, max)
  {
    ValueZero(s, radix);
    assert DigitIn('0', radix);
    assert AllDigits("0" + s, radix);
    DigitsParse(s, radix, max);
    DigitsParse("0" + s, radix, max);
  }

  /** Nothing, a sign alone, and anything else than digits behind it are no numbers. */
  lemma NoNumber(s: string, radix: Radix, max: nat)
    requires s == "" || s == "+" || !AllDigits(Unsigned(s), radix)
    ensures ParseUnsigned(s, radix, max) == None
  {
  }

  lemma Limits()
    ensures ParseUnsigned("255", 10, 255) == Some(255) && ParseUnsigned("256", 10, 255) == None
    ensures ParseUnsigned("ff", 10, 255) == None
  {
    Value2('2', '5', 10);
    Value4('2', '5', '5', '5', 10);
    Value4('2', '5', '6', '6', 10);
    DigitsParse("255", 10, 255);
    DigitsParse("256", 10, 255);
    assert !DigitIn("ff"[0], 10);
  }

  lemma WidestGroup()
    ensures ParseUnsigned("FFff", 16, 65535) == Some(65535)
  {
    Value2('F', 'F', 16);
    Value4('F', 'F', 'f', 'f', 16);
    DigitsParse("FFff", 16, 65535);
  }

  lemma TooWideGroup()
    ensures ParseUnsigned("10000", 16, 65535) == None
  {
    Value2('1', '0', 16);
    Value4('1', '0', '0', '0', 16);
    ValueSnoc("1000", '0', 16);
    assert "1000" + ['0'] == "10000";
    DigitsParse("10000", 16, 65535);
  }

  // ---------- white space ----------

  /** The characters of Unicode's White_Space property. */
  lemma WhiteSpaces(c: char)
    ensures White(c) <==>
              || c in "\t\n\U{b}\U{c}\r \U{85}\U{a0}\U{1680}"
              || c in "\U{2000}\U{2001}\U{2002}\U{2003}\U{2004}\U{2005}\U{2006}\U{2007}\U{2008}\U{2009}\U{200a}"
              || c in "\U{2028}\U{2029}\U{202f}\U{205f}\U{3000}"
  {
  }

  lemma {:induction false} TrimBehind(s: string, c: char)
    requires White(c)
    ensures Trim(s + [c]) == Trim(s)
    decreases |s|
  {
    if s == "" {
      assert ("" + [c])[1..] == "";
    } else if White(s[0]) {
      assert (s + [c])[1..] == s[1..] + [c];
      TrimBehind(s[1..], c);
    } else {
      assert (s + [c])[..|s|] == s;
    }
  }

  /** White space around an address is not looked at. */
  lemma SpacesAround(t: string, c: char)
    requires White(c)
    ensures TryFrom([c] + t) == TryFrom(t) && TryFrom(t + [c]) == TryFrom(t)
  {
    assert ([c] + t)[1..] == t;
    TrimBehind(t, c);
  }

  lemma {:induction false} TrimAgain(s: string)
    ensures Trim(Trim(s)) == Trim(s)
    decreases |s|
  {
    if s != "" && White(s[0]) {
      TrimAgain(s[1..]);
    } else if s != "" && White(s[|s| - 1]) {
      TrimAgain(s[..|s| - 1]);
    }
  }

  lemma TrimmedAgain(parts: seq<string>)
    ensures Trimmed(Trimmed(parts)) == Trimmed(parts)
  {
    forall i | 0 <= i < |parts| ensures Trim(Trim(parts[i])) == Trim(parts[i]) {
      TrimAgain(parts[i]);
    }
  }

  lemma TrimmedSeparable(parts: seq<string>, sep: char)
    requires Separable(parts, sep)
    ensures Separable(Trimmed(parts), sep)
  {
    forall i | 0 <= i < |parts| ensures sep !in Trim(parts[i]) {
      if sep in Trim(parts[i]) {
        TrimShrinks(parts[i], sep);
      }
    }
  }

  /** White space around a group is not looked at by the two conversions. */
  lemma SpacesInside(parts: seq<string>)
    requires parts != [] && Separable(parts, ':')
    ensures var a, b := UncompressText(Join(parts, ':')), UncompressText(Join(Trimmed(parts), ':'));
            (a.Ok? <==> b.Ok?) && (a.Ok? ==> a == b)
    ensures var a, b := CompressText(Join(parts, ':')), CompressText(Join(Trimmed(parts), ':'));
            (a.Ok? <==> b.Ok?) && (a.Ok? ==> a == b)
  {
    SplitJoin(parts, ':');
    TrimmedSeparable(parts, ':');
    SplitJoin(Trimmed(parts), ':');
    TrimmedAgain(parts);
  }

  /** The last step does not allow it. */
  lemma SpaceIsNoDigit(p: string, c: char)
    requires White(c)
    ensures !HexGroup(p + [c])
  {
    var s := p + [c];
    assert Unsigned(s)[|Unsigned(s)| - 1] == c;
    assert !DigitIn(c, 16);
  }

  // ---------- errors ----------

  /** Bytes of UTF-8 are counted, not characters. */
  lemma Utf8Lengths()
    ensures CharBytes('f') == 1 && CharBytes('\U{e9}') == 2 && CharBytes('\U{20ac}') == 3 && CharBytes('\U{1f600}') == 4
  {
  }

  /** Dotted quads need three dots, then four numbers. */
  lemma V4Errors(text: string)
    ensures V4Bytes(text) == Err(InvalidV4Format(text)) <==> Count(text, '.') != 3
    ensures V4Bytes(text) == Err(InvalidV4Value(text)) <==>
              Count(text, '.') == 3 && exists i :: 0 <= i < 4 && ParseUnsigned(Split(text, '.')[i], 10, 255).None?
    ensures V4Bytes(text).Ok? ==>
              forall i :: 0 <= i < 4 ==> ParseUnsigned(Split(text, '.')[i], 10, 255) == Some(V4Bytes(text).value[i])
  {
    CountParts(text, '.');
  }

  /** Full addresses need seven colons, then eight numbers of sixteen bits. */
  lemma FullErrors(text: string)
    ensures BytesOfText(text) == Err(InvalidCompressedFormat(text)) <==> Count(text, ':') != 7
    ensures BytesOfText(text) == Err(InvalidCompressedValue(text)) <==>
              Count(text, ':') == 7 && exists i :: 0 <= i < 8 && !HexGroup(Split(text, ':')[i])
  {
    CountParts(text, ':');
  }

  lemma TwoBytes(v: seq<group>, i: nat)
    requires i < |v|
    ensures var b := BytesOfGroups(v);
            var hi: nat, lo: nat := b[2 * i], b[2 * i + 1];
            256 * hi + lo == v[i]
  {
    assert 2 * i / 2 == i && (2 * i + 1) / 2 == i;
  }

  /** Each number gives two bytes, the most significant first. */
  lemma FullBytes(text: string, v: seq<group>, i: nat)
    requires BytesOfText(text).Ok? && |v| == 8 && i < 8
    requires |Split(text, ':')| == 8 && forall j :: 0 <= j < 8 ==>
        ParseUnsigned(Split(text, ':')[j], 16, 65535) == Some(v[j])
    ensures var hi: nat, lo: nat := BytesOfText(text).value[2 * i], BytesOfText(text).value[2 * i + 1];
            256 * hi + lo == v[i]
  {
    assert ParseGroups(Split(text, ':')) == v;
    TwoBytes(v, i);
  }

  /** Compressing needs seven colons, and groups of one to four bytes. */
  lemma CompressErrors(text: string)
    ensures CompressText(text) == Err(InvalidUncompressedFormat(text)) <==> Count(text, ':') != 7
    ensures CompressText(text) == Err(InvalidUncompressedValue(text)) <==>
              Count(text, ':') == 7
              && exists i :: 0 <= i < 8 && !(1 <= ByteLen(Trim(Split(text, ':')[i])) <= 4)
  {
    CountParts(text, ':');
    assert forall i :: 0 <= i < |Split(text, ':')| ==> Trimmed(Split(text, ':'))[i] == Trim(Split(text, ':')[i]);
  }

  /** Expanding needs two to eight colons. */
  lemma ExpandErrors(text: string)
    requires Count(text, ':') < 2 || Count(text, ':') > 8
    ensures UncompressText(text) == Err(InvalidCompressedFormat(text))
  {
    CountParts(text, ':');
  }

  /** Without an empty group there have to be eight; a second empty group, and one of more than
      four bytes, are errors. */
  lemma GapErrors(parts: seq<string>, text: string)
    ensures (forall i :: 0 <= i < |parts| ==> 1 <= ByteLen(parts[i]) <= 4) && |parts| != 8 ==>
              UncompressParts(parts, text) == Err(InvalidCompressedFormat(text))
    ensures (exists i :: 0 <= i < |parts| && ByteLen(parts[i]) > 4) ==>
              UncompressParts(parts, text) == Err(InvalidCompressedValue(text))
    ensures (exists i, j :: 0 <= i < j < |parts| && parts[i] == "" && parts[j] == "") ==>
              UncompressParts(parts, text) == Err(InvalidCompressedValue(text))
  {
    var k := FirstEmpty(parts);
    if i, j :| 0 <= i < j < |parts| && parts[i] == "" && parts[j] == "" {
      assert k <= i;
    }
    assert ByteLen("") == 0;
  }

  // ---------- routes ----------

  /** A text without white space around it and without colons is an address by its dots. */
  lemma DotsDecide(t: string)
    requires Trim(t) == t && ':' !in t
    ensures TryFrom(t) ==
              if Count(t, '.') != 3 then AskResolver(t)
              else match V4Bytes(t) case Ok(b) => Address(V4(b)) case Err(e) => Rejected(e)
  {
    NoCount(t, ':');
    DoubledIsContains(t, ':');
    assert "::ffff:"[0] == ':';
  }

  /** With the mapped prefix it is the dotted quad behind it. */
  lemma MappedDecides(v4: string)
    requires Trim("::ffff:" + v4) == "::ffff:" + v4 && '.' in v4
    ensures TryFrom("::ffff:" + v4) ==
              match V4Bytes(v4) case Ok(b) => Address(V6(MAPPED_PREFIX + b)) case Err(e) => Rejected(e)
  {
    var t := "::ffff:" + v4;
    assert t[0] == ':' && t[|"::ffff:"|..] == v4;
  }

  /** Any other text with colons is an address exactly if it has at most seven and a double one,
      or seven and no double one. */
  lemma ColonsDecide(t: string)
    requires Trim(t) == t && ':' in t && '.' !in t
    ensures TryFrom(t).AskResolver? <==> Count(t, ':') > 7 || (!Contains(t, "::") && Count(t, ':') < 7)
    ensures TryFrom(t).AskResolver? ==> TryFrom(t) == AskResolver(t)
    ensures !TryFrom(t).AskResolver? && !("[" <= t) && Contains(t, "::") ==>
              TryFrom(t) == (match UncompressText(t)
                             case Err(e) => Rejected(e)
                             case Ok(full) =>
                               match BytesOfText(full)
                               case Ok(b) => Address(V6(b))
                               case Err(e) => Rejected(e))
    ensures !TryFrom(t).AskResolver? && !("[" <= t) && !Contains(t, "::") ==>
              TryFrom(t) == (match BytesOfText(t) case Ok(b) => Address(V6(b)) case Err(e) => Rejected(e))
  {
    NoCount(t, '.');
  }
}
