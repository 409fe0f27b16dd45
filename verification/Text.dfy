/** The string operations of Rust that the address code is built on. */
module Text {
  import opened Wrappers

  /** Bytes of a character in UTF-8; `str::len` counts these. */
  function CharBytes(c: char): nat {
    if (c as int) < 0x80 then 1
    else if (c as int) < 0x800 then 2
    else if (c as int) < 0x1_0000 then 3
    else 4
  }

  function ByteLen(s: string): nat {
    if s == "" then 0 else CharBytes(s[0]) + ByteLen(s[1..])
  }

  predicate Ascii(s: string) {
    forall i :: 0 <= i < |s| ==> (s[i] as int) < 0x80
  }

  lemma {:induction false} AsciiLen(s: string)
    requires Ascii(s)
    ensures ByteLen(s) == |s|
  {
    if s != "" {
      AsciiLen(s[1..]);
    }
  }

  /** White space as `str::trim` removes it. */
  predicate White(c: char) {
    var u := c as int;
    || 9 <= u <= 13 || u == 32 || u == 0x85 || u == 0xA0 || u == 0x1680
    || 0x2000 <= u <= 0x200A || u == 0x2028 || u == 0x2029 || u == 0x202F || u == 0x205F || u == 0x3000
  }

  function Trim(s: string): string {
    if s != "" && White(s[0]) then Trim(s[1..])
    else if s != "" && White(s[|s| - 1]) then Trim(s[..|s| - 1])
    else s
  }

  lemma TrimSolid(s: string)
    requires forall c :: c in s ==> !White(c)
    ensures Trim(s) == s
  {
  }

  /** `str::split` on one character; the empty string has one empty part. */
  function Split(s: string, sep: char): (parts: seq<string>)
    ensures |parts| >= 1
  {
    if s == "" then [""]
    else
      var rest := Split(s[1..], sep);
      if s[0] == sep then [""] + rest else [[s[0]] + rest[0]] + rest[1..]
  }

  function Join(parts: seq<string>, sep: char): string {
    if parts == [] then ""
    else if |parts| == 1 then parts[0]
    else parts[0] + [sep] + Join(parts[1..], sep)
  }

  /** No part contains the separator. */
  ghost predicate Separable(parts: seq<string>, sep: char) {
    forall i :: 0 <= i < |parts| ==> sep !in parts[i]
  }

  lemma {:induction false} SplitPrefix(p: string, s: string, sep: char)
    requires sep !in p
    ensures Split(p + s, sep) == [p + Split(s, sep)[0]] + Split(s, sep)[1..]
  {
    if p == "" {
      assert p + s == s && p + Split(s, sep)[0] == Split(s, sep)[0];
    } else {
      assert (p + s)[1..] == p[1..] + s;
      SplitPrefix(p[1..], s, sep);
      var first := Split(s, sep)[0];
      assert [p[0]] + (p[1..] + first) == p + first;
      assert Split(p + s, sep) == [[p[0]] + Split(p[1..] + s, sep)[0]] + Split(p[1..] + s, sep)[1..];
    }
  }

  lemma SplitFirst(p: string, rest: string, sep: char)
    requires sep !in p
    ensures Split(p + [sep] + rest, sep) == [p] + Split(rest, sep)
  {
    SplitPrefix(p, [sep] + rest, sep);
    assert ([sep] + rest)[1..] == rest;
    assert p + ([sep] + rest) == p + [sep] + rest && p + "" == p;
  }

  /** Splitting undoes joining. */
  lemma {:induction false} SplitJoin(parts: seq<string>, sep: char)
    requires parts != [] && Separable(parts, sep)
    ensures Split(Join(parts, sep), sep) == parts
  {
    if |parts| == 1 {
      SplitPrefix(parts[0], "", sep);
      assert parts[0] + "" == parts[0];
    } else {
      SplitJoin(parts[1..], sep);
      SplitFirst(parts[0], Join(parts[1..], sep), sep);
    }
  }

  /** Joining undoes splitting, and the parts are free of the separator. */
  lemma {:induction false} JoinSplit(s: string, sep: char)
    ensures Join(Split(s, sep), sep) == s && Separable(Split(s, sep), sep)
  {
    if s != "" {
      JoinSplit(s[1..], sep);
      var rest := Split(s[1..], sep);
      if s[0] == sep {
        assert Split(s, sep)[1..] == rest;
      } else {
        assert Split(s, sep)[1..] == rest[1..];
      }
    }
  }

  // ---------- searching ----------

  function Count(s: string, c: char): nat {
    if s == "" then 0 else (if s[0] == c then 1 else 0) + Count(s[1..], c)
  }

  lemma {:induction false} CountParts(s: string, c: char)
    ensures |Split(s, c)| == Count(s, c) + 1
  {
    if s != "" {
      CountParts(s[1..], c);
    }
  }

  predicate At(s: string, pattern: string, i: nat) {
    i + |pattern| <= |s| && s[i..i + |pattern|] == pattern
  }

  predicate Contains(s: string, pattern: string) {
    exists i :: 0 <= i <= |s| && At(s, pattern, i)
  }

  /** `split_once`: what follows the first occurrence of the pattern. */
  function AfterFirst(s: string, pattern: string): Option<string> {
    if pattern <= s then Some(s[|pattern|..])
    else if s == "" then None
    else AfterFirst(s[1..], pattern)
  }

  predicate EndsWith(s: string, c: char) {
    s != "" && s[|s| - 1] == c
  }

  /** Two separators in a row. */
  predicate Doubled(s: string, sep: char) {
    exists i :: 0 <= i < |s| - 1 && s[i] == sep && s[i + 1] == sep
  }

  lemma DoubledIsContains(s: string, sep: char)
    ensures Contains(s, [sep, sep]) <==> Doubled(s, sep)
  {
    if Contains(s, [sep, sep]) {
      var i :| 0 <= i <= |s| && At(s, [sep, sep], i);
      assert s[i..i + 2][0] == s[i] && s[i..i + 2][1] == s[i + 1];
    }
    if Doubled(s, sep) {
      var i :| 0 <= i < |s| - 1 && s[i] == sep && s[i + 1] == sep;
      assert At(s, [sep, sep], i);
    }
  }

  /** An empty part between two separators. */
  ghost predicate HasGap(parts: seq<string>) {
    exists k :: 0 < k < |parts| - 1 && parts[k] == ""
  }

  lemma DoubledCons(p: string, rest: string, sep: char)
    requires sep !in p
    ensures Doubled(p + [sep] + rest, sep) <==> (rest != "" && rest[0] == sep) || Doubled(rest, sep)
  {
    var s := p + [sep] + rest;
    var n := |p|;
    if Doubled(s, sep) {
      var i :| 0 <= i < |s| - 1 && s[i] == sep && s[i + 1] == sep;
      assert i >= n;
      if i > n {
        assert rest[i - n - 1] == sep && rest[i - n] == sep;
      }
    }
    if rest != "" && rest[0] == sep {
      assert s[n] == sep && s[n + 1] == sep;
    }
    if Doubled(rest, sep) {
      var i :| 0 <= i < |rest| - 1 && rest[i] == sep && rest[i + 1] == sep;
      assert s[i + n + 1] == sep && s[i + n + 2] == sep;
    }
  }

  lemma {:induction false} DoubledJoin(parts: seq<string>, sep: char)
    requires parts != [] && Separable(parts, sep)
    ensures Doubled(Join(parts, sep), sep) <==> HasGap(parts)
  {
    if |parts| > 1 {
      var rest := parts[1..];
      DoubledJoin(rest, sep);
      DoubledCons(parts[0], Join(rest, sep), sep);
      JoinStarts(rest, sep);
      if HasGap(rest) {
        var k :| 0 < k < |rest| - 1 && rest[k] == "";
        assert parts[k + 1] == "";
      }
      if HasGap(parts) {
        var k :| 0 < k < |parts| - 1 && parts[k] == "";
        assert rest[k - 1] == "";
      }
    }
  }

  lemma JoinStarts(parts: seq<string>, sep: char)
    requires parts != [] && Separable(parts, sep)
    ensures Join(parts, sep) != "" && Join(parts, sep)[0] == sep <==> |parts| > 1 && parts[0] == ""
  {
  }

  lemma {:induction false} InJoin(parts: seq<string>, sep: char, c: char)
    ensures c in Join(parts, sep) <==> (c == sep && |parts| > 1) || exists k :: 0 <= k < |parts| && c in parts[k]
  {
    if |parts| > 1 {
      InJoin(parts[1..], sep, c);
      if c in Join(parts[1..], sep) && c != sep {
        var k :| 0 <= k < |parts[1..]| && c in parts[1..][k];
        assert c in parts[k + 1];
      }
      if k :| 0 < k < |parts| && c in parts[k] {
        assert c in parts[1..][k - 1];
      }
    }
  }
}
