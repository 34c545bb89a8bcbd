/**
 * The JavaScript string operations the views rely on: `trim`, `toLowerCase`,
 * `includes` and `encodeURIComponent`, on strings of Unicode scalar values.
 */
module Text {
  import opened Types

  /** ECMAScript WhiteSpace and LineTerminator code points: what `trim` removes. */
  predicate IsJsWhiteSpace(c: char)
  {
    c == '\t' || c == '\n' || c == '\U{000B}' || c == '\U{000C}' || c == '\r' || c == ' '
    || c == '\U{00A0}' || c == '\U{1680}' || ('\U{2000}' <= c <= '\U{200A}')
    || c == '\U{2028}' || c == '\U{2029}' || c == '\U{202F}' || c == '\U{205F}'
    || c == '\U{3000}' || c == '\U{FEFF}'
  }

  /** Every character is white space (the empty string included). */
  predicate IsBlank(s: string)
  {
    forall i :: 0 <= i < |s| ==> IsJsWhiteSpace(s[i])
  }

  /** Drops the leading white space: the result is the suffix of `s` that starts at its first other character. */
  function TrimStart(s: string): (r: string)
    ensures |r| <= |s| && r == s[|s| - |r|..]
    ensures forall i :: 0 <= i < |s| - |r| ==> IsJsWhiteSpace(s[i])
    ensures r != [] ==> !IsJsWhiteSpace(r[0])
    decreases |s|
  {
    if s != [] && IsJsWhiteSpace(s[0]) then TrimStart(s[1..]) else s
  }

  /** Drops the trailing white space: the result is the prefix of `s` that ends at its last other character. */
  function TrimEnd(s: string): (r: string)
    ensures |r| <= |s| && r == s[..|r|]
    ensures forall i :: |r| <= i < |s| ==> IsJsWhiteSpace(s[i])
    ensures r != [] ==> !IsJsWhiteSpace(r[|r| - 1])
    decreases |s|
  {
    if s != [] && IsJsWhiteSpace(s[|s| - 1]) then TrimEnd(s[..|s| - 1]) else s
  }

  /**
   * `s.trim()`: empty exactly when `s` is blank, and otherwise starting and ending
   * with a character that is not white space.
   */
  function Trim(s: string): (r: string)
    ensures r == "" <==> IsBlank(s)
    ensures r != "" ==> !IsJsWhiteSpace(r[0]) && !IsJsWhiteSpace(r[|r| - 1])
  {
    var t := TrimStart(s);
    var r := TrimEnd(t);
    SplitAround(s, t, r);
    r
  }

  /** `s.trim()` is the block of `s` left between its leading and its trailing white space. */
  lemma TrimIsBlock(s: string)
    ensures exists k: nat :: TrimmedAt(s, Trim(s), k)
  {
    var t := TrimStart(s);
    assert Trim(s) == TrimEnd(t);
    SplitAround(s, t, TrimEnd(t));
    assert TrimmedAt(s, Trim(s), |s| - |t|);
  }

  /** `r` occurs in `s` at `k`, with only white space before and after it. */
  predicate TrimmedAt(s: string, r: string, k: nat)
  {
    OccursAt(s, r, k) && IsBlank(s[..k]) && IsBlank(s[k + |r|..])
  }

  /**
   * A suffix `t` of `s` after white space only, starting with other text, and a prefix
   * `r` of `t` before white space only, ending with other text, split `s` in three.
   */
  lemma SplitAround(s: string, t: string, r: string)
    requires |t| <= |s| && t == s[|s| - |t|..] && (t != [] ==> !IsJsWhiteSpace(t[0]))
    requires forall i :: 0 <= i < |s| - |t| ==> IsJsWhiteSpace(s[i])
    requires |r| <= |t| && r == t[..|r|] && (r != [] ==> !IsJsWhiteSpace(r[|r| - 1]))
    requires forall i :: |r| <= i < |t| ==> IsJsWhiteSpace(t[i])
    ensures TrimmedAt(s, r, |s| - |t|)
    ensures r == "" <==> IsBlank(s)
    ensures r != "" ==> !IsJsWhiteSpace(r[0]) && !IsJsWhiteSpace(r[|r| - 1])
  {
    var k := |s| - |t|;
    PrefixOfSuffix(s, t, r);
    var head := s[..k];
    forall i | 0 <= i < |head| ensures IsJsWhiteSpace(head[i]) {
      assert head[i] == s[i];
    }
    var tail := s[k + |r|..];
    forall i | 0 <= i < |tail| ensures IsJsWhiteSpace(tail[i]) {
      var j := |r| + i;
      assert IsJsWhiteSpace(t[j]);
      assert t[j] == s[k..][j];
    }
    if r == "" {
      assert t == [];
    }
    if r != "" {
      assert r[0] == t[..|r|][0];
    }
  }

  /** A prefix of a suffix of `s` is a block of `s`. */
  lemma PrefixOfSuffix<T>(s: seq<T>, t: seq<T>, r: seq<T>)
    requires |t| <= |s| && t == s[|s| - |t|..] && |r| <= |t| && r == t[..|r|]
    ensures s[|s| - |t|..|s| - |t| + |r|] == r
  {
  }

  /** ASCII case mapping; other characters are left as they are. */
  function LowerChar(c: char): char
  {
    if 'A' <= c <= 'Z' then (c as int + 32) as char else c
  }

  /**
   * `s.toLowerCase()`, restricted to the ASCII letters: no upper-case letter is left,
   * each one becomes the letter 32 code points above it, and every other character
   * stays where and what it was.
   */
  function ToLower(s: string): (r: string)
    ensures |r| == |s|
    ensures forall i :: 0 <= i < |s| ==> r[i] == LowerChar(s[i])
    ensures forall i :: 0 <= i < |r| ==> !('A' <= r[i] <= 'Z')
    ensures forall i :: 0 <= i < |s| && 'A' <= s[i] <= 'Z' ==> 'a' <= r[i] <= 'z' && r[i] as int == s[i] as int + 32
    ensures forall i :: 0 <= i < |s| && !('A' <= s[i] <= 'Z') ==> r[i] == s[i]
  {
    seq(|s|, i requires 0 <= i < |s| => LowerChar(s[i]))
  }

  predicate StartsWith(s: string, prefix: string)
  {
    |prefix| <= |s| && s[..|prefix|] == prefix
  }

  /** `needle` occurs in `s` as the block that starts at position `k`. */
  predicate OccursAt(s: string, needle: string, k: nat)
  {
    k + |needle| <= |s| && s[k..k + |needle|] == needle
  }

  /** `s.includes(needle)`: true exactly when `needle` occurs somewhere in `s` as a contiguous block. */
  function Includes(s: string, needle: string): (b: bool)
    ensures b <==> exists k: nat :: OccursAt(s, needle, k)
    ensures b ==> |needle| <= |s|
    decreases |s|
  {
    if StartsWith(s, needle) then
      assert OccursAt(s, needle, 0);
      true
    else if s == [] then false
    else
      assert forall k: nat :: OccursAt(s[1..], needle, k) ==> OccursAt(s, needle, k + 1) by {
        forall k: nat | OccursAt(s[1..], needle, k) ensures OccursAt(s, needle, k + 1) {
          assert s[1..][k..k + |needle|] == s[k + 1..k + 1 + |needle|];
        }
      }
      assert forall k: nat :: OccursAt(s, needle, k) ==> k > 0 && OccursAt(s[1..], needle, k - 1) by {
        forall k: nat | OccursAt(s, needle, k) ensures k > 0 && OccursAt(s[1..], needle, k - 1) {
          assert k != 0;
          assert s[1..][k - 1..k - 1 + |needle|] == s[k..k + |needle|];
        }
      }
      Includes(s[1..], needle)
  }

  /** Lower-casing both sides keeps every occurrence where it was. */
  lemma LowerIncludes(s: string, needle: string)
    ensures Includes(s, needle) ==> Includes(ToLower(s), ToLower(needle))
  {
    if Includes(s, needle) {
      var k: nat :| OccursAt(s, needle, k);
      var ls, ln := ToLower(s), ToLower(needle);
      forall i | 0 <= i < |needle| ensures ls[k..k + |needle|][i] == ln[i] {
        assert s[k..k + |needle|][i] == needle[i];
      }
      assert ls[k..k + |needle|] == ln;
      assert OccursAt(ls, ln, k);
    }
  }

  /** An occurrence at position `k` makes `includes` true. */
  lemma {:induction false} IncludesAt(s: string, needle: string, k: nat)
    requires k + |needle| <= |s| && s[k..k + |needle|] == needle
    ensures Includes(s, needle)
    decreases k
  {
    if k > 0 {
      assert s[1..][k - 1..k - 1 + |needle|] == s[k..k + |needle|];
      IncludesAt(s[1..], needle, k - 1);
    } else {
      assert s[..|needle|] == s[k..k + |needle|];
    }
  }

  /** A block between any two others is included in the whole. */
  lemma IncludesMiddle(a: string, b: string, c: string)
    ensures Includes(a + b + c, b)
  {
    assert (a + b + c)[|a|..|a| + |b|] == b;
    IncludesAt(a + b + c, b, |a|);
  }

  /* ---------------------------------------------------------------------------
   * encodeURIComponent: every character outside the unreserved set is written as
   * the bytes of its UTF-8 encoding, each as '%' and two upper-case hex digits.
   * ------------------------------------------------------------------------- */

  type Byte = x: int | 0 <= x < 256

  /** The characters `encodeURIComponent` leaves as they are. */
  predicate IsUnreserved(c: char)
  {
    ('A' <= c <= 'Z') || ('a' <= c <= 'z') || ('0' <= c <= '9')
    || c == '-' || c == '_' || c == '.' || c == '!' || c == '~' || c == '*' || c == '\'' || c == '(' || c == ')'
  }

  /** The UTF-8 encoding of one scalar value. */
  function Utf8(c: char): (bs: seq<Byte>)
    ensures 1 <= |bs| <= 4
  {
    var n := c as int;
    if n < 0x80 then [n]
    else if n < 0x800 then [0xC0 + n / 64, 0x80 + n % 64]
    else if n < 0x10000 then [0xE0 + n / 4096, 0x80 + (n / 64) % 64, 0x80 + n % 64]
    else [0xF0 + n / 262144, 0x80 + (n / 4096) % 64, 0x80 + (n / 64) % 64, 0x80 + n % 64]
  }

  function HexDigit(d: int): char
    requires 0 <= d < 16
  {
    if d < 10 then ('0' as int + d) as char else ('A' as int + d - 10) as char
  }

  function HexValue(c: char): Option<int>
  {
    if '0' <= c <= '9' then Some(c as int - '0' as int)
    else if 'A' <= c <= 'F' then Some(c as int - 'A' as int + 10)
    else if 'a' <= c <= 'f' then Some(c as int - 'a' as int + 10)
    else None
  }

  /** Each byte becomes three characters: '%', then its high and low hex digits. */
  function PercentEncode(bs: seq<Byte>): (e: string)
    ensures |e| == 3 * |bs|
  {
    if bs == [] then [] else ['%', HexDigit(bs[0] / 16), HexDigit(bs[0] % 16)] + PercentEncode(bs[1..])
  }

  /** What a percent-encoded block holds at the three positions of its `k`-th byte. */
  lemma {:induction false} PercentEncodeAt(bs: seq<Byte>, k: nat)
    requires k < |bs|
    ensures PercentEncode(bs)[3 * k] == '%'
    ensures PercentEncode(bs)[3 * k + 1] == HexDigit(bs[k] / 16)
    ensures PercentEncode(bs)[3 * k + 2] == HexDigit(bs[k] % 16)
  {
    if k > 0 {
      PercentEncodeAt(bs[1..], k - 1);
    }
  }

  /** Only unreserved characters and '%' appear in the output of the encoder. */
  predicate IsUriSafe(s: string)
  {
    forall i :: 0 <= i < |s| ==> IsUnreserved(s[i]) || s[i] == '%'
  }

  lemma {:induction false} PercentEncodeSafe(bs: seq<Byte>)
    ensures IsUriSafe(PercentEncode(bs))
  {
    if bs != [] {
      PercentEncodeSafe(bs[1..]);
      var head := ['%', HexDigit(bs[0] / 16), HexDigit(bs[0] % 16)];
      var tail := PercentEncode(bs[1..]);
      forall i | 0 <= i < |head + tail| ensures IsUnreserved((head + tail)[i]) || (head + tail)[i] == '%' {
        if i >= 3 {
          assert (head + tail)[i] == tail[i - 3];
        }
      }
    }
  }

  function EncodeChar(c: char): string
  {
    if IsUnreserved(c) then [c] else PercentEncode(Utf8(c))
  }

  /**
   * `encodeURIComponent(s)`: each character becomes itself or the `%XY` escapes of its
   * one to four UTF-8 bytes, so the encoding is between one and twelve times as long.
   */
  function EncodeURIComponent(s: string): (e: string)
    ensures |s| <= |e| <= 12 * |s|
    decreases |s|
  {
    if s == [] then [] else EncodeChar(s[0]) + EncodeURIComponent(s[1..])
  }

  /** The output of `encodeURIComponent` holds only unreserved characters and '%'; in particular no '/'. */
  lemma {:induction false} EncodeIsUriSafe(s: string)
    ensures IsUriSafe(EncodeURIComponent(s))
    decreases |s|
  {
    if s != [] {
      EncodeIsUriSafe(s[1..]);
      var head := EncodeChar(s[0]);
      var tail := EncodeURIComponent(s[1..]);
      if !IsUnreserved(s[0]) {
        PercentEncodeSafe(Utf8(s[0]));
      }
      forall i | 0 <= i < |head + tail| ensures IsUnreserved((head + tail)[i]) || (head + tail)[i] == '%' {
        if i >= |head| {
          assert (head + tail)[i] == tail[i - |head|];
        }
      }
    }
  }

  /** A string of unreserved characters is its own encoding. */
  lemma {:induction false} UnreservedEncoding(s: string)
    requires forall i :: 0 <= i < |s| ==> IsUnreserved(s[i])
    ensures EncodeURIComponent(s) == s
    decreases |s|
  {
    if s != [] {
      UnreservedEncoding(s[1..]);
    }
  }

  /** A space is not unreserved: it becomes its one UTF-8 byte, `%20`. */
  lemma SpaceEncoding()
    ensures EncodeURIComponent(" ") == "%20"
  {
    assert Utf8(' ') == [32];
    assert PercentEncode([32]) == ['%', HexDigit(2), HexDigit(0)] + PercentEncode([]);
    assert EncodeChar(' ') == "%20";
    assert EncodeURIComponent(" ") == "%20" + EncodeURIComponent([]);
  }

  /** Two unreserved words joined by a space encode as the words joined by `%20`. */
  lemma EncodeUnreservedWords(first: string, second: string)
    requires forall i :: 0 <= i < |first| ==> IsUnreserved(first[i])
    requires forall i :: 0 <= i < |second| ==> IsUnreserved(second[i])
    ensures EncodeURIComponent(first + " " + second) == first + "%20" + second
  {
    SpaceEncoding();
    UnreservedEncoding(first);
    UnreservedEncoding(second);
    EncodeConcat(first, " ");
    EncodeConcat(first + " ", second);
  }

  /** Each character of `s` mapped by `f`, the results joined in order. */
  function ConcatMap(f: char -> string, s: string): string
    decreases |s|
  {
    if s == [] then [] else f(s[0]) + ConcatMap(f, s[1..])
  }

  lemma {:induction false} ConcatMapAppend(f: char -> string, a: string, b: string)
    ensures ConcatMap(f, a + b) == ConcatMap(f, a) + ConcatMap(f, b)
    decreases |a|
  {
    if a == [] {
      assert a + b == b;
    } else {
      assert (a + b)[0] == a[0] && (a + b)[1..] == a[1..] + b;
      ConcatMapAppend(f, a[1..], b);
      assert f(a[0]) + (ConcatMap(f, a[1..]) + ConcatMap(f, b))
          == (f(a[0]) + ConcatMap(f, a[1..])) + ConcatMap(f, b);
    }
  }

  /** `encodeURIComponent` maps each character to its encoding and joins the results. */
  lemma {:induction false} EncodeIsConcatMap(s: string)
    ensures EncodeURIComponent(s) == ConcatMap(c => EncodeChar(c), s)
    decreases |s|
  {
    if s != [] {
      EncodeIsConcatMap(s[1..]);
    }
  }

  /** Encoding works character by character, so it distributes over concatenation. */
  lemma EncodeConcat(a: string, b: string)
    ensures EncodeURIComponent(a + b) == EncodeURIComponent(a) + EncodeURIComponent(b)
  {
    EncodeIsConcatMap(a);
    EncodeIsConcatMap(b);
    EncodeIsConcatMap(a + b);
    ConcatMapAppend(c => EncodeChar(c), a, b);
  }

  /* A reference decoder, the inverse that the encoding is proved against. */

  /** The byte written as "%XY" at position `i`, if there is one. */
  function ReadByte(s: string, i: nat): Option<Byte>
  {
    if i + 3 <= |s| && s[i] == '%' then
      match (HexValue(s[i + 1]), HexValue(s[i + 2]))
      case (Some(h), Some(l)) => Some(16 * h + l)
      case _ => None
    else None
  }

  /** A UTF-8 continuation byte at position `i`, as its low six bits. */
  function ReadContinuation(s: string, i: nat): Option<int>
  {
    match ReadByte(s, i)
    case Some(b) => if 0x80 <= b < 0xC0 then Some(b - 0x80) else None
    case None => None
  }

  function ScalarOf(n: int, len: nat): Option<(char, nat)>
  {
    if 0 <= n < 0xD800 || 0xE000 <= n < 0x11_0000 then Some((n as char, len)) else None
  }

  /** Decodes one percent-encoded UTF-8 sequence at the start of `s`: the character and how many characters it spans. */
  function DecodeSequence(s: string): (r: Option<(char, nat)>)
    ensures r.Some? ==> 3 <= r.value.1 <= |s|
  {
    match ReadByte(s, 0)
    case None => None
    case Some(b0) =>
      if b0 < 0x80 then ScalarOf(b0, 3)
      else if 0xC0 <= b0 < 0xE0 then
        match ReadContinuation(s, 3)
        case Some(x1) => ScalarOf((b0 - 0xC0) * 64 + x1, 6)
        case None => None
      else if 0xE0 <= b0 < 0xF0 then
        match (ReadContinuation(s, 3), ReadContinuation(s, 6))
        case (Some(x1), Some(x2)) => ScalarOf((b0 - 0xE0) * 4096 + x1 * 64 + x2, 9)
        case _ => None
      else if 0xF0 <= b0 < 0xF8 then
        match (ReadContinuation(s, 3), ReadContinuation(s, 6), ReadContinuation(s, 9))
        case (Some(x1), Some(x2), Some(x3)) => ScalarOf((b0 - 0xF0) * 262144 + x1 * 4096 + x2 * 64 + x3, 12)
        case _ => None
      else None
  }

  function DecodeURIComponent(s: string): Option<string>
    decreases |s|
  {
    if s == [] then Some([])
    else if s[0] != '%' then
      match DecodeURIComponent(s[1..])
      case Some(t) => Some([s[0]] + t)
      case None => None
    else
      match DecodeSequence(s)
      case None => None
      case Some((c, n)) =>
        match DecodeURIComponent(s[n..])
        case Some(t) => Some([c] + t)
        case None => None
  }

  lemma HexRoundTrip(d: int)
    requires 0 <= d < 16
    ensures HexValue(HexDigit(d)) == Some(d)
  {
  }

  /** The byte at index `k` of a percent-encoded block reads back, whatever follows the block. */
  lemma ReadEncodedByte(bs: seq<Byte>, rest: string, k: nat)
    requires k < |bs|
    ensures ReadByte(PercentEncode(bs) + rest, 3 * k) == Some(bs[k])
  {
    var e := PercentEncode(bs);
    var s := e + rest;
    var i := 3 * k;
    PercentEncodeAt(bs, k);
    assert s[i] == e[i] && s[i + 1] == e[i + 1] && s[i + 2] == e[i + 2];
    ReadHexPair(s, i, bs[k]);
  }

  lemma ReadHexPair(s: string, i: nat, b: Byte)
    requires i + 3 <= |s| && s[i] == '%' && s[i + 1] == HexDigit(b / 16) && s[i + 2] == HexDigit(b % 16)
    ensures ReadByte(s, i) == Some(b)
  {
    HexRoundTrip(b / 16);
    HexRoundTrip(b % 16);
    assert 16 * (b / 16) + b % 16 == b;
  }

  lemma ReadEncodedContinuation(bs: seq<Byte>, rest: string, k: nat)
    requires k < |bs| && 0x80 <= bs[k] < 0xC0
    ensures ReadContinuation(PercentEncode(bs) + rest, 3 * k) == Some(bs[k] - 0x80)
  {
    ReadEncodedByte(bs, rest, k);
  }

  /** The encoding of a reserved character decodes back to it and spans exactly its own length. */
  lemma DecodeEncodedChar(c: char, rest: string)
    requires !IsUnreserved(c)
    ensures DecodeSequence(EncodeChar(c) + rest) == Some((c, |EncodeChar(c)|))
  {
    var n := c as int;
    ReadEncodedByte(Utf8(c), rest, 0);
    if n < 0x80 {
    } else if n < 0x800 {
      DecodeTwoBytes(c, rest);
    } else if n < 0x10000 {
      DecodeThreeBytes(c, rest);
    } else {
      DecodeFourBytes(c, rest);
    }
  }

  lemma DecodeTwoBytes(c: char, rest: string)
    requires 0x80 <= c as int < 0x800
    ensures DecodeSequence(PercentEncode(Utf8(c)) + rest) == Some((c, 6))
  {
    var n, bs := c as int, Utf8(c);
    ReadEncodedByte(bs, rest, 0);
    ReadEncodedContinuation(bs, rest, 1);
    assert bs[0] == 0xC0 + n / 64 && bs[1] == 0x80 + n % 64;
    assert (n / 64) * 64 + n % 64 == n;
  }

  lemma DecodeThreeBytes(c: char, rest: string)
    requires 0x800 <= c as int < 0x10000
    ensures DecodeSequence(PercentEncode(Utf8(c)) + rest) == Some((c, 9))
  {
    var n, bs := c as int, Utf8(c);
    var q := n / 64;
    ReadEncodedByte(bs, rest, 0);
    ReadEncodedContinuation(bs, rest, 1);
    ReadEncodedContinuation(bs, rest, 2);
    assert n == q * 64 + n % 64;
    assert q == (q / 64) * 64 + q % 64;
    assert q / 64 == n / 4096;
    assert (n / 4096) * 4096 + (q % 64) * 64 + n % 64 == n;
  }

  lemma DecodeFourBytes(c: char, rest: string)
    requires 0x10000 <= c as int
    ensures DecodeSequence(PercentEncode(Utf8(c)) + rest) == Some((c, 12))
  {
    var n, bs := c as int, Utf8(c);
    ReadEncodedByte(bs, rest, 0);
    ReadEncodedContinuation(bs, rest, 1);
    ReadEncodedContinuation(bs, rest, 2);
    ReadEncodedContinuation(bs, rest, 3);
    FourByteValue(n);
  }

  lemma FourByteValue(n: int)
    requires 0x10000 <= n < 0x11_0000
    ensures n / 262144 < 8
    ensures (n / 262144) * 262144 + ((n / 4096) % 64) * 4096 + ((n / 64) % 64) * 64 + n % 64 == n
  {
    var q := n / 64;
    var q2 := q / 64;
    assert n == q * 64 + n % 64;
    assert q == q2 * 64 + q % 64;
    assert q2 == (q2 / 64) * 64 + q2 % 64;
    assert q2 == n / 4096 && q2 / 64 == n / 262144;
  }

  /** Decoding undoes `encodeURIComponent`. */
  lemma {:induction false} DecodeEncode(s: string)
    ensures DecodeURIComponent(EncodeURIComponent(s)) == Some(s)
    decreases |s|
  {
    if s != [] {
      DecodeEncode(s[1..]);
      var head := EncodeChar(s[0]);
      var rest := EncodeURIComponent(s[1..]);
      var e := head + rest;
      assert EncodeURIComponent(s) == e;
      if IsUnreserved(s[0]) {
        assert e[0] == s[0] && e[1..] == rest;
      } else {
        DecodeEncodedChar(s[0], rest);
        assert e[0] == '%';
        assert e[|head|..] == rest;
      }
      assert s == [s[0]] + s[1..];
    }
  }

  /** Distinct strings have distinct encodings. */
  lemma EncodeInjective(a: string, b: string)
    requires EncodeURIComponent(a) == EncodeURIComponent(b)
    ensures a == b
  {
    DecodeEncode(a);
    DecodeEncode(b);
  }
}
