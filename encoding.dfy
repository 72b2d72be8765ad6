/**
 * Character and byte encodings used by the modelled code: UTF-8 (what
 * `String.getBytes(StandardCharsets.UTF_8)` produces for a string of Unicode
 * scalar values), UTF-16 code units (what `String.hashCode` folds over) and the
 * basic Base64 alphabet with padding of section 4 of RFC 4648 (what
 * `java.util.Base64.getEncoder()` produces).
 */
module Encoding {

  import opened Wrappers

  type Byte = x: int | 0 <= x < 256

  // ------------------------------------------------------------------ UTF-8

  /** The UTF-8 encoding of one Unicode scalar value. */
  function Utf8Char(c: char): (r: seq<Byte>)
    ensures 1 <= |r| <= 4
    ensures |r| == 1 <==> c as int < 0x80
  {
    var v := c as int;
    if v < 0x80 then [v]
    else if v < 0x800 then [0xC0 + v / 0x40, 0x80 + v % 0x40]
    else if v < 0x1_0000 then [0xE0 + v / 0x1000, 0x80 + (v / 0x40) % 0x40, 0x80 + v % 0x40]
    else [0xF0 + v / 0x4_0000, 0x80 + (v / 0x1000) % 0x40, 0x80 + (v / 0x40) % 0x40, 0x80 + v % 0x40]
  }

  function Utf8Encode(s: string): (r: seq<Byte>)
    ensures |s| <= |r| <= 4 * |s|
  {
    if s == [] then [] else Utf8Char(s[0]) + Utf8Encode(s[1..])
  }

  predicate IsContinuation(b: Byte) { 0x80 <= b < 0xC0 }

  predicate IsScalar(v: int) { 0 <= v < 0xD800 || 0xE000 <= v < 0x11_0000 }

  /** How many bytes the sequence starting with lead byte `b` takes, or 0 if `b` cannot lead. */
  function SequenceLength(b: Byte): nat {
    if b < 0x80 then 1
    else if 0xC0 <= b < 0xE0 then 2
    else if 0xE0 <= b < 0xF0 then 3
    else if 0xF0 <= b < 0xF8 then 4
    else 0
  }

  /** The scalar value a well-formed multi-byte sequence stands for. */
  function SequenceValue(bs: seq<Byte>): int
    requires 1 <= |bs| <= 4
  {
    var b: seq<int> := bs;
    if |b| == 1 then b[0]
    else if |b| == 2 then (b[0] - 0xC0) * 0x40 + (b[1] - 0x80)
    else if |b| == 3 then (b[0] - 0xE0) * 0x1000 + (b[1] - 0x80) * 0x40 + (b[2] - 0x80)
    else (b[0] - 0xF0) * 0x4_0000 + (b[1] - 0x80) * 0x1000 + (b[2] - 0x80) * 0x40 + (b[3] - 0x80)
  }

  /** Decodes UTF-8 bytes back to scalar values; `None` when they are not well formed. */
  function Utf8Decode(bs: seq<Byte>): (r: Option<string>)
    decreases |bs|
  {
    if bs == [] then Some([])
    else
      var n := SequenceLength(bs[0]);
      if n == 0 || n > |bs| then None
      else if exists i :: 1 <= i < n && !IsContinuation(bs[i]) then None
      else
        var v := SequenceValue(bs[..n]);
        if !IsScalar(v) then None
        else match Utf8Decode(bs[n..])
          case None => None
          case Some(rest) => Some([v as char] + rest)
  }

  /** The encoding of one scalar value leads with its own length, continues with continuation bytes and decodes to it. */
  lemma Utf8CharValue(c: char)
    ensures var e := Utf8Char(c);
      && SequenceLength(e[0]) == |e|
      && (forall i :: 1 <= i < |e| ==> IsContinuation(e[i]))
      && SequenceValue(e) == c as int
  {
    var v := c as int;
    if v < 0x80 {
    } else if v < 0x800 {
      TwoByteValue(v);
    } else if v < 0x1_0000 {
      ThreeByteValue(v);
    } else {
      FourByteValue(v);
    }
  }

  lemma TwoByteValue(v: int)
    requires 0x80 <= v < 0x800
    ensures 0xC0 <= 0xC0 + v / 0x40 < 0xE0 && IsContinuation(0x80 + v % 0x40)
    ensures (v / 0x40) * 0x40 + v % 0x40 == v
  {
  }

  lemma ThreeByteValue(v: int)
    requires 0x800 <= v < 0x1_0000
    ensures 0xE0 <= 0xE0 + v / 0x1000 < 0xF0
    ensures IsContinuation(0x80 + (v / 0x40) % 0x40) && IsContinuation(0x80 + v % 0x40)
    ensures (v / 0x1000) * 0x1000 + ((v / 0x40) % 0x40) * 0x40 + v % 0x40 == v
  {
    assert v / 0x40 == (v / 0x1000) * 0x40 + (v / 0x40) % 0x40;
  }

  lemma FourByteValue(v: int)
    requires 0x1_0000 <= v < 0x11_0000
    ensures 0xF0 <= 0xF0 + v / 0x4_0000 < 0xF8
    ensures IsContinuation(0x80 + (v / 0x1000) % 0x40)
    ensures IsContinuation(0x80 + (v / 0x40) % 0x40) && IsContinuation(0x80 + v % 0x40)
    ensures (v / 0x4_0000) * 0x4_0000 + ((v / 0x1000) % 0x40) * 0x1000 + ((v / 0x40) % 0x40) * 0x40 + v % 0x40 == v
  {
    assert v / 0x1000 == (v / 0x4_0000) * 0x40 + (v / 0x1000) % 0x40;
    assert v / 0x40 == (v / 0x1000) * 0x40 + (v / 0x40) % 0x40;
  }

  lemma Utf8CharDecodes(c: char, rest: seq<Byte>)
    ensures var e := Utf8Char(c) + rest;
      && SequenceLength(e[0]) == |Utf8Char(c)|
      && (forall i :: 1 <= i < |Utf8Char(c)| ==> IsContinuation(e[i]))
      && SequenceValue(e[..|Utf8Char(c)|]) == c as int
  {
    var u := Utf8Char(c);
    var e := u + rest;
    Utf8CharValue(c);
    assert e[..|u|] == u;
    assert forall i :: 0 <= i < |u| ==> e[i] == u[i];
  }

  /** The first character decodes in front of whatever the rest decodes to. */
  lemma Utf8Step(c: char, rest: string)
    requires Utf8Decode(Utf8Encode(rest)) == Some(rest)
    ensures Utf8Decode(Utf8Encode([c] + rest)) == Some([c] + rest)
  {
    var u := Utf8Char(c);
    var tail := Utf8Encode(rest);
    assert ([c] + rest)[0] == c && ([c] + rest)[1..] == rest;
    var e := Utf8Encode([c] + rest);
    assert e == u + tail;
    Utf8CharDecodes(c, tail);
    assert e[|u|..] == tail;
    assert !(exists i :: 1 <= i < |u| && !IsContinuation(e[i]));
  }

  /** Decoding the UTF-8 encoding of any string gives the string back. */
  lemma {:induction false} Utf8RoundTrip(s: string)
    ensures Utf8Decode(Utf8Encode(s)) == Some(s)
  {
    if s != [] {
      Utf8RoundTrip(s[1..]);
      Utf8Step(s[0], s[1..]);
      assert s == [s[0]] + s[1..];
    }
  }

  // ----------------------------------------------------------------- UTF-16

  /** The UTF-16 code units of one scalar value (a surrogate pair above U+FFFF). */
  function Utf16Units(c: char): (r: seq<int>)
    ensures |r| == if c as int < 0x1_0000 then 1 else 2
    ensures forall i :: 0 <= i < |r| ==> 0 <= r[i] < 0x1_0000
  {
    var v := c as int;
    if v < 0x1_0000 then [v]
    else [0xD800 + (v - 0x1_0000) / 0x400, 0xDC00 + (v - 0x1_0000) % 0x400]
  }

  function Utf16Encode(s: string): (r: seq<int>)
    ensures |s| <= |r| <= 2 * |s|
    ensures forall i :: 0 <= i < |r| ==> 0 <= r[i] < 0x1_0000
  {
    if s == [] then [] else Utf16Units(s[0]) + Utf16Encode(s[1..])
  }

  // ----------------------------------------------------------------- Base64

  /** The i-th character of the Base64 alphabet of RFC 4648 section 4. */
  function Base64Char(i: nat): (c: char)
    requires i < 64
    ensures IsBase64Char(c) && Base64Index(c) == i
  {
    if i < 26 then ('A' as int + i) as char
    else if i < 52 then ('a' as int + (i - 26)) as char
    else if i < 62 then ('0' as int + (i - 52)) as char
    else if i == 62 then '+'
    else '/'
  }

  predicate IsBase64Char(c: char) {
    ('A' <= c <= 'Z') || ('a' <= c <= 'z') || ('0' <= c <= '9') || c == '+' || c == '/'
  }

  function Base64Index(c: char): (i: nat)
    requires IsBase64Char(c)
    ensures i < 64
  {
    if 'A' <= c <= 'Z' then c as int - 'A' as int
    else if 'a' <= c <= 'z' then c as int - 'a' as int + 26
    else if '0' <= c <= '9' then c as int - '0' as int + 52
    else if c == '+' then 62
    else 63
  }

  /** Three bytes become four characters. */
  function EncodeBlock(b0: Byte, b1: Byte, b2: Byte): (r: string)
    ensures |r| == 4
  {
    [Base64Char(b0 / 4), Base64Char((b0 % 4) * 16 + b1 / 16),
     Base64Char((b1 % 16) * 4 + b2 / 64), Base64Char(b2 % 64)]
  }

  /** `Base64.getEncoder().encodeToString(bs)`: padded with '=' to a multiple of four. */
  function Base64Encode(bs: seq<Byte>): (r: string)
    ensures |r| == 4 * ((|bs| + 2) / 3)
  {
    if |bs| == 0 then ""
    else if |bs| == 1 then EncodeBlock(bs[0], 0, 0)[..2] + "=="
    else if |bs| == 2 then EncodeBlock(bs[0], bs[1], 0)[..3] + "="
    else EncodeBlock(bs[0], bs[1], bs[2]) + Base64Encode(bs[3..])
  }

  /** Decodes a padded Base64 text; `None` when it is not one. */
  function Base64Decode(s: string): (r: Option<seq<Byte>>)
    decreases |s|
  {
    if |s| == 0 then Some([])
    else if |s| < 4 || !IsBase64Char(s[0]) || !IsBase64Char(s[1]) then None
    else
      var c0, c1 := Base64Index(s[0]), Base64Index(s[1]);
      var b0 := c0 * 4 + c1 / 16;
      if |s| == 4 && s[2] == '=' && s[3] == '=' then
        if c1 % 16 == 0 then Some([b0]) else None
      else if !IsBase64Char(s[2]) then None
      else
        var c2 := Base64Index(s[2]);
        var b1 := (c1 % 16) * 16 + c2 / 4;
        if |s| == 4 && s[3] == '=' then
          if c2 % 4 == 0 then Some([b0, b1]) else None
        else if !IsBase64Char(s[3]) then None
        else
          var b2 := (c2 % 4) * 64 + Base64Index(s[3]);
          match Base64Decode(s[4..])
          case None => None
          case Some(rest) => Some([b0, b1, b2] + rest)
  }

  lemma BlockDecodes(b0: Byte, b1: Byte, b2: Byte)
    ensures var r := EncodeBlock(b0, b1, b2);
      && Base64Index(r[0]) * 4 + Base64Index(r[1]) / 16 == b0
      && (Base64Index(r[1]) % 16) * 16 + Base64Index(r[2]) / 4 == b1
      && (Base64Index(r[2]) % 4) * 64 + Base64Index(r[3]) == b2
  {
  }

  lemma OneByteDecodes(b0: Byte)
    ensures Base64Decode(Base64Encode([b0])) == Some([b0])
  {
    BlockDecodes(b0, 0, 0);
  }

  lemma TwoBytesDecode(b0: Byte, b1: Byte)
    ensures Base64Decode(Base64Encode([b0, b1])) == Some([b0, b1])
  {
    var e := Base64Encode([b0, b1]);
    var blk := EncodeBlock(b0, b1, 0);
    BlockDecodes(b0, b1, 0);
    assert e == [blk[0], blk[1], blk[2], '='];
    assert Base64Index(blk[2]) == (b1 % 16) * 4;
  }

  /** Four alphabet characters in front decode to their three bytes in front of what the rest decodes to. */
  lemma FullBlockDecodes(s: string, b0: Byte, b1: Byte, b2: Byte)
    requires |s| >= 4 && IsBase64Char(s[0]) && IsBase64Char(s[1]) && IsBase64Char(s[2]) && IsBase64Char(s[3])
    requires Base64Decode(s[4..]).Some?
    requires Base64Index(s[0]) * 4 + Base64Index(s[1]) / 16 == b0
    requires (Base64Index(s[1]) % 16) * 16 + Base64Index(s[2]) / 4 == b1
    requires (Base64Index(s[2]) % 4) * 64 + Base64Index(s[3]) == b2
    ensures Base64Decode(s) == Some([b0, b1, b2] + Base64Decode(s[4..]).value)
  {
    assert s[2] != '=' && s[3] != '=';
  }

  lemma BlockThenRest(b0: Byte, b1: Byte, b2: Byte, t: string)
    requires Base64Decode(t).Some?
    ensures Base64Decode(EncodeBlock(b0, b1, b2) + t) == Some([b0, b1, b2] + Base64Decode(t).value)
  {
    var blk := EncodeBlock(b0, b1, b2);
    BlockDecodes(b0, b1, b2);
    var s := blk + t;
    assert s[0] == blk[0] && s[1] == blk[1] && s[2] == blk[2] && s[3] == blk[3];
    assert s[4..] == t;
    FullBlockDecodes(s, b0, b1, b2);
  }

  /** Decoding the Base64 encoding of any byte sequence gives it back. */
  lemma {:induction false} Base64RoundTrip(bs: seq<Byte>)
    ensures Base64Decode(Base64Encode(bs)) == Some(bs)
  {
    if |bs| == 1 {
      assert bs == [bs[0]];
      OneByteDecodes(bs[0]);
    } else if |bs| == 2 {
      assert bs == [bs[0], bs[1]];
      TwoBytesDecode(bs[0], bs[1]);
    } else if |bs| >= 3 {
      Base64RoundTrip(bs[3..]);
      LeadingBlock(bs[0], bs[1], bs[2], bs[3..]);
      SplitThree(bs);
    }
  }

  lemma SplitThree(bs: seq<Byte>)
    requires |bs| >= 3
    ensures bs == [bs[0], bs[1], bs[2]] + bs[3..]
  {
  }

  /** A leading block of three bytes decodes in front of whatever the rest decodes to. */
  lemma LeadingBlock(b0: Byte, b1: Byte, b2: Byte, rest: seq<Byte>)
    requires Base64Decode(Base64Encode(rest)) == Some(rest)
    ensures Base64Decode(Base64Encode([b0, b1, b2] + rest)) == Some([b0, b1, b2] + rest)
  {
    var bs := [b0, b1, b2] + rest;
    assert bs[0] == b0 && bs[1] == b1 && bs[2] == b2 && bs[3..] == rest;
    BlockThenRest(b0, b1, b2, Base64Encode(rest));
  }
}
