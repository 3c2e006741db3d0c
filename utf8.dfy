/**
 * UTF-8 as `String(data:encoding: .utf8)` reads it (RFC 3629): a byte string
 * decodes only when it is a concatenation of well-formed, shortest-form
 * sequences of scalar values; otherwise the conversion fails.
 */
module Utf8 {
  import opened Wrappers

  type byte = b: int | 0 <= b < 256

  /** A continuation byte `10xxxxxx`. */
  predicate IsContinuation(b: byte) {
    0x80 <= b <= 0xBF
  }

  /** The encoding of one scalar value (section 3 of RFC 3629). */
  function EncodeScalar(c: char): (r: seq<byte>)
    ensures 1 <= |r| <= 4
    ensures (|r| == 1) == (c as int < 0x80)
    ensures forall k :: 1 <= k < |r| ==> IsContinuation(r[k])
  {
    var cp := c as int;
    if cp < 0x80 then [cp]
    else if cp < 0x800 then [0xC0 + cp / 64, 0x80 + cp % 64]
    else if cp < 0x10000 then [0xE0 + cp / 4096, 0x80 + cp / 64 % 64, 0x80 + cp % 64]
    else [0xF0 + cp / 262144, 0x80 + cp / 4096 % 64, 0x80 + cp / 64 % 64, 0x80 + cp % 64]
  }

  function Encode(s: string): seq<byte> {
    if s == [] then [] else EncodeScalar(s[0]) + Encode(s[1..])
  }

  /** The bounds RFC 3629 puts on the second byte, given the first. */
  predicate SecondByteOk(b0: byte, b1: byte) {
    if b0 == 0xE0 then 0xA0 <= b1 <= 0xBF
    else if b0 == 0xED then 0x80 <= b1 <= 0x9F
    else if b0 == 0xF0 then 0x90 <= b1 <= 0xBF
    else if b0 == 0xF4 then 0x80 <= b1 <= 0x8F
    else IsContinuation(b1)
  }

  /** The length a lead byte announces, or 0 for a byte no sequence may start with. */
  function SequenceLength(b0: byte): nat {
    if b0 < 0x80 then 1
    else if 0xC2 <= b0 <= 0xDF then 2
    else if 0xE0 <= b0 <= 0xEF then 3
    else if 0xF0 <= b0 <= 0xF4 then 4
    else 0
  }

  /** Whether `bs` starts with a well-formed sequence. */
  predicate StartsWellFormed(bs: seq<byte>) {
    && |bs| > 0
    && var n := SequenceLength(bs[0]);
    && 1 <= n <= |bs|
    && (n >= 2 ==> SecondByteOk(bs[0], bs[1]))
    && (forall k :: 2 <= k < n ==> IsContinuation(bs[k]))
  }

  /** The scalar value a well-formed leading sequence stands for. */
  function ScalarAt(bs: seq<byte>): (c: char)
    requires StartsWellFormed(bs)
  {
    var b0 := bs[0] as int;
    if b0 < 0x80 then b0 as char
    else if b0 <= 0xDF then ((b0 - 0xC0) * 64 + (bs[1] as int - 0x80)) as char
    else if b0 <= 0xEF then
      var v := (b0 - 0xE0) * 4096 + (bs[1] as int - 0x80) * 64 + (bs[2] as int - 0x80);
      assert b0 == 0xED ==> v <= 0xD7FF;
      assert b0 != 0xED ==> v < 0xD800 || 0xE000 <= v;
      v as char
    else
      ((b0 - 0xF0) * 262144 + (bs[1] as int - 0x80) * 4096 + (bs[2] as int - 0x80) * 64 + (bs[3] as int - 0x80)) as char
  }

  /** `String(data:encoding: .utf8)`: `None` when the bytes are not UTF-8. */
  function Decode(bs: seq<byte>): (r: Option<string>)
    decreases |bs|
  {
    if bs == [] then Some("")
    else if !StartsWellFormed(bs) then None
    else
      var n := SequenceLength(bs[0]);
      match Decode(bs[n..])
      case None => None
      case Some(rest) => Some([ScalarAt(bs)] + rest)
  }

  /** Decoding the encoding of one scalar value gives that value back and consumes it exactly. */
  lemma DecodeScalarEncoding(c: char, rest: seq<byte>)
    ensures StartsWellFormed(EncodeScalar(c) + rest)
    ensures SequenceLength((EncodeScalar(c) + rest)[0]) == |EncodeScalar(c)|
    ensures ScalarAt(EncodeScalar(c) + rest) == c
  {
    var cp := c as int;
    if cp < 0x80 {
    } else if cp < 0x800 {
      DecodeScalarEncoding2(c, rest);
    } else if cp < 0x10000 {
      DecodeScalarEncoding3(c, rest);
    } else {
      DecodeScalarEncoding4(c, rest);
    }
  }

  /** The two-byte case of `DecodeScalarEncoding`. */
  lemma DecodeScalarEncoding2(c: char, rest: seq<byte>)
    requires 0x80 <= c as int < 0x800
    ensures StartsWellFormed(EncodeScalar(c) + rest)
    ensures SequenceLength((EncodeScalar(c) + rest)[0]) == |EncodeScalar(c)|
    ensures ScalarAt(EncodeScalar(c) + rest) == c
  {
    var cp := c as int;
    var bs := EncodeScalar(c) + rest;
    assert bs[0] == 0xC0 + cp / 64 && bs[1] == 0x80 + cp % 64;
    assert (cp / 64) * 64 + cp % 64 == cp;
  }

  /** The three-byte case of `DecodeScalarEncoding`. */
  lemma DecodeScalarEncoding3(c: char, rest: seq<byte>)
    requires 0x800 <= c as int < 0x10000
    ensures StartsWellFormed(EncodeScalar(c) + rest)
    ensures SequenceLength((EncodeScalar(c) + rest)[0]) == |EncodeScalar(c)|
    ensures ScalarAt(EncodeScalar(c) + rest) == c
  {
    var cp := c as int;
    var bs := EncodeScalar(c) + rest;
    var q, m := cp / 64, cp % 64;
    var hi, mid := q / 64, q % 64;
    assert q * 64 + m == cp && hi * 64 + mid == q;
    assert cp / 4096 == hi && cp / 64 % 64 == mid by {
      assert cp == hi * 4096 + mid * 64 + m;
    }
    assert bs[0] == 0xE0 + hi && bs[1] == 0x80 + mid && bs[2] == 0x80 + m;
    assert hi == 0 ==> mid >= 0x20;
    assert hi == 0xD ==> mid < 0x20;
  }

  /** The four-byte case of `DecodeScalarEncoding`. */
  lemma DecodeScalarEncoding4(c: char, rest: seq<byte>)
    requires 0x10000 <= c as int
    ensures StartsWellFormed(EncodeScalar(c) + rest)
    ensures SequenceLength((EncodeScalar(c) + rest)[0]) == |EncodeScalar(c)|
    ensures ScalarAt(EncodeScalar(c) + rest) == c
  {
    var cp := c as int;
    var bs := EncodeScalar(c) + rest;
    var q, m := cp / 64, cp % 64;
    var q2, mid := q / 64, q % 64;
    var hi, mid2 := q2 / 64, q2 % 64;
    assert q * 64 + m == cp && q2 * 64 + mid == q && hi * 64 + mid2 == q2;
    assert cp / 262144 == hi && cp / 4096 % 64 == mid2 && cp / 64 % 64 == mid by {
      assert cp == hi * 262144 + mid2 * 4096 + mid * 64 + m;
      assert cp / 4096 == q2;
    }
    assert bs[0] == 0xF0 + hi && bs[1] == 0x80 + mid2 && bs[2] == 0x80 + mid && bs[3] == 0x80 + m;
    assert hi == 0 ==> mid2 >= 0x10;
    assert hi == 4 ==> mid2 < 0x10;
  }

  /** Round trip: every string survives encoding and decoding. */
  lemma {:induction false} DecodeEncode(s: string)
    ensures Decode(Encode(s)) == Some(s)
  {
    if s != [] {
      var e := EncodeScalar(s[0]);
      var bs := e + Encode(s[1..]);
      assert Encode(s) == bs;
      DecodeScalarEncoding(s[0], Encode(s[1..]));
      assert bs[|e|..] == Encode(s[1..]);
      DecodeEncode(s[1..]);
      assert [s[0]] + s[1..] == s;
    }
  }

  lemma DivMod64(a: int, b: int)
    requires 0 <= b < 64
    ensures (a * 64 + b) / 64 == a && (a * 64 + b) % 64 == b
  {
  }

  /** A well-formed two-byte sequence is the encoding of its value. */
  lemma EncodeScalarAt2(bs: seq<byte>)
    requires StartsWellFormed(bs) && 0xC2 <= bs[0] <= 0xDF
    ensures EncodeScalar(ScalarAt(bs)) == bs[..2]
  {
    var cp := ScalarAt(bs) as int;
    assert cp == (bs[0] as int - 0xC0) * 64 + (bs[1] as int - 0x80);
    DivMod64(bs[0] as int - 0xC0, bs[1] as int - 0x80);
    assert 0x80 <= cp < 0x800;
  }

  /** A well-formed three-byte sequence is the encoding of its value. */
  lemma EncodeScalarAt3(bs: seq<byte>)
    requires StartsWellFormed(bs) && 0xE0 <= bs[0] <= 0xEF
    ensures EncodeScalar(ScalarAt(bs)) == bs[..3]
  {
    var cp := ScalarAt(bs) as int;
    var q := (bs[0] as int - 0xE0) * 64 + (bs[1] as int - 0x80);
    assert cp == q * 64 + (bs[2] as int - 0x80);
    DivMod64(q, bs[2] as int - 0x80);
    DivMod64(bs[0] as int - 0xE0, bs[1] as int - 0x80);
    assert cp / 4096 == q / 64;
    assert 0x800 <= cp < 0x10000;
  }

  /** A well-formed four-byte sequence is the encoding of its value. */
  lemma EncodeScalarAt4(bs: seq<byte>)
    requires StartsWellFormed(bs) && 0xF0 <= bs[0] <= 0xF4
    ensures EncodeScalar(ScalarAt(bs)) == bs[..4]
  {
    var cp := ScalarAt(bs) as int;
    var q2 := (bs[0] as int - 0xF0) * 64 + (bs[1] as int - 0x80);
    var q := q2 * 64 + (bs[2] as int - 0x80);
    assert cp == q * 64 + (bs[3] as int - 0x80);
    DivMod64(q, bs[3] as int - 0x80);
    DivMod64(q2, bs[2] as int - 0x80);
    DivMod64(bs[0] as int - 0xF0, bs[1] as int - 0x80);
    assert cp / 4096 == q2;
    assert cp / 262144 == q2 / 64;
    assert 0x10000 <= cp;
  }

  /** A well-formed leading sequence is the shortest-form encoding of the value it stands for. */
  lemma EncodeScalarAt(bs: seq<byte>)
    requires StartsWellFormed(bs)
    ensures EncodeScalar(ScalarAt(bs)) == bs[..SequenceLength(bs[0])]
  {
    if bs[0] < 0x80 {
    } else if bs[0] <= 0xDF {
      EncodeScalarAt2(bs);
    } else if bs[0] <= 0xEF {
      EncodeScalarAt3(bs);
    } else {
      EncodeScalarAt4(bs);
    }
  }

  /** Encoding a string with a given first character. */
  lemma EncodeCons(c: char, t: string)
    ensures Encode([c] + t) == EncodeScalar(c) + Encode(t)
  {
    assert ([c] + t)[0] == c && ([c] + t)[1..] == t;
  }

  /** A non-empty byte string that decodes starts with a well-formed sequence, followed by bytes that decode. */
  lemma DecodeCons(bs: seq<byte>)
    requires bs != [] && Decode(bs).Some?
    ensures StartsWellFormed(bs)
    ensures Decode(bs[SequenceLength(bs[0])..]).Some?
    ensures Decode(bs).value == [ScalarAt(bs)] + Decode(bs[SequenceLength(bs[0])..]).value
  {
  }

  /** A character whose encoding is a prefix of `bs`, before text whose encoding is the rest, encodes to `bs`. */
  lemma EncodeSplit(bs: seq<byte>, n: int, c: char, tail: string)
    requires 0 <= n <= |bs|
    requires EncodeScalar(c) == bs[..n] && Encode(tail) == bs[n..]
    ensures Encode([c] + tail) == bs
  {
    EncodeCons(c, tail);
    assert bs[..n] + bs[n..] == bs;
  }

  /** Decoding is strict: whatever decodes is exactly the encoding of its result. */
  lemma {:induction false} EncodeDecode(bs: seq<byte>)
    requires Decode(bs).Some?
    ensures Encode(Decode(bs).value) == bs
    decreases |bs|
  {
    if bs != [] {
      DecodeCons(bs);
      var n := SequenceLength(bs[0]);
      EncodeDecode(bs[n..]);
      EncodeScalarAt(bs);
      EncodeSplit(bs, n, ScalarAt(bs), Decode(bs[n..]).value);
    }
  }

  /** Encoding distributes over concatenation, so text may be encoded chunk by chunk. */
  lemma {:induction false} EncodeAppend(s: string, t: string)
    ensures Encode(s + t) == Encode(s) + Encode(t)
  {
    if s == [] {
      assert s + t == t;
    } else {
      assert (s + t)[0] == s[0] && (s + t)[1..] == s[1..] + t;
      EncodeAppend(s[1..], t);
    }
  }

  /** A character cut off after its first two bytes does not decode. */
  lemma TruncatedSequence()
    ensures Decode([0xE3, 0x81]) == None
    ensures Decode([0xE3, 0x81, 0x82]) == Some("\U{3042}")
  {
    var bs: seq<byte> := [0xE3, 0x81, 0x82];
    assert StartsWellFormed(bs) && bs[3..] == [];
    assert ScalarAt(bs) == 0x3042 as char;
    assert SequenceLength(bs[0]) == 3 && Decode(bs[3..]) == Some("");
    assert Decode(bs) == Some([ScalarAt(bs)] + "");
    assert [ScalarAt(bs)] + "" == "\U{3042}";
  }
}
