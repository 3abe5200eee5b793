/** UTF-8 (RFC 3629), as `Buffer.from(s, 'utf8')` produces it for one
    Unicode scalar value, and the decoding that inverts it. */
module Utf8 {
  import opened Wrappers

  type Byte = b: int | 0 <= b < 256

  /** The bytes of one scalar value: one for ASCII, then two, three or four
      with the lead byte announcing the length (RFC 3629 section 3). */
  function EncodeChar(c: char): (bs: seq<Byte>)
    ensures 1 <= |bs| <= 4
    ensures |bs| == 1 <==> c as int < 0x80
    ensures |bs| == 1 ==> bs[0] == c as int
    ensures |bs| > 1 ==> forall i :: 0 <= i < |bs| ==> bs[i] >= 0x80
  {
    var n := c as int;
    if n < 0x80 then [n]
    else if n < 0x800 then [0xC0 + n / 64, 0x80 + n % 64]
    else if n < 0x10000 then [0xE0 + n / 4096, 0x80 + (n / 64) % 64, 0x80 + n % 64]
    else [0xF0 + n / 262144, 0x80 + (n / 4096) % 64, 0x80 + (n / 64) % 64, 0x80 + n % 64]
  }

  /** The bytes of a string, character after character. */
  function EncodeString(s: string): (bs: seq<Byte>)
    decreases |s|
  {
    if s == [] then [] else EncodeChar(s[0]) + EncodeString(s[1..])
  }

  /** The length of the sequence a lead byte opens, if it opens one. */
  function SequenceLength(lead: Byte): (n: nat)
    ensures n <= 4
  {
    if lead < 0x80 then 1
    else if 0xC0 <= lead < 0xE0 then 2
    else if 0xE0 <= lead < 0xF0 then 3
    else if 0xF0 <= lead < 0xF8 then 4
    else 0
  }

  /** The code point a complete byte sequence carries. */
  function CodePoint(bs: seq<Byte>): int
    requires 1 <= |bs| <= 4
  {
    var b := seq(|bs|, i requires 0 <= i < |bs| => bs[i] as int);
    if |b| == 1 then b[0]
    else if |b| == 2 then (b[0] - 0xC0) * 64 + (b[1] - 0x80)
    else if |b| == 3 then (b[0] - 0xE0) * 4096 + (b[1] - 0x80) * 64 + (b[2] - 0x80)
    else (b[0] - 0xF0) * 262144 + (b[1] - 0x80) * 4096 + (b[2] - 0x80) * 64 + (b[3] - 0x80)
  }

  predicate IsScalarValue(v: int)
  {
    0 <= v < 0xD800 || 0xE000 <= v < 0x110000
  }

  /** Reads characters back from bytes; `None` when a lead byte is not one
      or a sequence is cut short or carries no scalar value. */
  function DecodeString(bs: seq<Byte>): (r: Option<string>)
    decreases |bs|
  {
    if bs == [] then Some([])
    else
      var n := SequenceLength(bs[0]);
      if n == 0 || |bs| < n then None
      else
        var v := CodePoint(bs[..n]);
        if !IsScalarValue(v) then None
        else match DecodeString(bs[n..])
          case None => None
          case Some(rest) => Some([v as char] + rest)
  }

  /** The lead byte of a character's encoding announces its length, and
      the bytes carry the character's code point. */
  lemma EncodeCharDecodes(c: char)
    ensures SequenceLength(EncodeChar(c)[0]) == |EncodeChar(c)|
    ensures CodePoint(EncodeChar(c)) == c as int
  {
    var n := c as int;
    assert n == (n / 64) * 64 + n % 64;
    if n >= 0x800 {
      assert n / 64 == (n / 4096) * 64 + (n / 64) % 64;
      assert n / 4096 == n / 64 / 64;
    }
    if n >= 0x10000 {
      assert n / 4096 == (n / 262144) * 64 + (n / 4096) % 64;
      assert n / 262144 == n / 4096 / 64;
    }
  }

  /** Decoding the bytes of a string gives the string back. */
  lemma {:induction false} DecodeEncodeString(s: string)
    ensures DecodeString(EncodeString(s)) == Some(s)
    decreases |s|
  {
    if s != [] {
      var head, bs := EncodeChar(s[0]), EncodeString(s);
      EncodeCharDecodes(s[0]);
      assert bs[..|head|] == head && bs[|head|..] == EncodeString(s[1..]);
      DecodeEncodeString(s[1..]);
      assert IsScalarValue(s[0] as int);
      assert (CodePoint(head) as char) == s[0];
      assert DecodeString(bs) == Some([s[0]] + s[1..]);
      assert [s[0]] + s[1..] == s;
    }
  }

  /** So two strings with the same bytes are the same string. */
  lemma EncodeStringInjective(s: string, t: string)
    requires EncodeString(s) == EncodeString(t)
    ensures s == t
  {
    DecodeEncodeString(s);
    DecodeEncodeString(t);
  }
}
