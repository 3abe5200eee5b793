/** `encode_uri`: the URI is normalised by the URL parser, then every
    character outside the safe set is replaced by `%` and the upper-case
    hexadecimal of each of its UTF-8 bytes. The escaping is modelled twice:
    as written (bytes below 16 get one hex digit; characters outside the
    Basic Multilingual Plane are split into UTF-16 halves first) and as
    evidently intended (two hex digits per byte, the character's own
    UTF-8 bytes), which the rest of the model uses. */
module UriEncoding {
  import opened Wrappers
  import opened Utf8

  /** `SAFE_CHARS`: the gen-delims and sub-delims of section 2.2 of RFC 3986,
      the letters, digits and `_.-` of its section 2.3, and `%` so that
      escapes are not escaped again (`~` is not among them). */
  predicate IsSafe(c: char)
  {
    || c == ':' || c == '/' || c == '?' || c == '#' || c == '[' || c == ']' || c == '@'
    || c == '!' || c == '$' || c == '&' || c == '\'' || c == '(' || c == ')'
    || c == '*' || c == '+' || c == ',' || c == ';' || c == '='
    || ('A' <= c <= 'Z') || ('a' <= c <= 'z') || ('0' <= c <= '9')
    || c == '_' || c == '.' || c == '-'
    || c == '%'
  }

  predicate AllSafe(s: string)
  {
    forall i :: 0 <= i < |s| ==> IsSafe(s[i])
  }

  /** An upper-case hexadecimal digit. */
  function HexDigit(d: nat): (c: char)
    requires d < 16
    ensures IsSafe(c)
  {
    if d < 10 then ('0' as int + d) as char else ('A' as int + d - 10) as char
  }

  /** The value of a hexadecimal digit of either case. */
  function HexValue(c: char): Option<nat>
  {
    if '0' <= c <= '9' then Some(c as int - '0' as int)
    else if 'A' <= c <= 'F' then Some(c as int - 'A' as int + 10)
    else if 'a' <= c <= 'f' then Some(c as int - 'a' as int + 10)
    else None
  }

  lemma HexDigitValue(d: nat)
    requires d < 16
    ensures HexValue(HexDigit(d)) == Some(d)
  {
  }

  /** `n.toString(16).toUpperCase()` for a byte: one digit below 16. */
  function HexUnpadded(b: Byte): string
  {
    if b < 16 then [HexDigit(b)] else [HexDigit(b / 16), HexDigit(b % 16)]
  }

  /** Two hexadecimal digits, high nibble first. */
  function Hex2(b: Byte): (r: string)
    ensures |r| == 2
  {
    [HexDigit(b / 16), HexDigit(b % 16)]
  }

  /** `%` and two digits per byte. */
  function Percent(bs: seq<Byte>): (r: string)
    decreases |bs|
  {
    if bs == [] then [] else "%" + Hex2(bs[0]) + Percent(bs[1..])
  }

  /** `%` and the unpadded digits per byte, as the loop over the buffer writes. */
  function PercentUnpadded(bs: seq<Byte>): (r: string)
    decreases |bs|
  {
    if bs == [] then [] else "%" + HexUnpadded(bs[0]) + PercentUnpadded(bs[1..])
  }

  /** The UTF-8 bytes of U+FFFD, which a lone UTF-16 surrogate becomes. */
  const REPLACEMENT_BYTES: seq<Byte> := [0xEF, 0xBF, 0xBD]

  /** What `Buffer.from(unit, 'utf8')` gives for the UTF-16 code units of
      one character: its own bytes inside the Basic Multilingual Plane,
      the replacement bytes twice outside it. */
  function CodeUnitBytes(c: char): seq<Byte>
  {
    if c as int < 0x10000 then EncodeChar(c) else REPLACEMENT_BYTES + REPLACEMENT_BYTES
  }

  /** The escaping of one character as written. */
  function EscapeCharAsWritten(c: char): string
  {
    if IsSafe(c) then [c] else PercentUnpadded(CodeUnitBytes(c))
  }

  /** The escaping of one character: its UTF-8 bytes, two digits each. */
  function EscapeChar(c: char): string
  {
    if IsSafe(c) then [c] else Percent(EncodeChar(c))
  }

  /** The escaping loop as written: `split('')`, map, `join('')`. */
  function EscapeAsWritten(s: string): (r: string)
    decreases |s|
  {
    if s == [] then [] else EscapeCharAsWritten(s[0]) + EscapeAsWritten(s[1..])
  }

  /** The escaping loop with each character escaped as intended. */
  function Escape(s: string): (r: string)
    decreases |s|
  {
    if s == [] then [] else EscapeChar(s[0]) + Escape(s[1..])
  }

  /** `encode_uri(uri)`: `normalise` stands for `url.format(url.parse(...))`. */
  function EncodeUri(uri: string, normalise: string -> string): (r: string)
    ensures AllSafe(r)
  {
    EscapeSafe(normalise(uri));
    Escape(normalise(uri))
  }

  lemma {:induction false} PercentSafe(bs: seq<Byte>)
    ensures AllSafe(Percent(bs))
    decreases |bs|
  {
    if bs != [] {
      PercentSafe(bs[1..]);
      var h := Hex2(bs[0]);
      assert IsSafe(h[0]) && IsSafe(h[1]);
    }
  }

  /** Everything the escaping produces is safe. */
  lemma {:induction false} EscapeSafe(s: string)
    ensures AllSafe(Escape(s))
    decreases |s|
  {
    if s != [] {
      EscapeSafe(s[1..]);
      if !IsSafe(s[0]) {
        PercentSafe(EncodeChar(s[0]));
      }
    }
  }

  /** Escaping distributes over concatenation. */
  lemma {:induction false} EscapeAppend(s: string, t: string)
    ensures Escape(s + t) == Escape(s) + Escape(t)
    decreases |s|
  {
    if s != [] {
      assert (s + t)[0] == s[0] && (s + t)[1..] == s[1..] + t;
      assert Escape(s + t) == EscapeChar(s[0]) + Escape(s[1..] + t);
      EscapeAppend(s[1..], t);
      assert Escape(s) == EscapeChar(s[0]) + Escape(s[1..]);
    } else {
      assert s + t == t;
    }
  }

  /** A string of safe characters (a plain ASCII URI, or one already
      percent-encoded) is left as it is. */
  lemma {:induction false} EscapeSafeUnchanged(s: string)
    requires AllSafe(s)
    ensures Escape(s) == s
    decreases |s|
  {
    if s != [] {
      EscapeSafeUnchanged(s[1..]);
    }
  }

  /** Escaping twice is escaping once. */
  lemma EscapeIdempotent(s: string)
    ensures Escape(Escape(s)) == Escape(s)
  {
    EscapeSafe(s);
    EscapeSafeUnchanged(Escape(s));
  }

  /** Reads percent escapes back to bytes: `%` and two hexadecimal digits
      is one byte, any other ASCII character is its own byte. */
  function PercentDecode(s: string): Option<seq<Byte>>
    decreases |s|
  {
    if s == [] then Some([])
    else if s[0] == '%' then
      if |s| < 3 || HexValue(s[1]).None? || HexValue(s[2]).None? then None
      else match PercentDecode(s[3..])
        case None => None
        case Some(rest) => Some([HexValue(s[1]).value * 16 + HexValue(s[2]).value] + rest)
    else if s[0] as int < 0x80 then
      match PercentDecode(s[1..])
      case None => None
      case Some(rest) => Some([s[0] as int] + rest)
    else None
  }

  /** `bs` in front of a decoding. */
  function PrependBytes(bs: seq<Byte>, d: Option<seq<Byte>>): Option<seq<Byte>>
  {
    match d
    case None => None
    case Some(rest) => Some(bs + rest)
  }

  lemma {:induction false} PercentDecodes(bs: seq<Byte>, t: string)
    ensures PercentDecode(Percent(bs) + t) == PrependBytes(bs, PercentDecode(t))
    decreases |bs|
  {
    if bs != [] {
      var s := Percent(bs) + t;
      HexDigitValue(bs[0] / 16);
      HexDigitValue(bs[0] % 16);
      assert s == "%" + Hex2(bs[0]) + (Percent(bs[1..]) + t);
      assert s[1] == HexDigit(bs[0] / 16) && s[2] == HexDigit(bs[0] % 16);
      assert s[3..] == Percent(bs[1..]) + t;
      PercentDecodes(bs[1..], t);
      assert bs[0] == (bs[0] / 16) * 16 + bs[0] % 16;
      assert HexValue(s[1]).value * 16 + HexValue(s[2]).value == bs[0];
      assert [bs[0]] + bs[1..] == bs;
      match PercentDecode(t)
      case None =>
      case Some(rest) =>
        assert PercentDecode(s[3..]) == Some(bs[1..] + rest);
        assert [bs[0]] + (bs[1..] + rest) == bs + rest;
    } else {
      assert Percent(bs) + t == t;
      match PercentDecode(t)
      case None =>
      case Some(rest) => assert bs + rest == rest;
    }
  }

  /** The escaping round-trips to the UTF-8 bytes of any string without a
      `%`: decoding the escapes gives exactly those bytes. */
  lemma {:induction false} EscapeRoundTrip(s: string)
    requires forall i :: 0 <= i < |s| ==> s[i] != '%'
    ensures PercentDecode(Escape(s)) == Some(EncodeString(s))
    decreases |s|
  {
    if s != [] {
      var t := Escape(s[1..]);
      EscapeRoundTrip(s[1..]);
      if IsSafe(s[0]) {
        assert Escape(s) == [s[0]] + t;
        assert (Escape(s))[1..] == t;
      } else {
        PercentDecodes(EncodeChar(s[0]), t);
      }
    }
  }

  /** Hence escaping loses nothing: two strings without `%` that escape
      alike are equal. */
  lemma EscapeInjective(s: string, t: string)
    requires forall i :: 0 <= i < |s| ==> s[i] != '%'
    requires forall i :: 0 <= i < |t| ==> t[i] != '%'
    requires Escape(s) == Escape(t)
    ensures s == t
  {
    EscapeRoundTrip(s);
    EscapeRoundTrip(t);
    EncodeStringInjective(s, t);
  }

  /** As written, U+0001 followed by `2` and U+0012 alone both come out as
      `%12`, and U+0001 alone comes out as `%1`, which does not decode. */
  lemma EscapeAsWrittenCollides()
    ensures EscapeAsWritten("\U{1}2") == "%12" == EscapeAsWritten("\U{12}")
    ensures EscapeAsWritten("\U{1}") == "%1" && PercentDecode("%1").None?
    ensures Escape("\U{1}2") == "%012" && Escape("\U{12}") == "%12"
  {
    assert EncodeChar('\U{1}') == [1] && EncodeChar('\U{12}') == [0x12];
    assert EscapeCharAsWritten('\U{1}') == "%1";
    assert EscapeCharAsWritten('\U{12}') == "%12";
    EscapeOne('\U{1}');
    assert EscapeChar('\U{1}') == "%01";
    assert EscapeChar('\U{12}') == "%12";
    assert "\U{1}2"[1..] == "2" && "\U{1}2"[2..] == [];
    assert EscapeAsWritten("2") == "2";
    assert EscapeAsWritten("\U{1}2") == EscapeCharAsWritten('\U{1}') + EscapeAsWritten("2");
    assert Escape("2") == "2";
    assert Escape("\U{1}2") == EscapeChar('\U{1}') + Escape("2");
    assert HexValue('1').Some? && "%1"[1] == '1';
  }

  lemma EscapeOne(c: char)
    ensures Escape([c]) == EscapeChar(c) && EscapeAsWritten([c]) == EscapeCharAsWritten(c)
  {
    assert [c][1..] == [];
  }

  lemma PercentCons(b: Byte, bs: seq<Byte>)
    ensures Percent([b] + bs) == "%" + Hex2(b) + Percent(bs)
    ensures PercentUnpadded([b] + bs) == "%" + HexUnpadded(b) + PercentUnpadded(bs)
  {
    assert ([b] + bs)[1..] == bs;
  }

  lemma ReplacementEscapedAsWritten()
    ensures EncodeChar('\U{FFFD}') == REPLACEMENT_BYTES
    ensures PercentUnpadded(REPLACEMENT_BYTES) == "%EF%BF%BD"
  {
    PercentUnpaddedStep(0xBD, [], "BD", "");
    PercentUnpaddedStep(0xBF, [0xBD], "BF", "%BD");
    PercentUnpaddedStep(0xEF, [0xBF, 0xBD], "EF", "%BF%BD");
  }

  lemma PercentUnpaddedStep(b: Byte, bs: seq<Byte>, hex: string, tail: string)
    requires HexUnpadded(b) == hex && PercentUnpadded(bs) == tail
    ensures PercentUnpadded([b] + bs) == "%" + hex + tail
  {
    PercentCons(b, bs);
  }

  lemma PercentUnpaddedAppend(bs: seq<Byte>, cs: seq<Byte>)
    ensures PercentUnpadded(bs + cs) == PercentUnpadded(bs) + PercentUnpadded(cs)
    decreases |bs|
  {
    if bs == [] {
      assert bs + cs == cs;
    } else {
      assert (bs + cs)[1..] == bs[1..] + cs;
      PercentUnpaddedAppend(bs[1..], cs);
    }
  }

  lemma AstralBytes()
    ensures EncodeChar('\U{1F600}') == [0xF0, 0x9F, 0x98, 0x80]
  {
  }

  lemma AstralPercent()
    ensures Percent([0xF0, 0x9F, 0x98, 0x80]) == "%F0%9F%98%80"
  {
    PercentStep(0x80, [], "80", "");
    PercentStep(0x98, [0x80], "98", "%80");
    PercentStep(0x9F, [0x98, 0x80], "9F", "%98%80");
    PercentStep(0xF0, [0x9F, 0x98, 0x80], "F0", "%9F%98%80");
  }

  /** One more byte in front of an escaped byte sequence. */
  lemma PercentStep(b: Byte, bs: seq<Byte>, hex: string, tail: string)
    requires Hex2(b) == hex && Percent(bs) == tail
    ensures Percent([b] + bs) == "%" + hex + tail
  {
    PercentCons(b, bs);
  }

  lemma AstralAsWritten()
    ensures EscapeAsWritten("\U{1F600}") == "%EF%BF%BD%EF%BF%BD"
  {
    EscapeOne('\U{1F600}');
    ReplacementEscapedAsWritten();
    PercentUnpaddedAppend(REPLACEMENT_BYTES, REPLACEMENT_BYTES);
  }

  lemma ReplacementPairAsWritten()
    ensures EscapeAsWritten("\U{FFFD}\U{FFFD}") == "%EF%BF%BD%EF%BF%BD"
  {
    EscapeOne('\U{FFFD}');
    ReplacementEscapedAsWritten();
    assert "\U{FFFD}\U{FFFD}"[1..] == "\U{FFFD}";
    assert EscapeAsWritten("\U{FFFD}\U{FFFD}") == EscapeCharAsWritten('\U{FFFD}') + EscapeAsWritten("\U{FFFD}");
  }

  lemma AstralEscapes()
    ensures Escape("\U{1F600}") == "%F0%9F%98%80"
  {
    EscapeOne('\U{1F600}');
    AstralBytes();
    AstralPercent();
  }

  /** As written, a character outside the Basic Multilingual Plane escapes
      like two U+FFFD characters; as intended it escapes to its four bytes. */
  lemma EscapeAsWrittenLosesAstral()
    ensures EscapeAsWritten("\U{1F600}") == "%EF%BF%BD%EF%BF%BD" == EscapeAsWritten("\U{FFFD}\U{FFFD}")
    ensures Escape("\U{1F600}") == "%F0%9F%98%80"
  {
    AstralAsWritten();
    ReplacementPairAsWritten();
    AstralEscapes();
  }

  /** The two escapings agree on every string whose characters lie between
      U+0010 and U+FFFF, which is every string the library's examples use. */
  lemma {:induction false} EscapeAgreement(s: string)
    requires forall i :: 0 <= i < |s| ==> 0x10 <= s[i] as int < 0x10000
    ensures EscapeAsWritten(s) == Escape(s)
    decreases |s|
  {
    if s != [] {
      EscapeAgreement(s[1..]);
      if !IsSafe(s[0]) {
        UnpaddedAgrees(EncodeChar(s[0]));
      }
    }
  }

  lemma {:induction false} UnpaddedAgrees(bs: seq<Byte>)
    requires forall i :: 0 <= i < |bs| ==> bs[i] >= 16
    ensures PercentUnpadded(bs) == Percent(bs)
    decreases |bs|
  {
    if bs != [] {
      UnpaddedAgrees(bs[1..]);
    }
  }

  lemma DashBytes()
    ensures EncodeChar('–') == [0xE2, 0x80, 0x93]
  {
  }

  lemma DashPercent()
    ensures Percent([0xE2, 0x80, 0x93]) == "%E2%80%93"
  {
    PercentStep(0x93, [], "93", "");
    PercentStep(0x80, [0x93], "80", "%93");
    PercentStep(0xE2, [0x80, 0x93], "E2", "%80%93");
  }

  lemma DashEscapes()
    ensures Escape("–") == "%E2%80%93"
  {
    EscapeOne('–');
    DashBytes();
    DashPercent();
  }

  lemma RingEscapes()
    ensures Escape("å") == "%C3%A5"
  {
    EscapeOne('å');
    assert EncodeChar('å') == [0xC3, 0xA5];
    assert Hex2(0xC3) == "C3" && Hex2(0xA5) == "A5";
    PercentCons(0xA5, []);
    PercentCons(0xC3, [0xA5]);
  }

  /** The pieces of the library's example URI around its two non-ASCII
      characters. */
  const EXAMPLE_HEAD := "https://en.wikipedia.org/wiki/Merkle"
  const EXAMPLE_MIDDLE := "Damg"
  const EXAMPLE_TAIL := "rd_construction"

  lemma ExamplePartsSafe()
    ensures AllSafe(EXAMPLE_HEAD) && AllSafe(EXAMPLE_MIDDLE) && AllSafe(EXAMPLE_TAIL)
  {
  }

  /** The library's example (`Merkle–Damgård_construction`): the en dash
      and the `å` get the UTF-8 bytes of each, and the rest stays. */
  lemma EscapeExample()
    ensures Escape(EXAMPLE_HEAD + "–" + EXAMPLE_MIDDLE + "å" + EXAMPLE_TAIL)
      == EXAMPLE_HEAD + "%E2%80%93" + EXAMPLE_MIDDLE + "%C3%A5" + EXAMPLE_TAIL
  {
    var a, b, c := EXAMPLE_HEAD, EXAMPLE_MIDDLE, EXAMPLE_TAIL;
    EscapeAppend(a + "–" + b + "å", c);
    EscapeAppend(a + "–" + b, "å");
    EscapeAppend(a + "–", b);
    EscapeAppend(a, "–");
    ExamplePartsSafe();
    EscapeSafeUnchanged(a);
    EscapeSafeUnchanged(b);
    EscapeSafeUnchanged(c);
    DashEscapes();
    RingEscapes();
  }

  /** Two of the library's examples, in pieces: a plain URI with a query,
      and the same URI with a space already escaped. */
  const API_PATH := "https://en.wikipedia.org/w/api.php"
  const API_QUERY := "?action=query&titles=Abraham"
  const PLAIN_TAIL := "_Lincoln"
  const ESCAPED_TAIL := "%20Lincoln"

  lemma ApiPartsSafe()
    ensures AllSafe(API_PATH) && AllSafe(API_QUERY) && AllSafe(PLAIN_TAIL) && AllSafe(ESCAPED_TAIL)
  {
  }

  /** Plain ASCII and already percent-encoded URIs come out as they went in. */
  lemma PlainUrisUnchanged()
    ensures Escape(API_PATH + API_QUERY + PLAIN_TAIL) == API_PATH + API_QUERY + PLAIN_TAIL
    ensures Escape(API_PATH + API_QUERY + ESCAPED_TAIL) == API_PATH + API_QUERY + ESCAPED_TAIL
  {
    ApiPartsSafe();
    EscapeAppend(API_PATH + API_QUERY, PLAIN_TAIL);
    EscapeAppend(API_PATH + API_QUERY, ESCAPED_TAIL);
    EscapeAppend(API_PATH, API_QUERY);
    EscapeSafeUnchanged(API_PATH);
    EscapeSafeUnchanged(API_QUERY);
    EscapeSafeUnchanged(PLAIN_TAIL);
    EscapeSafeUnchanged(ESCAPED_TAIL);
  }
}
