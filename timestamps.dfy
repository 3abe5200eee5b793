/** The hatch timestamp `YYYYMMDD_HHMMSS` (local time), and its reading back. */
module Timestamps {
  import opened Wrappers
  import opened Decimal

  /** A reading of the local clock, as `Date`'s getters return it. */
  datatype LocalTime = LocalTime(year: nat, month: nat, day: nat, hour: nat, minute: nat, second: nat)

  predicate ValidTime(t: LocalTime)
  {
    1 <= t.month <= 12 && 1 <= t.day <= 31 && t.hour < 24 && t.minute < 60 && t.second < 60
  }

  /** `(n < 10 ? "0" : "") + n`. */
  function Pad2(n: nat): string
  {
    (if n < 10 then "0" else "") + NatToString(n)
  }

  lemma Pad2Spec(n: nat)
    requires n < 100
    ensures |Pad2(n)| == 2 && AllDigits(Pad2(n)) && ParseDigits(Pad2(n)) == n
  {
    var p := Pad2(n);
    ParseNatToString(n);
    if n < 10 {
      assert p == ['0', DigitChar(n)];
      assert p[..1] == "0";
      assert ParseDigits(p[..1]) == 0 by { assert p[..1][..0] == []; }
    }
  }

  /** `getTimestamp()`: the year as printed, then month, day, hour, minute
      and second each padded to two digits, with `_` between date and time. */
  function Timestamp(t: LocalTime): string
  {
    NatToString(t.year) + (Pad2(t.month) + Pad2(t.day) + "_" + Pad2(t.hour) + Pad2(t.minute) + Pad2(t.second))
  }

  /** Reads a timestamp back: everything before the last eleven characters
      is the year. */
  function ParseTimestamp(s: string): Option<LocalTime>
  {
    if |s| < 12 then None
    else
      var n := |s| - 11;
      var y, tail := s[..n], s[n..];
      if tail[4] != '_' then None
      else
        var mo, d, h, mi, se := tail[0..2], tail[2..4], tail[5..7], tail[7..9], tail[9..11];
        if AllDigits(y) && AllDigits(mo) && AllDigits(d) && AllDigits(h) && AllDigits(mi) && AllDigits(se) then
          Some(LocalTime(ParseDigits(y), ParseDigits(mo), ParseDigits(d), ParseDigits(h), ParseDigits(mi), ParseDigits(se)))
        else None
  }

  /** Every field survives formatting: the timestamp determines the clock reading. */
  lemma TimestampRoundTrip(t: LocalTime)
    requires ValidTime(t)
    ensures ParseTimestamp(Timestamp(t)) == Some(t)
  {
    var y := NatToString(t.year);
    var mo, d, h, mi, se := Pad2(t.month), Pad2(t.day), Pad2(t.hour), Pad2(t.minute), Pad2(t.second);
    Pad2Spec(t.month); Pad2Spec(t.day); Pad2Spec(t.hour); Pad2Spec(t.minute); Pad2Spec(t.second);
    ParseNatToString(t.year);
    var tail := mo + d + "_" + h + mi + se;
    assert |tail| == 11;
    assert tail[0..2] == mo && tail[2..4] == d && tail[4] == '_';
    assert tail[5..7] == h && tail[7..9] == mi && tail[9..11] == se;
    var s := Timestamp(t);
    assert s == y + tail;
    assert s[..|y|] == y && s[|y|..] == tail;
  }

  lemma NumeralLength4(n: nat)
    requires 1000 <= n <= 9999
    ensures |NatToString(n)| == 4
  {
    assert |NatToString(n / 1000)| == 1;
    assert n / 100 / 10 == n / 1000;
    assert n / 10 / 10 == n / 100;
  }

  /** For a four-digit year the timestamp is fifteen characters: fourteen
      digits with `_` at index 8. */
  lemma TimestampShape(t: LocalTime)
    requires ValidTime(t) && 1000 <= t.year <= 9999
    ensures var s := Timestamp(t);
      |s| == 15 && s[8] == '_' && forall i :: 0 <= i < 15 && i != 8 ==> IsDigit(s[i])
  {
    var y := NatToString(t.year);
    NumeralLength4(t.year);
    Pad2Spec(t.month); Pad2Spec(t.day); Pad2Spec(t.hour); Pad2Spec(t.minute); Pad2Spec(t.second);
    var tail := Pad2(t.month) + Pad2(t.day) + "_" + Pad2(t.hour) + Pad2(t.minute) + Pad2(t.second);
    assert Timestamp(t) == y + tail;
    assert forall i :: 0 <= i < 11 && i != 4 ==> IsDigit(tail[i]);
  }
}
