/**
 The `YYYY-MM-DD` text of a date: `date.isoformat()` and the canonical
 strings accepted by `strptime(s, '%Y-%m-%d')`.
 */
module IsoDate {
  import opened Wrappers
  import opened Calendar

  predicate IsDigit(c: char) {
    '0' <= c <= '9'
  }

  function DigitChar(n: int): (c: char)
    requires 0 <= n <= 9
    ensures IsDigit(c) && c as int - '0' as int == n
  {
    "0123456789"[n]
  }

  /** The number written by a string of decimal digits. */
  function DigitsValue(s: string): (v: nat)
    requires forall i :: 0 <= i < |s| ==> IsDigit(s[i])
  {
    if |s| == 0 then 0
    else
      assert IsDigit(s[|s| - 1]);
      DigitsValue(s[..|s| - 1]) * 10 + (s[|s| - 1] as int - '0' as int)
  }

  /** n written with exactly `width` digits, zero-padded on the left. */
  function Padded(n: nat, width: nat): (s: string)
    requires n < Pow10(width)
    ensures |s| == width
    ensures forall i :: 0 <= i < |s| ==> IsDigit(s[i])
  {
    if width == 0 then "" else Padded(n / 10, width - 1) + [DigitChar(n % 10)]
  }

  function Pow10(k: nat): (p: nat)
    ensures p >= 1
  {
    if k == 0 then 1 else 10 * Pow10(k - 1)
  }

  lemma {:induction false} PaddedValue(n: nat, width: nat)
    requires n < Pow10(width)
    ensures DigitsValue(Padded(n, width)) == n
  {
    if width > 0 {
      var s := Padded(n, width);
      assert s[..|s| - 1] == Padded(n / 10, width - 1);
      PaddedValue(n / 10, width - 1);
    }
  }

  lemma {:induction false} ValuePadded(s: string)
    requires forall i :: 0 <= i < |s| ==> IsDigit(s[i])
    ensures DigitsValue(s) < Pow10(|s|)
    ensures Padded(DigitsValue(s), |s|) == s
  {
    if |s| > 0 {
      var t := s[..|s| - 1];
      ValuePadded(t);
      var v := DigitsValue(s);
      var d := s[|s| - 1] as int - '0' as int;
      assert v / 10 == DigitsValue(t) && v % 10 == d;
      assert s == t + [s[|s| - 1]];
    }
  }

  /** `date.isoformat()`: four-digit year, two-digit month and day, zero-padded,
      that together name the date `d`. */
  function FormatIso(d: Day): (s: string)
    ensures IsoShaped(s)
    ensures var c := Civil(DigitsValue(s[0..4]), DigitsValue(s[5..7]), DigitsValue(s[8..10]));
            ValidCivil(c.year, c.month, c.day) && ToOrdinal(c) == d
  {
    var c := FromOrdinal(d);
    FormatCivilDigits(c);
    FormatCivil(c)
  }

  /** The digits `FormatCivil` writes read back as the year, month and day. */
  lemma FormatCivilDigits(c: Civil)
    requires ValidCivil(c.year, c.month, c.day)
    ensures var s := FormatCivil(c);
            DigitsValue(s[0..4]) == c.year && DigitsValue(s[5..7]) == c.month && DigitsValue(s[8..10]) == c.day
  {
    Pow10Values();
    PaddedValue(c.year, 4);
    PaddedValue(c.month, 2);
    PaddedValue(c.day, 2);
  }

  function FormatCivil(c: Civil): (s: string)
    requires ValidCivil(c.year, c.month, c.day)
    ensures IsoShaped(s)
    ensures s[0..4] == Padded(c.year, 4) && s[5..7] == Padded(c.month, 2) && s[8..10] == Padded(c.day, 2)
  {
    Pow10Values();
    var ys, ms, ds := Padded(c.year, 4), Padded(c.month, 2), Padded(c.day, 2);
    var s := ys + "-" + ms + "-" + ds;
    assert forall i :: 0 <= i < 4 ==> s[i] == ys[i];
    assert forall i :: 5 <= i < 7 ==> s[i] == ms[i - 5];
    assert forall i :: 8 <= i < 10 ==> s[i] == ds[i - 8];
    s
  }

  lemma Pow10Values()
    ensures Pow10(2) == 100 && Pow10(4) == 10000
  {
    assert Pow10(1) == 10;
    assert Pow10(3) == 1000;
  }

  /** Shape of a canonical date string: digits with dashes at offsets 4 and 7. */
  predicate IsoShaped(s: string) {
    && |s| == 10 && s[4] == '-' && s[7] == '-'
    && (forall i :: 0 <= i < 10 && i != 4 && i != 7 ==> IsDigit(s[i]))
  }

  /** Reads a canonical `YYYY-MM-DD` string; None for any other text or an impossible date. */
  function ParseIso(s: string): Option<Day> {
    if !IsoShaped(s) then None
    else
      var c := Civil(DigitsValue(s[0..4]), DigitsValue(s[5..7]), DigitsValue(s[8..10]));
      if ValidCivil(c.year, c.month, c.day) then
        CivilRoundTrip(c);
        Some(ToOrdinal(c))
      else None
  }

  /** Formatting then parsing gives back the date. */
  lemma FormatThenParse(d: Day)
    ensures ParseIso(FormatIso(d)) == Some(d)
  {
  }

  /** A string that parses is exactly the formatted text of its date. */
  lemma ParseThenFormat(s: string, d: Day)
    requires ParseIso(s) == Some(d)
    ensures FormatIso(d) == s
  {
    var c := Civil(DigitsValue(s[0..4]), DigitsValue(s[5..7]), DigitsValue(s[8..10]));
    assert ValidCivil(c.year, c.month, c.day) && ToOrdinal(c) == d;
    CivilRoundTrip(c);
    var t := FormatCivil(c);
    assert FormatIso(d) == t;
    ValuePadded(s[0..4]);
    ValuePadded(s[5..7]);
    ValuePadded(s[8..10]);
    assert t[0..4] == s[0..4] && t[5..7] == s[5..7] && t[8..10] == s[8..10];
    assert s == s[0..4] + "-" + s[5..7] + "-" + s[8..10];
    assert t == t[0..4] + "-" + t[5..7] + "-" + t[8..10];
  }
}
