/**
 * The text conversions the page relies on: `str::parse::<usize>` for a guess,
 * `{:.2}` for the displayed points, and `str::parse::<f32>` when
 * `finish_game` reads those points back from the page.
 */
module Decimal {
  import opened Opt

  /** `usize::MAX` on wasm32, the target a browser page is compiled for. */
  const UsizeMax: nat := 0xFFFF_FFFF

  predicate IsDigit(c: char)
  {
    '0' <= c <= '9'
  }

  /** Every character is a decimal digit (checked from the last one back). */
  predicate AllDigits(s: string)
  {
    s == [] || (AllDigits(s[..|s| - 1]) && IsDigit(s[|s| - 1]))
  }

  lemma {:induction false} AllDigitsAt(s: string)
    ensures AllDigits(s) <==> forall i :: 0 <= i < |s| ==> IsDigit(s[i])
  {
    if s != [] {
      var init := s[..|s| - 1];
      AllDigitsAt(init);
      assert forall i :: 0 <= i < |init| ==> init[i] == s[i];
    }
  }

  function DigitChar(d: nat): (c: char)
    requires d < 10
    ensures IsDigit(c) && c as int - '0' as int == d
  {
    ('0' as int + d) as char
  }

  function DigitValue(c: char): (d: nat)
    requires IsDigit(c)
    ensures d < 10 && DigitChar(d) == c
  {
    c as int - '0' as int
  }

  /** The value of a string of decimal digits, most significant first. */
  function DigitsValue(s: string): nat
    requires AllDigits(s)
  {
    if s == [] then 0 else DigitsValue(s[..|s| - 1]) * 10 + DigitValue(s[|s| - 1])
  }

  /** `x` divided by 10, `k` times. */
  function Shift(x: real, k: nat): real
  {
    if k == 0 then x else Shift(x, k - 1) / 10.0
  }

  /** The canonical decimal text of a natural number: digits only, no leading zero. */
  function NatToDecimal(n: nat): (s: string)
    ensures |s| > 0 && AllDigits(s)
    ensures s[0] == '0' ==> n == 0
  {
    if n < 10 then [DigitChar(n)] else NatToDecimal(n / 10) + [DigitChar(n % 10)]
  }

  lemma {:induction false} NatToDecimalValue(n: nat)
    ensures DigitsValue(NatToDecimal(n)) == n
  {
    if n >= 10 {
      var s := NatToDecimal(n);
      assert s[..|s| - 1] == NatToDecimal(n / 10);
      NatToDecimalValue(n / 10);
    }
  }

  /**
   * `str::parse::<usize>`: an optional leading `+`, then one or more ASCII
   * digits whose value fits in a `usize`. A lone sign, a `-`, a decimal point,
   * an exponent or an empty text is an error.
   */
  function ParseUsize(s: string): Option<nat>
  {
    if s == [] || (|s| == 1 && (s[0] == '+' || s[0] == '-')) then None
    else
      var digits := if s[0] == '+' then s[1..] else s;
      if AllDigits(digits) && DigitsValue(digits) <= UsizeMax then Some(DigitsValue(digits)) else None
  }

  /** Every value a `usize` holds is read back from its decimal text, with or without a `+`. */
  lemma ParseUsizeDecimal(n: nat)
    requires n <= UsizeMax
    ensures ParseUsize(NatToDecimal(n)) == Some(n)
    ensures ParseUsize("+" + NatToDecimal(n)) == Some(n)
  {
    NatToDecimalValue(n);
    AllDigitsAt(NatToDecimal(n));
    assert ("+" + NatToDecimal(n))[1..] == NatToDecimal(n);
  }

  /** Any character other than a digit, or a `+` in first place, makes the parse fail: so do `-3`, `1.5` and `1e3`. */
  lemma ParseUsizeRejects(s: string, i: nat)
    requires i < |s| && !IsDigit(s[i]) && !(i == 0 && s[i] == '+')
    ensures ParseUsize(s) == None
  {
    AllDigitsAt(s);
    if |s| > 1 && s[0] == '+' {
      AllDigitsAt(s[1..]);
      assert !IsDigit(s[1..][i - 1]);
    }
  }

  /** A text of digits only is a guess exactly when its value fits in a `usize`. */
  lemma ParseUsizeDigits(s: string)
    requires s != [] && AllDigits(s)
    ensures ParseUsize(s) == if DigitsValue(s) <= UsizeMax then Some(DigitsValue(s)) else None
  {
    AllDigitsAt(s);
  }

  /** The two digits of `r` below 100, leading zero included. */
  function TwoDigits(r: nat): string
    requires r < 100
  {
    [DigitChar(r / 10), DigitChar(r % 10)]
  }

  /**
   * `{:.N}` of the non-negative value `m / 10^places`: the digits of `m`, with
   * a `.` before the last `places` of them and enough leading zeros that the
   * whole part has one digit at least.
   */
  function Fixed(m: nat, places: nat): string
    decreases places
  {
    if places == 0 then NatToDecimal(m)
    else Fixed(m / 10, places - 1) + (if places == 1 then "." else "") + [DigitChar(m % 10)]
  }

  /** With two places: the whole part, `.`, then the two digits of the hundredths. */
  lemma FixedTwo(m: nat)
    ensures Fixed(m, 2) == NatToDecimal(m / 100) + "." + TwoDigits(m % 100)
  {
    var q, r := m / 100, m % 100;
    assert m == 100 * q + r;
    assert m / 10 == 10 * q + r / 10;
    assert (m / 10) / 10 == q && (m / 10) % 10 == r / 10 && m % 10 == r % 10;
    assert Fixed(m / 10, 1) == NatToDecimal(q) + "." + [DigitChar(r / 10)];
  }

  /** Rust's `{:.2}` of a value whose hundredths are `h`: a `-` when it is negative, then its magnitude. */
  function FormatFixed2(h: int): string
    decreases if h < 0 then 1 else 0
  {
    if h < 0 then "-" + FormatFixed2(-h) else Fixed(h, 2)
  }

  /** The count of fractional digits: `None` before the `.`, one more per digit after it. */
  function NextFrac(frac: Option<nat>): Option<nat>
  {
    match frac
    case None => None
    case Some(k) => Some(k + 1)
  }

  /**
   * Scan an unsigned decimal left to right: digits, at most one `.`, and at
   * least one digit in all. `acc` is the value of the digits read so far,
   * `frac` how many of them follow the `.`, `seen` whether any was read.
   */
  function Scan(t: string, acc: nat, frac: Option<nat>, seen: bool): Option<real>
    decreases |t|
  {
    if t == [] then
      if seen then Some(Shift(acc as real, if frac.Some? then frac.value else 0)) else None
    else if IsDigit(t[0]) then Scan(t[1..], acc * 10 + DigitValue(t[0]), NextFrac(frac), true)
    else if t[0] == '.' && frac.None? then Scan(t[1..], acc, Some(0), seen)
    else None
  }

  /** `str::parse::<f32>` on decimal text: at most one sign, then an unsigned decimal. */
  function ParseFloat(s: string): Option<real>
  {
    if s != [] && s[0] == '+' then Scan(s[1..], 0, None, false)
    else if s != [] && s[0] == '-' then
      match Scan(s[1..], 0, None, false)
      case Some(v) => Some(-v)
      case None => None
    else Scan(s, 0, None, false)
  }

  lemma DigitsValueSnoc(p: string, c: char)
    requires AllDigits(p) && IsDigit(c)
    ensures AllDigits(p + [c]) && DigitsValue(p + [c]) == DigitsValue(p) * 10 + DigitValue(c)
  {
    assert (p + [c])[..|p|] == p;
  }

  lemma AllDigitsSplit(d: string)
    requires AllDigits(d) && d != []
    ensures IsDigit(d[0]) && AllDigits(d[1..])
  {
    AllDigitsAt(d);
    AllDigitsAt(d[1..]);
  }

  /** Scanning one digit appends it to the digits already read. */
  lemma ScanOneDigit(p: string, c: char, t: string, frac: Option<nat>, seen: bool)
    requires AllDigits(p) && IsDigit(c)
    ensures AllDigits(p + [c])
    ensures Scan([c] + t, DigitsValue(p), frac, seen) == Scan(t, DigitsValue(p + [c]), NextFrac(frac), true)
  {
    assert ([c] + t)[0] == c && ([c] + t)[1..] == t;
    DigitsValueSnoc(p, c);
  }

  /** Scanning a run of digits appends them to the digits already read. */
  lemma {:induction false} ScanDigits(p: string, d: string, rest: string, frac: Option<nat>, seen: bool)
    requires AllDigits(p) && AllDigits(d)
    decreases d
    ensures AllDigits(p + d)
    ensures Scan(d + rest, DigitsValue(p), frac, seen)
      == Scan(rest, DigitsValue(p + d), if frac.Some? then Some(frac.value + |d|) else None, seen || d != [])
  {
    if d == [] {
      assert d + rest == rest && p + d == p;
    } else {
      var c := d[0];
      AllDigitsSplit(d);
      assert d + rest == [c] + (d[1..] + rest);
      ScanOneDigit(p, c, d[1..] + rest, frac, seen);
      ScanDigits(p + [c], d[1..], rest, NextFrac(frac), true);
      assert p + [c] + d[1..] == p + d;
    }
  }

  lemma DigitsValueTwo(w: string, f: string)
    requires AllDigits(w) && |f| == 2 && IsDigit(f[0]) && IsDigit(f[1])
    ensures AllDigits(w + f) && DigitsValue(w + f) == DigitsValue(w) * 100 + DigitValue(f[0]) * 10 + DigitValue(f[1])
  {
    DigitsValueSnoc(w, f[0]);
    DigitsValueSnoc(w + [f[0]], f[1]);
    assert w + [f[0]] + [f[1]] == w + f;
  }

  lemma TwoDigitsValue(r: nat)
    requires r < 100
    ensures AllDigits(TwoDigits(r)) && DigitsValue(TwoDigits(r)) == r
  {
    var hi, lo := DigitChar(r / 10), DigitChar(r % 10);
    var f := [hi, lo];
    assert f[..1] == [hi] && f[1] == lo;
    assert AllDigits([hi]) by { assert [hi][..0] == []; }
    assert [hi][..0] == [];
    assert DigitsValue([hi]) == DigitValue(hi) == r / 10;
    assert DigitsValue(f) == DigitsValue([hi]) * 10 + DigitValue(lo);
    assert DigitValue(lo) == r % 10;
  }

  /** Digits, a `.` and two more digits scan to the value of all the digits shifted by two places. */
  lemma ScanWholeDotTwo(w: string, f: string)
    requires AllDigits(w) && |f| == 2 && IsDigit(f[0]) && IsDigit(f[1])
    ensures AllDigits(w + f)
    ensures Scan(w + ("." + f), 0, None, false) == Some(Shift(DigitsValue(w + f) as real, 2))
  {
    var dotf := "." + f;
    assert [] + w == w;
    ScanDigits([], w, dotf, None, false);
    assert dotf[0] == '.' && dotf[1..] == f;
    assert Scan(dotf, DigitsValue(w), None, true) == Scan(f, DigitsValue(w), Some(0), true);
    AllDigitsAt(f);
    ScanDigits(w, f, [], Some(0), true);
    assert f + [] == f;
  }

  /** The unsigned text of `{:.2}` reads back as its value. */
  lemma UnsignedFixed2(m: nat)
    ensures Scan(Fixed(m, 2), 0, None, false) == Some(m as real / 100.0)
  {
    var q, r := m / 100, m % 100;
    var w, f := NatToDecimal(q), TwoDigits(r);
    FixedTwo(m);
    assert Fixed(m, 2) == w + ("." + f);
    ScanWholeDotTwo(w, f);
    TwoDigitsValue(r);
    NatToDecimalValue(q);
    DigitsValueTwo(w, f);
    var v := DigitsValue(w + f);
    assert v == 100 * q + r == m;
    assert Shift(v as real, 1) == v as real / 10.0;
    assert Shift(v as real, 2) == v as real / 100.0;
  }

  /** The text of `{:.2}` of a non-negative value starts with a digit. */
  lemma FixedLeadingDigit(m: nat)
    ensures Fixed(m, 2) != [] && IsDigit(Fixed(m, 2)[0])
  {
    FixedTwo(m);
    var w := NatToDecimal(m / 100);
    AllDigitsAt(w);
    assert Fixed(m, 2)[0] == w[0];
  }

  /** A text that starts with a digit is parsed unsigned, and with a `-` in front as the negation. */
  lemma ParseSigned(u: string, v: real)
    requires u != [] && IsDigit(u[0]) && Scan(u, 0, None, false) == Some(v)
    ensures ParseFloat(u) == Some(v)
    ensures ParseFloat("-" + u) == Some(-v)
  {
    assert ("-" + u)[0] == '-' && ("-" + u)[1..] == u;
  }

  lemma FormatNegative(h: int)
    requires h < 0
    ensures ParseFloat(FormatFixed2(h)) == Some(h as real / 100.0)
  {
    var m: nat := -h;
    assert FormatFixed2(h) == "-" + FormatFixed2(m);
    assert FormatFixed2(m) == Fixed(m, 2);
    UnsignedFixed2(m);
    FixedLeadingDigit(m);
    ParseSigned(Fixed(m, 2), m as real / 100.0);
    assert -(m as real / 100.0) == h as real / 100.0;
  }

  lemma FormatNonNegative(h: int)
    requires h >= 0
    ensures ParseFloat(FormatFixed2(h)) == Some(h as real / 100.0)
  {
    var m: nat := h;
    assert FormatFixed2(h) == Fixed(m, 2);
    UnsignedFixed2(m);
    FixedLeadingDigit(m);
    ParseSigned(Fixed(m, 2), m as real / 100.0);
  }

  /** `{:.2}` and the decimal parse are inverse on hundredths, whatever the sign. */
  lemma FormatFixed2Value(h: int)
    ensures ParseFloat(FormatFixed2(h)) == Some(h as real / 100.0)
  {
    if h < 0 {
      FormatNegative(h);
    } else {
      FormatNonNegative(h);
    }
  }

  /**
   * The text of a score cell is `+` followed by `{:.2}`. It reads back as its
   * value when that is not negative; a negative value gives `+-…`, two signs,
   * which the parse rejects.
   */
  lemma ScoreTextValue(h: int)
    ensures ParseFloat("+" + FormatFixed2(h)) == if h >= 0 then Some(h as real / 100.0) else None
  {
    var t := FormatFixed2(h);
    assert ("+" + t)[0] == '+' && ("+" + t)[1..] == t;
    if h >= 0 {
      UnsignedFixed2(h);
    } else {
      assert t[0] == '-';
    }
  }
}
