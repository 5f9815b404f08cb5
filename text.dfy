/**
 The Python 2 string operations the command builders and the RelEx trimming
 rely on: prefix tests, `find`/`rfind` of a separator (behind `split` and
 `rpartition`), `strip`, and `str()` of an integer.
 */
module Text {
  import opened Records

  predicate StartsWith(s: string, prefix: string)
  {
    |prefix| <= |s| && s[..|prefix|] == prefix
  }

  /** The rest of `s` after `prefix`, or None when `s` does not start with it. */
  function StripPrefix(s: string, prefix: string): (r: Option<string>)
    ensures r.Some? <==> StartsWith(s, prefix)
    ensures r.Some? ==> prefix + r.value == s
  {
    if StartsWith(s, prefix) then Some(s[|prefix|..]) else None
  }

  /** The start of `s` before `suffix`, or None when `s` does not end with it. */
  function StripSuffix(s: string, suffix: string): (r: Option<string>)
    ensures r.Some? <==> (|suffix| <= |s| && s[|s| - |suffix|..] == suffix)
    ensures r.Some? ==> r.value + suffix == s
  {
    if |suffix| <= |s| && s[|s| - |suffix|..] == suffix then Some(s[..|s| - |suffix|]) else None
  }

  /** `pat` occurs in `s` starting at index i. */
  predicate OccursAt(s: string, pat: string, i: int)
  {
    0 <= i && i + |pat| <= |s| && s[i..i + |pat|] == pat
  }

  ghost predicate Contains(s: string, pat: string)
  {
    exists i :: OccursAt(s, pat, i)
  }

  /** The first occurrence of `pat` in `s` at an index k or later. */
  function FindFrom(s: string, pat: string, k: nat): (r: Option<nat>)
    decreases |s| - k
    ensures r.Some? ==> k <= r.value && OccursAt(s, pat, r.value)
    ensures r.Some? ==> forall i :: k <= i < r.value ==> !OccursAt(s, pat, i)
    ensures r.None? ==> forall i :: k <= i ==> !OccursAt(s, pat, i)
  {
    if k + |pat| > |s| then None
    else if s[k..k + |pat|] == pat then Some(k)
    else FindFrom(s, pat, k + 1)
  }

  /** Python's `s.find(pat)`, with None for -1: the first occurrence. */
  function Find(s: string, pat: string): (r: Option<nat>)
    ensures r.Some? ==> OccursAt(s, pat, r.value)
    ensures r.Some? ==> forall i :: 0 <= i < r.value ==> !OccursAt(s, pat, i)
    ensures r.None? <==> !Contains(s, pat)
  {
    FindFrom(s, pat, 0)
  }

  /** The last occurrence of `pat` in `s` at an index k or earlier. */
  function RFindFrom(s: string, pat: string, k: nat): (r: Option<nat>)
    ensures r.Some? ==> r.value <= k && OccursAt(s, pat, r.value)
    ensures r.Some? ==> forall i :: r.value < i <= k ==> !OccursAt(s, pat, i)
    ensures r.None? ==> forall i :: 0 <= i <= k ==> !OccursAt(s, pat, i)
  {
    if k + |pat| <= |s| && s[k..k + |pat|] == pat then Some(k)
    else if k == 0 then None
    else RFindFrom(s, pat, k - 1)
  }

  /** Python's `s.rfind(pat)`, with None for -1: the last occurrence. */
  function RFind(s: string, pat: string): (r: Option<nat>)
    ensures r.Some? ==> OccursAt(s, pat, r.value)
    ensures r.Some? ==> forall i :: r.value < i ==> !OccursAt(s, pat, i)
    ensures r.None? <==> !Contains(s, pat)
  {
    RFindFrom(s, pat, |s|)
  }

  /** The characters Python 2's `str.strip()` removes. */
  predicate IsSpace(c: char)
  {
    c == ' ' || c == '\t' || c == '\n' || c == '\r' || c == '\U{000B}' || c == '\U{000C}'
  }

  predicate AllSpace(s: string)
  {
    forall i :: 0 <= i < |s| ==> IsSpace(s[i])
  }

  /** Neither end of `s` is whitespace. */
  predicate Trimmed(s: string)
  {
    s == [] || (!IsSpace(s[0]) && !IsSpace(s[|s| - 1]))
  }

  /** `s.lstrip()`: the suffix left after dropping leading whitespace. */
  function TrimStart(s: string): (r: string)
    ensures |r| <= |s| && r == s[|s| - |r|..]
    ensures AllSpace(s[..|s| - |r|])
    ensures r == [] || !IsSpace(r[0])
  {
    if s != [] && IsSpace(s[0]) then TrimStart(s[1..]) else s
  }

  /** `s.rstrip()`: the prefix left after dropping trailing whitespace. */
  function TrimEnd(s: string): (r: string)
    ensures |r| <= |s| && r == s[..|r|]
    ensures AllSpace(s[|r|..])
    ensures r == [] || !IsSpace(r[|r| - 1])
  {
    if s != [] && IsSpace(s[|s| - 1]) then TrimEnd(s[..|s| - 1]) else s
  }

  /** `s.strip()`: neither end of the result is whitespace. */
  function Strip(s: string): (r: string)
    ensures Trimmed(r)
  {
    var t := TrimStart(s);
    var r := TrimEnd(t);
    assert r != [] ==> r[0] == t[0];
    r
  }

  /**
   What strip leaves: a trimmed slice s[i..i + |r|] of s with only
   whitespace on either side of it.
   */
  lemma StripSlice(s: string) returns (i: nat)
    ensures Trimmed(Strip(s))
    ensures i + |Strip(s)| <= |s| && s[i..i + |Strip(s)|] == Strip(s)
    ensures AllSpace(s[..i]) && AllSpace(s[i + |Strip(s)|..])
  {
    var t := TrimStart(s);
    var r := TrimEnd(t);
    assert r == Strip(s);
    i := |s| - |t|;
    assert AllSpace(s[..i]);
    assert t == s[i..];
    assert r == t[..|r|];
    assert s[i..i + |r|] == r;
    assert AllSpace(t[|r|..]);
    assert s[i + |r|..] == t[|r|..];
    if r != [] {
      assert r[0] == t[0];
      assert !IsSpace(r[0]);
    }
  }

  lemma {:induction false} TrimStartSkips(a: string, t: string)
    requires AllSpace(a) && (t == [] || !IsSpace(t[0]))
    ensures TrimStart(a + t) == t
  {
    if a != [] {
      assert (a + t)[1..] == a[1..] + t;
      TrimStartSkips(a[1..], t);
    } else {
      assert a + t == t;
    }
  }

  lemma {:induction false} TrimEndSkips(t: string, b: string)
    requires AllSpace(b) && (t == [] || !IsSpace(t[|t| - 1]))
    ensures TrimEnd(t + b) == t
  {
    if b != [] {
      assert (t + b)[..|t + b| - 1] == t + b[..|b| - 1];
      TrimEndSkips(t, b[..|b| - 1]);
    } else {
      assert t + b == t;
    }
  }

  /**
   Strip is characterised by its result alone: whatever whitespace surrounds
   a trimmed string m, stripping gives back m.
   */
  lemma StripOf(a: string, m: string, b: string)
    requires AllSpace(a) && Trimmed(m) && AllSpace(b)
    ensures Strip(a + m + b) == m
  {
    if m == [] {
      assert a + m + b == (a + b) + [];
      TrimStartSkips(a + b, []);
    } else {
      assert a + m + b == a + (m + b);
      TrimStartSkips(a, m + b);
      TrimEndSkips(m, b);
    }
  }

  /** Stripping twice is stripping once. */
  lemma StripIdempotent(s: string)
    ensures Strip(Strip(s)) == Strip(s)
  {
  }

  predicate IsDigit(c: char)
  {
    '0' <= c <= '9'
  }

  function DigitChar(d: nat): (c: char)
    requires d < 10
  {
    "0123456789"[d]
  }

  function DigitValue(c: char): (d: nat)
    requires IsDigit(c)
  {
    (c as int - '0' as int) as nat
  }

  /** A non-empty string of decimal digits whose only numeral starting with '0' is "0" itself. */
  predicate IsNumeral(s: string)
  {
    s != [] && (forall i :: 0 <= i < |s| ==> IsDigit(s[i])) && (s[0] == '0' ==> s == "0")
  }

  /** Decimal digits of a natural number, without leading zeros. */
  function NatToDecimal(n: nat): (r: string)
    ensures |r| > 0 && forall i :: 0 <= i < |r| ==> IsDigit(r[i])
    ensures r[0] == '0' ==> r == "0"
    ensures r == "0" <==> n == 0
  {
    if n < 10 then [DigitChar(n)]
    else
      var high := NatToDecimal(n / 10);
      assert (high + [DigitChar(n % 10)])[0] == high[0];
      high + [DigitChar(n % 10)]
  }

  /** The value of a string of decimal digits. */
  function DecimalValue(s: string): nat
    requires forall i :: 0 <= i < |s| ==> IsDigit(s[i])
  {
    if s == [] then 0 else DecimalValue(s[..|s| - 1]) * 10 + DigitValue(s[|s| - 1])
  }

  /**
   Reading back an optionally signed decimal numeral in the form `str()`
   produces: no leading zero, and no "-0".
   */
  function ParseInt(s: string): Option<int>
  {
    if s != [] && s[0] == '-' then
      var digits := s[1..];
      if IsNumeral(digits) && digits != "0" then Some(0 - DecimalValue(digits) as int) else None
    else if IsNumeral(s) then Some(DecimalValue(s) as int)
    else None
  }

  lemma {:induction false} NatToDecimalValue(n: nat)
    ensures DecimalValue(NatToDecimal(n)) == n
  {
    var r := NatToDecimal(n);
    if n >= 10 {
      NatToDecimalValue(n / 10);
      assert r[..|r| - 1] == NatToDecimal(n / 10);
      assert r[|r| - 1] == DigitChar(n % 10);
    }
  }

  /**
   Python 2's `str(v)` / `"{0}".format(v)` for an integer v: formatting
   and reading back gives the integer.
   */
  function IntToDecimal(v: int): (r: string)
    ensures ParseInt(r) == Some(v)
  {
    if v < 0 then
      var digits := NatToDecimal(-v);
      NatToDecimalValue(-v);
      assert ("-" + digits)[0] == '-' && ("-" + digits)[1..] == digits;
      "-" + digits
    else
      var digits := NatToDecimal(v);
      NatToDecimalValue(v);
      assert digits[0] != '-';
      digits
  }

  lemma DigitRoundTrip(c: char)
    requires IsDigit(c)
    ensures DigitChar(DigitValue(c)) == c
  {
    var d := DigitValue(c);
    if d == 0 { assert c == '0'; } else if d == 1 { assert c == '1'; }
    else if d == 2 { assert c == '2'; } else if d == 3 { assert c == '3'; }
    else if d == 4 { assert c == '4'; } else if d == 5 { assert c == '5'; }
    else if d == 6 { assert c == '6'; } else if d == 7 { assert c == '7'; }
    else if d == 8 { assert c == '8'; } else { assert c == '9'; }
  }

  /** A numeral with a non-zero first digit has a positive value. */
  lemma {:induction false} NumeralPositive(s: string)
    requires s != [] && (forall i :: 0 <= i < |s| ==> IsDigit(s[i])) && s[0] != '0'
    ensures DecimalValue(s) >= 1
  {
    if |s| > 1 {
      NumeralPositive(s[..|s| - 1]);
    }
  }

  /** A numeral is the decimal form of its own value. */
  lemma {:induction false} NumeralCanonical(s: string)
    requires IsNumeral(s)
    ensures NatToDecimal(DecimalValue(s)) == s
  {
    var last := s[|s| - 1];
    if |s| == 1 {
      assert s[..0] == [];
      DigitRoundTrip(last);
      assert s == [last];
    } else {
      var init := s[..|s| - 1];
      assert init[0] == s[0];
      NumeralCanonical(init);
      NumeralPositive(init);
      var n := DecimalValue(s);
      assert n == DecimalValue(init) * 10 + DigitValue(last);
      assert n / 10 == DecimalValue(init) && n % 10 == DigitValue(last);
      DigitRoundTrip(last);
      assert s == init + [last];
    }
  }

  /** Whatever ParseInt accepts is exactly the decimal form of the value it reads. */
  lemma IntToDecimalSound(s: string, v: int)
    requires ParseInt(s) == Some(v)
    ensures IntToDecimal(v) == s
  {
    if s != [] && s[0] == '-' {
      var digits := s[1..];
      NumeralPositive(digits);
      NumeralCanonical(digits);
      assert s == "-" + digits;
    } else {
      NumeralCanonical(s);
    }
  }
}
