/** The few Python 2 built-ins the daemon relies on, over `str` values
    modelled as `seq<char>`: `strip`/`rstrip`, `lower`, `ljust`, `split`,
    `join`, slicing past the end, `str(int)`, `int(str)` and
    `posixpath.join`. Each is stated by its defining property, so that the
    protocol modules can be reasoned about without unfolding bodies. */
module PyBuiltins {

  datatype Option<T> = None | Some(value: T)

  /** The exceptions the modelled code can raise. */
  datatype PyError = IndexError | TypeError | ValueError

  /** A call that either returns a value or raises. */
  datatype Result<T> = Ok(value: T) | Err(error: PyError)

  function Min(a: int, b: int): int { if a <= b then a else b }
  function Max(a: int, b: int): int { if a >= b then a else b }

  /** The characters `str.strip()` removes in Python 2 (C locale). */
  predicate IsSpace(c: char) {
    c == ' ' || c == '\t' || c == '\n' || c == '\r' || c == 11 as char || c == 12 as char
  }

  /** `s` does not end with whitespace (so `s.rstrip() == s`). */
  predicate NoTrailingSpace(s: string) {
    |s| == 0 || !IsSpace(s[|s| - 1])
  }

  /** `s.rstrip()`: the longest prefix of `s` that does not end with whitespace. */
  function RStrip(s: string): (r: string)
    ensures |r| <= |s| && r == s[..|r|]
    ensures forall i :: |r| <= i < |s| ==> IsSpace(s[i])
    ensures NoTrailingSpace(r)
  {
    if |s| == 0 || !IsSpace(s[|s| - 1]) then s else RStrip(s[..|s| - 1])
  }

  /** `s.lstrip()`: `s` with its leading whitespace removed. */
  function LStrip(s: string): (r: string)
    ensures |r| <= |s| && r == s[|s| - |r|..]
    ensures forall i :: 0 <= i < |s| - |r| ==> IsSpace(s[i])
    ensures |r| == 0 || !IsSpace(r[0])
  {
    if |s| == 0 || !IsSpace(s[0]) then s else LStrip(s[1..])
  }

  /** `s.strip()`. */
  function Strip(s: string): string {
    LStrip(RStrip(s))
  }

  /** Neither end of `s.strip()` is whitespace. */
  lemma {:induction false} StripEnds(s: string)
    ensures var r := Strip(s);
      && |r| <= |s|
      && (|r| == 0 || (!IsSpace(r[0]) && !IsSpace(r[|r| - 1])))
  {
    var t := RStrip(s);
    var r := LStrip(t);
    assert |r| > 0 ==> r[|r| - 1] == t[|t| - 1];
  }

  /** `s.strip()` is empty exactly when `s` is all whitespace. */
  lemma {:induction false} StripBlank(s: string)
    ensures |Strip(s)| == 0 <==> forall i :: 0 <= i < |s| ==> IsSpace(s[i])
  {
    var t := RStrip(s);
    assert |Strip(s)| == 0 ==> |t| == 0;
  }

  function LowerChar(c: char): char {
    if 'A' <= c <= 'Z' then (c as int + 32) as char else c
  }

  /** `s.lower()`: ASCII upper-case letters mapped to lower case, all else kept. */
  function Lower(s: string): (r: string)
    ensures |r| == |s|
    ensures forall i :: 0 <= i < |s| ==> r[i] == LowerChar(s[i])
  {
    if |s| == 0 then [] else [LowerChar(s[0])] + Lower(s[1..])
  }

  function Spaces(n: nat): (r: string)
    ensures |r| == n && forall i :: 0 <= i < n ==> r[i] == ' '
  {
    if n == 0 then [] else Spaces(n - 1) + [' ']
  }

  /** `s.ljust(width)`: padded on the right with spaces, never truncated. */
  function LJust(s: string, width: int): string {
    if |s| >= width then s else s + Spaces(width - |s|)
  }

  /** `ljust` keeps `s` in front and pads with spaces up to `width`. */
  lemma LJustPads(s: string, width: int)
    ensures var r := LJust(s, width);
      && |r| == Max(|s|, width)
      && r[..|s|] == s
      && forall i :: |s| <= i < |r| ==> r[i] == ' '
  {
  }

  /** `s[k:]`: empty when `k` is past the end. */
  function Drop(s: string, k: nat): (r: string)
    ensures |r| == Max(|s| - k, 0)
    ensures k <= |s| ==> s == s[..k] + r
  {
    if k <= |s| then s[k..] else []
  }

  /** `sep.join(parts)`. */
  function Join(sep: char, parts: seq<string>): string {
    if |parts| == 0 then []
    else if |parts| == 1 then parts[0]
    else parts[0] + [sep] + Join(sep, parts[1..])
  }

  /** `sep.join(parts)` starts with the first part, followed by `sep` when
      there is more than one part, and ends with the last part. */
  lemma {:induction false} JoinShape(sep: char, parts: seq<string>)
    ensures var r := Join(sep, parts);
      && (|parts| == 0 ==> r == [])
      && (|parts| > 0 ==> |r| >= |parts[0]| && r[..|parts[0]|] == parts[0])
      && (|parts| > 1 ==> |r| > |parts[0]| && r[|parts[0]|] == sep)
      && (|parts| > 0 ==> |r| >= |parts[|parts| - 1]| && r[|r| - |parts[|parts| - 1]|..] == parts[|parts| - 1])
  {
    if |parts| > 1 {
      var rest := Join(sep, parts[1..]);
      JoinShape(sep, parts[1..]);
      var r := parts[0] + [sep] + rest;
      assert parts[1..][|parts[1..]| - 1] == parts[|parts| - 1];
      assert r[|r| - |rest|..] == rest;
    }
  }

  /** `s.split(sep)`: the fields between the separators. Together with `Join`
      this fixes the result: the fields hold no separator and joining them
      gives back `s`; there is more than one field exactly when `sep` occurs. */
  function Split(s: string, sep: char): (parts: seq<string>)
    ensures |parts| >= 1
    ensures forall i :: 0 <= i < |parts| ==> sep !in parts[i]
    ensures Join(sep, parts) == s
    ensures |parts| == 1 <==> sep !in s
  {
    if |s| == 0 then [[]]
    else
      var rest := Split(s[1..], sep);
      if s[0] == sep then
        assert ([[]] + rest)[1..] == rest;
        [[]] + rest
      else
        var parts := [[s[0]] + rest[0]] + rest[1..];
        assert Join(sep, parts) == s by {
          if |rest| == 1 {
            assert s == [s[0]] + s[1..];
          } else {
            assert parts[1..] == rest[1..];
            assert Join(sep, rest) == rest[0] + [sep] + Join(sep, rest[1..]);
            assert s == [s[0]] + s[1..];
          }
        }
        parts
  }

  /** Splitting a field with no separator gives that field alone. */
  lemma SplitPlain(a: string, sep: char)
    requires sep !in a
    ensures Split(a, sep) == [a]
  {
  }

  /** A leading field without separators comes off as the first field. */
  lemma {:induction false} SplitField(a: string, rest: string, sep: char)
    requires sep !in a
    ensures Split(a + [sep] + rest, sep) == [a] + Split(rest, sep)
  {
    var s := a + [sep] + rest;
    if |a| == 0 {
      assert s == [sep] + rest;
      assert s[1..] == rest;
    } else {
      assert s[1..] == a[1..] + [sep] + rest;
      SplitField(a[1..], rest, sep);
      assert [a[0]] + a[1..] == a;
    }
  }

  /** `sep.join([a, b]).split(sep) == [a, b]` when neither field holds `sep`. */
  lemma SplitJoinPair(a: string, b: string, sep: char)
    requires sep !in a && sep !in b
    ensures Split(Join(sep, [a, b]), sep) == [a, b]
  {
    assert [a, b][1..] == [b];
    SplitField(a, b, sep);
    SplitPlain(b, sep);
  }

  /** Trailing whitespace does not survive `rstrip`, whatever precedes it. */
  lemma {:induction false} RStripPadded(s: string, n: nat)
    ensures RStrip(s + Spaces(n)) == RStrip(s)
  {
    if n > 0 {
      var x := s + Spaces(n);
      assert x[|x| - 1] == ' ';
      assert x[..|x| - 1] == s + Spaces(n - 1);
      assert RStrip(x) == RStrip(x[..|x| - 1]);
      RStripPadded(s, n - 1);
    } else {
      assert s + Spaces(n) == s;
    }
  }

  /** `s.ljust(w).rstrip() == s` when `s` has no trailing whitespace. */
  lemma LJustRStrip(s: string, width: int)
    requires NoTrailingSpace(s)
    ensures RStrip(LJust(s, width)) == s
  {
    if |s| < width {
      RStripPadded(s, width - |s|);
    }
  }

  /** Leading blanks do not survive `lstrip`. */
  lemma {:induction false} LStripPadded(n: nat, s: string)
    requires |s| == 0 || !IsSpace(s[0])
    ensures LStrip(Spaces(n) + s) == s
  {
    if n > 0 {
      var x := Spaces(n) + s;
      assert x[0] == ' ';
      assert Spaces(n) == [' '] + Spaces(n - 1) by {
        var a := [' '] + Spaces(n - 1);
        assert forall i :: 0 <= i < n ==> a[i] == ' ';
      }
      assert x[1..] == Spaces(n - 1) + s;
      LStripPadded(n - 1, s);
    } else {
      assert Spaces(n) + s == s;
    }
  }
  /** `strip` removes blank padding on both sides of a word. */
  lemma StripPadded(core: string, n: nat, m: nat)
    requires |core| > 0 && !IsSpace(core[0]) && !IsSpace(core[|core| - 1])
    ensures Strip(Spaces(n) + core + Spaces(m)) == core
  {
    RStripPadded(Spaces(n) + core, m);
    var y := Spaces(n) + core;
    assert y[|y| - 1] == core[|core| - 1];
    LStripPadded(n, core);
  }
  lemma StripUnchanged(s: string)
    requires |s| > 0 && !IsSpace(s[0]) && !IsSpace(s[|s| - 1])
    ensures Strip(s) == s
  {
  }

  /** Leading characters that are not whitespace survive `strip` in front. */
  lemma {:induction false} StripKeepsPrefix(p: string, s: string)
    requires |p| > 0 && forall i :: 0 <= i < |p| ==> !IsSpace(p[i])
    ensures |Strip(p + s)| >= |p| && Strip(p + s)[..|p|] == p
  {
    var r := RStrip(p + s);
    // rstrip cannot cut into p, since p ends with a non-space character
    assert !IsSpace((p + s)[|p| - 1]);
    assert r[..|p|] == p;
    assert !IsSpace(r[0]);
    assert LStrip(r) == r;
  }

  predicate IsDigit(c: char) { '0' <= c <= '9' }

  predicate AllDigits(s: string) {
    forall i :: 0 <= i < |s| ==> IsDigit(s[i])
  }

  function DigitChar(d: nat): (c: char)
    requires d < 10
    ensures IsDigit(c) && c as int - '0' as int == d
  {
    ('0' as int + d) as char
  }

  /** The number a string of decimal digits denotes. */
  function DigitsValue(s: string): nat
    requires AllDigits(s)
  {
    if |s| == 0 then 0 else DigitsValue(s[..|s| - 1]) * 10 + (s[|s| - 1] as int - '0' as int)
  }

  /** `str(n)` for `n >= 0`: decimal digits with no leading zero. */
  function NatToStr(n: nat): (r: string)
    ensures |r| >= 1 && AllDigits(r)
    ensures |r| > 1 ==> r[0] != '0'
  {
    if n < 10 then [DigitChar(n)] else NatToStr(n / 10) + [DigitChar(n % 10)]
  }

  /** `str(n)` for any integer. */
  function IntToStr(n: int): string {
    if n < 0 then "-" + NatToStr(-n) else NatToStr(n)
  }

  /** The value of a magnitude under a sign. */
  function Signed(negative: bool, v: nat): int {
    if negative then -(v as int) else v
  }

  /** `int(s)` for a base-10 string, as Python 2 reads it: surrounding
      whitespace, an optional sign, whitespace again after the sign (the C
      conversion behind `int` skips it), then one or more digits; anything
      else raises `ValueError`. */
  function ParseInt(s: string): Result<int> {
    var t := Strip(s);
    if |t| > 0 && (t[0] == '-' || t[0] == '+') then
      var ds := LStrip(t[1..]);
      if |ds| > 0 && AllDigits(ds) then
        Ok(Signed(t[0] == '-', DigitsValue(ds)))
      else Err(ValueError)
    else if |t| > 0 && AllDigits(t) then Ok(DigitsValue(t))
    else Err(ValueError)
  }

  lemma {:induction false} NatToStrValue(n: nat)
    ensures DigitsValue(NatToStr(n)) == n
  {
    if n >= 10 {
      var s := NatToStr(n);
      assert s[..|s| - 1] == NatToStr(n / 10);
      NatToStrValue(n / 10);
    }
  }

  /** `str(n)` is a minus sign exactly for a negative number, then decimal
      digits; no whitespace at either end. */
  lemma {:induction false} IntToStrShape(n: int)
    ensures var r := IntToStr(n);
      && |r| >= 1 && (r[0] == '-' <==> n < 0)
      && (n < 0 ==> |r| >= 2 && AllDigits(r[1..]))
      && (n >= 0 ==> AllDigits(r))
      && !IsSpace(r[0]) && !IsSpace(r[|r| - 1])
  {
    var r := IntToStr(n);
    if n < 0 {
      assert r[1..] == NatToStr(-n);
    }
  }

  /** `int()` only raises `ValueError`; a value is read from text that ends
      in a digit, and is negative only after a minus sign. */
  lemma {:induction false} ParseIntShape(s: string)
    ensures var r := ParseInt(s);
      && (r.Err? ==> r.error == ValueError)
      && (r.Ok? ==> |Strip(s)| > 0 && IsDigit(Strip(s)[|Strip(s)| - 1]))
      && (r.Ok? && r.value < 0 ==> Strip(s)[0] == '-')
  {
    var t := Strip(s);
    if |t| > 0 && (t[0] == '-' || t[0] == '+') {
      var ds := LStrip(t[1..]);
      if |ds| > 0 && AllDigits(ds) {
        assert ds[|ds| - 1] == t[|t| - 1];
      }
    }
  }

  /** `int()` of blank text raises `ValueError`. */
  lemma {:induction false} ParseBlank(s: string)
    requires forall i :: 0 <= i < |s| ==> IsSpace(s[i])
    ensures ParseInt(s) == Err(ValueError)
  {
    StripBlank(s);
  }

  /** `int()` of text that strips to digits. */
  lemma {:induction false} ParseDigits(s: string)
    requires |Strip(s)| > 0 && AllDigits(Strip(s))
    ensures ParseInt(s) == Ok(DigitsValue(Strip(s)))
  {
  }

  /** `int()` of text that strips to a sign, blanks, then digits. */
  lemma {:induction false} ParseSigned(s: string, ds: string)
    requires |Strip(s)| > 0 && (Strip(s)[0] == '-' || Strip(s)[0] == '+')
    requires LStrip(Strip(s)[1..]) == ds && |ds| > 0 && AllDigits(ds)
    ensures ParseInt(s) == Ok(Signed(Strip(s)[0] == '-', DigitsValue(ds)))
  {
  }

  /** A sign, blanks, then digits is already stripped, and the digits are
      what is left after the sign and the blanks. */
  lemma {:induction false} SignPaddedShape(c: char, k: nat, ds: string)
    requires !IsSpace(c)
    requires |ds| > 0 && !IsSpace(ds[0]) && !IsSpace(ds[|ds| - 1])
    ensures Strip([c] + Spaces(k) + ds) == [c] + Spaces(k) + ds
    ensures LStrip(([c] + Spaces(k) + ds)[1..]) == ds
  {
    var m := [c] + Spaces(k) + ds;
    assert Strip(m) == m by {
      assert m[|m| - 1] == ds[|ds| - 1];
      StripUnchanged(m);
    }
    assert LStrip(m[1..]) == ds by {
      assert m[1..] == Spaces(k) + ds;
      LStripPadded(k, ds);
    }
  }

  /** `int()` of a sign, `k` blanks, then the digits of `n`: whitespace
      between the sign and the digits is accepted, so `int("- 1") == -1`. */
  lemma {:induction false} SignedWithSpaces(c: char, k: nat, n: nat)
    requires c == '-' || c == '+'
    ensures ParseInt([c] + Spaces(k) + NatToStr(n)) == Ok(Signed(c == '-', n))
  {
    var ds := NatToStr(n);
    NatToStrValue(n);
    SignPaddedShape(c, k, ds);
    ParseSigned([c] + Spaces(k) + ds, ds);
  }

  /** `int(str(n)) == n`. */
  lemma {:induction false} IntToStrRoundTrip(n: int)
    ensures ParseInt(IntToStr(n)) == Ok(n)
  {
    if n < 0 {
      var m: nat := -n;
      assert IntToStr(n) == "-" + NatToStr(m);
      NegativeRoundTrip(m);
    } else {
      NatToStrRoundTrip(n);
    }
  }

  lemma {:induction false} NegativeRoundTrip(m: nat)
    ensures ParseInt("-" + NatToStr(m)) == Ok(-(m as int))
  {
    var s := "-" + NatToStr(m);
    assert s == ['-'] + Spaces(0) + NatToStr(m);
    SignedWithSpaces('-', 0, m);
    assert Signed(true, m) == -(m as int);
    assert ParseInt(s) == Ok(Signed(true, m));
  }

  lemma {:induction false} NatToStrRoundTrip(n: nat)
    ensures ParseInt(NatToStr(n)) == Ok(n)
  {
    var s := NatToStr(n);
    StripUnchanged(s);
    NatToStrValue(n);
    ParseDigits(s);
  }

  /** `posixpath.join(a, b)`. */
  function PathJoin(a: string, b: string): string {
    if |b| > 0 && b[0] == '/' then b
    else if |a| == 0 || a[|a| - 1] == '/' then a + b
    else a + "/" + b
  }

  /** An absolute `b` replaces `a`; otherwise the result starts with `a`,
      ends with `b`, and one slash separates them unless `a` is empty or
      already ends with one. */
  lemma PathJoinShape(a: string, b: string)
    ensures var r := PathJoin(a, b);
      && (|b| > 0 && b[0] == '/' ==> r == b)
      && |r| >= |b| && r[|r| - |b|..] == b
      && (!(|b| > 0 && b[0] == '/') ==> |r| >= |a| && r[..|a|] == a)
      && (!(|b| > 0 && b[0] == '/') && |a| > 0 ==> |r| > |b| && r[|r| - |b| - 1] == '/')
  {
  }
}
