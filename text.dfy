/** The Python string behaviour the cleaning rules rely on: which characters
    are cased, `str.islower()`, `str.lower()`, `str.capitalize()`, and the
    decimal rendering `str(n)` that `astype('str')` gives an integer column.
    Only ASCII letters are treated as cased. */
module Text {
  import opened Values

  predicate IsUpperChar(c: char) { 'A' <= c <= 'Z' }
  predicate IsLowerChar(c: char) { 'a' <= c <= 'z' }
  predicate IsCased(c: char) { IsUpperChar(c) || IsLowerChar(c) }
  predicate IsDigit(c: char) { '0' <= c <= '9' }

  function ToUpper(c: char): (u: char)
    ensures !IsLowerChar(u)
    ensures IsCased(u) == IsCased(c)
    ensures !IsLowerChar(c) ==> u == c
  {
    if IsLowerChar(c) then (c as int - 32) as char else c
  }

  function ToLower(c: char): (l: char)
    ensures !IsUpperChar(l)
    ensures IsCased(l) == IsCased(c)
    ensures !IsUpperChar(c) ==> l == c
  {
    if IsUpperChar(c) then (c as int + 32) as char else c
  }

  // ---------------------------------------------------------------------
  // str.islower()
  // ---------------------------------------------------------------------

  /** Python's `str.islower()`, as CPython scans the string: false at the
      first upper-case character, otherwise true exactly when some
      lower-case character was met on the way. */
  function IsLower(s: string): bool
  {
    LowerScan(s, false)
  }

  function LowerScan(s: string, cased: bool): bool
  {
    if s == [] then cased
    else if IsUpperChar(s[0]) then false
    else LowerScan(s[1..], cased || IsLowerChar(s[0]))
  }

  predicate HasLower(s: string) { exists i :: 0 <= i < |s| && IsLowerChar(s[i]) }
  predicate HasUpper(s: string) { exists i :: 0 <= i < |s| && IsUpperChar(s[i]) }

  lemma {:induction false} LowerScanMeaning(s: string, cased: bool)
    ensures LowerScan(s, cased) <==> !HasUpper(s) && (cased || HasLower(s))
  {
    if s != [] {
      var t := s[1..];
      LowerScanMeaning(t, cased || IsLowerChar(s[0]));
      assert forall i :: 0 <= i < |t| ==> t[i] == s[i + 1];
      assert HasUpper(s) <==> IsUpperChar(s[0]) || HasUpper(t) by {
        if HasUpper(s) {
          var i :| 0 <= i < |s| && IsUpperChar(s[i]);
          if i > 0 { assert IsUpperChar(t[i - 1]); }
        }
      }
      assert HasLower(s) <==> IsLowerChar(s[0]) || HasLower(t) by {
        if HasLower(s) {
          var i :| 0 <= i < |s| && IsLowerChar(s[i]);
          if i > 0 { assert IsLowerChar(t[i - 1]); }
        }
      }
    }
  }

  /** The documented meaning of `str.islower()`: at least one cased
      character, and every cased character lower-case. */
  lemma IsLowerMeaning(s: string)
    ensures IsLower(s) <==> HasLower(s) && !HasUpper(s)
  {
    LowerScanMeaning(s, false);
  }

  // ---------------------------------------------------------------------
  // str.lower() and str.capitalize()
  // ---------------------------------------------------------------------

  /** Python's `str.lower()`. */
  function LowerAll(s: string): (r: string)
    ensures |r| == |s|
    ensures !HasUpper(r)
    ensures forall i :: 0 <= i < |s| ==> r[i] == ToLower(s[i])
  {
    seq(|s|, i requires 0 <= i < |s| => ToLower(s[i]))
  }

  /** Python 3's `str.capitalize()`: the first character upper-cased and
      every other character lower-cased (not left as it was). */
  function Capitalize(s: string): (r: string)
    ensures |r| == |s|
    ensures |s| > 0 ==> r[0] == ToUpper(s[0])
    ensures forall i :: 0 < i < |s| ==> r[i] == ToLower(s[i])
  {
    if s == [] then [] else [ToUpper(s[0])] + LowerAll(s[1..])
  }

  lemma CapitalizeIdempotent(s: string)
    ensures Capitalize(Capitalize(s)) == Capitalize(s)
  {
    var r := Capitalize(s);
    assert forall i :: 0 <= i < |r| ==> Capitalize(r)[i] == r[i];
  }

  /** A capitalized label never reads as lower-case to `str.islower()`
      once it starts with a letter, and it has no upper-case letter after
      the first position. */
  lemma CapitalizeShape(s: string)
    ensures forall i :: 0 < i < |s| ==> !IsUpperChar(Capitalize(s)[i])
    ensures |s| > 0 && IsCased(s[0]) ==> !IsLower(Capitalize(s))
  {
    var r := Capitalize(s);
    IsLowerMeaning(r);
    if |s| > 0 && IsCased(s[0]) {
      assert IsUpperChar(r[0]);
    }
  }

  // ---------------------------------------------------------------------
  // str(n) for an integer, and its inverse
  // ---------------------------------------------------------------------

  predicate AllDigits(s: string) { forall i :: 0 <= i < |s| ==> IsDigit(s[i]) }

  function DigitChar(d: int): (c: char)
    requires 0 <= d < 10
    ensures IsDigit(c)
  {
    ('0' as int + d) as char
  }

  function DigitValue(c: char): (d: int)
    requires IsDigit(c)
    ensures 0 <= d < 10
  {
    c as int - '0' as int
  }

  /** The decimal digits of a natural number, most significant first. */
  function NatToString(n: nat): (s: string)
    ensures CanonicalNat(s)
    ensures s[0] == '0' <==> n == 0
    decreases n
  {
    if n < 10 then [DigitChar(n)] else NatToString(n / 10) + [DigitChar(n % 10)]
  }

  /** `str(n)` for a Python int: a minus sign for a negative number, then
      the decimal digits. */
  function IntToString(n: int): (s: string)
    ensures CanonicalInt(s)
    ensures s[0] == '-' <==> n < 0
  {
    if n < 0 then "-" + NatToString(-n) else NatToString(n)
  }

  /** A digit string as `str` writes a natural number: no leading zero
      unless the number is 0 itself. */
  predicate CanonicalNat(s: string)
  {
    s != [] && AllDigits(s) && (s[0] != '0' || s == "0")
  }

  /** A string as `str` writes a Python int: a canonical digit string,
      or a minus sign before a canonical digit string other than "0". */
  predicate CanonicalInt(s: string)
  {
    CanonicalNat(s) || (|s| > 1 && s[0] == '-' && CanonicalNat(s[1..]) && s[1] != '0')
  }

  function ParseDigits(s: string): nat
    requires AllDigits(s)
  {
    if s == [] then 0 else ParseDigits(s[..|s| - 1]) * 10 + DigitValue(s[|s| - 1])
  }

  /** The inverse of `IntToString` on an optional '-' followed by ASCII
      digits; `None` on every other string. */
  function ParseInt(s: string): Option<int>
  {
    if |s| > 1 && s[0] == '-' && AllDigits(s[1..]) then Some(-(ParseDigits(s[1..]) as int))
    else if s != [] && AllDigits(s) then Some(ParseDigits(s))
    else None
  }

  lemma {:induction false} NatToStringRoundTrip(n: nat)
    ensures ParseDigits(NatToString(n)) == n
    decreases n
  {
    if n >= 10 {
      var a := NatToString(n / 10);
      var s := a + [DigitChar(n % 10)];
      assert s[..|s| - 1] == a;
      NatToStringRoundTrip(n / 10);
    }
  }

  /** `int(str(n)) == n`: the rendering loses nothing. */
  lemma IntToStringRoundTrip(n: int)
    ensures ParseInt(IntToString(n)) == Some(n)
  {
    if n < 0 {
      var d := NatToString(-n);
      assert ("-" + d)[1..] == d;
      NatToStringRoundTrip(-n);
    } else {
      NatToStringRoundTrip(n);
    }
  }

  lemma DigitCharValue(c: char)
    requires IsDigit(c)
    ensures DigitChar(DigitValue(c)) == c
  {
  }

  /** A digit string that does not start with '0' stands for a positive
      number. */
  lemma {:induction false} ParseDigitsPositive(s: string)
    requires s != [] && AllDigits(s) && s[0] != '0'
    ensures ParseDigits(s) >= 1
    decreases |s|
  {
    if |s| > 1 {
      ParseDigitsPositive(s[..|s| - 1]);
    }
  }

  /** `str(int(s)) == s` for a canonical digit string: `NatToString` is
      the only canonical way to write a natural number. */
  lemma {:induction false} NatToStringUnique(s: string)
    requires CanonicalNat(s)
    ensures NatToString(ParseDigits(s)) == s
    decreases |s|
  {
    var d := DigitValue(s[|s| - 1]);
    DigitCharValue(s[|s| - 1]);
    if |s| == 1 {
      assert s == [s[0]];
    } else {
      var p := s[..|s| - 1];
      assert p[0] == s[0] != '0';
      ParseDigitsPositive(p);
      NatToStringUnique(p);
      var n := ParseDigits(s);
      assert n == ParseDigits(p) * 10 + d;
      assert n / 10 == ParseDigits(p) && n % 10 == d;
      assert s == p + [s[|s| - 1]];
    }
  }

  /** A canonical string that `int` reads as `n` is `str(n)`: together with
      `IntToStringRoundTrip`, `IntToString` is the one canonical rendering
      of each integer. */
  lemma IntToStringUnique(s: string, n: int)
    requires CanonicalInt(s) && ParseInt(s) == Some(n)
    ensures s == IntToString(n)
  {
    if CanonicalNat(s) {
      assert s[0] != '-';
      NatToStringUnique(s);
    } else {
      var t := s[1..];
      NatToStringUnique(t);
      assert t[0] != '0';
      ParseDigitsPositive(t);
      assert s == "-" + t;
    }
  }

  // ---------------------------------------------------------------------
  // Searching for a character
  // ---------------------------------------------------------------------

  /** `s.find(c)`, with `None` in place of -1. */
  function IndexOf(s: string, c: char): (r: Option<nat>)
    ensures r.None? ==> c !in s
    ensures r.Some? ==> r.value < |s| && s[r.value] == c && c !in s[..r.value]
  {
    if s == [] then None
    else if s[0] == c then Some(0)
    else match IndexOf(s[1..], c)
      case None => None
      case Some(k) => assert s[..k + 1] == [s[0]] + s[1..][..k]; Some(k + 1)
  }

  lemma IndexOfAfter(a: string, c: char, b: string)
    requires c !in a
    ensures IndexOf(a + [c] + b, c) == Some(|a|)
  {
    var s := a + [c] + b;
    assert s[|a|] == c;
    assert forall i :: 0 <= i < |a| ==> s[i] == a[i];
  }
}
