/** Names used in the output file: zero-padded layer indices ("%04d"), decimal
    dimension indices (std::to_string), object path names and the last
    component of a path name. */
module Naming {

  predicate IsDigit(c: char) {
    '0' <= c <= '9'
  }

  predicate AllDigits(s: string) {
    forall i :: 0 <= i < |s| ==> IsDigit(s[i])
  }

  function DigitChar(d: nat): (c: char)
    requires d < 10
    ensures IsDigit(c)
  {
    ('0' as int + d) as char
  }

  function DigitValue(c: char): (d: nat)
    requires IsDigit(c)
    ensures d < 10
  {
    c as int - '0' as int
  }

  /** The number a string of decimal digits denotes (leading zeros allowed). */
  function DigitsValue(s: string): nat
    requires AllDigits(s)
  {
    if s == [] then 0 else 10 * DigitsValue(s[..|s| - 1]) + DigitValue(s[|s| - 1])
  }

  /** std::to_string of a non-negative integer: its decimal digits, without
      leading zeros. */
  function Decimal(n: nat): (s: string)
    ensures 1 <= |s|
    ensures AllDigits(s)
  {
    if n < 10 then [DigitChar(n)] else Decimal(n / 10) + [DigitChar(n % 10)]
  }

  function Zeros(k: nat): (z: string)
    ensures |z| == k && AllDigits(z)
  {
    seq(k, _ => '0')
  }

  /** Left-pads a digit string with zeros up to the given width. */
  function ZeroPad(s: string, width: nat): (r: string)
    requires AllDigits(s)
    ensures AllDigits(r)
    ensures |r| == if |s| >= width then |s| else width
  {
    if |s| >= width then s else Zeros(width - |s|) + s
  }

  /** getDigitString: sprintf("%04d", digit). The field width 4 counts the
      sign, so a negative value keeps 3 padded digits after the '-'. */
  function DigitString(digit: int): (s: string)
    ensures digit >= 0 ==> AllDigits(s) && |s| >= 4
    ensures digit < 0 ==> |s| >= 4 && s[0] == '-' && AllDigits(s[1..])
  {
    if digit >= 0 then ZeroPad(Decimal(digit), 4) else "-" + ZeroPad(Decimal(-digit), 3)
  }

  /** Reads back a string produced by "%d"-style formatting. */
  function ParseSigned(s: string): int
    requires AllDigits(s) || (|s| > 0 && s[0] == '-' && AllDigits(s[1..]))
  {
    if |s| > 0 && s[0] == '-' then -(DigitsValue(s[1..]) as int) else DigitsValue(s)
  }

  lemma {:induction false} DecimalValue(n: nat)
    ensures DigitsValue(Decimal(n)) == n
  {
    if n >= 10 {
      var s := Decimal(n);
      assert s[..|s| - 1] == Decimal(n / 10);
      DecimalValue(n / 10);
    }
  }

  lemma {:induction false} ZerosValue(k: nat)
    ensures DigitsValue(Zeros(k)) == 0
  {
    if k > 0 {
      assert Zeros(k)[..k - 1] == Zeros(k - 1);
      ZerosValue(k - 1);
    }
  }

  /** Leading zeros do not change the value of a digit string. */
  lemma {:induction false} LeadingZerosValue(k: nat, s: string)
    requires AllDigits(s)
    ensures DigitsValue(Zeros(k) + s) == DigitsValue(s)
  {
    if s == [] {
      assert Zeros(k) + s == Zeros(k);
      ZerosValue(k);
    } else {
      var t := Zeros(k) + s;
      assert t[..|t| - 1] == Zeros(k) + s[..|s| - 1];
      LeadingZerosValue(k, s[..|s| - 1]);
    }
  }

  lemma ZeroPadValue(s: string, width: nat)
    requires AllDigits(s)
    ensures DigitsValue(ZeroPad(s, width)) == DigitsValue(s)
  {
    if |s| < width {
      LeadingZerosValue(width - |s|, s);
    }
  }

  lemma {:induction false} DecimalLength(n: nat, k: nat)
    requires 1 <= k
    requires n < Pow10(k)
    ensures |Decimal(n)| <= k
  {
    if n >= 10 {
      assert n / 10 < Pow10(k - 1);
      DecimalLength(n / 10, k - 1);
    }
  }

  function Pow10(k: nat): (p: nat)
    ensures p >= 1
  {
    if k == 0 then 1 else 10 * Pow10(k - 1)
  }

  /** For 0 <= n <= 9999 the layer suffix is exactly four decimal digits,
      zero-padded, whose value is n. */
  lemma FourDigits(n: int)
    requires 0 <= n <= 9999
    ensures |DigitString(n)| == 4
    ensures AllDigits(DigitString(n))
    ensures DigitsValue(DigitString(n)) == n
  {
    assert Pow10(4) == 10000;
    DecimalLength(n, 4);
    DecimalValue(n);
    ZeroPadValue(Decimal(n), 4);
  }

  /** Reading the padded suffix back gives the index: getDigitString loses
      nothing, for negative indices too. */
  lemma DigitStringRoundTrip(digit: int)
    ensures ParseSigned(DigitString(digit)) == digit
  {
    if digit >= 0 {
      var s := ZeroPad(Decimal(digit), 4);
      assert DigitString(digit) == s && IsDigit(s[0]);
      DecimalValue(digit);
      ZeroPadValue(Decimal(digit), 4);
    } else {
      var t := ZeroPad(Decimal(-digit), 3);
      var s := "-" + t;
      assert DigitString(digit) == s && s[0] == '-' && s[1..] == t;
      DecimalValue(-digit);
      ZeroPadValue(Decimal(-digit), 3);
    }
  }

  /** Distinct indices give distinct suffixes. */
  lemma DigitStringInjective(a: int, b: int)
    requires DigitString(a) == DigitString(b)
    ensures a == b
  {
    DigitStringRoundTrip(a);
    DigitStringRoundTrip(b);
  }

  /** Distinct indices give distinct group names under one base name. */
  lemma LayerNameInjective(base: string, a: int, b: int)
    requires base + DigitString(a) == base + DigitString(b)
    ensures a == b
  {
    assert DigitString(a) == (base + DigitString(a))[|base|..];
    assert DigitString(b) == (base + DigitString(b))[|base|..];
    DigitStringInjective(a, b);
  }

  /** Distinct dimension numbers give distinct dimension names. */
  lemma DimNameInjective(base: string, a: nat, b: nat)
    requires base + Decimal(a) == base + Decimal(b)
    ensures a == b
  {
    assert Decimal(a) == (base + Decimal(a))[|base|..];
    assert Decimal(b) == (base + Decimal(b))[|base|..];
    DecimalValue(a);
    DecimalValue(b);
  }

  /** A padded layer suffix contains no path separator. */
  lemma DigitStringNoSlash(digit: int)
    ensures '/' !in DigitString(digit)
  {
    var s := DigitString(digit);
    if digit < 0 {
      assert s == [s[0]] + s[1..];
    }
  }

  // ---------------------------------------------------------------------
  // Path names

  /** std::string::npos, and the modulus of size_t arithmetic. */
  const NPOS: nat := 0xFFFF_FFFF_FFFF_FFFF
  const SIZE_MODULUS: nat := 0x1_0000_0000_0000_0000

  /** std::string::find_last_of for one character: the index of its last
      occurrence, or npos. */
  function FindLastOf(s: string, c: char): (r: nat)
    requires |s| < NPOS
    ensures r == NPOS <==> c !in s
    ensures r != NPOS ==> r < |s| && s[r] == c && forall j :: r < j < |s| ==> s[j] != c
  {
    if s == [] then NPOS
    else if s[|s| - 1] == c then |s| - 1
    else FindLastOf(s[..|s| - 1], c)
  }

  /** reducedDataSetName: the text after the last '/', or the whole string
      when it has none (npos + 1 wraps around to 0 in size_t). */
  function ReducedDataSetName(fullPath: string): (r: string)
    requires |fullPath| < NPOS
    ensures '/' !in r
    ensures |r| <= |fullPath| && fullPath[|fullPath| - |r|..] == r
    ensures |r| < |fullPath| ==> fullPath[|fullPath| - |r| - 1] == '/'
  {
    var index := FindLastOf(fullPath, '/');
    fullPath[(index + 1) % SIZE_MODULUS..]
  }

  /** "/a/b/c" for the components a, b, c. */
  function JoinPath(p: seq<string>): string {
    if p == [] then "" else JoinPath(p[..|p| - 1]) + "/" + p[|p| - 1]
  }

  /** H5Location::getObjName: the absolute name of an object. */
  function PathName(p: seq<string>): string {
    if p == [] then "/" else JoinPath(p)
  }

  /** The reduced name of an object's absolute name is its last component,
      when that component holds no '/'. */
  lemma ReducedNameOfPath(p: seq<string>)
    requires p != [] && '/' !in p[|p| - 1]
    requires |PathName(p)| < NPOS
    ensures ReducedDataSetName(PathName(p)) == p[|p| - 1]
  {
    var s := PathName(p);
    var c := p[|p| - 1];
    var x := JoinPath(p[..|p| - 1]);
    assert s == x + "/" + c;
    var r := ReducedDataSetName(s);
    assert s[|s| - |c| - 1] == '/';
    assert s[|s| - |c|..] == c;
  }
}
