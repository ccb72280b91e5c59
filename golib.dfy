/**
 * The pieces of Go's standard library whose exact behaviour the handlers
 * depend on: 32-bit conversion, strings.TrimSpace, strconv.Atoi and the
 * decimal rendering of fmt's %v verb, plus the value types of database/sql
 * and time that the models carry around.
 */
module GoLib {
  import opened Wrappers

  /** Go's int32. */
  newtype Int32 = x: int | -0x8000_0000 <= x < 0x8000_0000

  /** Bounds of Go's int on the 64-bit platforms the program targets. */
  const Int64Min: int := -0x8000_0000_0000_0000
  const Int64Max: int := 0x7FFF_FFFF_FFFF_FFFF

  const TwoTo32: int := 0x1_0000_0000

  /**
   * The conversion int32(x) of a Go int: the low 32 bits, read as two's
   * complement. The result is the unique int32 congruent to x modulo 2^32.
   */
  function WrapInt32(x: int): (r: Int32)
    ensures (x - r as int) % TwoTo32 == 0
    ensures -0x8000_0000 <= x < 0x8000_0000 ==> r as int == x
  {
    var m := (x + 0x8000_0000) % TwoTo32;
    assert x - (m - 0x8000_0000) == TwoTo32 * ((x + 0x8000_0000) / TwoTo32);
    (m - 0x8000_0000) as Int32
  }

  /** unicode.IsSpace: the characters with Unicode's White_Space property. */
  predicate IsSpace(c: char) {
    c == '\t' || c == '\n' || c == '\U{000B}' || c == '\U{000C}' || c == '\r' || c == ' '
    || c == '\U{0085}' || c == '\U{00A0}' || c == '\U{1680}'
    || ('\U{2000}' <= c <= '\U{200A}')
    || c == '\U{2028}' || c == '\U{2029}' || c == '\U{202F}' || c == '\U{205F}' || c == '\U{3000}'
  }

  /** Drops the leading white space of s. */
  function TrimLeft(s: string): (r: string)
    ensures |r| <= |s| && r == s[|s| - |r|..]
    ensures forall i :: 0 <= i < |s| - |r| ==> IsSpace(s[i])
    ensures r == [] || !IsSpace(r[0])
  {
    if |s| > 0 && IsSpace(s[0]) then TrimLeft(s[1..]) else s
  }

  /** Drops the trailing white space of s. */
  function TrimRight(s: string): (r: string)
    ensures |r| <= |s| && r == s[..|r|]
    ensures forall i :: |r| <= i < |s| ==> IsSpace(s[i])
    ensures r == [] || !IsSpace(r[|r| - 1])
  {
    if |s| > 0 && IsSpace(s[|s| - 1]) then TrimRight(s[..|s| - 1]) else s
  }

  /** r sits in s at offset a, with nothing but white space around it. */
  predicate SpaceSurrounded(s: string, r: string, a: int) {
    0 <= a <= |s| - |r| && r == s[a..a + |r|]
    && (forall i :: 0 <= i < a ==> IsSpace(s[i]))
    && (forall i :: a + |r| <= i < |s| ==> IsSpace(s[i]))
  }

  /**
   * strings.TrimSpace: the infix of s that neither starts nor ends with
   * white space and is surrounded only by white space.
   */
  function TrimSpace(s: string): (r: string)
    ensures exists a :: SpaceSurrounded(s, r, a)
    ensures r == [] || (!IsSpace(r[0]) && !IsSpace(r[|r| - 1]))
  {
    var l := TrimLeft(s);
    var r := TrimRight(l);
    var a := |s| - |l|;
    assert SpaceSurrounded(s, r, a);
    r
  }

  /** Whether strings.TrimSpace leaves nothing of s: every character is white space (BlankIsTrimmedEmpty). */
  predicate IsBlank(s: string) {
    forall i :: 0 <= i < |s| ==> IsSpace(s[i])
  }

  /** A string is blank exactly when TrimSpace leaves the empty string. */
  lemma BlankIsTrimmedEmpty(s: string)
    ensures IsBlank(s) <==> TrimSpace(s) == ""
  {
    var r := TrimSpace(s);
    if TrimSpace(s) == "" {
      var a :| SpaceSurrounded(s, r, a);
      forall i | 0 <= i < |s| ensures IsSpace(s[i]) {
        assert i < a || a + |r| <= i;
      }
    }
    if IsBlank(s) && r != [] {
      assert false;
    }
  }

  predicate IsDigit(c: char) {
    '0' <= c <= '9'
  }

  predicate AllDigits(s: string) {
    forall i :: 0 <= i < |s| ==> IsDigit(s[i])
  }

  function DigitValue(c: char): nat
    requires IsDigit(c)
  {
    c as int - '0' as int
  }

  function DigitChar(d: nat): char
    requires d < 10
  {
    ('0' as int + d) as char
  }

  /** The value of a string of decimal digits, most significant first. */
  function DigitsValue(ds: string): nat
    requires AllDigits(ds)
  {
    if ds == [] then 0 else DigitsValue(ds[..|ds| - 1]) * 10 + DigitValue(ds[|ds| - 1])
  }

  /** Sign and digits of a candidate integer: an optional '+' or '-' and the rest. */
  function Unsigned(s: string): string {
    if |s| > 0 && (s[0] == '+' || s[0] == '-') then s[1..] else s
  }

  /**
   * strconv.Atoi for a 64-bit int: an optional sign followed by at least one
   * ASCII digit, with a value in range; anything else is an error (None).
   */
  function Atoi(s: string): Option<int> {
    var ds := Unsigned(s);
    if ds == [] || !AllDigits(ds) then None
    else
      var v: int := if s[0] == '-' then -(DigitsValue(ds) as int) else DigitsValue(ds);
      if Int64Min <= v <= Int64Max then Some(v) else None
  }

  /** What Atoi accepts is a 64-bit value, and an accepted string is not empty and holds no white space. */
  lemma AtoiMeans(s: string)
    ensures Atoi(s).Some? ==> Int64Min <= Atoi(s).value <= Int64Max
    ensures Atoi(s).Some? ==> s != [] && forall i :: 0 <= i < |s| ==> !IsSpace(s[i])
  {
    var ds := Unsigned(s);
    if Atoi(s).Some? {
      forall i | 0 <= i < |s| ensures !IsSpace(s[i]) {
        if |ds| < |s| && i > 0 {
          assert s[i] == ds[i - 1];
        }
      }
    }
  }

  /** A string Atoi accepts is never blank, so that check is implied by Atoi's. */
  lemma AtoiImpliesNotBlank(s: string)
    requires Atoi(s).Some?
    ensures !IsBlank(s)
  {
    AtoiMeans(s);
    assert !IsSpace(s[0]);
  }

  /** Decimal digits of a natural number, without leading zeros. */
  function FormatNat(n: nat): (s: string)
    ensures s != [] && AllDigits(s)
    ensures DigitsValue(s) == n
    ensures s[0] != '+' && s[0] != '-'
  {
    if n < 10 then
      assert DigitsValue([DigitChar(n)]) == DigitsValue([]) * 10 + DigitValue(DigitChar(n));
      [DigitChar(n)]
    else
      var p := FormatNat(n / 10);
      var s := p + [DigitChar(n % 10)];
      assert s[..|s| - 1] == p;
      s
  }

  /** The decimal rendering of an integer by fmt's %v verb (and strconv.Itoa). */
  function FormatDecimal(n: int): (s: string)
    ensures s != []
    ensures n < 0 <==> s[0] == '-'
  {
    if n < 0 then "-" + FormatNat(-n) else FormatNat(n)
  }

  /** Atoi reads back every 64-bit value that %v writes. */
  lemma {:induction false} AtoiFormatDecimal(n: int)
    requires Int64Min <= n <= Int64Max
    ensures Atoi(FormatDecimal(n)) == Some(n)
  {
    var s := FormatDecimal(n);
    if n < 0 {
      assert Unsigned(s) == FormatNat(-n);
    } else {
      assert Unsigned(s) == FormatNat(n);
    }
  }

  /** A digit string in the form %v writes it: "0", or digits without a leading zero. */
  predicate NoLeadingZero(ds: string) {
    ds == "0" || (|ds| > 0 && ds[0] != '0')
  }

  /** A digit string that starts with a non-zero digit has a non-zero value. */
  lemma {:induction false} LeadingDigitBound(ds: string)
    requires AllDigits(ds) && |ds| > 0 && ds[0] != '0'
    ensures DigitsValue(ds) >= 1
    decreases |ds|
  {
    if |ds| > 1 {
      var p := ds[..|ds| - 1];
      assert p[0] == ds[0];
      LeadingDigitBound(p);
    }
  }

  /** A digit string without a leading zero is the one %v writes for its value. */
  lemma {:induction false} FormatNatOfDigits(ds: string)
    requires AllDigits(ds) && NoLeadingZero(ds)
    ensures FormatNat(DigitsValue(ds)) == ds
    decreases |ds|
  {
    var c := ds[|ds| - 1];
    if |ds| == 1 {
      assert ds == [c];
      assert DigitsValue(ds) == DigitsValue([]) * 10 + DigitValue(c);
    } else {
      var p := ds[..|ds| - 1];
      assert p[0] == ds[0];
      LeadingDigitBound(p);
      FormatNatOfDigits(p);
      var n := DigitsValue(ds);
      assert n == DigitsValue(p) * 10 + DigitValue(c);
      assert n / 10 == DigitsValue(p) && n % 10 == DigitValue(c);
      assert ds == p + [c];
    }
  }

  /**
   * The converse of AtoiFormatDecimal: a string Atoi accepts that has no
   * '+' sign, no leading zero and is not "-0" is exactly what %v writes for
   * its value, so every other accepted spelling differs from %v's.
   */
  lemma AtoiCanonical(s: string, v: int)
    requires Atoi(s) == Some(v) && |s| > 0 && s[0] != '+' && NoLeadingZero(Unsigned(s)) && s != "-0"
    ensures s == FormatDecimal(v)
  {
    var ds := Unsigned(s);
    FormatNatOfDigits(ds);
    if s[0] == '-' {
      assert s == "-" + ds;
      assert ds != "0";
      LeadingDigitBound(ds);
    } else {
      assert ds == s;
    }
  }

  /** An instant of time.Time; the program only stores and compares them. */
  datatype Time = Time(instant: int)

  /** database/sql's NullTime. */
  datatype NullTime = NullTime(time: Time, valid: bool)

  /** database/sql's NullInt32. */
  datatype NullInt32 = NullInt32(int32: Int32, valid: bool)

  /** A float64, kept as its bit pattern: the program never computes with one. */
  type Float64 = bv64
}
