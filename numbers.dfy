/** Decimal conversions used by the exit handlers: std::stoi (the Exit
    builtin and the older driver) and std::atoi (the driver left in the tree
    snapshot).  Both read an optional run of white space, an optional sign and
    a maximal run of decimal digits, as strtol does in base 10. */
module Numbers {
  import opened Wrappers
  import Chars

  const INT_MIN: int := -0x8000_0000
  const INT_MAX: int := 0x7FFF_FFFF
  const LONG_MIN: int := -0x8000_0000_0000_0000
  const LONG_MAX: int := 0x7FFF_FFFF_FFFF_FFFF

  predicate IsDigit(c: char) { '0' <= c <= '9' }

  predicate AllDigits(s: seq<char>) { forall i :: 0 <= i < |s| ==> IsDigit(s[i]) }

  /** The maximal prefix of `s` made of decimal digits. */
  function Digits(s: seq<char>): (r: seq<char>)
    ensures |r| <= |s| && r == s[..|r|] && AllDigits(r)
    ensures |r| < |s| ==> !IsDigit(s[|r|])
  {
    if s != [] && IsDigit(s[0]) then [s[0]] + Digits(s[1..]) else []
  }

  /** The value of a run of decimal digits, most significant first. */
  function Value(ds: seq<char>): (n: nat)
    requires AllDigits(ds)
  {
    if ds == [] then 0 else Value(ds[..|ds| - 1]) * 10 + (ds[|ds| - 1] as int - '0' as int)
  }

  /** What strtol(s, nullptr, 10) reads, before any range check: None when no
      digit follows the white space and the sign. */
  function ReadInteger(s: seq<char>): Option<int>
  {
    var t := Chars.SkipSpace(s);
    var negative := t != [] && t[0] == '-';
    var u := if t != [] && (t[0] == '-' || t[0] == '+') then t[1..] else t;
    var ds := Digits(u);
    if ds == [] then None
    else
      var v: int := Value(ds);
      Some(if negative then -v else v)
  }

  /** std::stoi: the value read, or None where stoi throws
      std::invalid_argument (no digits) or std::out_of_range (not an int). */
  function StoI(s: seq<char>): (r: Option<int>)
    ensures r.Some? ==> INT_MIN <= r.value <= INT_MAX
    ensures r.Some? <==> ReadInteger(s).Some? && INT_MIN <= ReadInteger(s).value <= INT_MAX
    ensures r.Some? ==> r == ReadInteger(s)
  {
    match ReadInteger(s)
    case None => None
    case Some(v) => if INT_MIN <= v <= INT_MAX then Some(v) else None
  }

  /** Two's complement narrowing to 32 bits, as GCC converts long to int. */
  function WrapInt(v: int): (r: int)
    ensures INT_MIN <= r <= INT_MAX
    ensures (r - v) % 0x1_0000_0000 == 0
  {
    var m := v % 0x1_0000_0000;
    if m <= INT_MAX then m else m - 0x1_0000_0000
  }

  /** std::atoi as glibc implements it on an LP64 target: (int) strtol(s,
      nullptr, 10), where strtol saturates at the range of long and the
      conversion to int keeps the low 32 bits.  No digits gives 0.  (The C
      standard leaves out-of-range values undefined; the model fixes this
      behaviour.) */
  function AtoI(s: seq<char>): (r: int)
    ensures INT_MIN <= r <= INT_MAX
    ensures ReadInteger(s).None? ==> r == 0
    ensures StoI(s).Some? ==> r == StoI(s).value
  {
    match ReadInteger(s)
    case None => 0
    case Some(v) =>
      var clamped := if v < LONG_MIN then LONG_MIN else if v > LONG_MAX then LONG_MAX else v;
      WrapInt(clamped)
  }

  /** Decimal rendering of a natural number, without leading zeros. */
  function NatString(n: nat): (s: seq<char>)
    ensures s != [] && AllDigits(s)
  {
    if n < 10 then [(n + '0' as int) as char]
    else NatString(n / 10) + [((n % 10) + '0' as int) as char]
  }

  /** Decimal rendering of an integer with a leading '-' when negative. */
  function IntString(n: int): seq<char>
  {
    if n < 0 then ['-'] + NatString(-n) else NatString(n)
  }

  lemma {:induction false} ValueOfNatString(n: nat)
    ensures Value(NatString(n)) == n
  {
    if n >= 10 {
      var s := NatString(n);
      assert s[..|s| - 1] == NatString(n / 10);
      ValueOfNatString(n / 10);
    }
  }

  lemma {:induction false} DigitsOfDigits(s: seq<char>)
    requires AllDigits(s)
    ensures Digits(s) == s
  {
    if s != [] {
      DigitsOfDigits(s[1..]);
    }
  }

  /** The first character of a rendering is a digit, so no blank is dropped. */
  lemma NoSpacesBeforeDigits(s: seq<char>)
    requires s != [] && (IsDigit(s[0]) || s[0] == '-')
    ensures Chars.SkipSpace(s) == s
  {
  }

  /** Reading a run of digits gives its value. */
  lemma ReadDigits(ds: seq<char>, rest: seq<char>)
    requires ds != [] && AllDigits(ds)
    requires rest == [] || !IsDigit(rest[0])
    ensures ReadInteger(ds + rest) == Some(Value(ds))
  {
    var s := ds + rest;
    assert s[0] == ds[0];
    NoSpacesBeforeDigits(s);
    DigitsPrefix(ds, rest);
  }

  /** Reading a '-' and a run of digits gives the negated value. */
  lemma ReadNegativeDigits(ds: seq<char>)
    requires ds != [] && AllDigits(ds)
    ensures ReadInteger(['-'] + ds) == Some(-(Value(ds) as int))
  {
    var s := ['-'] + ds;
    NoSpacesBeforeDigits(s);
    var t := Chars.SkipSpace(s);
    assert t == s && t[0] == '-';
    assert t[1..] == ds;
    DigitsOfDigits(ds);
    assert Digits(t[1..]) == ds;
  }

  /** Reading back the decimal rendering of an integer gives the integer. */
  lemma ReadIntString(n: int)
    ensures ReadInteger(IntString(n)) == Some(n)
  {
    if n < 0 {
      ValueOfNatString(-n);
      ReadNegativeDigits(NatString(-n));
    } else {
      ValueOfNatString(n);
      ReadDigits(NatString(n), []);
      assert NatString(n) + [] == NatString(n);
    }
  }

  /** std::stoi inverts the decimal rendering of every int. */
  lemma StoIRoundTrip(n: int)
    requires INT_MIN <= n <= INT_MAX
    ensures StoI(IntString(n)) == Some(n)
  {
    ReadIntString(n);
  }

  /** Past the range of int, std::stoi fails while std::atoi keeps the low
      32 bits of the value read. */
  lemma OutOfIntRange(n: int)
    requires INT_MAX < n <= LONG_MAX || LONG_MIN <= n < INT_MIN
    ensures StoI(IntString(n)) == None && AtoI(IntString(n)) == WrapInt(n)
  {
    ReadIntString(n);
  }

  /** A string whose first non-blank character is neither a sign nor a digit
      is not a number for either conversion. */
  lemma NotANumber(s: seq<char>)
    requires var t := Chars.SkipSpace(s); t != [] && t[0] !in "+-" && !IsDigit(t[0])
    ensures StoI(s) == None && AtoI(s) == 0
  {
  }

  /** Text after the number (such as "12abc") is ignored by both. */
  lemma TrailingTextIgnored(n: nat, rest: seq<char>)
    requires n <= INT_MAX
    requires rest == [] || !IsDigit(rest[0])
    ensures StoI(NatString(n) + rest) == Some(n)
    ensures AtoI(NatString(n) + rest) == n
  {
    ValueOfNatString(n);
    ReadDigits(NatString(n), rest);
  }

  lemma {:induction false} DigitsPrefix(ds: seq<char>, rest: seq<char>)
    requires AllDigits(ds)
    requires rest == [] || !IsDigit(rest[0])
    ensures Digits(ds + rest) == ds
  {
    if ds != [] {
      assert (ds + rest)[1..] == ds[1..] + rest;
      DigitsPrefix(ds[1..], rest);
    }
  }
}
