/** Byte strings as the programs see them: substring search, decimal printing and
    the parsing that the C library does, and the splitting of a string by a separator. */
module Text {

  datatype Option<+T> = None | Some(value: T)

  /** Equality without a look inside: keeps proofs about sequences from comparing them
      element by element. */
  ghost predicate Equals<T>(a: T, b: T) {
    a == b
  }

  /** Keeps a definition folded in proofs: its body is only looked at where a proof
      mentions `Open(Seal)`. */
  datatype Seal = Seal

  predicate Open(s: Seal) {
    true
  }

  const INT_MAX: int := 0x7fff_ffff
  const INT_MIN: int := -0x8000_0000
  const LONG_MAX: int := 0x7fff_ffff_ffff_ffff
  const LONG_MIN: int := -0x8000_0000_0000_0000

  /** A value truncated to a 32-bit signed integer. */
  function Wrap32(z: int): (w: int)
    ensures INT_MIN <= w <= INT_MAX
    ensures INT_MIN <= z <= INT_MAX ==> w == z
  {
    (z + 0x8000_0000) % 0x1_0000_0000 - 0x8000_0000
  }

  // ---------------------------------------------------------------- search

  predicate Occurs(s: string, pat: string, i: int) {
    0 <= i <= |s| - |pat| && s[i..i + |pat|] == pat
  }

  /** The first occurrence of `pat` at or after `start`. */
  function Find(s: string, pat: string, start: nat): (r: Option<nat>)
    ensures r.Some? ==> start <= r.value && Occurs(s, pat, r.value)
    ensures r.Some? ==> forall j :: start <= j < r.value ==> !Occurs(s, pat, j)
    ensures r.None? ==> forall j :: start <= j ==> !Occurs(s, pat, j)
    decreases |s| - start
  {
    if start + |pat| > |s| then None
    else if Occurs(s, pat, start) then Some(start)
    else Find(s, pat, start + 1)
  }

  /** The first occurrence is the only position with these two properties. */
  lemma {:induction false} FindIs(s: string, pat: string, start: nat, i: nat)
    requires start <= i && Occurs(s, pat, i)
    requires forall j :: start <= j < i ==> !Occurs(s, pat, j)
    ensures Find(s, pat, start) == Some(i)
  {
  }

  /** What is found in a string is found in every extension of it. */
  lemma {:induction false} FindExtend(s: string, t: string, pat: string, start: nat)
    requires Find(s, pat, start).Some?
    ensures Find(s + t, pat, start) == Find(s, pat, start)
  {
    var i := Find(s, pat, start).value;
    assert (s + t)[i..i + |pat|] == s[i..i + |pat|];
    forall j | start <= j < i ensures !Occurs(s + t, pat, j) {
      assert (s + t)[j..j + |pat|] == s[j..j + |pat|];
      assert !Occurs(s, pat, j);
    }
    FindIs(s + t, pat, start, i);
  }

  /** A string is cut in three at its first separator. */
  lemma {:induction false} CutAt(s: string, sep: string)
    requires Find(s, sep, 0).Some?
    ensures var i := Find(s, sep, 0).value;
            s == s[..i] + sep + s[i + |sep|..] && (|sep| > 0 ==> Find(s[..i], sep, 0).None?)
  {
    var i := Find(s, sep, 0).value;
    if Find(s[..i], sep, 0).Some? {
      FindExtend(s[..i], s[i..], sep, 0);
      assert s[..i] + s[i..] == s;
    }
  }

  // --------------------------------------------------------------- decimal

  predicate IsDigit(c: char) {
    '0' <= c <= '9'
  }

  predicate AllDigits(s: string) {
    forall i :: 0 <= i < |s| ==> IsDigit(s[i])
  }

  function DigitChar(d: nat): (c: char)
    requires d < 10
    ensures IsDigit(c) && DigitValue(c) == d
  {
    ('0' as int + d) as char
  }

  function DigitValue(c: char): nat
    requires IsDigit(c)
  {
    c as int - '0' as int
  }

  function NatToString(n: nat): (s: string)
    ensures |s| > 0 && AllDigits(s)
  {
    if n < 10 then [DigitChar(n)] else NatToString(n / 10) + [DigitChar(n % 10)]
  }

  /** std::to_string on a signed integer. */
  function IntToString(z: int): (s: string)
    ensures |s| > 0
  {
    if z < 0 then "-" + NatToString(-z) else NatToString(z)
  }

  function DigitsToNat(s: string): nat
    requires AllDigits(s)
  {
    if s == "" then 0 else DigitsToNat(s[..|s| - 1]) * 10 + DigitValue(s[|s| - 1])
  }

  /** Length of the longest prefix made of digits. */
  function DigitRun(s: string): (n: nat)
    ensures n <= |s| && AllDigits(s[..n])
    ensures n < |s| ==> !IsDigit(s[n])
  {
    if s == "" || !IsDigit(s[0]) then 0
    else
      var n := DigitRun(s[1..]);
      assert s[..1 + n] == [s[0]] + s[1..][..n];
      1 + n
  }

  predicate IsSpace(c: char) {
    c == ' ' || '\t' <= c <= '\r'
  }

  function SkipSpace(s: string): (t: string)
    ensures |t| <= |s| && (t == "" || !IsSpace(t[0]))
  {
    if s == "" || !IsSpace(s[0]) then s else SkipSpace(s[1..])
  }

  function UnsignedValue(s: string): nat {
    DigitsToNat(s[..DigitRun(s)])
  }

  /** The number a decimal field denotes: white space, an optional sign, digits. */
  function SignedValue(s: string): int {
    var t := SkipSpace(s);
    if t != "" && t[0] == '-' then -(UnsignedValue(t[1..]) as int)
    else if t != "" && t[0] == '+' then UnsignedValue(t[1..])
    else UnsignedValue(t)
  }

  /** atoi of the GNU C library: the value saturates at 64 bits and is then
      truncated to 32. */
  function Atoi(s: string): (z: int)
    ensures INT_MIN <= z <= INT_MAX
  {
    var v := SignedValue(s);
    Wrap32(if v > LONG_MAX then LONG_MAX else if v < LONG_MIN then LONG_MIN else v)
  }

  lemma {:induction false} DigitsToNatPrint(n: nat)
    ensures DigitsToNat(NatToString(n)) == n
  {
    if n >= 10 {
      DigitsToNatPrint(n / 10);
      var s := NatToString(n);
      assert s[..|s| - 1] == NatToString(n / 10);
    }
  }

  lemma {:induction false} DigitRunPrefix(s: string, t: string)
    requires AllDigits(s)
    requires t == "" || !IsDigit(t[0])
    ensures DigitRun(s + t) == |s|
  {
    if s == "" {
      assert s + t == t;
    } else {
      assert (s + t)[1..] == s[1..] + t;
      DigitRunPrefix(s[1..], t);
    }
  }

  /** Parsing a printed number followed by anything that is not a digit. */
  lemma {:induction false} UnsignedValuePrint(n: nat, t: string)
    requires t == "" || !IsDigit(t[0])
    ensures UnsignedValue(NatToString(n) + t) == n
  {
    var s := NatToString(n);
    DigitRunPrefix(s, t);
    assert (s + t)[..|s|] == s;
    DigitsToNatPrint(n);
  }

  /** atoi inverts to_string on every 32-bit integer, the minimum included. */
  lemma {:induction false} AtoiInvertsPrint(z: int)
    requires INT_MIN <= z <= INT_MAX
    ensures Atoi(IntToString(z)) == z
  {
    var n: nat := if z < 0 then -z else z;
    UnsignedValuePrint(n, "");
    assert NatToString(n) + "" == NatToString(n);
    var s := IntToString(z);
    if z < 0 {
      assert s[1..] == NatToString(n);
      assert s[0] == '-' && SkipSpace(s) == s;
    } else {
      assert IsDigit(s[0]) && SkipSpace(s) == s;
    }
  }

  lemma {:induction false} SkipsSpace(blank: string, t: string)
    requires forall i :: 0 <= i < |blank| ==> IsSpace(blank[i])
    requires t != "" && !IsSpace(t[0])
    ensures SkipSpace(blank + t) == t
  {
    if blank == "" {
      assert blank + t == t;
    } else {
      assert (blank + t)[1..] == blank[1..] + t;
      SkipsSpace(blank[1..], t);
    }
  }

  /** atoi on white space, a sign and digits, whatever non-digit follows: the number, as long
      as it is a 32-bit one; what is too large for 64 bits comes out as -1, what is too small
      as 0. */
  lemma {:induction false} AtoiReads(blank: string, sign: string, n: nat, tail: string)
    requires forall i :: 0 <= i < |blank| ==> IsSpace(blank[i])
    requires sign in ["", "+", "-"] && (tail == "" || !IsDigit(tail[0]))
    ensures var z := if sign == "-" then -(n as int) else n;
            var r := Atoi(blank + (sign + (NatToString(n) + tail)));
            && (INT_MIN <= z <= INT_MAX ==> r == z)
            && (z > LONG_MAX ==> r == -1) && (z < LONG_MIN ==> r == 0)
  {
    var digits := NatToString(n) + tail;
    var t := sign + digits;
    UnsignedValuePrint(n, tail);
    assert digits[0] == NatToString(n)[0] && IsDigit(digits[0]);
    if sign == "" {
      assert t == digits;
    } else {
      assert t[0] == sign[0] && t[1..] == digits;
    }
    SkipsSpace(blank, t);
  }
}
