/** Bytes, Go strings (byte sequences), fixed-width integers and decimal numerals. */
module Bytes {
  type byte = b: int | 0 <= b < 0x100
  type Str = seq<byte>
  type int32 = i: int | -0x8000_0000 <= i < 0x8000_0000
  type uint32 = u: int | 0 <= u < 0x1_0000_0000

  datatype Option<+T> = None | Some(value: T)
  datatype Result<+T, +E> = Ok(value: T) | Err(error: E)

  /** The bytes of a source literal. */
  function Ascii(s: string): (r: Str)
    ensures |r| == |s|
    ensures forall i :: 0 <= i < |s| ==> r[i] == s[i] as int % 0x100
  {
    seq(|s|, i requires 0 <= i < |s| => s[i] as int % 0x100)
  }

  predicate NulFree(s: Str) {
    forall i :: 0 <= i < |s| ==> s[i] != 0
  }

  // ---- Big-endian words and two's complement ----

  function BE32(n: uint32): (b: Str)
    ensures |b| == 4
  {
    [n / 0x100_0000, n / 0x1_0000 % 0x100, n / 0x100 % 0x100, n % 0x100]
  }

  function Uint32(b: Str): (n: uint32)
    requires |b| == 4
  {
    Word(b[0], b[1], b[2], b[3])
  }

  function Word(b0: int, b1: int, b2: int, b3: int): int {
    ((b0 * 0x100 + b1) * 0x100 + b2) * 0x100 + b3
  }

  /** Go's int32(x) conversion of an unsigned word. */
  function AsInt32(u: uint32): int32 {
    if u < 0x8000_0000 then u else u - 0x1_0000_0000
  }

  /** Go's uint32(x) conversion of a signed word. */
  function AsUint32(i: int32): uint32 {
    if i < 0 then i + 0x1_0000_0000 else i
  }

  lemma WordRoundTrip(n: uint32)
    ensures Uint32(BE32(n)) == n
  {
    var m: int := n;
    DivDiv(m, 0x100);
    DivDiv(m, 0x1_0000);
    var q1, q2, q3 := m / 0x100, m / 0x1_0000, m / 0x100_0000;
    assert m == q1 * 0x100 + m % 0x100;
    assert q1 == q2 * 0x100 + q1 % 0x100;
    assert q2 == q3 * 0x100 + q2 % 0x100;
  }

  lemma DivDiv(m: int, d: int)
    requires m >= 0 && (d == 0x100 || d == 0x1_0000)
    ensures m / d / 0x100 == m / (d * 0x100)
  {}

  lemma BytesRoundTrip(b: Str)
    requires |b| == 4
    ensures BE32(Uint32(b)) == b
  {
    var b0: int, b1: int, b2: int, b3: int := b[0], b[1], b[2], b[3];
    var hi1 := b0 * 0x100 + b1;
    var hi2 := hi1 * 0x100 + b2;
    var n: int := Uint32(b);
    assert n == hi2 * 0x100 + b3;
    assert n / 0x100 == hi2;
    DivDiv(n, 0x100);
    assert n / 0x1_0000 == hi1;
    DivDiv(n, 0x1_0000);
    assert n / 0x100_0000 == b0;
  }

  // ---- Go's string comparison ----

  predicate LexLess(a: Str, b: Str) {
    b != [] && (a == [] || a[0] < b[0] || (a[0] == b[0] && LexLess(a[1..], b[1..])))
  }

  lemma {:induction false} LexTrichotomy(a: Str, b: Str)
    ensures a == b || LexLess(a, b) || LexLess(b, a)
    ensures !(LexLess(a, b) && LexLess(b, a))
    ensures !LexLess(a, a)
  {
    if a != [] {
      LexTrichotomy(a[1..], if b == [] then [] else b[1..]);
      if b != [] && a[0] == b[0] && a[1..] == b[1..] {
        assert a == [a[0]] + a[1..] == b;
      }
    }
  }

  lemma {:induction false} LexTransitive(a: Str, b: Str, c: Str)
    requires LexLess(a, b) && LexLess(b, c)
    ensures LexLess(a, c)
  {
    if a != [] && a[0] == b[0] == c[0] {
      LexTransitive(a[1..], b[1..], c[1..]);
    }
  }

  /** a is a proper prefix of b, or has the smaller byte where they first differ. */
  ghost predicate Precedes(a: Str, b: Str) {
    exists i: nat :: DiffersAt(a, b, i)
  }

  predicate DiffersAt(a: Str, b: Str, i: nat) {
    i <= |a| && i < |b| && a[..i] == b[..i] && (i == |a| || a[i] < b[i])
  }

  /** Go's < on strings is the order by the first differing byte. */
  lemma {:induction false} LexLessIsPrecedes(a: Str, b: Str)
    ensures LexLess(a, b) <==> Precedes(a, b)
  {
    if b != [] && (a == [] || a[0] < b[0]) {
      assert DiffersAt(a, b, 0);
    } else if a != [] && b != [] && a[0] == b[0] {
      LexLessIsPrecedes(a[1..], b[1..]);
      assert a == [a[0]] + a[1..] && b == [b[0]] + b[1..];
      if i: nat :| DiffersAt(a[1..], b[1..], i) {
        assert a[..i + 1] == [a[0]] + a[1..][..i] && b[..i + 1] == [b[0]] + b[1..][..i];
        assert DiffersAt(a, b, i + 1);
      }
      if i: nat :| DiffersAt(a, b, i) {
        assert i > 0;
        assert a[1..][..i - 1] == a[..i][1..] && b[1..][..i - 1] == b[..i][1..];
        assert DiffersAt(a[1..], b[1..], i - 1);
      }
    } else {
      forall i: nat ensures !DiffersAt(a, b, i) {
        if 0 < i <= |a| && i < |b| { assert a[..i][0] == a[0] && b[..i][0] == b[0]; }
      }
    }
  }

  // ---- Decimal numerals ----

  const DIGIT_ZERO: byte := 48

  predicate IsDigit(b: byte) { DIGIT_ZERO <= b < DIGIT_ZERO + 10 }

  lemma TheTenDigits(b: byte)
    ensures IsDigit(b) <==> b in Ascii("0123456789")
  {
    var ten := Ascii("0123456789");
    assert |ten| == 10 && forall i :: 0 <= i < 10 ==> ten[i] == DIGIT_ZERO + i;
    if IsDigit(b) { assert ten[b - DIGIT_ZERO] == b; }
  }

  predicate AllDigits(s: Str) {
    forall i :: 0 <= i < |s| ==> IsDigit(s[i])
  }

  /** The value of a digit string, most significant digit first. */
  function DigitsValue(s: Str): nat
    requires AllDigits(s)
  {
    if s == [] then 0
    else DigitsValue(s[..|s| - 1]) * 10 + (s[|s| - 1] - DIGIT_ZERO)
  }

  /** Go's strconv.Itoa for a natural number. */
  function Decimal(n: nat): (s: Str)
    ensures s != [] && AllDigits(s)
  {
    if n < 10 then [DIGIT_ZERO + n] else Decimal(n / 10) + [DIGIT_ZERO + n % 10]
  }

  /** strconv.Itoa over the whole int32 range. */
  function Itoa(n: int): Str {
    if n < 0 then Ascii("-") + Decimal(-n) else Decimal(n)
  }

  /** The numeral of a number: its digits without a leading zero, behind a minus sign if it is negative. */
  lemma {:induction false} ItoaIsCanonical(n: int)
    ensures n < 0 ==> Itoa(n) == ['-' as int] + Itoa(0 - n)
    ensures n >= 0 ==> AllDigits(Itoa(n)) && DigitsValue(Itoa(n)) == n && (Itoa(n)[0] == DIGIT_ZERO ==> |Itoa(n)| == 1)
    decreases if n < 0 then 1 - n else n
  {
    if n < 0 { assert Ascii("-") == ['-' as int]; } else { DecimalValue(n); NoLeadingZero(n); }
  }

  lemma {:induction false} NoLeadingZero(n: nat)
    ensures Decimal(n)[0] == DIGIT_ZERO ==> n == 0 && |Decimal(n)| == 1
  {
    if n >= 10 { NoLeadingZero(n / 10); }
  }

  lemma {:induction false} DecimalValue(n: nat)
    ensures DigitsValue(Decimal(n)) == n
  {
    var s := Decimal(n);
    if n >= 10 {
      DecimalValue(n / 10);
      assert s[..|s| - 1] == Decimal(n / 10);
    }
  }
}
