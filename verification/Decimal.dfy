/** The decimal printer of `h1/encoder.rs` and the `Content-Length` line built on it. */
module Decimal {
  import opened Payload
  import opened Transfer

  // The bytes of `DEC_DIGITS_LUT`, ten pairs of digits to a row.
  const ROW_0: Bytes := [48, 48, 48, 49, 48, 50, 48, 51, 48, 52, 48, 53, 48, 54, 48, 55, 48, 56, 48, 57]
  const ROW_1: Bytes := [49, 48, 49, 49, 49, 50, 49, 51, 49, 52, 49, 53, 49, 54, 49, 55, 49, 56, 49, 57]
  const ROW_2: Bytes := [50, 48, 50, 49, 50, 50, 50, 51, 50, 52, 50, 53, 50, 54, 50, 55, 50, 56, 50, 57]
  const ROW_3: Bytes := [51, 48, 51, 49, 51, 50, 51, 51, 51, 52, 51, 53, 51, 54, 51, 55, 51, 56, 51, 57]
  const ROW_4: Bytes := [52, 48, 52, 49, 52, 50, 52, 51, 52, 52, 52, 53, 52, 54, 52, 55, 52, 56, 52, 57]
  const ROW_5: Bytes := [53, 48, 53, 49, 53, 50, 53, 51, 53, 52, 53, 53, 53, 54, 53, 55, 53, 56, 53, 57]
  const ROW_6: Bytes := [54, 48, 54, 49, 54, 50, 54, 51, 54, 52, 54, 53, 54, 54, 54, 55, 54, 56, 54, 57]
  const ROW_7: Bytes := [55, 48, 55, 49, 55, 50, 55, 51, 55, 52, 55, 53, 55, 54, 55, 55, 55, 56, 55, 57]
  const ROW_8: Bytes := [56, 48, 56, 49, 56, 50, 56, 51, 56, 52, 56, 53, 56, 54, 56, 55, 56, 56, 56, 57]
  const ROW_9: Bytes := [57, 48, 57, 49, 57, 50, 57, 51, 57, 52, 57, 53, 57, 54, 57, 55, 57, 56, 57, 57]

  function LutRow(t: nat): Bytes
    requires t < 10
  {
    match t
    case 0 => ROW_0
    case 1 => ROW_1
    case 2 => ROW_2
    case 3 => ROW_3
    case 4 => ROW_4
    case 5 => ROW_5
    case 6 => ROW_6
    case 7 => ROW_7
    case 8 => ROW_8
    case _ => ROW_9
  }

  function PairsOf(t: nat): Bytes
    requires t < 10
  {
    [48 + t, 48, 48 + t, 49, 48 + t, 50, 48 + t, 51, 48 + t, 52, 48 + t, 53, 48 + t, 54, 48 + t, 55,
     48 + t, 56, 48 + t, 57]
  }

  lemma PairAt(t: nat, u: nat)
    requires t < 10 && u < 10
    ensures PairsOf(t)[2 * u] == 48 + t && PairsOf(t)[2 * u + 1] == 48 + u
  {}

  lemma LutRowHolds(t: nat)
    requires t < 10
    ensures LutRow(t) == PairsOf(t)
  {}

  /** Byte `i` of the table. */
  function Lut(i: nat): u8
    requires i < 200
  {
    LutRowHolds(i / 20);
    LutRow(i / 20)[i % 20]
  }

  /** Entry `d` of the table is the two digits of `d`. */
  lemma LutHolds(d: nat)
    requires d < 100
    ensures Lut(2 * d) == 48 + d / 10 && Lut(2 * d + 1) == 48 + d % 10
  {
    var t, u := d / 10, d % 10;
    LutRowHolds(t);
    PairAt(t, u);
    assert 2 * d == 20 * t + 2 * u;
    assert 2 * d / 20 == t && 2 * d % 20 == 2 * u;
    assert (2 * d + 1) / 20 == t && (2 * d + 1) % 20 == 2 * u + 1;
    assert LutRow(t)[2 * u] == 48 + t && LutRow(t)[2 * u + 1] == 48 + u;
  }

  /** The canonical decimal digits: no leading zero, and `0` for zero. */
  function Digits(n: nat): (ds: Bytes)
    ensures ds != []
  {
    if n < 10 then [48 + n] else Digits(n / 10) + [48 + n % 10]
  }

  predicate IsDigit(b: u8) {
    48 <= b <= 57
  }

  /** The number that decimal digits stand for. */
  function Number(ds: Bytes): nat
    requires forall i :: 0 <= i < |ds| ==> IsDigit(ds[i])
  {
    if ds == [] then 0
    else
      var last: int := ds[|ds| - 1];
      assert IsDigit(ds[|ds| - 1]);
      Number(ds[..|ds| - 1]) * 10 + (last - 48)
  }

  /** Printing and reading are inverse, and the printed form has no leading zero. */
  lemma {:induction false} DigitsRoundTrip(n: nat)
    ensures forall i :: 0 <= i < |Digits(n)| ==> IsDigit(Digits(n)[i])
    ensures Number(Digits(n)) == n
    ensures |Digits(n)| > 1 ==> Digits(n)[0] != 48
  {
    if n < 10 {
      assert [48 + n][..0] == [];
    } else {
      DigitsRoundTrip(n / 10);
      assert Digits(n)[..|Digits(n)| - 1] == Digits(n / 10);
      assert n / 10 < 10 ==> Digits(n / 10) == [48 + n / 10];
    }
  }

  lemma {:induction false} DigitsLength(n: nat, k: nat)
    requires k > 0 && n < Pow10(k)
    ensures |Digits(n)| <= k
  {
    if n >= 10 {
      assert k > 1;
      DigitsLength(n / 10, k - 1);
    }
  }

  function Pow10(k: nat): nat {
    if k == 0 then 1 else 10 * Pow10(k - 1)
  }

  lemma DigitsFit(n: nat)
    requires n < TWO_64
    ensures |Digits(n)| <= 20
  {
    assert Pow10(5) == 100_000;
    assert Pow10(10) == 100_000 * Pow10(5);
    assert Pow10(15) == 100_000 * Pow10(10);
    assert Pow10(20) == 100_000 * Pow10(15);
    DigitsLength(n, 20);
  }

  function Pair(d: nat): Bytes
    requires d < 100
  {
    [48 + d / 10, 48 + d % 10]
  }

  lemma DigitsPair(n: nat)
    requires n >= 10
    ensures n < 100 ==> Digits(n) == Pair(n)
    ensures n >= 100 ==> Digits(n) == Digits(n / 100) + Pair(n % 100)
  {
    assert n / 10 / 10 == n / 100 && n / 10 % 10 == n % 100 / 10 && n % 10 == n % 100 % 10;
    if n >= 100 {
      assert Digits(n) == Digits(n / 100) + [48 + n / 10 % 10] + [48 + n % 10];
    }
  }

  lemma DigitsQuad(n: nat)
    requires n >= 10_000
    ensures Digits(n) == Digits(n / 10_000) + (Pair(n % 10_000 / 100) + Pair(n % 10_000 % 100))
  {
    DigitsPair(n);
    DigitsPair(n / 100);
    assert n / 100 / 100 == n / 10_000 && n / 100 % 100 == n % 10_000 / 100 && n % 100 == n % 10_000 % 100;
  }

  /** Two bytes of the table. */
  method LoadPair(d: nat) returns (p: u8, q: u8)
    requires d < 100
    ensures p == 48 + d / 10 && q == 48 + d % 10
  {
    LutHolds(d);
    p, q := Lut(2 * d), Lut(2 * d + 1);
  }

  /** `copy_nonoverlapping(lut_ptr.offset(2 * d), buf_ptr.offset(at), 2)` */
  method CopyPair(buf: array<u8>, at: nat, d: nat)
    requires buf.Length == 41 && d < 100 && at + 2 <= 39
    modifies buf
    ensures buf[at..39] == Pair(d) + old(buf[at + 2..39])
    ensures buf[39] == old(buf[39]) && buf[40] == old(buf[40])
  {
    buf[at], buf[at + 1] := LoadPair(d);
  }

  /** The last one or two digits. */
  method CopyLast(buf: array<u8>, curr: nat, n: nat) returns (curr': nat)
    requires buf.Length == 41 && n < 100 && 2 <= curr <= 39
    modifies buf
    ensures curr' < curr && buf[curr'..39] == Digits(n) + old(buf[curr..39])
    ensures buf[39] == old(buf[39]) && buf[40] == old(buf[40])
  {
    if n < 10 {
      curr' := curr - 1;
      buf[curr'] := 48 + n;
    } else {
      DigitsPair(n);
      curr' := curr - 2;
      CopyPair(buf, curr', n);
    }
  }

  /** `convert_usize`: four digits at a time into a buffer of 41 bytes, from its end. */
  method ConvertUsize(number: nat, bytes: Bytes, eol: bool) returns (bytes': Bytes)
    requires number < TWO_64
    ensures bytes' == bytes + Digits(number) + if eol then CRLF else []
  {
    var n := number;
    var curr := 39;
    var buf := new u8[41](_ => 0);
    buf[39], buf[40] := CR, LF;
    DigitsFit(number);
    while n >= 10_000
      invariant 0 <= curr <= 39 && 0 <= n
      invariant Digits(number) == Digits(n) + buf[curr..39]
      invariant buf[39] == CR && buf[40] == LF
    {
      var rem := n % 10_000;
      DigitsQuad(n);
      n := n / 10_000;
      curr := curr - 4;
      CopyPair(buf, curr + 2, rem % 100);
      CopyPair(buf, curr, rem / 100);
    }
    if n >= 100 {
      DigitsPair(n);
      curr := curr - 2;
      CopyPair(buf, curr, n % 100);
      n := n / 100;
    }
    curr := CopyLast(buf, curr, n);
    assert buf[curr..39] == Digits(number);
    if eol {
      bytes' := bytes + buf[curr..41];
      assert buf[curr..41] == buf[curr..39] + CRLF;
    } else {
      bytes' := bytes + buf[curr..39];
    }
  }

  /** CR LF and `content-length: ` */
  const LENGTH_LINE: Bytes := [13, 10, 99, 111, 110, 116, 101, 110, 116, 45, 108, 101, 110, 103, 116, 104, 58, 32]

  lemma Patch(a: Bytes, mid: Bytes, c: Bytes, i: nat, x: u8)
    requires i < |mid|
    ensures (a + mid + c)[|a| + i := x] == a + mid[i := x] + c
  {}

  /** `write_content_length`: the same digits in each of its four size branches. */
  method WriteContentLength(number: nat, bytes: Bytes) returns (bytes': Bytes)
    requires number < TWO_64
    ensures bytes' == bytes + LENGTH_LINE + Digits(number) + CRLF
  {
    var head := LENGTH_LINE;
    assert |head| == 18;
    if number < 10 {
      var buf := head + [48] + CRLF;
      Patch(head, [48], CRLF, 0, 48 + number);
      buf := buf[18 := 48 + number];
      bytes' := bytes + buf;
      assert [48][0 := 48 + number] == Digits(number);
      Joined(bytes, head, Digits(number), CRLF);
    } else if number < 100 {
      var p, q := LoadPair(number);
      DigitsPair(number);
      var buf := head + [48, 48] + CRLF;
      Patch(head, [48, 48], CRLF, 0, p);
      Patch(head, [48, 48][0 := p], CRLF, 1, q);
      buf := buf[18 := p][19 := q];
      bytes' := bytes + buf;
      assert [48, 48][0 := p][1 := q] == Digits(number);
      Joined(bytes, head, Digits(number), CRLF);
    } else if number < 1000 {
      bytes' := ThreeDigits(number, bytes);
    } else {
      bytes' := bytes + head;
      bytes' := ConvertUsize(number, bytes', true);
    }
  }

  lemma Joined(a: Bytes, b: Bytes, c: Bytes, d: Bytes)
    ensures a + (b + c + d) == a + b + c + d
  {}

  lemma DigitsThree(n: nat)
    requires 100 <= n < 1000
    ensures Digits(n) == [48 + n / 100, 48 + n % 100 / 10, 48 + n % 100 % 10]
  {
    DigitsPair(n);
    assert Digits(n / 100) == [48 + n / 100];
  }

  lemma ThreePatches(a: Bytes, c: Bytes, x: u8, p: u8, q: u8)
    ensures (a + [48, 48, 48] + c)[|a| + 1 := p][|a| + 2 := q][|a| := x] == a + [x, p, q] + c
  {
    Patch(a, [48, 48, 48], c, 1, p);
    assert [48, 48, 48][1 := p] == [48, p, 48];
    Patch(a, [48, p, 48], c, 2, q);
    assert [48, p, 48][2 := q] == [48, p, q];
    Patch(a, [48, p, q], c, 0, x);
    assert [48, p, q][0 := x] == [x, p, q];
  }

  /** The branch of `write_content_length` for three digits. */
  method ThreeDigits(number: nat, bytes: Bytes) returns (bytes': Bytes)
    requires 100 <= number < 1000
    ensures bytes' == bytes + LENGTH_LINE + Digits(number) + CRLF
  {
    var head := LENGTH_LINE;
    assert |head| == 18;
    DigitsThree(number);
    var p, q := LoadPair(number % 100);
    var buf := head + [48, 48, 48] + CRLF;
    ThreePatches(head, CRLF, 48 + number / 100, p, q);
    buf := buf[19 := p][20 := q][18 := 48 + number / 100];
    bytes' := bytes + buf;
    Joined(bytes, head, Digits(number), CRLF);
  }
}
