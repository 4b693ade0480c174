/**
 The CRC-16 of an EMVCo QR payload: the byte-and-shift loop, its meaning as a
 polynomial remainder over GF(2), and which alterations it detects.
 */
module Crc {
  import opened Common

  // ---------- The loop ----------

  /** One turn of the inner loop. */
  function Shift(crc: bv16): bv16 {
    if crc & 0x8000 != 0 then (crc << 1) ^ 0x1021 else crc << 1
  }

  function Shifts(crc: bv16, n: nat): bv16 {
    if n == 0 then crc else Shift(Shifts(crc, n - 1))
  }

  function High(b: Byte): bv16 {
    (b as bv16) << 8
  }

  /** One turn of the outer loop. */
  function Absorb(crc: bv16, b: Byte): bv16 {
    Shifts(crc ^ High(b), 8)
  }

  function Absorbed(crc: bv16, data: seq<Byte>): bv16 {
    if data == [] then crc else Absorb(Absorbed(crc, data[..|data| - 1]), data[|data| - 1])
  }

  function Crc(data: seq<Byte>): bv16 {
    Absorbed(0xFFFF, data)
  }

  method ShiftOnce(c: bv16) returns (crc: bv16)
    ensures crc == Shift(c)
  {
    crc := c;
    if crc & 0x8000 != 0 {
      crc := (crc << 1) ^ 0x1021;
    } else {
      crc := crc << 1;
    }
  }

  method CalculateCRC16(data: seq<Byte>) returns (crc: bv16)
    ensures crc == Crc(data)
  {
    crc := 0xFFFF;
    var i := 0;
    while i < |data|
      invariant 0 <= i <= |data|
      invariant crc == Absorbed(0xFFFF, data[..i])
    {
      assert data[..i + 1][..i] == data[..i];
      crc := crc ^ ((data[i] as bv16) << 8);
      ghost var start := crc;
      var j := 0;
      while j < 8
        invariant 0 <= j <= 8
        invariant crc == Shifts(start, j)
      {
        crc := ShiftOnce(crc);
        j := j + 1;
      }
      i := i + 1;
    }
    assert data[..i] == data;
  }

  // ---------- A known value ----------

  function EightShifts(c: bv16): bv16 {
    Shift(Shift(Shift(Shift(Shift(Shift(Shift(Shift(c))))))))
  }

  lemma ShiftsAreEight(c: bv16)
    ensures Shifts(c, 8) == EightShifts(c)
  {
    TwoMore(c, 0);
    TwoMore(c, 2);
    TwoMore(c, 4);
    TwoMore(c, 6);
  }

  lemma TwoMore(c: bv16, n: nat)
    ensures Shifts(c, n + 2) == Shift(Shift(Shifts(c, n)))
  {
    assert Shifts(c, n + 1) == Shift(Shifts(c, n));
  }

  lemma OneByte(data: seq<Byte>, b: Byte)
    ensures Crc(data + [b]) == EightShifts(Crc(data) ^ High(b))
  {
    assert (data + [b])[..|data|] == data;
    ShiftsAreEight(Crc(data) ^ High(b));
  }

  /** The digits 1 to 9 in ASCII have the published check value of the CRC-16 with this polynomial and preset. */
  lemma CheckValue()
    ensures Crc([0x31, 0x32, 0x33, 0x34, 0x35, 0x36, 0x37, 0x38, 0x39]) == 0x29B1
  {
    var digits: seq<Byte> := [0x31, 0x32, 0x33, 0x34, 0x35, 0x36, 0x37, 0x38, 0x39];
    assert digits[..0] == [];
    Digit(digits, 0, 0xFFFF, 0xC782);
    Digit(digits, 1, 0xC782, 0x3DBA);
    Digit(digits, 2, 0x3DBA, 0x5BCE);
    Digit(digits, 3, 0x5BCE, 0x5349);
    Digit(digits, 4, 0x5349, 0x4560);
    Digit(digits, 5, 0x4560, 0x2EF4);
    Digit(digits, 6, 0x2EF4, 0x7718);
    Digit(digits, 7, 0x7718, 0xA12B);
    Digit(digits, 8, 0xA12B, 0x29B1);
    assert digits[..9] == digits;
  }

  lemma Digit(digits: seq<Byte>, k: nat, before: bv16, after: bv16)
    requires k < |digits| && Crc(digits[..k]) == before && EightShifts(before ^ High(digits[k])) == after
    ensures Crc(digits[..k + 1]) == after
  {
    assert digits[..k + 1] == digits[..k] + [digits[k]];
    OneByte(digits[..k], digits[k]);
  }

  // ---------- The coefficients of a word ----------

  function Shl(w: bv16, n: nat): bv16 {
    if n == 0 then w else Shl(w, n - 1) << 1
  }

  /** Coefficient of x^(15 - i) of a word read as a polynomial; 0 outside the word. */
  predicate Bit(w: bv16, i: int) {
    0 <= i && Shl(w, i) & 0x8000 != 0
  }

  /** The first `n` coefficients, highest degree first. */
  function FirstBits(w: bv16, n: nat): (bits: seq<bool>)
    ensures |bits| == n && forall i :: 0 <= i < n ==> bits[i] == Bit(w, i)
  {
    if n == 0 then [] else FirstBits(w, n - 1) + [Bit(w, n - 1)]
  }

  predicate Xor(a: bool, b: bool) {
    a != b
  }

  lemma ShiftXor(z: bv16, x: bv16, y: bv16)
    requires z == x ^ y
    ensures z << 1 == (x << 1) ^ (y << 1)
  {
  }

  lemma {:induction false} ShlXor(x: bv16, y: bv16, n: nat)
    ensures Shl(x ^ y, n) == Shl(x, n) ^ Shl(y, n)
  {
    if n > 0 {
      ShlXor(x, y, n - 1);
      ShiftXor(Shl(x ^ y, n - 1), Shl(x, n - 1), Shl(y, n - 1));
    }
  }

  lemma TopXor(x: bv16, y: bv16)
    ensures ((x ^ y) & 0x8000 != 0) == ((x & 0x8000 != 0) != (y & 0x8000 != 0))
  {
  }

  lemma BitXor(x: bv16, y: bv16, i: int)
    ensures Bit(x ^ y, i) == Xor(Bit(x, i), Bit(y, i))
  {
    if 0 <= i {
      ShlXor(x, y, i);
      TopXor(Shl(x, i), Shl(y, i));
    }
  }

  lemma {:induction false} ShlFront(w: bv16, n: nat)
    ensures Shl(w << 1, n) == Shl(w, n + 1)
  {
    if n > 0 {
      ShlFront(w, n - 1);
    }
  }

  lemma {:induction false} ShlAdd(w: bv16, m: nat, n: nat)
    ensures Shl(Shl(w, m), n) == Shl(w, m + n)
  {
    if n > 0 {
      ShlAdd(w, m, n - 1);
    }
  }

  lemma ShlOne(w: bv16)
    ensures Shl(w, 1) == w << 1
  {
  }

  lemma ShlTwo(w: bv16)
    ensures Shl(w, 2) == w << 2
  {
    ShlOne(w);
    ShlOne(w << 1);
    ShlAdd(w, 1, 1);
  }

  lemma ShlFour(w: bv16)
    ensures Shl(w, 4) == w << 4
  {
    ShlTwo(w);
    ShlTwo(w << 2);
    ShlAdd(w, 2, 2);
  }

  lemma ShlEight(w: bv16)
    ensures Shl(w, 8) == w << 8
  {
    ShlFour(w);
    ShlFour(w << 4);
    ShlAdd(w, 4, 4);
  }

  lemma {:induction false} ZeroStays(n: nat)
    ensures Shl(0, n) == 0
  {
    if n > 0 {
      ZeroStays(n - 1);
    }
  }

  lemma Emptied(w: bv16, n: nat)
    requires n >= 16
    ensures Shl(w, n) == 0
  {
    ShlEight(w);
    ShlEight(w << 8);
    ShlAdd(w, 8, 8);
    ShlAdd(w, 16, n - 16);
    ZeroStays(n - 16);
  }

  /** A word without coefficients is zero. */
  lemma {:induction false} NoBits(w: bv16, n: nat)
    requires Shl(w, n) == 0
    requires forall i :: 0 <= i < n ==> !Bit(w, i)
    ensures w == 0
    decreases n
  {
    if n > 0 {
      var v := w << 1;
      ShlFront(w, n - 1);
      forall i | 0 <= i < n - 1 ensures !Bit(v, i) {
        ShlFront(w, i);
        assert !Bit(w, i + 1);
      }
      NoBits(v, n - 1);
      assert !Bit(w, 0);
      assert Shl(w, 0) == w;
    }
  }

  lemma SameBits(x: bv16, y: bv16)
    requires forall i :: 0 <= i < 16 ==> Bit(x, i) == Bit(y, i)
    ensures x == y
  {
    var z := x ^ y;
    forall i | 0 <= i < 16 ensures !Bit(z, i) {
      BitXor(x, y, i);
    }
    Emptied(z, 16);
    NoBits(z, 16);
  }

  // ---------- The register as a row of sixteen bits ----------

  type Row = r: seq<bool> | |r| == 16 witness seq(16, _ => false)

  function RowOf(w: bv16): (r: Row)
    ensures forall i :: 0 <= i < 16 ==> r[i] == Bit(w, i)
  {
    FirstBits(w, 16)
  }

  predicate Tap(i: int) {
    i == 3 || i == 10 || i == 15
  }

  predicate StepBit(r: Row, b: bool, i: int) {
    Xor(0 <= i < 15 && r[i + 1], Xor(r[0], b) && Tap(i))
  }

  /** Feeds the next message bit, highest degree first. */
  function Step(r: Row, b: bool): (r': Row)
    ensures forall i :: 0 <= i < 16 ==> r'[i] == StepBit(r, b, i)
  {
    seq(16, i requires 0 <= i < 16 => StepBit(r, b, i))
  }

  function Fed(r: Row, bits: seq<bool>): Row {
    if bits == [] then r else Step(Fed(r, bits[..|bits| - 1]), bits[|bits| - 1])
  }

  function ByteBits(b: Byte): (bits: seq<bool>)
    ensures |bits| == 8
  {
    FirstBits(High(b), 8)
  }

  function Bits(data: seq<Byte>): (bits: seq<bool>)
    ensures |bits| == 8 * |data|
  {
    if data == [] then [] else Bits(data[..|data| - 1]) + ByteBits(data[|data| - 1])
  }

  function XorRow(x: Row, y: Row): (r: Row)
    ensures forall i :: 0 <= i < 16 ==> r[i] == Xor(x[i], y[i])
  {
    seq(16, i requires 0 <= i < 16 => Xor(x[i], y[i]))
  }

  lemma SameRow(x: bv16, y: bv16)
    requires RowOf(x) == RowOf(y)
    ensures x == y
  {
    forall i | 0 <= i < 16 ensures Bit(x, i) == Bit(y, i) {
      assert RowOf(x)[i] == RowOf(y)[i];
    }
    SameBits(x, y);
  }

  lemma RowXor(x: bv16, y: bv16)
    ensures RowOf(x ^ y) == XorRow(RowOf(x), RowOf(y))
  {
    forall i | 0 <= i < 16 ensures RowOf(x ^ y)[i] == XorRow(RowOf(x), RowOf(y))[i] {
      BitXor(x, y, i);
    }
  }

  lemma GeneratorBits(i: nat)
    ensures Bit(0x1021, i) == Tap(i)
  {
    if i >= 16 {
      Emptied(0x1021, i);
    } else {
      assert Shl(0x1021, 1) == 0x2042 && Shl(0x1021, 2) == 0x4084 && Shl(0x1021, 3) == 0x8108;
      assert Shl(0x1021, 4) == 0x0210 && Shl(0x1021, 5) == 0x0420 && Shl(0x1021, 6) == 0x0840;
      assert Shl(0x1021, 7) == 0x1080 && Shl(0x1021, 8) == 0x2100 && Shl(0x1021, 9) == 0x4200;
      assert Shl(0x1021, 10) == 0x8400 && Shl(0x1021, 11) == 0x0800 && Shl(0x1021, 12) == 0x1000;
      assert Shl(0x1021, 13) == 0x2000 && Shl(0x1021, 14) == 0x4000 && Shl(0x1021, 15) == 0x8000;
    }
  }

  lemma OnesBits(i: nat)
    requires i < 16
    ensures Bit(0xFFFF, i)
  {
    assert Shl(0xFFFF, 1) == 0xFFFE && Shl(0xFFFF, 2) == 0xFFFC && Shl(0xFFFF, 3) == 0xFFF8;
    assert Shl(0xFFFF, 4) == 0xFFF0 && Shl(0xFFFF, 5) == 0xFFE0 && Shl(0xFFFF, 6) == 0xFFC0;
    assert Shl(0xFFFF, 7) == 0xFF80 && Shl(0xFFFF, 8) == 0xFF00 && Shl(0xFFFF, 9) == 0xFE00;
    assert Shl(0xFFFF, 10) == 0xFC00 && Shl(0xFFFF, 11) == 0xF800 && Shl(0xFFFF, 12) == 0xF000;
    assert Shl(0xFFFF, 13) == 0xE000 && Shl(0xFFFF, 14) == 0xC000 && Shl(0xFFFF, 15) == 0x8000;
  }

  lemma GeneratorXor(z: bv16, w: bv16, i: nat)
    requires z == w ^ 0x1021
    ensures Bit(z, i) == Xor(Bit(w, i), Tap(i))
  {
    BitXor(w, 0x1021, i);
    GeneratorBits(i);
  }

  lemma ShiftedBit(c: bv16, i: nat)
    ensures Bit(c << 1, i) == Bit(c, i + 1)
  {
    ShlFront(c, i);
  }

  lemma TopBit(c: bv16)
    ensures Bit(c, 0) == (c & 0x8000 != 0)
  {
    assert Shl(c, 0) == c;
  }

  lemma ShiftPlain(c: bv16, i: nat)
    requires !Bit(c, 0)
    ensures Bit(Shift(c), i) == Bit(c, i + 1)
  {
    TopBit(c);
    ShiftedBit(c, i);
  }

  lemma ShiftReduced(c: bv16, i: nat)
    requires Bit(c, 0)
    ensures Bit(Shift(c), i) == Xor(Bit(c, i + 1), Tap(i))
  {
    TopBit(c);
    ShiftedBit(c, i);
    GeneratorXor(Shift(c), c << 1, i);
  }

  lemma ShiftBit(c: bv16, i: nat)
    ensures Bit(Shift(c), i) == Xor(Bit(c, i + 1), Bit(c, 0) && Tap(i))
  {
    if Bit(c, 0) {
      ShiftReduced(c, i);
    } else {
      ShiftPlain(c, i);
    }
  }

  /** One turn of the loop is feeding a zero. */
  lemma ShiftIsStep(c: bv16)
    ensures RowOf(Shift(c)) == Step(RowOf(c), false)
  {
    forall i | 0 <= i < 16 ensures RowOf(Shift(c))[i] == Step(RowOf(c), false)[i] {
      ShiftBit(c, i);
      if i == 15 {
        Emptied(c, 16);
      }
    }
  }

  function Zeros(n: nat): (z: seq<bool>)
    ensures |z| == n && forall i :: 0 <= i < n ==> !z[i]
  {
    if n == 0 then [] else Zeros(n - 1) + [false]
  }

  lemma FeedZero(r: Row, n: nat)
    ensures Fed(r, Zeros(n + 1)) == Step(Fed(r, Zeros(n)), false)
  {
    assert Zeros(n + 1)[..n] == Zeros(n);
  }

  lemma OneMoreZero(s: bv16, r: Row, n: nat)
    requires RowOf(s) == Fed(r, Zeros(n))
    ensures RowOf(Shift(s)) == Fed(r, Zeros(n + 1))
  {
    ShiftIsStep(s);
    FeedZero(r, n);
  }

  lemma {:induction false} ShiftsFeedZeros(c: bv16, n: nat)
    ensures RowOf(Shifts(c, n)) == Fed(RowOf(c), Zeros(n))
  {
    if n > 0 {
      ShiftsFeedZeros(c, n - 1);
      OneMoreZero(Shifts(c, n - 1), RowOf(c), n - 1);
    }
  }

  function Dropped(w: Row, n: nat): (r: Row)
    ensures forall i :: 0 <= i < 16 ==> r[i] == (i + n < 16 && w[i + n])
  {
    seq(16, i requires 0 <= i < 16 => i + n < 16 && w[i + n])
  }

  /** Feeding zeros with a word already in the register is feeding that word. */
  lemma {:induction false} FeedWord(s: Row, w: Row, n: nat)
    requires n <= 16
    ensures Fed(XorRow(s, w), Zeros(n)) == XorRow(Fed(s, w[..n]), Dropped(w, n))
  {
    if n == 0 {
      assert Dropped(w, 0) == w;
    } else {
      FeedWord(s, w, n - 1);
      assert w[..n][..n - 1] == w[..n - 1];
      FeedZero(XorRow(s, w), n - 1);
      StepWord(Fed(s, w[..n - 1]), w, n - 1);
    }
  }

  lemma StepWord(r: Row, w: Row, n: nat)
    requires n < 16
    ensures Step(XorRow(r, Dropped(w, n)), false) == XorRow(Step(r, w[n]), Dropped(w, n + 1))
  {
    var x, y := Step(XorRow(r, Dropped(w, n)), false), XorRow(Step(r, w[n]), Dropped(w, n + 1));
    forall i | 0 <= i < 16 ensures x[i] == y[i] {
      assert x[i] == StepBit(XorRow(r, Dropped(w, n)), false, i);
    }
  }

  lemma HighRow(b: Byte, i: nat)
    requires 8 <= i < 16
    ensures !Bit(High(b), i)
  {
    ShlEight(High(b));
    ShlAdd(High(b), 8, i - 8);
    ZeroStays(i - 8);
  }

  lemma AbsorbFeeds(s: bv16, b: Byte)
    ensures RowOf(Absorb(s, b)) == Fed(RowOf(s), ByteBits(b))
  {
    var w := RowOf(High(b));
    RowXor(s, High(b));
    ShiftsFeedZeros(s ^ High(b), 8);
    FeedWord(RowOf(s), w, 8);
    assert w[..8] == ByteBits(b);
    var r := Fed(RowOf(s), w[..8]);
    forall i | 0 <= i < 16 ensures XorRow(r, Dropped(w, 8))[i] == r[i] {
      if i < 8 {
        HighRow(b, i + 8);
      }
    }
  }

  lemma {:induction false} FedConcat(r: Row, xs: seq<bool>, ys: seq<bool>)
    ensures Fed(r, xs + ys) == Fed(Fed(r, xs), ys)
  {
    if ys == [] {
      assert xs + ys == xs;
    } else {
      var n := |ys| - 1;
      FedConcat(r, xs, ys[..n]);
      assert (xs + ys)[..|xs| + n] == xs + ys[..n];
    }
  }

  /** The byte loop feeds the whole message bit by bit. */
  lemma {:induction false} AbsorbedFeedsBits(s: bv16, data: seq<Byte>)
    ensures RowOf(Absorbed(s, data)) == Fed(RowOf(s), Bits(data))
  {
    if data != [] {
      var n := |data| - 1;
      AbsorbedFeedsBits(s, data[..n]);
      FedConcat(RowOf(s), Bits(data[..n]), ByteBits(data[n]));
      AbsorbFeeds(Absorbed(s, data[..n]), data[n]);
    }
  }

  // ---------- Polynomials over GF(2) ----------
  //
  // A polynomial is the sequence of its coefficients, highest degree first.

  predicate Coef(q: seq<bool>, i: int) {
    0 <= i < |q| && q[i]
  }

  /** The coefficient at `p` of q * (x^16 + x^12 + x^5 + 1). */
  predicate Product(q: seq<bool>, p: int) {
    Xor(Xor(Coef(q, p), Coef(q, p - 4)), Xor(Coef(q, p - 11), Coef(q, p - 16)))
  }

  /**
   The message times x^16 with its sixteen leading coefficients inverted, which is what
   presetting to 0xFFFF means.
   */
  predicate Dividend(message: seq<bool>, p: int) {
    Xor(Coef(message, p), 0 <= p < 16)
  }

  predicate DividesAt(message: seq<bool>, quotient: seq<bool>, remainder: Row, p: int) {
    Dividend(message, p) == Xor(Product(quotient, p), Coef(remainder, p - |message|))
  }

  /** dividend = quotient * (x^16 + x^12 + x^5 + 1) + remainder, coefficient by coefficient. */
  ghost predicate DividesAs(message: seq<bool>, quotient: seq<bool>, remainder: Row) {
    && |quotient| == |message|
    && forall p :: DividesAt(message, quotient, remainder, p)
  }

  function Ones(): Row {
    RowOf(0xFFFF)
  }

  function Quotient(message: seq<bool>): (q: seq<bool>)
    ensures |q| == |message|
  {
    if message == [] then []
    else
      var n := |message| - 1;
      Quotient(message[..n]) + [Xor(Fed(Ones(), message[..n])[0], message[n])]
  }

  lemma ProductSnoc(q: seq<bool>, k: bool, p: int)
    ensures var i := p - |q|;
            Product(q + [k], p) == Xor(Product(q, p), k && (i == 0 || i == 4 || i == 11 || i == 16))
  {
  }

  lemma DividesSnoc(m: seq<bool>, b: bool, q: seq<bool>, r: Row, p: int)
    requires |q| == |m| && DividesAt(m, q, r, p)
    ensures DividesAt(m + [b], q + [Xor(r[0], b)], Step(r, b), p)
  {
    ProductSnoc(q, Xor(r[0], b), p);
    var i := p - |m|;
    assert Coef(m + [b], p) == Xor(Coef(m, p), i == 0 && b);
    if 0 < i <= 16 {
      assert Step(r, b)[i - 1] == StepBit(r, b, i - 1);
    }
  }

  /** The register is the remainder of what has been fed so far. */
  lemma {:induction false} LongDivision(message: seq<bool>)
    ensures DividesAs(message, Quotient(message), Fed(Ones(), message))
  {
    if message == [] {
      forall p ensures DividesAt(message, [], Ones(), p) {
        if 0 <= p < 16 {
          OnesBits(p);
        }
      }
    } else {
      var n := |message| - 1;
      var m, b := message[..n], message[n];
      LongDivision(m);
      var q, r := Quotient(m), Fed(Ones(), m);
      forall p ensures DividesAt(m + [b], q + [Xor(r[0], b)], Step(r, b), p) {
        DividesSnoc(m, b, q, r, p);
      }
      assert m + [b] == message;
    }
  }

  lemma {:induction false} SameQuotient(m: seq<bool>, q: seq<bool>, r: Row, q': seq<bool>, r': Row, p: nat)
    requires DividesAs(m, q, r) && DividesAs(m, q', r') && p <= |m|
    ensures q[..p] == q'[..p]
  {
    if p > 0 {
      SameQuotient(m, q, r, q', r', p - 1);
      assert DividesAt(m, q, r, p - 1) && DividesAt(m, q', r', p - 1);
      assert forall i :: i < p - 1 ==> Coef(q, i) == Coef(q[..p - 1], i) && Coef(q', i) == Coef(q'[..p - 1], i);
    }
  }

  /** Division with remainder has only one answer. */
  lemma RemainderUnique(m: seq<bool>, q: seq<bool>, r: Row, q': seq<bool>, r': Row)
    requires DividesAs(m, q, r) && DividesAs(m, q', r')
    ensures q == q' && r == r'
  {
    SameQuotient(m, q, r, q', r', |m|);
    assert q[..|m|] == q && q'[..|m|] == q';
    forall i | 0 <= i < 16 ensures r[i] == r'[i] {
      assert DividesAt(m, q, r, |m| + i) && DividesAt(m, q', r', |m| + i);
    }
  }

  /**
   The CRC is the polynomial remainder: a word is the loop's result if and only
   if it is the remainder of the message, preset with ones, modulo
   x^16 + x^12 + x^5 + 1.
   */
  lemma CrcIsRemainder(data: seq<Byte>, c: bv16)
    ensures c == Crc(data) <==> exists q :: DividesAs(Bits(data), q, RowOf(c))
  {
    AbsorbedFeedsBits(0xFFFF, data);
    LongDivision(Bits(data));
    if q :| DividesAs(Bits(data), q, RowOf(c)) {
      RemainderUnique(Bits(data), q, RowOf(c), Quotient(Bits(data)), RowOf(Crc(data)));
      SameRow(c, Crc(data));
    }
  }

  // ---------- Linearity ----------

  function XorBits(a: seq<bool>, b: seq<bool>): (c: seq<bool>)
    requires |a| == |b|
    ensures |c| == |a| && forall i :: 0 <= i < |a| ==> c[i] == Xor(a[i], b[i])
  {
    seq(|a|, i requires 0 <= i < |a| => Xor(a[i], b[i]))
  }

  function XorBytes(a: seq<Byte>, b: seq<Byte>): (c: seq<Byte>)
    requires |a| == |b|
    ensures |c| == |a| && forall i :: 0 <= i < |a| ==> c[i] == a[i] ^ b[i]
  {
    seq(|a|, i requires 0 <= i < |a| => a[i] ^ b[i])
  }

  lemma HighXor(x: Byte, y: Byte)
    ensures High(x ^ y) == High(x) ^ High(y)
  {
  }

  lemma ByteBitsXor(x: Byte, y: Byte)
    ensures ByteBits(x ^ y) == XorBits(ByteBits(x), ByteBits(y))
  {
    HighXor(x, y);
    forall i | 0 <= i < 8 ensures ByteBits(x ^ y)[i] == Xor(ByteBits(x)[i], ByteBits(y)[i]) {
      BitXor(High(x), High(y), i);
    }
  }

  lemma {:induction false} BitsXor(a: seq<Byte>, b: seq<Byte>)
    requires |a| == |b|
    ensures Bits(XorBytes(a, b)) == XorBits(Bits(a), Bits(b))
  {
    if a != [] {
      var n := |a| - 1;
      BitsXor(a[..n], b[..n]);
      ByteBitsXor(a[n], b[n]);
      assert XorBytes(a, b)[..n] == XorBytes(a[..n], b[..n]);
      XorConcat(Bits(a[..n]), Bits(b[..n]), ByteBits(a[n]), ByteBits(b[n]));
    }
  }

  lemma XorConcat(a: seq<bool>, b: seq<bool>, c: seq<bool>, d: seq<bool>)
    requires |a| == |b| && |c| == |d|
    ensures XorBits(a + c, b + d) == XorBits(a, b) + XorBits(c, d)
  {
  }

  lemma StepXor(x: Row, y: Row, a: bool, b: bool)
    ensures Step(XorRow(x, y), Xor(a, b)) == XorRow(Step(x, a), Step(y, b))
  {
    var l, r := Step(XorRow(x, y), Xor(a, b)), XorRow(Step(x, a), Step(y, b));
    forall i | 0 <= i < 16 ensures l[i] == r[i] {
      assert l[i] == StepBit(XorRow(x, y), Xor(a, b), i);
    }
  }

  lemma {:induction false} FedXor(x: Row, y: Row, a: seq<bool>, b: seq<bool>)
    requires |a| == |b|
    ensures Fed(XorRow(x, y), XorBits(a, b)) == XorRow(Fed(x, a), Fed(y, b))
  {
    if a != [] {
      var n := |a| - 1;
      FedXor(x, y, a[..n], b[..n]);
      assert XorBits(a, b)[..n] == XorBits(a[..n], b[..n]);
      StepXor(Fed(x, a[..n]), Fed(y, b[..n]), a[n], b[n]);
    }
  }

  lemma AbsorbedXor(x: bv16, y: bv16, a: seq<Byte>, b: seq<Byte>)
    requires |a| == |b|
    ensures RowOf(Absorbed(x ^ y, XorBytes(a, b))) == XorRow(RowOf(Absorbed(x, a)), RowOf(Absorbed(y, b)))
  {
    AbsorbedFeedsBits(x, a);
    AbsorbedFeedsBits(y, b);
    AbsorbedFeedsBits(x ^ y, XorBytes(a, b));
    RowXor(x, y);
    BitsXor(a, b);
    FedXor(RowOf(x), RowOf(y), Bits(a), Bits(b));
  }

  lemma SameXor(z: bv16, x: bv16, y: bv16)
    requires RowOf(z) == XorRow(RowOf(x), RowOf(y))
    ensures z == x ^ y
  {
    RowXor(x, y);
    SameRow(z, x ^ y);
  }

  lemma AbsorbedLinear(x: bv16, y: bv16, a: seq<Byte>, b: seq<Byte>)
    requires |a| == |b|
    ensures Absorbed(x ^ y, XorBytes(a, b)) == Absorbed(x, a) ^ Absorbed(y, b)
  {
    AbsorbedXor(x, y, a, b);
    SameXor(Absorbed(x ^ y, XorBytes(a, b)), Absorbed(x, a), Absorbed(y, b));
  }

  /** On inputs of one length the CRC is affine: the preset cancels in an exclusive or of three. */
  lemma Affine(a: seq<Byte>, b: seq<Byte>, c: seq<Byte>)
    requires |a| == |b| == |c|
    ensures Crc(XorBytes(XorBytes(a, b), c)) == Crc(a) ^ Crc(b) ^ Crc(c)
  {
    AbsorbedLinear(0xFFFF, 0xFFFF, a, b);
    AbsorbedLinear(0xFFFF ^ 0xFFFF, 0xFFFF, XorBytes(a, b), c);
    assert (0xFFFF as bv16 ^ 0xFFFF) ^ 0xFFFF == 0xFFFF;
  }

  // ---------- Burst detection ----------

  predicate Clear(bits: seq<bool>, from: nat) {
    forall i :: from <= i < |bits| ==> !bits[i]
  }

  /** A cleared register can only come from a cleared register: the generator has a constant term. */
  lemma {:induction false} ZeroTail(r: Row, n: nat)
    requires Clear(Fed(r, Zeros(n)), 0)
    ensures Clear(r, 0)
  {
    if n > 0 {
      var s := Fed(r, Zeros(n - 1));
      FeedZero(r, n - 1);
      ClearStep(s, false, 0);
      assert Clear(s, 0);
      ZeroTail(r, n - 1);
    }
  }

  lemma ClearStep(r: Row, b: bool, j: nat)
    requires j < 16 && Clear(Step(r, b), j)
    ensures r[0] == b && Clear(r, j + 1)
    ensures forall i :: 0 <= i < 15 ==> Step(r, b)[i] == r[i + 1]
  {
    assert StepBit(r, b, 15) == Step(r, b)[15];
    forall i | 0 <= i < 15 ensures Step(r, b)[i] == r[i + 1] {
      assert Step(r, b)[i] == StepBit(r, b, i);
    }
    forall i | j + 1 <= i < 16 ensures !r[i] {
      assert Step(r, b)[i - 1] == r[i];
    }
  }

  /** Sixteen or fewer bits fed into a cleared register leave a trace unless all are zero. */
  lemma {:induction false} WindowVisible(bits: seq<bool>, j: nat)
    requires |bits| + j <= 16
    requires Clear(Fed(Zeros(16), bits), j)
    ensures Clear(bits, 0) && Clear(Fed(Zeros(16), bits), 0)
    decreases |bits|
  {
    if bits != [] {
      var n := |bits| - 1;
      var r := Fed(Zeros(16), bits[..n]);
      ClearStep(r, bits[n], j);
      WindowVisible(bits[..n], j + 1);
      forall i | 0 <= i < |bits| ensures !bits[i] {
        assert i < n ==> bits[..n][i] == bits[i];
      }
      assert Step(r, bits[n])[15] == StepBit(r, bits[n], 15);
    }
  }

  lemma {:induction false} ZeroLead(n: nat)
    ensures Fed(Zeros(16), Zeros(n)) == Zeros(16)
  {
    if n > 0 {
      ZeroLead(n - 1);
      FeedZero(Zeros(16), n - 1);
      assert Step(Zeros(16), false) == Zeros(16);
    }
  }

  lemma FeedBurst(f: nat, w: seq<bool>, n: nat)
    ensures Fed(Zeros(16), Zeros(f) + w + Zeros(n)) == Fed(Fed(Zeros(16), w), Zeros(n))
  {
    FedConcat(Zeros(16), Zeros(f) + w, Zeros(n));
    FedConcat(Zeros(16), Zeros(f), w);
    ZeroLead(f);
  }

  lemma BurstSplit(e: seq<bool>, f: nat, l: nat)
    requires f <= l <= |e|
    requires forall i :: 0 <= i < |e| && e[i] ==> f <= i < l
    ensures e == Zeros(f) + e[f..l] + Zeros(|e| - l)
  {
    var z := Zeros(f) + e[f..l] + Zeros(|e| - l);
    forall i | 0 <= i < |e| ensures e[i] == z[i] {
    }
  }

  /** An error pattern confined to sixteen consecutive positions never divides evenly. */
  lemma {:induction false} BurstVisible(e: seq<bool>, f: nat, l: nat)
    requires f <= l <= |e| && l <= f + 16
    requires forall i :: 0 <= i < |e| && e[i] ==> f <= i < l
    requires Clear(Fed(Zeros(16), e), 0)
    ensures Clear(e, 0)
  {
    var w := e[f..l];
    BurstSplit(e, f, l);
    FeedBurst(f, w, |e| - l);
    ZeroTail(Fed(Zeros(16), w), |e| - l);
    WindowVisible(w, 0);
    forall i | 0 <= i < |e| ensures !e[i] {
      assert f <= i < l ==> w[i - f] == e[i];
    }
  }

  lemma SameByteBits(x: Byte, y: Byte)
    requires ByteBits(x) == ByteBits(y)
    ensures x == y
  {
    forall i | 0 <= i < 16 ensures Bit(High(x), i) == Bit(High(y), i) {
      if i < 8 {
        assert ByteBits(x)[i] == ByteBits(y)[i];
      } else {
        HighRow(x, i);
        HighRow(y, i);
      }
    }
    SameBits(High(x), High(y));
    HighInjective(x, y);
  }

  lemma HighInjective(x: Byte, y: Byte)
    ensures High(x) == High(y) ==> x == y
  {
  }

  lemma {:induction false} SameMessage(a: seq<Byte>, b: seq<Byte>)
    requires |a| == |b| && Bits(a) == Bits(b)
    ensures a == b
  {
    if a != [] {
      var n := |a| - 1;
      assert Bits(a)[..8 * n] == Bits(a[..n]) && Bits(b)[..8 * n] == Bits(b[..n]);
      assert Bits(a)[8 * n..] == ByteBits(a[n]) && Bits(b)[8 * n..] == ByteBits(b[n]);
      SameMessage(a[..n], b[..n]);
      SameByteBits(a[n], b[n]);
      assert a == a[..n] + [a[n]] && b == b[..n] + [b[n]];
    }
  }

  /** All differences lie within the sixteen positions from `f` on. */
  predicate DifferOnlyFrom(a: seq<bool>, b: seq<bool>, f: nat)
    requires |a| == |b|
  {
    forall i :: 0 <= i < |a| && a[i] != b[i] ==> f <= i < f + 16
  }

  /**
   Data altered only within sixteen consecutive bits always has another CRC.
   */
  lemma BurstDetected(a: seq<Byte>, b: seq<Byte>, f: nat)
    requires |a| == |b| && a != b
    requires DifferOnlyFrom(Bits(a), Bits(b), f)
    ensures Crc(a) != Crc(b)
  {
    if Crc(a) == Crc(b) {
      var n := 8 * |a|;
      var e := XorBits(Bits(a), Bits(b));
      EqualCrcs(a, b);
      BurstVisible(e, if f < n then f else n, if f + 16 < n then f + 16 else n);
      forall i | 0 <= i < n ensures Bits(a)[i] == Bits(b)[i] {
        assert !e[i];
      }
      SameMessage(a, b);
    }
  }

  lemma XorSelf(r: Row)
    ensures XorRow(r, r) == Zeros(16)
  {
  }

  lemma EqualCrcs(a: seq<Byte>, b: seq<Byte>)
    requires |a| == |b| && Crc(a) == Crc(b)
    ensures Clear(Fed(Zeros(16), XorBits(Bits(a), Bits(b))), 0)
  {
    AbsorbedFeedsBits(0xFFFF, a);
    AbsorbedFeedsBits(0xFFFF, b);
    FedXor(Ones(), Ones(), Bits(a), Bits(b));
    XorSelf(Ones());
  }
}
