/**
 Block padding, CBC and the CBC-MAC of the NIBSS client. Triple DES itself is
 an arbitrary family of block functions indexed by the key.
 */
module Padding {
  import opened Common

  type Bytes = seq<Byte>

  // ---------- PKCS padding ----------

  /** `byte(n)`: the conversion keeps the low eight bits. */
  function ByteOf(n: nat): Byte {
    (n % 256) as bv8
  }

  function Repeat(b: Byte, n: nat): (s: Bytes)
    ensures |s| == n && forall i :: 0 <= i < n ==> s[i] == b
  {
    if n == 0 then [] else Repeat(b, n - 1) + [b]
  }

  function PadLength(length: nat, blockSize: nat): (n: nat)
    requires blockSize > 0
    ensures 0 < n <= blockSize
  {
    blockSize - length % blockSize
  }

  function Pkcs5Pad(data: Bytes, blockSize: nat): Bytes
    requires blockSize > 0
  {
    var n := PadLength(|data|, blockSize);
    data + Repeat(ByteOf(n), n)
  }

  datatype UnpadError = Empty | NotAligned | InvalidPadding | InvalidByteAt(position: nat)

  /** The last position among the final `n` of `data`, the last `i` excepted, that does not hold `b`. */
  function LastOther(data: Bytes, b: Byte, n: nat, i: nat): (r: Option<nat>)
    requires i <= n <= |data|
    ensures r.None? <==> forall j :: |data| - n <= j < |data| - i ==> data[j] == b
    decreases n - i
  {
    if i == n then None
    else if data[|data| - 1 - i] != b then Some(|data| - 1 - i)
    else LastOther(data, b, n, i + 1)
  }

  function Pkcs5Unpad(data: Bytes, blockSize: nat): Result<Bytes, UnpadError>
    requires blockSize > 0
  {
    if |data| == 0 then Err(Empty)
    else if |data| % blockSize != 0 then Err(NotAligned)
    else
      var last := data[|data| - 1];
      var n := last as int;
      if n > blockSize || n == 0 then Err(InvalidPadding)
      else
        BlockFits(|data|, blockSize);
        match LastOther(data, last, n, 0)
        case Some(position) => Err(InvalidByteAt(position))
        case None => Ok(data[..|data| - n])
  }

  lemma DivMod(n: nat, m: nat)
    requires m > 0
    ensures n == n / m * m + n % m && 0 <= n % m < m
    ensures n < m ==> n / m == 0
  {
  }

  lemma BlockFits(length: nat, blockSize: nat)
    requires blockSize > 0 && length > 0 && length % blockSize == 0
    ensures blockSize <= length
  {
    DivMod(length, blockSize);
    if length / blockSize == 0 {
      assert false;
    }
  }

  lemma NumberBack(n: nat)
    requires n < 256
    ensures ((n % 256) as bv8) as int == n
  {
  }

  lemma ByteBack(n: nat)
    requires n < 256
    ensures ByteOf(n) as int == n
  {
    NumberBack(n);
  }

  method Unpad(data: Bytes, blockSize: nat) returns (r: Result<Bytes, UnpadError>)
    requires blockSize > 0
    ensures r == Pkcs5Unpad(data, blockSize)
  {
    var length := |data|;
    if length == 0 {
      return Err(Empty);
    }
    if length % blockSize != 0 {
      return Err(NotAligned);
    }
    var padding := data[length - 1] as int;
    if padding > blockSize || padding == 0 {
      return Err(InvalidPadding);
    }
    BlockFits(length, blockSize);
    var i := 0;
    while i < padding
      invariant 0 <= i <= padding
      invariant LastOther(data, data[length - 1], padding, 0) == LastOther(data, data[length - 1], padding, i)
    {
      if data[length - 1 - i] != data[length - 1] {
        return Err(InvalidByteAt(length - 1 - i));
      }
      i := i + 1;
    }
    return Ok(data[..length - padding]);
  }

  // ---------- What unpadding refuses ----------

  lemma {:induction false} LastOtherIs(data: Bytes, b: Byte, n: nat, i: nat)
    requires i <= n <= |data| && LastOther(data, b, n, i).Some?
    ensures var p := LastOther(data, b, n, i).value;
            |data| - n <= p < |data| - i && data[p] != b && forall j :: p < j < |data| - i ==> data[j] == b
    decreases n - i
  {
    if data[|data| - 1 - i] == b {
      LastOtherIs(data, b, n, i + 1);
    }
  }

  /** The checks in the order of the source; a wrong byte is reported at the last place where one stands. */
  lemma UnpadRefuses(data: Bytes, blockSize: nat)
    requires blockSize > 0
    ensures Pkcs5Unpad(data, blockSize) == Err(Empty) <==> data == []
    ensures Pkcs5Unpad(data, blockSize) == Err(NotAligned) <==> data != [] && |data| % blockSize != 0
    ensures data != [] && |data| % blockSize == 0
            ==> (Pkcs5Unpad(data, blockSize) == Err(InvalidPadding)
                 <==> data[|data| - 1] == 0 || data[|data| - 1] as int > blockSize)
    ensures forall p: nat :: Pkcs5Unpad(data, blockSize) == Err(InvalidByteAt(p))
              ==> && 0 <= |data| - data[|data| - 1] as int <= p < |data| && data[p] != data[|data| - 1]
                  && forall j :: p < j < |data| ==> data[j] == data[|data| - 1]
  {
    if data != [] && |data| % blockSize == 0 && 0 < data[|data| - 1] as int <= blockSize {
      BlockFits(|data|, blockSize);
      if LastOther(data, data[|data| - 1], data[|data| - 1] as int, 0).Some? {
        LastOtherIs(data, data[|data| - 1], data[|data| - 1] as int, 0);
      }
    }
  }

  // ---------- Padding is a bijection ----------

  lemma {:induction false} MultipleAtLeast(k: nat, m: nat)
    requires k > 0
    ensures k * m >= m
  {
    if k > 1 {
      MultipleAtLeast(k - 1, m);
      assert k * m == (k - 1) * m + m;
    }
  }

  lemma NegatedMultiple(k: int, m: int)
    ensures (-k) * m == -(k * m)
  {
  }

  lemma MultipleOutside(k: int, m: nat)
    ensures k > 0 ==> k * m >= m
    ensures k < 0 ==> -(k * m) >= m
  {
    if k > 0 {
      MultipleAtLeast(k, m);
    } else if k < 0 {
      MultipleAtLeast(-k, m);
      NegatedMultiple(k, m);
    }
  }

  lemma Difference(p: int, k: int, m: int)
    ensures p * m - k * m == (p - k) * m
  {
  }

  lemma RemainderOf(k: nat, m: nat, r: nat)
    requires r < m
    ensures (k * m + r) % m == r
  {
    var n := k * m + r;
    DivMod(n, m);
    Difference(n / m, k, m);
    MultipleOutside(n / m - k, m);
  }

  lemma PaddedLength(n: nat, m: nat)
    requires m > 0
    ensures (n + PadLength(n, m)) % m == 0
  {
    DivMod(n, m);
    assert n + PadLength(n, m) == (n / m + 1) * m;
    RemainderOf(n / m + 1, m, 0);
  }

  /** A multiple of the block size, shortened by one to `m`, needs exactly that much padding. */
  lemma ShortenedLength(n: nat, m: nat, p: nat)
    requires 0 < p <= m <= n && n % m == 0
    ensures PadLength(n - p, m) == p
  {
    DivMod(n, m);
    var k := n / m;
    assert k > 0;
    assert n - p == (k - 1) * m + (m - p);
    if p < m {
      RemainderOf(k - 1, m, m - p);
    } else {
      RemainderOf(k - 1, m, 0);
    }
  }

  /** Whatever unpads to `data` is the padding of `data`. */
  lemma UnpadThenPad(x: Bytes, data: Bytes, blockSize: nat)
    requires blockSize > 0 && Pkcs5Unpad(x, blockSize) == Ok(data)
    ensures x == Pkcs5Pad(data, blockSize)
    ensures PadLength(|data|, blockSize) <= 255
  {
    var last := x[|x| - 1];
    var n := last as int;
    BlockFits(|x|, blockSize);
    ShortenedLength(|x|, blockSize, n);
    ByteOfByte(last, n);
    SplitTail(x, last, n);
  }

  lemma NumberOfByte(b: Byte)
    ensures 0 <= b as int < 256 && (b as int) as bv8 == b
  {
  }

  lemma ByteOfByte(b: Byte, n: nat)
    requires n == b as int
    ensures n < 256 && ByteOf(n) == b
  {
    NumberOfByte(b);
    assert n % 256 == n;
  }

  lemma SplitTail(x: Bytes, b: Byte, n: nat)
    requires n <= |x| && forall j :: |x| - n <= j < |x| ==> x[j] == b
    ensures x == x[..|x| - n] + Repeat(b, n)
  {
    assert x == x[..|x| - n] + x[|x| - n..];
    assert x[|x| - n..] == Repeat(b, n);
  }

  /** Between one byte and a block is added, to whole blocks, and each added byte says how many there are. */
  lemma PadShape(data: Bytes, blockSize: nat)
    requires blockSize > 0
    ensures var x := Pkcs5Pad(data, blockSize);
            var n := |x| - |data|;
            && 1 <= n <= blockSize && |x| % blockSize == 0 && x[..|data|] == data
            && (n <= 255 ==> forall i :: |data| <= i < |x| ==> x[i] as int == n)
  {
    PaddedLength(|data|, blockSize);
    if PadLength(|data|, blockSize) <= 255 {
      ByteBack(PadLength(|data|, blockSize));
    }
  }

  /** Padding comes undone while the padding length fits a byte. */
  lemma PadThenUnpad(data: Bytes, blockSize: nat)
    requires blockSize > 0 && PadLength(|data|, blockSize) <= 255
    ensures Pkcs5Unpad(Pkcs5Pad(data, blockSize), blockSize) == Ok(data)
  {
    var n, x := PadLength(|data|, blockSize), Pkcs5Pad(data, blockSize);
    PaddedLength(|data|, blockSize);
    ByteBack(n);
    assert x[|x| - 1] == ByteOf(n);
    assert x[..|x| - n] == data;
    assert forall j :: |x| - n <= j < |x| ==> x[j] == ByteOf(n);
  }

  /**
   Padding and unpadding are inverse on exactly the lengths whose padding fits
   one byte; for block sizes up to 255 that is all of them.
   */
  lemma PaddingBijection(x: Bytes, data: Bytes, blockSize: nat)
    requires blockSize > 0
    ensures Pkcs5Unpad(x, blockSize) == Ok(data)
            <==> x == Pkcs5Pad(data, blockSize) && PadLength(|data|, blockSize) <= 255
  {
    if Pkcs5Unpad(x, blockSize) == Ok(data) {
      UnpadThenPad(x, data, blockSize);
    } else if PadLength(|data|, blockSize) <= 255 {
      PadThenUnpad(data, blockSize);
    }
  }
}
