/**
 CBC encryption with a zero IV and the CBC-MAC of the NIBSS client. Triple DES
 is an arbitrary pair of block functions for each 24-byte key.
 */
module NibssCipher {
  import opened Common
  import opened Padding

  type Block = b: Bytes | |b| == 8 witness [0, 0, 0, 0, 0, 0, 0, 0]

  /** A block transformation for every key. */
  type BlockFunction = (Bytes, Block) -> Block

  ghost predicate Inverse(e: BlockFunction, d: BlockFunction, key: Bytes) {
    && (forall b: Block :: d(key, e(key, b)) == b)
    && (forall b: Block :: e(key, d(key, b)) == b)
  }

  function XorBlock(x: Block, y: Block): (z: Block)
    ensures forall i :: 0 <= i < 8 ==> z[i] == x[i] ^ y[i]
  {
    seq(8, i requires 0 <= i < 8 => x[i] ^ y[i])
  }

  lemma XorByte(x: Byte, y: Byte)
    ensures (x ^ y) ^ y == x
  {
  }

  lemma XorTwice(x: Block, y: Block)
    ensures XorBlock(XorBlock(x, y), y) == x
  {
    var z := XorBlock(XorBlock(x, y), y);
    forall i | 0 <= i < 8 ensures z[i] == x[i] {
      XorByte(x[i], y[i]);
    }
  }

  function ZeroBlock(): Block {
    [0, 0, 0, 0, 0, 0, 0, 0]
  }

  // ---------- Cipher block chaining ----------

  function CbcEncrypt(e: BlockFunction, key: Bytes, iv: Block, data: Bytes): (out: Bytes)
    requires |data| % 8 == 0
    ensures |out| == |data|
    decreases |data|
  {
    if data == [] then []
    else
      var c := e(key, XorBlock(data[..8], iv));
      c + CbcEncrypt(e, key, c, data[8..])
  }

  function CbcDecrypt(d: BlockFunction, key: Bytes, iv: Block, data: Bytes): (out: Bytes)
    requires |data| % 8 == 0
    ensures |out| == |data|
    decreases |data|
  {
    if data == [] then []
    else XorBlock(d(key, data[..8]), iv) + CbcDecrypt(d, key, data[..8], data[8..])
  }

  lemma {:induction false} DecryptEncrypt(e: BlockFunction, d: BlockFunction, key: Bytes, iv: Block, data: Bytes)
    requires |data| % 8 == 0 && Inverse(e, d, key)
    ensures CbcDecrypt(d, key, iv, CbcEncrypt(e, key, iv, data)) == data
    decreases |data|
  {
    if data != [] {
      var c := e(key, XorBlock(data[..8], iv));
      var out := CbcEncrypt(e, key, iv, data);
      assert out[..8] == c && out[8..] == CbcEncrypt(e, key, c, data[8..]);
      XorTwice(data[..8], iv);
      DecryptEncrypt(e, d, key, c, data[8..]);
    }
  }

  lemma {:induction false} EncryptDecrypt(e: BlockFunction, d: BlockFunction, key: Bytes, iv: Block, data: Bytes)
    requires |data| % 8 == 0 && Inverse(e, d, key)
    ensures CbcEncrypt(e, key, iv, CbcDecrypt(d, key, iv, data)) == data
    decreases |data|
  {
    if data != [] {
      var p := XorBlock(d(key, data[..8]), iv);
      var out := CbcDecrypt(d, key, iv, data);
      assert out[..8] == p && out[8..] == CbcDecrypt(d, key, data[..8], data[8..]);
      XorTwice(d(key, data[..8]), iv);
      EncryptDecrypt(e, d, key, data[..8], data[8..]);
    }
  }

  /** The state after a message: the block that the next one is chained to. */
  function Mac(e: BlockFunction, key: Bytes, state: Block, data: Bytes): Block
    requires |data| % 8 == 0
    decreases |data|
  {
    if data == [] then state else Mac(e, key, e(key, XorBlock(data[..8], state)), data[8..])
  }

  /** The last block of the whole CBC output is the fold that keeps one block of state. */
  lemma {:induction false} LastBlockIsMac(e: BlockFunction, key: Bytes, iv: Block, data: Bytes)
    requires |data| % 8 == 0 && data != []
    ensures CbcEncrypt(e, key, iv, data)[|data| - 8..] == Mac(e, key, iv, data)
    decreases |data|
  {
    var c := e(key, XorBlock(data[..8], iv));
    var out := CbcEncrypt(e, key, iv, data);
    assert out == c + CbcEncrypt(e, key, c, data[8..]);
    if data[8..] != [] {
      LastBlockIsMac(e, key, c, data[8..]);
      assert out[|data| - 8..] == out[8..][|data| - 16..];
    }
  }

  /** One more block extends the output by its encryption. */
  lemma {:induction false} CbcSnoc(e: BlockFunction, key: Bytes, iv: Block, data: Bytes, block: Block)
    requires |data| % 8 == 0
    ensures CbcEncrypt(e, key, iv, data + block)
            == CbcEncrypt(e, key, iv, data) + e(key, XorBlock(block, Mac(e, key, iv, data)))
    decreases |data|
  {
    if data == [] {
      assert data + block == block && block[..8] == block && block[8..] == [];
    } else {
      var c := e(key, XorBlock(data[..8], iv));
      assert (data + block)[..8] == data[..8] && (data + block)[8..] == data[8..] + block;
      CbcSnoc(e, key, c, data[8..], block);
    }
  }

  lemma {:induction false} MacSnoc(e: BlockFunction, key: Bytes, iv: Block, data: Bytes, block: Block)
    requires |data| % 8 == 0
    ensures Mac(e, key, iv, data + block) == e(key, XorBlock(block, Mac(e, key, iv, data)))
    decreases |data|
  {
    if data == [] {
      assert data + block == block && block[..8] == block && block[8..] == [];
    } else {
      assert (data + block)[..8] == data[..8] && (data + block)[8..] == data[8..] + block;
      MacSnoc(e, key, e(key, XorBlock(data[..8], iv)), data[8..], block);
    }
  }

  /** Block `i` of `data`. */
  function BlockAt(data: Bytes, i: nat): Block
    requires 8 * i + 8 <= |data|
  {
    data[8 * i..8 * i + 8]
  }

  /** The first block is enciphered as it is, and each later one after combining it with the one before it in `out`. */
  ghost predicate Chained(e: BlockFunction, key: Bytes, data: Bytes, out: Bytes) {
    && |out| == |data| && |data| % 8 == 0
    && (|data| >= 8 ==> out[..8] == e(key, data[..8]))
    && forall i :: 0 < i && 8 * i + 8 <= |data|
         ==> BlockAt(out, i) == e(key, XorBlock(BlockAt(data, i), BlockAt(out, i - 1)))
  }

  lemma {:induction false} ChainFrom(e: BlockFunction, key: Bytes, iv: Block, data: Bytes, i: nat)
    requires |data| % 8 == 0 && 8 * i + 8 <= |data|
    ensures var out := CbcEncrypt(e, key, iv, data);
            BlockAt(out, i) == e(key, XorBlock(BlockAt(data, i), if i == 0 then iv else BlockAt(out, i - 1)))
    decreases i
  {
    var out := CbcEncrypt(e, key, iv, data);
    var c := e(key, XorBlock(data[..8], iv));
    var rest := CbcEncrypt(e, key, c, data[8..]);
    assert out == c + rest && out[..8] == c && out[8..] == rest;
    if i > 0 {
      ChainFrom(e, key, c, data[8..], i - 1);
      LaterBlock(data, i);
      LaterBlock(out, i);
      if i > 1 {
        LaterBlock(out, i - 1);
      }
    }
  }

  lemma LaterBlock(data: Bytes, i: nat)
    requires i > 0 && 8 * i + 8 <= |data|
    ensures BlockAt(data[8..], i - 1) == BlockAt(data, i)
  {
  }

  lemma XorZero(x: Byte)
    ensures x ^ 0 == x
  {
  }

  lemma ZeroIv(x: Block)
    ensures XorBlock(x, ZeroBlock()) == x
  {
    forall i | 0 <= i < 8 ensures XorBlock(x, ZeroBlock())[i] == x[i] {
      XorZero(x[i]);
    }
  }

  /** With the zero IV the recursive mode is the chain, block by block. */
  lemma CbcChains(e: BlockFunction, key: Bytes, data: Bytes)
    requires |data| % 8 == 0
    ensures Chained(e, key, data, CbcEncrypt(e, key, ZeroBlock(), data))
  {
    var out := CbcEncrypt(e, key, ZeroBlock(), data);
    if |data| >= 8 {
      ChainFrom(e, key, ZeroBlock(), data, 0);
      ZeroIv(data[..8]);
      assert BlockAt(out, 0) == out[..8] && BlockAt(data, 0) == data[..8];
    }
    forall i | 0 < i && 8 * i + 8 <= |data|
      ensures BlockAt(out, i) == e(key, XorBlock(BlockAt(data, i), BlockAt(out, i - 1)))
    {
      ChainFrom(e, key, ZeroBlock(), data, i);
    }
  }

  /** The library's in-place mode: fills `dst` block by block. */
  method CryptBlocks(e: BlockFunction, key: Bytes, iv: Block, dst: array<Byte>, src: Bytes)
    requires |src| % 8 == 0 && dst.Length == |src|
    modifies dst
    ensures dst[..] == CbcEncrypt(e, key, iv, src)
  {
    var i := 0;
    var state := iv;
    while i < |src|
      invariant 0 <= i <= |src| && i % 8 == 0
      invariant dst[..i] == CbcEncrypt(e, key, iv, src[..i])
      invariant state == Mac(e, key, iv, src[..i])
    {
      ghost var done := dst[..i];
      var block := src[i..i + 8];
      var out := e(key, XorBlock(block, state));
      forall k | 0 <= k < 8 {
        dst[i + k] := out[k];
      }
      assert dst[..i + 8] == done + out;
      assert src[..i + 8] == src[..i] + block;
      CbcSnoc(e, key, iv, src[..i], block);
      MacSnoc(e, key, iv, src[..i], block);
      state := out;
      i := i + 8;
    }
    assert src[..i] == src && dst[..i] == dst[..];
  }

  datatype CipherError = BadKey | NotWholeBlocks | PaddingError(raw: Bytes)

  function Encrypted(e: BlockFunction, data: Bytes, key: Bytes): Result<Bytes, CipherError> {
    if |key| != 24 then Err(BadKey)
    else
      PaddedLength(|data|, 8);
      Ok(CbcEncrypt(e, key, ZeroBlock(), Pkcs5Pad(data, 8)))
  }

  method Encrypt3DESCBC(e: BlockFunction, data: Bytes, key: Bytes) returns (r: Result<Bytes, CipherError>)
    ensures r == Encrypted(e, data, key)
    ensures r.Err? <==> |key| != 24
    ensures r.Ok? ==> |r.value| == |data| + 8 - |data| % 8 && Chained(e, key, Pkcs5Pad(data, 8), r.value)
  {
    if |key| != 24 {
      return Err(BadKey);
    }
    PaddedLength(|data|, 8);
    var padded := Pkcs5Pad(data, 8);
    var encrypted := new Byte[|padded|];
    CryptBlocks(e, key, ZeroBlock(), encrypted, padded);
    CbcChains(e, key, padded);
    return Ok(encrypted[..]);
  }

  function Decrypted(d: BlockFunction, data: Bytes, key: Bytes): Result<Bytes, CipherError> {
    if |key| != 24 then Err(BadKey)
    else if |data| % 8 != 0 then Err(NotWholeBlocks)
    else
      var decrypted := CbcDecrypt(d, key, ZeroBlock(), data);
      match Pkcs5Unpad(decrypted, 8)
      case Ok(unpadded) => Ok(unpadded)
      case Err(_) => Err(PaddingError(decrypted))
  }

  /** On a padding error the raw decrypted bytes are handed back with it. */
  method Decrypt3DESCBC(d: BlockFunction, data: Bytes, key: Bytes) returns (r: Result<Bytes, CipherError>)
    ensures r == Decrypted(d, data, key)
    ensures r == Err(BadKey) <==> |key| != 24
    ensures r == Err(NotWholeBlocks) <==> |key| == 24 && |data| % 8 != 0
  {
    if |key| != 24 {
      return Err(BadKey);
    }
    if |data| % 8 != 0 {
      return Err(NotWholeBlocks);
    }
    var decrypted := CbcDecrypt(d, key, ZeroBlock(), data);
    var unpadded := Unpad(decrypted, 8);
    if unpadded.Err? {
      return Err(PaddingError(decrypted));
    }
    return Ok(unpadded.value);
  }

  /**
   With any invertible block cipher, decryption inverts encryption on every
   input and accepts nothing but encryptions.
   */
  lemma DecryptInvertsEncrypt(e: BlockFunction, d: BlockFunction, data: Bytes, x: Bytes, key: Bytes)
    requires Inverse(e, d, key)
    ensures Decrypted(d, x, key) == Ok(data) <==> Encrypted(e, data, key) == Ok(x)
  {
    if |key| == 24 {
      PaddedLength(|data|, 8);
      var padded := Pkcs5Pad(data, 8);
      DecryptEncrypt(e, d, key, ZeroBlock(), padded);
      if |x| % 8 == 0 {
        var plain := CbcDecrypt(d, key, ZeroBlock(), x);
        EncryptDecrypt(e, d, key, ZeroBlock(), x);
        PaddingBijection(plain, data, 8);
      }
    }
  }

  // ---------- ISO 9797 padding and the MAC ----------

  /** Padding method 2: one marker byte, then the fewest zeros that complete a block. */
  function Iso9797Padded(data: Bytes): (r: Bytes)
    ensures |r| % 8 == 0 && |data| < |r| <= |data| + 8
  {
    data + [0x80] + Repeat(0, 7 - |data| % 8)
  }

  method Iso9797Pad(data: Bytes) returns (padded: Bytes)
    ensures padded == Iso9797Padded(data)
  {
    padded := data + [0x80];
    ghost var k := 0;
    while |padded| % 8 != 0
      invariant 0 <= k <= 7 - |data| % 8
      invariant padded == data + [0x80] + Repeat(0, k)
      decreases 7 - k
    {
      padded := padded + [0];
      k := k + 1;
    }
  }

  lemma MarkerPosition(data: Bytes)
    ensures var p := Iso9797Padded(data);
            p[|data|] == 0x80 && p[..|data|] == data && forall i :: |data| < i < |p| ==> p[i] == 0
  {
  }

  /** The padding determines the data, whatever the lengths. */
  lemma Iso9797Injective(x: Bytes, y: Bytes)
    ensures Iso9797Padded(x) == Iso9797Padded(y) ==> x == y
  {
    MarkerPosition(x);
    MarkerPosition(y);
  }

  method ComputeMAC(e: BlockFunction, data: Bytes, key: Bytes) returns (r: Result<Bytes, CipherError>)
    ensures r == if |key| != 24 then Err(BadKey) else Ok(Mac(e, key, ZeroBlock(), Iso9797Padded(data)))
    ensures |key| == 24
            ==> exists chain :: Chained(e, key, Iso9797Padded(data), chain) && r == Ok(chain[|chain| - 8..])
  {
    if |key| != 24 {
      return Err(BadKey);
    }
    var paddedData := Iso9797Pad(data);
    var out := new Byte[|paddedData|];
    CryptBlocks(e, key, ZeroBlock(), out, paddedData);
    LastBlockIsMac(e, key, ZeroBlock(), paddedData);
    CbcChains(e, key, paddedData);
    assert Chained(e, key, paddedData, out[..]);
    return Ok(out[out.Length - 8..]);
  }

  lemma {:induction false} StateMatters(e: BlockFunction, d: BlockFunction, key: Bytes, s: Block, t: Block, data: Bytes)
    requires |data| % 8 == 0 && Inverse(e, d, key)
    ensures Mac(e, key, s, data) == Mac(e, key, t, data) ==> s == t
    decreases |data|
  {
    if data != [] {
      var x, y := XorBlock(data[..8], s), XorBlock(data[..8], t);
      StateMatters(e, d, key, e(key, x), e(key, y), data[8..]);
      if e(key, x) == e(key, y) {
        assert x == d(key, e(key, x)) && y == d(key, e(key, y));
        XorCancel(data[..8], s, t);
      }
    }
  }

  lemma XorLeft(a: Byte, x: Byte, y: Byte)
    ensures a ^ x == a ^ y ==> x == y
  {
  }

  lemma XorCancel(a: Block, x: Block, y: Block)
    requires XorBlock(a, x) == XorBlock(a, y)
    ensures x == y
  {
    forall i | 0 <= i < 8 ensures x[i] == y[i] {
      assert XorBlock(a, x)[i] == XorBlock(a, y)[i];
      XorLeft(a[i], x[i], y[i]);
    }
  }

  /** Two padded messages that differ in exactly one block never share a MAC. */
  lemma OneBlockMatters(e: BlockFunction, d: BlockFunction, key: Bytes, before: Bytes, x: Block, y: Block, after: Bytes)
    requires |before| % 8 == 0 && |after| % 8 == 0 && Inverse(e, d, key) && x != y
    ensures Mac(e, key, ZeroBlock(), before + x + after) != Mac(e, key, ZeroBlock(), before + y + after)
  {
    var s := Mac(e, key, ZeroBlock(), before);
    MacConcat(e, key, ZeroBlock(), before + x, after);
    MacConcat(e, key, ZeroBlock(), before + y, after);
    MacSnoc(e, key, ZeroBlock(), before, x);
    MacSnoc(e, key, ZeroBlock(), before, y);
    var p, q := XorBlock(x, s), XorBlock(y, s);
    XorTwice(x, s);
    XorTwice(y, s);
    assert p != q;
    assert d(key, e(key, p)) == p && d(key, e(key, q)) == q;
    StateMatters(e, d, key, e(key, p), e(key, q), after);
  }

  lemma {:induction false} MacConcat(e: BlockFunction, key: Bytes, iv: Block, a: Bytes, b: Bytes)
    requires |a| % 8 == 0 && |b| % 8 == 0
    ensures Mac(e, key, iv, a + b) == Mac(e, key, Mac(e, key, iv, a), b)
    decreases |a|
  {
    if a == [] {
      assert a + b == b;
    } else {
      assert (a + b)[..8] == a[..8] && (a + b)[8..] == a[8..] + b;
      MacConcat(e, key, e(key, XorBlock(a[..8], iv)), a[8..], b);
    }
  }
}
