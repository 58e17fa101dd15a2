/** Big-endian machine words as bytes, in both directions. */
module Abi {
  import opened Words

  const WORD_BYTES: nat := 32

  function PowerOf256(k: nat): (p: nat)
    ensures p > 0
  {
    if k == 0 then 1 else 256 * PowerOf256(k - 1)
  }

  /** The low `width` bytes of a number, most significant first. */
  function BigEndian(n: nat, width: nat): (bytes: seq<Byte>)
    ensures |bytes| == width
    decreases n, width
  {
    if width == 0 then [] else BigEndian(n / 256, width - 1) + [(n % 256) as Byte]
  }

  function Number(bytes: seq<Byte>): nat {
    if bytes == [] then 0 else 256 * Number(bytes[..|bytes| - 1]) + bytes[|bytes| - 1] as nat
  }

  lemma {:induction false} NumberBound(bytes: seq<Byte>)
    ensures Number(bytes) < PowerOf256(|bytes|)
  {
    if bytes != [] {
      NumberBound(bytes[..|bytes| - 1]);
    }
  }

  /** Reading what was written gives the number back, when it fits. */
  lemma {:induction false} ReadWritten(n: nat, width: nat)
    requires n < PowerOf256(width)
    ensures Number(BigEndian(n, width)) == n
    decreases width
  {
    if width > 0 {
      ReadWritten(n / 256, width - 1);
      assert BigEndian(n, width)[..width - 1] == BigEndian(n / 256, width - 1);
    }
  }

  /** Writing what was read gives the bytes back: there is one representation of a number in a width. */
  lemma {:induction false} WriteRead(bytes: seq<Byte>)
    ensures BigEndian(Number(bytes), |bytes|) == bytes
  {
    if bytes != [] {
      WriteRead(bytes[..|bytes| - 1]);
    }
  }

  lemma LastByte(n: nat, width: nat)
    requires width > 0
    ensures BigEndian(n, width)[width - 1] as nat == n % 256
  {
  }

  lemma {:induction false} Zeros(width: nat)
    ensures BigEndian(0, width) == ZeroBytes(width)
  {
    if width > 0 {
      Zeros(width - 1);
    }
  }

  /** Bytes above a small number are zero, so a number below 256^low is `width - low` zeros and its low bytes. */
  lemma {:induction false} LeadingZeros(n: nat, low: nat, width: nat)
    requires low <= width && n < PowerOf256(low)
    ensures BigEndian(n, width) == ZeroBytes(width - low) + BigEndian(n, low)
    decreases low
  {
    if low == 0 {
      Zeros(width);
    } else {
      LeadingZeros(n / 256, low - 1, width - 1);
    }
  }

  function Word(n: nat): (bytes: seq<Byte>)
    ensures |bytes| == 32
  {
    BigEndian(n, WORD_BYTES)
  }

  function ZeroBytes(n: nat): (bytes: seq<Byte>)
    ensures |bytes| == n
  {
    seq(n, i => 0 as Byte)
  }

  /** The ranges of 64-bit numbers, addresses and words. */
  lemma ByteRanges()
    ensures PowerOf256(8) == MAX_U64 + 1
    ensures PowerOf256(20) == 0x1_0000_0000_0000_0000_0000_0000_0000_0000_0000_0000
    ensures PowerOf256(32) == MAX_U256 + 1
  {
    assert PowerOf256(8) == 0x1_0000_0000_0000_0000;
    assert PowerOf256(16) == 0x1_0000_0000_0000_0000_0000_0000_0000_0000;
    assert PowerOf256(24) == 0x1_0000_0000_0000_0000_0000_0000_0000_0000_0000_0000_0000_0000;
  }

  lemma WordHoldsU256(n: nat)
    requires n <= MAX_U256
    ensures Number(Word(n)) == n
  {
    ByteRanges();
    ReadWritten(n, WORD_BYTES);
  }

  lemma WordsAreU256(bytes: seq<Byte>)
    requires |bytes| == 32
    ensures Number(bytes) <= MAX_U256 && Word(Number(bytes)) == bytes
  {
    ByteRanges();
    NumberBound(bytes);
    WriteRead(bytes);
  }

  /** A 64-bit number in a whole word; the upper bytes must be zero. */
  function AbiU64(word: seq<Byte>): Option<nat>
    requires |word| == 32
  {
    if word[..24] == ZeroBytes(24) then Some(Number(word[24..])) else None
  }

  lemma AbiU64IsExact(word: seq<Byte>, v: nat)
    requires |word| == 32
    ensures AbiU64(word) == Some(v) <==> v <= MAX_U64 && word == Word(v)
  {
    ByteRanges();
    if word[..24] == ZeroBytes(24) && Number(word[24..]) == v {
      NumberBound(word[24..]);
      WriteRead(word[24..]);
      LeadingZeros(v, 8, WORD_BYTES);
      assert word == word[..24] + word[24..];
    }
    if v <= MAX_U64 && word == Word(v) {
      LeadingZeros(v, 8, WORD_BYTES);
      ReadWritten(v, 8);
      assert word[..24] == ZeroBytes(24) && word[24..] == BigEndian(v, 8);
    }
  }

  // -------------------------------------------------------------------------- pieces at positions

  /** `piece` stands in `data` at this position. */
  predicate At(data: seq<Byte>, position: nat, piece: seq<Byte>) {
    position + |piece| <= |data| && data[position..position + |piece|] == piece
  }

  lemma AtBehind(front: seq<Byte>, data: seq<Byte>, position: nat, piece: seq<Byte>)
    requires At(data, position, piece)
    ensures At(front + data, |front| + position, piece)
  {
    assert (front + data)[|front|..] == data;
  }

  lemma AtBefore(data: seq<Byte>, back: seq<Byte>, position: nat, piece: seq<Byte>)
    requires At(data, position, piece)
    ensures At(data + back, position, piece)
  {
  }

  lemma CutInFour(data: seq<Byte>, i: nat, j: nat, k: nat)
    requires i <= j <= k <= |data|
    ensures data == data[..i] + data[i..j] + data[j..k] + data[k..]
  {
    assert data[..i] + data[i..j] == data[..j];
    assert data[..j] + data[j..k] == data[..k];
  }

  /** Data that four pieces cover from end to end is their concatenation. */
  lemma FourPieces(data: seq<Byte>, a: seq<Byte>, b: seq<Byte>, c: seq<Byte>, d: seq<Byte>)
    requires At(data, 0, a) && At(data, |a|, b) && At(data, |a| + |b|, c) && At(data, |a| + |b| + |c|, d)
    requires |data| == |a| + |b| + |c| + |d|
    ensures data == a + b + c + d
  {
    CutInFour(data, |a|, |a| + |b|, |a| + |b| + |c|);
  }
}
