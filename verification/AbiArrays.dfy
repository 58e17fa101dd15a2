/** The payload of a batch transfer event: two arrays of 256-bit numbers in the canonical ABI layout, and nothing else. */
module AbiArrays {
  import opened Words
  import opened Abi

  const MAX_RECEIPT_MINT_ITEMS: nat := 1_024

  datatype NftError = MintReceiptMismatch | MalformedTransferLog | TooManyTransferItems | TransferOverflow

  // -------------------------------------------------------------------------- the canonical encoding

  function EncodeWords(values: seq<nat>): (r: seq<Byte>)
    ensures |r| == 32 * |values|
  {
    if values == [] then [] else Word(values[0]) + EncodeWords(values[1..])
  }

  function EncodeArray(values: seq<nat>): (r: seq<Byte>)
    ensures |r| == 32 + 32 * |values|
  {
    Word(|values|) + EncodeWords(values)
  }

  /** Both offsets, then both arrays, back to back. */
  function EncodeArrays(ids: seq<nat>, units: seq<nat>): seq<Byte> {
    Word(64) + Word(96 + 32 * |ids|) + EncodeArray(ids) + EncodeArray(units)
  }

  // -------------------------------------------------------------------------- the decoder

  /** A word that holds an address into the data; an address that would overflow is out of range too. */
  function WordAt(data: seq<Byte>, offset: nat): Result<nat, NftError> {
    if offset + 32 > |data| then Err(MalformedTransferLog)
    else
      match AbiU64(data[offset..offset + 32])
      case None => Err(MalformedTransferLog)
      case Some(v) => Ok(v)
  }

  function ReadWords(data: seq<Byte>): (values: seq<nat>)
    requires |data| % 32 == 0
    ensures |values| == |data| / 32
  {
    if data == [] then [] else [Number(data[..32])] + ReadWords(data[32..])
  }

  function DecodeArray(data: seq<Byte>, offset: nat): Result<seq<nat>, NftError> {
    match WordAt(data, offset)
    case Err(e) => Err(e)
    case Ok(count) =>
      if count > MAX_RECEIPT_MINT_ITEMS then Err(TooManyTransferItems)
      else if offset + 32 + 32 * count > |data| then Err(MalformedTransferLog)
      else Ok(ReadWords(data[offset + 32..offset + 32 + 32 * count]))
  }

  function Zip(ids: seq<nat>, units: seq<nat>): (pairs: seq<(nat, nat)>)
    requires |ids| == |units|
    ensures |pairs| == |ids|
  {
    seq(|ids|, i requires 0 <= i < |ids| => (ids[i], units[i]))
  }

  function DecodeBatchData(data: seq<Byte>): Result<seq<(nat, nat)>, NftError> {
    if |data| < 128 || |data| % 32 != 0 then Err(MalformedTransferLog)
    else
      match (WordAt(data, 0), WordAt(data, 32))
      case (Err(e), _) => Err(e)
      case (_, Err(e)) => Err(e)
      case (Ok(idsOffset), Ok(unitsOffset)) =>
        if idsOffset != 64 then Err(MalformedTransferLog)
        else
          match DecodeArray(data, idsOffset)
          case Err(e) => Err(e)
          case Ok(ids) =>
            if unitsOffset != 96 + 32 * |ids| then Err(MalformedTransferLog)
            else
              match DecodeArray(data, unitsOffset)
              case Err(e) => Err(e)
              case Ok(units) =>
                if ids == [] || |ids| != |units| || |data| != unitsOffset + 32 + 32 * |units| then Err(MalformedTransferLog)
                else Ok(Zip(ids, units))
  }

  // -------------------------------------------------------------------------- exactness

  predicate AllU256(values: seq<nat>) {
    forall i: nat :: i < |values| ==> values[i] <= MAX_U256
  }

  lemma {:induction false} WriteReadWords(data: seq<Byte>)
    requires |data| % 32 == 0
    ensures AllU256(ReadWords(data)) && EncodeWords(ReadWords(data)) == data
  {
    if data != [] {
      WordsAreU256(data[..32]);
      WriteReadWords(data[32..]);
      assert data == data[..32] + data[32..];
    }
  }

  lemma {:induction false} ReadWrittenWords(values: seq<nat>)
    requires AllU256(values)
    ensures ReadWords(EncodeWords(values)) == values
  {
    if values != [] {
      WordHoldsU256(values[0]);
      ReadWrittenWords(values[1..]);
      assert EncodeWords(values)[..32] == Word(values[0]) && EncodeWords(values)[32..] == EncodeWords(values[1..]);
    }
  }

  lemma WordAtIsExact(data: seq<Byte>, offset: nat, v: nat)
    ensures WordAt(data, offset) == Ok(v) <==> v <= MAX_U64 && At(data, offset, Word(v))
  {
    if offset + 32 <= |data| {
      AbiU64IsExact(data[offset..offset + 32], v);
    }
  }

  lemma DecodedArrayIsThere(data: seq<Byte>, offset: nat)
    requires DecodeArray(data, offset).Ok?
    ensures var values := DecodeArray(data, offset).value;
            AllU256(values) && |values| <= MAX_RECEIPT_MINT_ITEMS && At(data, offset, EncodeArray(values))
  {
    var count := WordAt(data, offset).value;
    WordAtIsExact(data, offset, count);
    WriteReadWords(data[offset + 32..offset + 32 + 32 * count]);
    CutAt(data, offset, 32, 32 + 32 * count);
  }

  /** A piece of data cut in two. */
  lemma CutAt(data: seq<Byte>, offset: nat, cut: nat, length: nat)
    requires cut <= length && offset + length <= |data|
    ensures var piece := data[offset..offset + length];
            && piece[..cut] == data[offset..offset + cut] && piece[cut..] == data[offset + cut..offset + length]
            && piece == data[offset..offset + cut] + data[offset + cut..offset + length]
  {
  }

  lemma ArrayParts(values: seq<nat>)
    ensures |EncodeArray(values)| == 32 + 32 * |values|
    ensures EncodeArray(values)[..32] == Word(|values|) && EncodeArray(values)[32..] == EncodeWords(values)
  {
  }

  lemma ArrayThereIsDecoded(data: seq<Byte>, offset: nat, values: seq<nat>)
    requires AllU256(values) && |values| <= MAX_RECEIPT_MINT_ITEMS && At(data, offset, EncodeArray(values))
    ensures DecodeArray(data, offset) == Ok(values)
  {
    ArrayParts(values);
    CutAt(data, offset, 32, 32 + 32 * |values|);
    WordAtIsExact(data, offset, |values|);
    ReadWrittenWords(values);
  }

  predicate BatchShape(ids: seq<nat>, units: seq<nat>) {
    1 <= |ids| == |units| <= MAX_RECEIPT_MINT_ITEMS && AllU256(ids) && AllU256(units)
  }

  lemma DecodedIsCanonical(data: seq<Byte>) returns (ids: seq<nat>, units: seq<nat>)
    requires DecodeBatchData(data).Ok?
    ensures BatchShape(ids, units) && data == EncodeArrays(ids, units) && DecodeBatchData(data).value == Zip(ids, units)
  {
    var unitsOffset := WordAt(data, 32).value;
    WordAtIsExact(data, 0, 64);
    WordAtIsExact(data, 32, unitsOffset);
    ids, units := DecodeArray(data, 64).value, DecodeArray(data, unitsOffset).value;
    DecodedArrayIsThere(data, 64);
    DecodedArrayIsThere(data, unitsOffset);
    FourPieces(data, Word(64), Word(unitsOffset), EncodeArray(ids), EncodeArray(units));
  }

  lemma PiecesAreDecoded(data: seq<Byte>, ids: seq<nat>, units: seq<nat>, unitsOffset: nat)
    requires BatchShape(ids, units) && unitsOffset == 96 + 32 * |ids|
    requires At(data, 0, Word(64)) && At(data, 32, Word(unitsOffset))
    requires At(data, 64, EncodeArray(ids)) && At(data, unitsOffset, EncodeArray(units))
    requires |data| == unitsOffset + 32 + 32 * |units|
    ensures DecodeBatchData(data) == Ok(Zip(ids, units))
  {
    WordAtIsExact(data, 0, 64);
    WordAtIsExact(data, 32, unitsOffset);
    ArrayThereIsDecoded(data, 64, ids);
    ArrayThereIsDecoded(data, unitsOffset, units);
    WholeWords(|data|, 4 + 2 * |ids|);
  }

  lemma WholeWords(length: nat, words: nat)
    requires length == 32 * words
    ensures length % 32 == 0
  {
  }

  lemma CanonicalIsDecoded(ids: seq<nat>, units: seq<nat>)
    requires BatchShape(ids, units)
    ensures DecodeBatchData(EncodeArrays(ids, units)) == Ok(Zip(ids, units))
  {
    PiecesOf(Word(64), Word(96 + 32 * |ids|), EncodeArray(ids), EncodeArray(units));
    PiecesAreDecoded(EncodeArrays(ids, units), ids, units, 96 + 32 * |ids|);
  }

  lemma PiecesOf(a: seq<Byte>, b: seq<Byte>, c: seq<Byte>, d: seq<Byte>)
    ensures var data := a + b + c + d;
            At(data, 0, a) && At(data, |a|, b) && At(data, |a| + |b|, c) && At(data, |a| + |b| + |c|, d)
  {
    AtBehind(a + b + c, d, 0, d);
    AtBehind(a + b, c, 0, c);
    AtBefore(a + b + c, d, |a| + |b|, c);
    AtBehind(a, b, 0, b);
    AtBefore(a + b, c, |a|, b);
    AtBefore(a + b + c, d, |a|, b);
  }

  /** Accepts exactly the canonical encodings of two equally long arrays of 1 to 1024 numbers, and returns their pairs. */
  lemma {:induction false} DecodesExactlyTheCanonical(data: seq<Byte>, pairs: seq<(nat, nat)>)
    ensures DecodeBatchData(data) == Ok(pairs) <==>
            exists ids: seq<nat>, units: seq<nat> ::
              BatchShape(ids, units) && data == EncodeArrays(ids, units) && pairs == Zip(ids, units)
  {
    if DecodeBatchData(data) == Ok(pairs) {
      var ids, units := DecodedIsCanonical(data);
    }
    if ids: seq<nat>, units: seq<nat> :|
      BatchShape(ids, units) && data == EncodeArrays(ids, units) && pairs == Zip(ids, units)
    {
      CanonicalIsDecoded(ids, units);
    }
  }
}
