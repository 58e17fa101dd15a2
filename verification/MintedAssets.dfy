/** What a mint receipt delivered: collecting the transfers to a wallet, and checking that they are the mint. */
module MintedAssets {
  import opened Words
  import opened Abi
  import opened AbiArrays
  import opened Transactions
  import opened Outcomes

  datatype Kind = Erc721Kind | Erc1155Kind | UnknownKind

  datatype Asset = Erc721(tokenId: nat) | Erc1155(tokenId: nat, units: nat)

  datatype Events = Events(transfer: nat, transferSingle: nat, transferBatch: nat)

  datatype Mint = Mint(events: Events, contract: Address, wallet: Address, kind: Kind, tokenId: U64, units: U64)

  // -------------------------------------------------------------------------- the transfers of one log

  /** Whether the transfer goes from nowhere to the wallet; a topic that is no address is an error unless the sender already decides. */
  function IsMintTo(wallet: Address, from: nat, to: nat): Result<bool, NftError> {
    match TopicAddress(from)
    case None => Err(MalformedTransferLog)
    case Some(sender) =>
      if sender != ZERO_ADDRESS then Ok(false)
      else
        match TopicAddress(to)
        case None => Err(MalformedTransferLog)
        case Some(receiver) => Ok(receiver == wallet)
  }

  function DecodeSingleData(data: seq<Byte>): Result<(nat, nat), NftError> {
    if |data| != 64 then Err(MalformedTransferLog) else Ok((Number(data[..32]), Number(data[32..])))
  }

  function AssetsOf(pairs: seq<(nat, nat)>): (assets: seq<Asset>)
    ensures |assets| == |pairs|
  {
    seq(|pairs|, i requires 0 <= i < |pairs| => Erc1155(pairs[i].0, pairs[i].1))
  }

  /** The assets that one log delivers to the wallet. */
  function Delivered(mint: Mint, log: Log): Result<seq<Asset>, NftError> {
    if log.emitter != mint.contract || log.topics == [] then Ok([])
    else if mint.kind.Erc721Kind? && log.topics[0] == mint.events.transfer then
      if |log.topics| != 4 then Ok([])
      else
        match IsMintTo(mint.wallet, log.topics[1], log.topics[2])
        case Err(e) => Err(e)
        case Ok(isMint) => Ok(if isMint && log.data == [] then [Erc721(log.topics[3])] else [])
    else if mint.kind.Erc1155Kind? && log.topics[0] == mint.events.transferSingle then
      if |log.topics| != 4 then Ok([])
      else
        match IsMintTo(mint.wallet, log.topics[2], log.topics[3])
        case Err(e) => Err(e)
        case Ok(isMint) =>
          if !isMint then Ok([])
          else
            match DecodeSingleData(log.data)
            case Err(e) => Err(e)
            case Ok(pair) => Ok(AssetsOf([pair]))
    else if mint.kind.Erc1155Kind? && log.topics[0] == mint.events.transferBatch then
      if |log.topics| != 4 then Ok([])
      else
        match IsMintTo(mint.wallet, log.topics[2], log.topics[3])
        case Err(e) => Err(e)
        case Ok(isMint) =>
          if !isMint then Ok([])
          else
            match DecodeBatchData(log.data)
            case Err(e) => Err(e)
            case Ok(pairs) => Ok(AssetsOf(pairs))
    else Ok([])
  }

  /** The assets of all logs, in order; unreadable when one log is. */
  function AllDelivered(mint: Mint, logs: seq<Log>): Option<seq<Asset>> {
    if logs == [] then Some([])
    else
      match (AllDelivered(mint, logs[..|logs| - 1]), Delivered(mint, logs[|logs| - 1]))
      case (Some(earlier), Ok(more)) => Some(earlier + more)
      case _ => None
  }

  lemma {:induction false} PrefixDelivers(mint: Mint, logs: seq<Log>, k: nat)
    requires k <= |logs| && AllDelivered(mint, logs).Some?
    ensures AllDelivered(mint, logs[..k]).Some?
    ensures |AllDelivered(mint, logs[..k]).value| <= |AllDelivered(mint, logs).value|
    decreases |logs|
  {
    if k < |logs| {
      PrefixDelivers(mint, logs[..|logs| - 1], k);
      assert logs[..|logs| - 1][..k] == logs[..k];
    } else {
      assert logs[..k] == logs;
    }
  }

  // -------------------------------------------------------------------------- validation

  function UnitsIn(asset: Asset): nat {
    if asset.Erc721? then 1 else asset.units
  }

  function TotalUnits(assets: seq<Asset>): nat {
    if assets == [] then 0 else TotalUnits(assets[..|assets| - 1]) + UnitsIn(assets[|assets| - 1])
  }

  predicate IsExpected(mint: Mint, asset: Asset) {
    UnitsIn(asset) > 0 && (asset.Erc1155? ==> asset.tokenId == mint.tokenId)
  }

  /** The assets are what was ordered: only the expected token, no empty transfer, and exactly the units. */
  ghost predicate IsExactly(mint: Mint, assets: seq<Asset>) {
    && !mint.kind.UnknownKind? && assets != []
    && (forall asset <- assets :: IsExpected(mint, asset))
    && TotalUnits(assets) == mint.units
  }

  lemma {:induction false} TotalGrows(assets: seq<Asset>, k: nat)
    requires k <= |assets|
    ensures TotalUnits(assets[..k]) <= TotalUnits(assets)
    decreases |assets|
  {
    if k < |assets| {
      TotalGrows(assets[..|assets| - 1], k);
      assert assets[..|assets| - 1][..k] == assets[..k];
    } else {
      assert assets[..k] == assets;
    }
  }

  method ValidateMintedAssets(mint: Mint, assets: seq<Asset>) returns (r: Result<(), NftError>)
    ensures r.Ok? <==> IsExactly(mint, assets)
    ensures r.Err? ==> r.error == MintReceiptMismatch || (r.error == TransferOverflow && TotalUnits(assets) > MAX_U256)
  {
    var total: nat := 0;
    for i := 0 to |assets|
      invariant total == TotalUnits(assets[..i]) <= MAX_U256
      invariant forall k: nat :: k < i ==> IsExpected(mint, assets[k])
    {
      if !IsExpected(mint, assets[i]) {
        return Err(MintReceiptMismatch);
      }
      assert assets[..i + 1][..i] == assets[..i];
      total := total + UnitsIn(assets[i]);
      TotalGrows(assets, i + 1);
      if total > MAX_U256 {
        return Err(TransferOverflow);
      }
    }
    assert assets[..|assets|] == assets;
    if mint.kind.UnknownKind? || total != mint.units || assets == [] {
      return Err(MintReceiptMismatch);
    }
    return Ok(());
  }

  // -------------------------------------------------------------------------- extraction

  /** The logs deliver at most 1024 assets, and they are exactly the mint. */
  ghost predicate Delivers(mint: Mint, logs: seq<Log>) {
    && AllDelivered(mint, logs).Some?
    && |AllDelivered(mint, logs).value| <= MAX_RECEIPT_MINT_ITEMS
    && IsExactly(mint, AllDelivered(mint, logs).value)
  }

  /** A contract of one kind delivers only assets of that kind. */
  lemma {:induction false} KindOfDelivered(mint: Mint, logs: seq<Log>)
    requires AllDelivered(mint, logs).Some?
    ensures forall asset <- AllDelivered(mint, logs).value :: asset.Erc721? <==> mint.kind.Erc721Kind?
  {
    if logs != [] {
      KindOfDelivered(mint, logs[..|logs| - 1]);
      var more := Delivered(mint, logs[|logs| - 1]).value;
      assert forall asset <- more :: asset.Erc721? <==> mint.kind.Erc721Kind?;
    }
  }

  lemma {:induction false} SingleTokensCount(assets: seq<Asset>)
    requires forall asset <- assets :: asset.Erc721?
    ensures TotalUnits(assets) == |assets|
  {
    if assets != [] {
      SingleTokensCount(assets[..|assets| - 1]);
    }
  }

  /**
   * Succeeds exactly when the receipt delivers the mint, and returns exactly the expected units: one
   * entry for a multi-token contract, otherwise one entry for each token that was transferred.
   */
  method ExtractMintedAssets(mint: Mint, logs: seq<Log>) returns (r: Result<seq<Asset>, NftError>)
    ensures r.Ok? <==> Delivers(mint, logs)
    ensures r.Ok? ==> TotalUnits(r.value) == mint.units
    ensures r.Ok? && mint.kind.Erc1155Kind? ==> r.value == [Erc1155(mint.tokenId, mint.units)]
    ensures r.Ok? && mint.kind.Erc721Kind? ==> r.value == AllDelivered(mint, logs).value && |r.value| == mint.units
  {
    var assets: seq<Asset> := [];
    for k := 0 to |logs|
      invariant AllDelivered(mint, logs[..k]) == Some(assets) && |assets| <= MAX_RECEIPT_MINT_ITEMS
    {
      assert logs[..k + 1][..k] == logs[..k];
      if AllDelivered(mint, logs).Some? {
        PrefixDelivers(mint, logs, k + 1);
      }
      var more := Delivered(mint, logs[k]);
      if more.Err? {
        return Err(more.error);
      }
      assets := assets + more.value;
      if |assets| > MAX_RECEIPT_MINT_ITEMS {
        return Err(TooManyTransferItems);
      }
    }
    assert logs[..|logs|] == logs;
    var valid := ValidateMintedAssets(mint, assets);
    if valid.Err? {
      return Err(valid.error);
    }
    KindOfDelivered(mint, logs);
    if mint.kind.Erc1155Kind? {
      assert TotalUnits([]) == 0;
      return Ok([Erc1155(mint.tokenId, mint.units)]);
    }
    SingleTokensCount(assets);
    return Ok(assets);
  }
}
