/** Mint stages: what the collection decoder accepts, and the lookups that rest on it. */
module Stages {
  import opened Words
  import opened Lookup
  import opened MintSubmission

  /**
   * A protocol time: its text, which is what is compared, and what that text reads as: nothing, or
   * seconds since 1970 (possibly before it).
   */
  datatype TimeText = TimeText(text: string, reading: Option<int>)

  type TokenRange = Option<(U64, U64)>

  datatype DropKind = Erc721SeaDropV1 | Erc1155SeaDropV2

  datatype StageKind = Erc721Stage | Erc1155Stage | OtherStageKind(name: string)

  datatype StageType = PublicSale | SignedPresale | MerklePresale | OtherStageType(name: string)

  datatype StageMetadata = StageMetadata(
    kind: StageKind, stageType: StageType, stageIndex: U32, startTime: Option<TimeText>, endTime: Option<TimeText>,
    maxTotal: Option<U64>, maxPerToken: Option<U64>, tokenRange: TokenRange)

  /** A stage as the collection query returns it, with its token bounds still separate. */
  datatype RawStage = RawStage(
    kind: StageKind, stageType: StageType, stageIndex: U32, startTime: Option<TimeText>, endTime: Option<TimeText>,
    maxTotal: Option<U64>, maxPerToken: Option<U64>, fromTokenId: Option<U64>, toTokenId: Option<U64>)

  datatype DecodeError = Compatibility

  // ------------------------------------------------------------------ time windows

  datatype PhaseWindow = PhaseWindow(startsAt: U64, endsAt: Option<U64>)

  datatype ExecutionTiming = Immediate | ScheduledAt(startsAt: U64) | Ended

  predicate ValidWindow(window: PhaseWindow) {
    window.endsAt.Some? ==> window.startsAt < window.endsAt.value
  }

  function Timing(window: PhaseWindow, timestamp: nat): (timing: ExecutionTiming)
    ensures timing == Immediate <==>
            window.startsAt <= timestamp && (window.endsAt.Some? ==> timestamp < window.endsAt.value)
    ensures timing == Ended ==> window.endsAt.Some? && window.endsAt.value <= timestamp
  {
    if timestamp < window.startsAt then ScheduledAt(window.startsAt)
    else if window.endsAt.Some? && timestamp >= window.endsAt.value then Ended
    else Immediate
  }

  function ParseTime(text: TimeText): Option<U64> {
    if text.reading.Some? && 0 <= text.reading.value <= MAX_U64 then Some(text.reading.value) else None
  }

  function WindowOf(startTime: Option<TimeText>, endTime: Option<TimeText>): (r: Option<PhaseWindow>)
    ensures r.Some? ==> ValidWindow(r.value)
  {
    var startsAt := if startTime.None? then Some(0) else ParseTime(startTime.value);
    if startsAt.None? || (endTime.Some? && ParseTime(endTime.value).None?) then None
    else
      var window := PhaseWindow(startsAt.value, if endTime.None? then None else ParseTime(endTime.value));
      if ValidWindow(window) then Some(window) else None
  }

  /** The window of a stage, or the error that a lookup reports for an unreadable or empty one. */
  function StageWindow(stage: StageMetadata): Result<PhaseWindow, CommandError> {
    match WindowOf(stage.startTime, stage.endTime)
    case None => Err(InvalidStageWindow)
    case Some(window) => Ok(window)
  }

  // ------------------------------------------------------------------ decoding

  predicate IsStageIdentity(drop: DropKind, kind: StageKind, stageType: StageType) {
    kind == (if drop.Erc721SeaDropV1? then Erc721Stage else Erc1155Stage) && !stageType.OtherStageType?
  }

  /** The two bounds of a range as the collection query writes them. */
  function TokenBounds(range: TokenRange): (Option<U64>, Option<U64>) {
    match range
    case None => (None, None)
    case Some((from, to)) => (Some(from), Some(to))
  }

  predicate IsRange(range: TokenRange) {
    range.Some? ==> range.value.0 <= range.value.1
  }

  /** Reads exactly what `TokenBounds` writes of a nonempty range. */
  function DecodeTokenRange(from: Option<U64>, to: Option<U64>): (r: Result<TokenRange, DecodeError>)
    ensures forall range: TokenRange :: r == Ok(range) <==> IsRange(range) && TokenBounds(range) == (from, to)
  {
    if from.None? && to.None? then Ok(None)
    else if from.Some? && to.Some? && from.value <= to.value then Ok(Some((from.value, to.value)))
    else Err(DecodeError.Compatibility)
  }

  predicate RangesOverlap(left: TokenRange, right: TokenRange) {
    left.None? || right.None? || (left.value.0 <= right.value.1 && right.value.0 <= left.value.1)
  }

  /** Two stages of one index describe the same sale of different tokens. */
  predicate Consistent(stage: StageMetadata, sibling: StageMetadata) {
    stage.stageIndex == sibling.stageIndex ==>
      && stage.kind == sibling.kind && stage.stageType == sibling.stageType
      && stage.startTime == sibling.startTime && stage.endTime == sibling.endTime
      && stage.maxTotal == sibling.maxTotal
      && !RangesOverlap(stage.tokenRange, sibling.tokenRange)
  }

  predicate GroupsConsistent(stages: seq<StageMetadata>) {
    forall i: nat, j: nat :: i < j < |stages| ==> Consistent(stages[i], stages[j])
  }

  method ValidateStageGroups(stages: seq<StageMetadata>) returns (ok: bool)
    ensures ok <==> GroupsConsistent(stages)
  {
    var i := 0;
    while i < |stages|
      invariant i <= |stages|
      invariant forall a: nat, b: nat :: a < i && a < b < |stages| ==> Consistent(stages[a], stages[b])
    {
      var j := i + 1;
      while j < |stages|
        invariant i < j <= |stages|
        invariant forall b: nat :: i < b < j ==> Consistent(stages[i], stages[b])
      {
        if !Consistent(stages[i], stages[j]) {
          return false;
        }
        j := j + 1;
      }
      i := i + 1;
    }
    return true;
  }

  /** Each stage on its own is one that the drop kind allows. */
  predicate Decodable(drop: DropKind, raw: RawStage) {
    && IsStageIdentity(drop, raw.kind, raw.stageType)
    && WindowOf(raw.startTime, raw.endTime).Some?
    && match DecodeTokenRange(raw.fromTokenId, raw.toTokenId) {
      case Err(_) => false
      case Ok(range) => if drop.Erc721SeaDropV1? then range.None? && raw.maxPerToken.None? else range.Some?
    }
  }

  function Decoded(raw: RawStage): StageMetadata {
    var range := DecodeTokenRange(raw.fromTokenId, raw.toTokenId);
    StageMetadata(
      raw.kind, raw.stageType, raw.stageIndex, raw.startTime, raw.endTime, raw.maxTotal, raw.maxPerToken,
      if range.Ok? then range.value else None)
  }

  function DecodedAll(raws: seq<RawStage>): seq<StageMetadata> {
    seq(|raws|, i requires 0 <= i < |raws| => Decoded(raws[i]))
  }

  function StageKey(stage: StageMetadata): (U32, TokenRange) {
    (stage.stageIndex, stage.tokenRange)
  }

  predicate DistinctKeys(stages: seq<StageMetadata>) {
    forall i: nat, j: nat :: i < j < |stages| ==> StageKey(stages[i]) != StageKey(stages[j])
  }

  /** What the decoder guarantees about the stages of a collection it accepts. */
  predicate WellFormed(drop: DropKind, stages: seq<StageMetadata>) {
    && DistinctKeys(stages) && GroupsConsistent(stages)
    && (forall stage <- stages ::
          && IsStageIdentity(drop, stage.kind, stage.stageType) && WindowOf(stage.startTime, stage.endTime).Some?
          && (drop.Erc721SeaDropV1? ==> stage.tokenRange.None? && stage.maxPerToken.None?)
          && (drop.Erc1155SeaDropV2? ==> stage.tokenRange.Some? && IsRange(stage.tokenRange)))
  }

  /** Accepts exactly the lists whose stages decode one by one into a well-formed collection. */
  method DecodeStages(drop: DropKind, raws: seq<RawStage>) returns (r: Result<seq<StageMetadata>, DecodeError>)
    ensures r.Ok? <==> (forall raw <- raws :: Decodable(drop, raw)) && WellFormed(drop, DecodedAll(raws))
    ensures r.Ok? ==> r.value == DecodedAll(raws)
  {
    var keys: set<(U32, TokenRange)> := {};
    var stages: seq<StageMetadata> := [];
    var i := 0;
    while i < |raws|
      invariant i <= |raws|
      invariant |stages| == i && forall k: nat :: k < i ==> Decodable(drop, raws[k]) && stages[k] == Decoded(raws[k])
      invariant forall key :: key in keys <==> exists k: nat :: k < i && StageKey(stages[k]) == key
      invariant DistinctKeys(stages)
    {
      var raw := raws[i];
      if !Decodable(drop, raw) {
        return Err(DecodeError.Compatibility);
      }
      var stage := Decoded(raw);
      if StageKey(stage) in keys {
        ghost var k: nat :| k < i && StageKey(stages[k]) == StageKey(stage);
        assert StageKey(DecodedAll(raws)[k]) == StageKey(DecodedAll(raws)[i]);
        return Err(DecodeError.Compatibility);
      }
      keys := keys + {StageKey(stage)};
      stages := stages + [stage];
      i := i + 1;
    }
    assert stages == DecodedAll(raws);
    var consistent := ValidateStageGroups(stages);
    if !consistent {
      return Err(DecodeError.Compatibility);
    }
    return Ok(stages);
  }

  // ------------------------------------------------------------------- uniqueness

  predicate SupportsToken(stage: StageMetadata, tokenId: U64) {
    match stage.tokenRange
    case Some((from, to)) => from <= tokenId <= to
    case None => tokenId == 0
  }

  /**
   * A decoded stage sells exactly the tokens between the bounds of its record, and at least one; a single-token
   * drop sells token 0.
   */
  lemma DecodedStageSells(drop: DropKind, raw: RawStage, tokenId: U64) returns (sold: U64)
    requires Decodable(drop, raw)
    ensures SupportsToken(Decoded(raw), tokenId) <==>
            if drop.Erc721SeaDropV1? then tokenId == 0
            else raw.fromTokenId.Some? && raw.toTokenId.Some? && raw.fromTokenId.value <= tokenId <= raw.toTokenId.value
    ensures SupportsToken(Decoded(raw), sold)
  {
    sold := if drop.Erc721SeaDropV1? then 0 else raw.fromTokenId.value;
  }

  /** In an accepted collection at most one stage of an index supports a token. */
  lemma OneStagePerToken(drop: DropKind, stages: seq<StageMetadata>, i: nat, j: nat, tokenId: U64)
    requires WellFormed(drop, stages) && i < j < |stages| && stages[i].stageIndex == stages[j].stageIndex
    ensures !SupportsToken(stages[i], tokenId) || !SupportsToken(stages[j], tokenId)
  {
    assert Consistent(stages[i], stages[j]);
  }

  datatype Collection = Collection(dropKind: DropKind, stages: seq<StageMetadata>)

  predicate Selects(collection: Collection, stageIndex: U32, tokenId: U64, stage: StageMetadata) {
    && stage.stageIndex == stageIndex
    && match collection.dropKind
       case Erc721SeaDropV1 => tokenId == 0 && stage.tokenRange.None?
       case Erc1155SeaDropV2 => stage.tokenRange.Some? && stage.tokenRange.value.0 <= tokenId <= stage.tokenRange.value.1
  }

  /** The one stage of an index that sells a token; no match and several matches are the same error. */
  function FindSelectedStage(collection: Collection, stageIndex: U32, tokenId: U64): Result<nat, CommandError> {
    match FindUnique(collection.stages, stage => Selects(collection, stageIndex, tokenId, stage))
    case One(k) => Ok(k)
    case _ => Err(InvalidTokenId)
  }

  /** Over an accepted collection the lookup fails only when nothing matches, never for ambiguity. */
  lemma SelectionIsNeverAmbiguous(collection: Collection, stageIndex: U32, tokenId: U64)
    requires WellFormed(collection.dropKind, collection.stages)
    ensures FindSelectedStage(collection, stageIndex, tokenId).Ok? <==>
            exists k: nat :: k < |collection.stages| && Selects(collection, stageIndex, tokenId, collection.stages[k])
    ensures forall k: nat :: k < |collection.stages| && Selects(collection, stageIndex, tokenId, collection.stages[k]) ==>
              FindSelectedStage(collection, stageIndex, tokenId) == Ok(k)
  {
    var p := stage => Selects(collection, stageIndex, tokenId, stage);
    FindUniqueIsExact(collection.stages, p);
    forall i: nat, j: nat | i < j < |collection.stages|
      ensures !(p(collection.stages[i]) && p(collection.stages[j]))
    {
      if collection.stages[i].stageIndex == collection.stages[j].stageIndex {
        OneStagePerToken(collection.dropKind, collection.stages, i, j, tokenId);
      }
    }
  }

  // ------------------------------------------------------------------- eligibility

  datatype StageEligibility = StageEligibility(
    kind: StageKind, stageType: StageType, stageIndex: U32, tokenRange: TokenRange,
    maxTotal: Option<U64>, maxPerToken: Option<U64>, eligibleMaxTotal: Option<U64>, eligibleMaxPerToken: Option<U64>,
    isEligible: Option<bool>, viaLinkedWallet: bool, priceWei: Option<U256>, hasPriceChain: bool)

  datatype EligibilitySnapshot = EligibilitySnapshot(dropKind: DropKind, stages: seq<StageEligibility>, quantityMinted: Option<U64>)

  predicate SameKey(candidate: StageEligibility, stage: StageMetadata) {
    candidate.stageIndex == stage.stageIndex && candidate.tokenRange == stage.tokenRange
  }

  function MatchingEligibility(eligibility: EligibilitySnapshot, stage: StageMetadata): (r: Result<nat, CommandError>)
    ensures r.Ok? ==> r.value < |eligibility.stages| && SameKey(eligibility.stages[r.value], stage)
  {
    var same := (candidate: StageEligibility) => SameKey(candidate, stage);
    FindUniqueIsExact(eligibility.stages, same);
    match FindUnique(eligibility.stages, same)
    case NoMatch => Err(StageNotFound)
    case Several => Err(CollectionChanged)
    case One(k) => Ok(k)
  }

  /** The lookup succeeds for exactly one record with the stage's key; none and several are different errors. */
  lemma MatchingOutcomes(eligibility: EligibilitySnapshot, stage: StageMetadata)
    ensures var r, records := MatchingEligibility(eligibility, stage), eligibility.stages;
            && (forall k: nat :: r == Ok(k) <==>
                  k < |records| && SameKey(records[k], stage) && forall j: nat :: j < |records| && SameKey(records[j], stage) ==> j == k)
            && (r == Err(StageNotFound) <==> forall record <- records :: !SameKey(record, stage))
            && (r == Err(CollectionChanged) <==>
                  exists i: nat, j: nat :: i < j < |records| && SameKey(records[i], stage) && SameKey(records[j], stage))
  {
    FindUniqueIsExact(eligibility.stages, (candidate: StageEligibility) => SameKey(candidate, stage));
  }

  predicate SameIdentity(stage: StageMetadata, candidate: StageEligibility) {
    && candidate.stageType == stage.stageType && candidate.kind == stage.kind && candidate.tokenRange == stage.tokenRange
    && candidate.maxTotal == stage.maxTotal && candidate.maxPerToken == stage.maxPerToken
  }

  /** Metadata stage `i` has exactly one eligibility record, and it describes the same sale. */
  predicate ShapeMatchesAt(metadata: Collection, eligibility: EligibilitySnapshot, i: nat)
    requires i < |metadata.stages|
  {
    var k := MatchingEligibility(eligibility, metadata.stages[i]);
    && k.Ok? && SameIdentity(metadata.stages[i], eligibility.stages[k.value])
    && eligibility.stages[k.value].priceWei.Some? == eligibility.stages[k.value].hasPriceChain
  }

  predicate ShapeMatches(metadata: Collection, eligibility: EligibilitySnapshot) {
    && eligibility.dropKind == metadata.dropKind && |eligibility.stages| == |metadata.stages|
    && forall i: nat :: i < |metadata.stages| ==> ShapeMatchesAt(metadata, eligibility, i)
  }

  method ValidateSnapshotShape(metadata: Collection, eligibility: EligibilitySnapshot) returns (r: Result<(), CommandError>)
    ensures r.Ok? <==> ShapeMatches(metadata, eligibility)
    ensures r.Err? ==> r.error == CollectionChanged || r.error == StageNotFound
  {
    if eligibility.dropKind != metadata.dropKind || |eligibility.stages| != |metadata.stages| {
      return Err(CollectionChanged);
    }
    var i := 0;
    while i < |metadata.stages|
      invariant i <= |metadata.stages|
      invariant forall k: nat :: k < i ==> ShapeMatchesAt(metadata, eligibility, k)
    {
      var k := MatchingEligibility(eligibility, metadata.stages[i]);
      if k.Err? {
        assert !ShapeMatchesAt(metadata, eligibility, i);
        return Err(k.error);
      }
      var stage := eligibility.stages[k.value];
      if !SameIdentity(metadata.stages[i], stage) || stage.priceWei.Some? != stage.hasPriceChain {
        assert !ShapeMatchesAt(metadata, eligibility, i);
        return Err(CollectionChanged);
      }
      i := i + 1;
    }
    return Ok(());
  }

  /** The eligibility records of the first `n` metadata stages. */
  function Matching(metadata: Collection, eligibility: EligibilitySnapshot, n: nat): (m: seq<nat>)
    requires ShapeMatches(metadata, eligibility) && n <= |metadata.stages|
    ensures |m| == n
    ensures forall i: nat :: i < n ==> m[i] < |eligibility.stages| && SameKey(eligibility.stages[m[i]], metadata.stages[i])
  {
    if n == 0 then []
    else
      assert ShapeMatchesAt(metadata, eligibility, n - 1);
      Matching(metadata, eligibility, n - 1) + [MatchingEligibility(eligibility, metadata.stages[n - 1]).value]
  }

  /** A validated snapshot pairs the stages of an accepted collection one to one, with nothing left over. */
  lemma MatchingIsBijection(metadata: Collection, eligibility: EligibilitySnapshot)
    requires WellFormed(metadata.dropKind, metadata.stages) && ShapeMatches(metadata, eligibility)
    ensures var m := Matching(metadata, eligibility, |metadata.stages|);
            && Distinct(m)
            && (forall k: nat :: k < |eligibility.stages| ==> k in m)
  {
    var m := Matching(metadata, eligibility, |metadata.stages|);
    forall i: nat, j: nat | i < j < |m| ensures m[i] != m[j] {
      assert StageKey(metadata.stages[i]) != StageKey(metadata.stages[j]);
    }
    DistinctCoversAll(m, |eligibility.stages|);
  }

  function Or(first: Option<U64>, second: Option<U64>): Option<U64> {
    if first.Some? then first else second
  }

  function Cap(limit: Option<U64>): U64 {
    if limit.Some? then limit.value else MAX_U64
  }

  /** What the wallet may hold in all: its own record's cap, else the phase's as the record or the collection states it. */
  function TotalCap(stage: StageMetadata, candidate: StageEligibility): U64 {
    Cap(Or(candidate.eligibleMaxTotal, Or(candidate.maxTotal, stage.maxTotal)))
  }

  function PerTokenCap(stage: StageMetadata, candidate: StageEligibility): U64 {
    Cap(Or(candidate.eligibleMaxPerToken, Or(candidate.eligibleMaxTotal, Or(candidate.maxPerToken, stage.maxPerToken))))
  }

  /** What already counts against the total: nothing when the eligibility belongs to a linked wallet. */
  function Counted(candidate: StageEligibility, eligibility: EligibilitySnapshot): U64 {
    if candidate.viaLinkedWallet || eligibility.quantityMinted.None? then 0 else eligibility.quantityMinted.value
  }

  /** After minting the quantity the wallet is still within both of its caps. */
  predicate StaysWithinCaps(stage: StageMetadata, candidate: StageEligibility, eligibility: EligibilitySnapshot, quantity: nat) {
    Counted(candidate, eligibility) + quantity <= TotalCap(stage, candidate) && quantity <= PerTokenCap(stage, candidate)
  }

  function AvailableQuantity(stage: StageMetadata, candidate: StageEligibility, eligibility: EligibilitySnapshot): (available: nat)
    ensures forall quantity: nat ::
              0 < quantity ==> (quantity <= available <==> StaysWithinCaps(stage, candidate, eligibility, quantity))
  {
    Min(SaturatingSub(TotalCap(stage, candidate), Counted(candidate, eligibility)), PerTokenCap(stage, candidate))
  }

  /** What a wallet asks for, and the chain time at which it asks. */
  datatype Sale = Sale(tokenId: U64, quantity: U64, timestamp: nat)

  /** The stage sells this quantity of the token at this time. */
  predicate Qualifies(eligibility: EligibilitySnapshot, sale: Sale, stage: StageMetadata) {
    var candidate := MatchingEligibility(eligibility, stage);
    && SupportsToken(stage, sale.tokenId)
    && candidate.Ok? && sale.quantity <= AvailableQuantity(stage, eligibility.stages[candidate.value], eligibility)
    && StageWindow(stage).Ok? && Timing(StageWindow(stage).value, sale.timestamp) == Immediate
  }

  function StageIndices(stages: seq<StageMetadata>): seq<U32> {
    seq(|stages|, i requires 0 <= i < |stages| => stages[i].stageIndex)
  }

  function Qualifying(eligibility: EligibilitySnapshot, sale: Sale, stages: seq<StageMetadata>): (picked: seq<bool>)
    ensures |picked| == |stages|
    ensures forall k: nat :: k < |stages| ==> picked[k] == Qualifies(eligibility, sale, stages[k])
  {
    seq(|stages|, i requires 0 <= i < |stages| => Qualifies(eligibility, sale, stages[i]))
  }

  /** In an accepted collection the stages that qualify have different indices. */
  lemma {:induction false} QualifyingIndicesDiffer(metadata: Collection, eligibility: EligibilitySnapshot, sale: Sale)
    requires WellFormed(metadata.dropKind, metadata.stages)
    ensures DistinctTags(StageIndices(metadata.stages), Qualifying(eligibility, sale, metadata.stages))
  {
    var tags, picked := StageIndices(metadata.stages), Qualifying(eligibility, sale, metadata.stages);
    forall i: nat, j: nat | i < j < |tags| && picked[i] && picked[j] ensures tags[i] != tags[j] {
      if metadata.stages[i].stageIndex == metadata.stages[j].stageIndex {
        OneStagePerToken(metadata.dropKind, metadata.stages, i, j, sale.tokenId);
      }
    }
  }

  predicate IsLookupError(error: CommandError) {
    error.StageNotFound? || error.CollectionChanged? || error.InvalidStageWindow? || error.StageEnded? || error.AmbiguousActiveStage?
  }

  /** One pass of the search for active stages: whether this stage is one, or the error that its record or window gives. */
  function IsActive(eligibility: EligibilitySnapshot, sale: Sale, stage: StageMetadata): (r: Result<bool, CommandError>)
    ensures r.Ok? ==> r.value == Qualifies(eligibility, sale, stage)
    ensures MatchingEligibility(eligibility, stage).Ok? && StageWindow(stage).Ok? ==> r.Ok?
    ensures r.Err? ==> IsLookupError(r.error)
  {
    match MatchingEligibility(eligibility, stage)
    case Err(e) => Err(e)
    case Ok(k) =>
      if !SupportsToken(stage, sale.tokenId) || sale.quantity > AvailableQuantity(stage, eligibility.stages[k], eligibility) then Ok(false)
      else
        match StageWindow(stage)
        case Err(e) => Err(e)
        case Ok(window) => Ok(Timing(window, sale.timestamp) == Immediate)
  }

  lemma ActiveNeverFails(metadata: Collection, eligibility: EligibilitySnapshot, sale: Sale, i: nat)
    requires WellFormed(metadata.dropKind, metadata.stages) && ShapeMatches(metadata, eligibility) && i < |metadata.stages|
    ensures IsActive(eligibility, sale, metadata.stages[i]).Ok?
  {
    assert ShapeMatchesAt(metadata, eligibility, i);
  }

  /** Collects the indices of the stages that qualify; over an accepted collection and a validated snapshot it cannot fail. */
  method ActiveIndices(metadata: Collection, eligibility: EligibilitySnapshot, sale: Sale)
    returns (r: Result<set<U32>, CommandError>)
    ensures r.Ok? ==>
              r.value == PickedTags(StageIndices(metadata.stages), Qualifying(eligibility, sale, metadata.stages), |metadata.stages|)
    ensures (forall stage <- metadata.stages :: IsActive(eligibility, sale, stage).Ok?) ==> r.Ok?
    ensures r.Err? ==> IsLookupError(r.error)
  {
    ghost var tags, picked := StageIndices(metadata.stages), Qualifying(eligibility, sale, metadata.stages);
    var indices: set<U32> := {};
    var i := 0;
    while i < |metadata.stages|
      invariant i <= |metadata.stages|
      invariant indices == PickedTags(tags, picked, i)
    {
      var active := IsActive(eligibility, sale, metadata.stages[i]);
      if active.Err? {
        return Err(active.error);
      }
      if active.value {
        indices := indices + {metadata.stages[i].stageIndex};
      }
      i := i + 1;
    }
    return Ok(indices);
  }

  /** Exactly one stage qualifies, and it has this index. */
  ghost predicate SoleActive(metadata: Collection, eligibility: EligibilitySnapshot, index: U32, sale: Sale) {
    exists k: nat ::
      OnlyPicked(Qualifying(eligibility, sale, metadata.stages), k) && metadata.stages[k].stageIndex == index
  }

  /**
   * Over an accepted collection and a validated snapshot the test on the set of indices means:
   * exactly one stage qualifies, and it has the selected index.
   */
  method ValidateUnambiguousActiveStage(metadata: Collection, eligibility: EligibilitySnapshot, selectedIndex: U32, sale: Sale)
    returns (r: Result<(), CommandError>)
    ensures WellFormed(metadata.dropKind, metadata.stages) && ShapeMatches(metadata, eligibility) ==>
              && (r.Ok? <==> SoleActive(metadata, eligibility, selectedIndex, sale))
              && (r == Err(StageEnded) <==> forall stage <- metadata.stages :: !Qualifies(eligibility, sale, stage))
              && (r.Err? ==> r.error == StageEnded || r.error == AmbiguousActiveStage)
    ensures r.Err? ==> IsLookupError(r.error)
  {
    if WellFormed(metadata.dropKind, metadata.stages) && ShapeMatches(metadata, eligibility) {
      forall i: nat | i < |metadata.stages| ensures IsActive(eligibility, sale, metadata.stages[i]).Ok? {
        ActiveNeverFails(metadata, eligibility, sale, i);
      }
    }
    var indices := ActiveIndices(metadata, eligibility, sale);
    if indices.Err? {
      return Err(indices.error);
    }
    ghost var tags, picked := StageIndices(metadata.stages), Qualifying(eligibility, sale, metadata.stages);
    if WellFormed(metadata.dropKind, metadata.stages) {
      QualifyingIndicesDiffer(metadata, eligibility, sale);
      OneTagMeansOnePicked(tags, picked, selectedIndex);
      PickedTagsMembers(tags, picked, |tags|);
    }
    if indices.value == {} {
      return Err(StageEnded);
    }
    if |indices.value| != 1 || selectedIndex !in indices.value {
      return Err(AmbiguousActiveStage);
    }
    return Ok(());
  }
}
