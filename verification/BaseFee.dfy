/** The protocol's base fee against the buffer that each replacement keeps above its tip. */
module BaseFee {
  import opened Words
  import opened FeePolicy

  /** A block as the EIP-1559 "Specification" section sees it; at most twice the gas target can be used. */
  datatype Block = Block(gasUsed: nat, gasTarget: nat)

  predicate ValidBlock(block: Block) {
    0 < block.gasTarget && block.gasUsed <= 2 * block.gasTarget
  }

  /** The update rule of the EIP-1559 "Specification" section. */
  function NextBaseFee(base: nat, block: Block): (next: nat)
    requires ValidBlock(block)
    ensures next <= base + Max(base / 8, 1)
  {
    var target := block.gasTarget;
    if block.gasUsed == target then base
    else if block.gasUsed > target then
      FractionAtMost(base, block.gasUsed - target, target);
      base + Max(base * (block.gasUsed - target) / target / 8, 1)
    else
      FractionAtMost(base, target - block.gasUsed, target);
      base - base * (target - block.gasUsed) / target / 8
  }

  lemma FractionAtMost(base: nat, part: nat, whole: nat)
    requires 0 < whole && part <= whole
    ensures 0 <= base * part / whole <= base
  {
    MulMonotone(part, whole, base);
    QuotientAtMost(base * part, base, whole);
  }

  lemma QuotientAtMost(n: nat, q: nat, whole: nat)
    requires 0 < whole && n <= q * whole
    ensures 0 <= n / whole <= q
  {
    if n / whole > q {
      MulMonotone(q + 1, n / whole, whole);
    }
  }

  function BaseFeeAfter(base: nat, blocks: seq<Block>): nat
    requires forall block <- blocks :: ValidBlock(block)
  {
    if blocks == [] then base
    else NextBaseFee(BaseFeeAfter(base, blocks[..|blocks| - 1]), blocks[|blocks| - 1])
  }

  // ------------------------------------------------------------- the estimate

  datatype EstimateError = QuantityOverflow

  /** The estimate read from a node: twice the base fee above the suggested tip. */
  function FeeEstimate(base: U256, priorityFee: U256): Result<Fees, EstimateError> {
    if base * 2 > MAX_U256 || base * 2 + priorityFee > MAX_U256 then Err(QuantityOverflow)
    else Ok(Fees(base * 2 + priorityFee, priorityFee))
  }

  /** The first fees of a submission, when they can be computed from what the node reports. */
  function FirstQuote(config: FeesConfig, base: U256, tip: U256): Option<Fees> {
    match FeeEstimate(base, tip)
    case Err(_) => None
    case Ok(estimate) =>
      match InitialTransactionFees(config, estimate)
      case Err(_) => None
      case Ok(first) => Some(first)
  }

  predicate AcceptedAutomatic(config: FeesConfig) {
    config.mode.Automatic? && ValidFeesConfig(config)
  }

  /** The automatic first quote keeps at least two base fees above its tip, whatever the multiplier rounds away. */
  lemma {:induction false} InitialBuffer(config: FeesConfig, base: U256, tip: U256)
    requires AcceptedAutomatic(config) && FirstQuote(config, base, tip).Some?
    ensures var first := FirstQuote(config, base, tip).value; first.maxFee - first.priorityFee >= 2 * base
  {
    var m := config.multiplier;
    RoundedBuffer(base, tip, m, MultiplyCeil(base * 2 + tip, m).value, MultiplyCeil(tip, m).value);
  }

  lemma RoundedBuffer(base: nat, tip: nat, m: nat, cap: nat, scaledTip: nat)
    requires m >= BASIS_POINTS
    requires (base * 2 + tip) * m <= cap * BASIS_POINTS
    requires scaledTip * BASIS_POINTS < tip * m + BASIS_POINTS
    ensures cap - scaledTip >= 2 * base
  {
    assert (base * 2 + tip) * m == 2 * (base * m) + tip * m;
    MulMonotone(BASIS_POINTS, m, base);
  }

  // ---------------------------------------------------------------- dominance

  lemma GrownStepDominates(buffer: nat, base: nat, block: Block, bps: nat)
    requires ValidBlock(block) && base <= buffer && 1 <= buffer && bps >= MAX_BASE_FEE_GROWTH_BPS
    ensures NextBaseFee(base, block) <= (buffer * bps + (BASIS_POINTS - 1)) / BASIS_POINTS
    ensures 1 <= (buffer * bps + (BASIS_POINTS - 1)) / BASIS_POINTS
  {
    MulMonotone(MAX_BASE_FEE_GROWTH_BPS, bps, buffer);
    EighthCovered(buffer, base, buffer * bps);
  }

  lemma EighthCovered(buffer: nat, base: nat, scaled: nat)
    requires base <= buffer && 1 <= buffer && buffer * MAX_BASE_FEE_GROWTH_BPS <= scaled
    ensures base + Max(base / 8, 1) <= (scaled + (BASIS_POINTS - 1)) / BASIS_POINTS
  {
  }

  /** A buffer that is not zero and covers the base fee still does so after any blocks, when the rate is high enough. */
  lemma {:induction false} GrownDominates(buffer: nat, base: nat, blocks: seq<Block>, bps: nat)
    requires forall block <- blocks :: ValidBlock(block)
    requires base <= buffer && 1 <= buffer && bps >= MAX_BASE_FEE_GROWTH_BPS
    ensures BaseFeeAfter(base, blocks) <= Grown(buffer, bps, |blocks|)
    ensures 1 <= Grown(buffer, bps, |blocks|)
  {
    if blocks != [] {
      var earlier := blocks[..|blocks| - 1];
      GrownDominates(buffer, base, earlier, bps);
      GrownStepDominates(Grown(buffer, bps, |earlier|), BaseFeeAfter(base, earlier), blocks[|blocks| - 1], bps);
    }
  }

  /** The fees of the k-th replacement of a submission, when every step on the way can be computed. */
  function ReplacedQuote(config: FeesConfig, base: U256, tip: U256, k: nat): Option<Fees> {
    match FirstQuote(config, base, tip)
    case None => None
    case Some(first) =>
      match Escalated(first, config.bump, k)
      case Err(_) => None
      case Ok(last) => Some(last)
  }

  /** With one replacement a block, the last cap still pays its tip on top of the base fee reached by then. */
  predicate KeepsUp(config: FeesConfig, base: U256, tip: U256, blocks: seq<Block>)
    requires forall block <- blocks :: ValidBlock(block)
  {
    match ReplacedQuote(config, base, tip, |blocks|)
    case None => true
    case Some(last) => last.maxFee >= BaseFeeAfter(base, blocks) + last.priorityFee
  }

  /** Above the tip of every automatic replacement is what grew from at least two base fees. */
  lemma BufferOfReplacement(config: FeesConfig, base: U256, tip: U256, k: nat) returns (buffer: nat)
    requires AcceptedAutomatic(config) && ReplacedQuote(config, base, tip, k).Some?
    ensures buffer >= 2 * base && (base == 0 ==> buffer == 0)
    ensures var last := ReplacedQuote(config, base, tip, k).value;
            last.maxFee == last.priorityFee + Grown(buffer, BufferBump(config.bump), k)
  {
    var first := FirstQuote(config, base, tip).value;
    InitialBuffer(config, base, tip);
    EscalatedIsGrown(first, config.bump, k);
    buffer := first.maxFee - first.priorityFee;
  }

  /**
   * With a bump of at least 11250 an automatic submission outruns the base fee over any number of blocks: the
   * cap after k replacements still pays the tip on top of whatever the base fee became k blocks later.
   */
  lemma {:induction false} ReplacementsOutrunBaseFee(config: FeesConfig, base: U256, tip: U256, blocks: seq<Block>)
    requires AcceptedAutomatic(config) && forall block <- blocks :: ValidBlock(block)
    requires config.bump >= MAX_BASE_FEE_GROWTH_BPS && base >= 1
    ensures KeepsUp(config, base, tip, blocks)
  {
    if ReplacedQuote(config, base, tip, |blocks|).Some? {
      var buffer := BufferOfReplacement(config, base, tip, |blocks|);
      GrownDominates(buffer, base, blocks, BufferBump(config.bump));
    }
  }

  function ManualConfig(fees: Fees, bump: U32): FeesConfig {
    FeesConfig(Manual(fees), bump, BASIS_POINTS)
  }

  /** No manual fee whose buffer is not zero and covers the base fee is ever overtaken, by any run of blocks. */
  ghost predicate ManualFeesKeepUp(bump: U32) {
    forall fees: Fees, base: U256, tip: U256, blocks: seq<Block> ::
      fees.maxFee >= fees.priorityFee + Max(base, 1) && (forall block <- blocks :: ValidBlock(block))
      ==> KeepsUp(ManualConfig(fees, bump), base, tip, blocks)
  }

  lemma {:induction false} ManualFeeKeepsUp(fees: Fees, bump: U32, base: U256, tip: U256, blocks: seq<Block>)
    requires bump >= MAX_BASE_FEE_GROWTH_BPS && forall block <- blocks :: ValidBlock(block)
    requires fees.maxFee >= fees.priorityFee + Max(base, 1)
    ensures KeepsUp(ManualConfig(fees, bump), base, tip, blocks)
  {
    if ReplacedQuote(ManualConfig(fees, bump), base, tip, |blocks|).Some? {
      EscalatedIsGrown(fees, bump, |blocks|);
      GrownDominates(fees.maxFee - fees.priorityFee, base, blocks, BufferBump(bump));
    }
  }

  /** A smaller bump loses to a single full block. */
  lemma ManualFeeFallsBehind(bump: U32)
    requires BASIS_POINTS < bump < MAX_BASE_FEE_GROWTH_BPS
    ensures !KeepsUp(ManualConfig(Fees(80_000, 0), bump), 80_000, 0, [Block(2, 1)])
  {
    var full := [Block(2, 1)];
    assert full[..0] == [];
    assert BaseFeeAfter(80_000, full) == NextBaseFee(80_000, full[0]) == 90_000;
    assert MultiplyCeil(80_000, bump) == Ok(8 * bump) && MultiplyCeil(0, bump) == Ok(0);
    assert Escalated(Fees(80_000, 0), bump, 1) == Replacement(Fees(80_000, 0), bump);
  }

  /**
   * A manual fee can leave any buffer at all above its tip. For such fees the stated promise that a capped
   * buffer "can never fall behind the real base fee" holds exactly for bumps of at least 11250, and only
   * from a buffer that is not zero. Smaller bumps are accepted by the configuration (down to 10001).
   */
  lemma DominanceCondition(bump: U32)
    requires bump > BASIS_POINTS
    ensures ManualFeesKeepUp(bump) <==> bump >= MAX_BASE_FEE_GROWTH_BPS
  {
    if bump >= MAX_BASE_FEE_GROWTH_BPS {
      forall fees: Fees, base: U256, tip: U256, blocks: seq<Block> |
        fees.maxFee >= fees.priorityFee + Max(base, 1) && (forall block <- blocks :: ValidBlock(block))
        ensures KeepsUp(ManualConfig(fees, bump), base, tip, blocks)
      {
        ManualFeeKeepsUp(fees, bump, base, tip, blocks);
      }
    } else {
      ManualFeeFallsBehind(bump);
    }
  }

  // -------------------------------------------------------------- full blocks

  function FullBlocks(n: nat): (blocks: seq<Block>)
    ensures |blocks| == n && forall block <- blocks :: ValidBlock(block)
  {
    seq(n, i => Block(2, 1))
  }

  /** The base fee after `n` full blocks. */
  function Risen(base: nat, n: nat): nat
    decreases n, base
  {
    if n == 0 then base
    else
      var before := Risen(base, n - 1);
      before + Max(before / 8, 1)
  }

  lemma {:induction false} FullBlocksRise(base: nat, n: nat)
    ensures BaseFeeAfter(base, FullBlocks(n)) == Risen(base, n)
  {
    if n > 0 {
      FullBlocksRise(base, n - 1);
      OneMoreFullBlock(n);
      FullBlockRises(Risen(base, n - 1));
    }
  }

  lemma OneMoreFullBlock(n: nat)
    requires n > 0
    ensures FullBlocks(n)[..n - 1] == FullBlocks(n - 1) && FullBlocks(n)[n - 1] == Block(2, 1)
  {
  }

  lemma FullBlockRises(base: nat)
    ensures NextBaseFee(base, Block(2, 1)) == base + Max(base / 8, 1)
  {
  }

  /** No run of blocks raises the base fee above what full blocks do. */
  lemma {:induction false} FullBlocksAreWorst(base: nat, blocks: seq<Block>)
    requires forall block <- blocks :: ValidBlock(block)
    ensures BaseFeeAfter(base, blocks) <= Risen(base, |blocks|)
  {
    if blocks != [] {
      FullBlocksAreWorst(base, blocks[..|blocks| - 1]);
    }
  }
}
