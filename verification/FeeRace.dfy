/** How long the automatic quote stays above the base fee when the configured bump is a small one. */
module FeeRace {
  import opened Words
  import opened FeePolicy
  import opened BaseFee

  // ------------------------------------------------------------------- powers

  lemma {:induction false} PowGrows(low: nat, high: nat, k: nat)
    requires low <= high
    ensures Pow(low, k) <= Pow(high, k)
  {
    if k > 0 {
      PowGrows(low, high, k - 1);
      MulMonotone(low, high, Pow(low, k - 1));
      MulMonotone(Pow(low, k - 1), Pow(high, k - 1), high);
    }
  }

  lemma {:induction false} PowPositive(b: nat, k: nat)
    requires b >= 1
    ensures Pow(b, k) >= 1
  {
    if k > 0 {
      PowPositive(b, k - 1);
      MulMonotone(1, b, Pow(b, k - 1));
    }
  }

  lemma {:induction false} PowLonger(b: nat, k: nat, n: nat)
    requires b >= 1 && k <= n
    ensures Pow(b, k) <= Pow(b, n)
    decreases n
  {
    if k < n {
      PowLonger(b, k, n - 1);
      MulMonotone(1, b, Pow(b, n - 1));
    }
  }

  lemma {:induction false} PowOfProduct(a: nat, b: nat, k: nat)
    ensures Pow(a, k) * Pow(b, k) == Pow(a * b, k)
  {
    if k > 0 {
      PowOfProduct(a, b, k - 1);
      FourFactors(a, Pow(a, k - 1), b, Pow(b, k - 1));
    }
  }

  lemma FourFactors(a: int, x: int, b: int, y: int)
    ensures (a * x) * (b * y) == (a * b) * (x * y)
  {
    Regroup(a, x, b * y);
    assert x * (b * y) == b * (x * y);
    Regroup(a, b, x * y);
  }

  /** One base fee rise is at most 9/8, and 9/8 is 11250 basis points. */
  lemma NineEighths(k: nat)
    ensures Pow(9, k) * Pow(BASIS_POINTS, k) == Pow(MAX_BASE_FEE_GROWTH_BPS, k) * Pow(8, k)
  {
    PowOfProduct(9, BASIS_POINTS, k);
    PowOfProduct(MAX_BASE_FEE_GROWTH_BPS, 8, k);
  }

  // ------------------------------------------------------- bounds on both sides

  /** From 8 wei on, no rise exceeds the exact 9/8. */
  lemma {:induction false} RisenAtMost(base: nat, n: nat)
    requires base >= 8
    ensures 8 <= Risen(base, n)
    ensures Risen(base, n) * Pow(8, n) <= base * Pow(9, n)
  {
    if n > 0 {
      RisenAtMost(base, n - 1);
      ScaleBoth(Risen(base, n), Risen(base, n - 1), base, 8, 9, Pow(8, n - 1), Pow(9, n - 1));
    }
  }

  lemma ScaleBoth(next: nat, before: nat, base: nat, d: nat, m: nat, p: nat, q: nat)
    requires next * d <= before * m
    requires before * p <= base * q
    ensures next * (d * p) <= base * (m * q)
  {
    MulMonotone(next * d, before * m, p);
    Regroup(next, d, p);
    Regroup(before, m, p);
    MulMonotone(before * p, base * q, m);
    assert m * (base * q) == base * (m * q);
  }

  /** A base fee that eight divides often enough rises by exactly 9/8 with each full block. */
  lemma {:induction false} RisenExactly(unit: nat, n: nat, rest: nat)
    requires unit >= 1
    ensures Risen(unit * (Pow(8, n) * Pow(8, rest)), n) == unit * (Pow(9, n) * Pow(8, rest))
  {
    if n > 0 {
      RisenExactly(unit, n - 1, rest + 1);
      var p := unit * (Pow(9, n - 1) * Pow(8, rest));
      assert Pow(8, n - 1) * Pow(8, rest + 1) == Pow(8, n) * Pow(8, rest) by {
        Regroup(Pow(8, n - 1), 8, Pow(8, rest));
        Regroup(8, Pow(8, n - 1), Pow(8, rest));
      }
      TimesConstant(unit, Pow(9, n - 1), Pow(8, rest), 8);
      TimesConstant(unit, Pow(9, n - 1), Pow(8, rest), 9);
      PowPositive(9, n - 1);
      PowPositive(8, rest);
      AtLeastOne(unit, Pow(9, n - 1), Pow(8, rest));
      assert (8 * p) / 8 == p;
    }
  }

  lemma TimesConstant(unit: nat, x: nat, y: nat, c: nat)
    ensures unit * (x * (c * y)) == c * (unit * (x * y)) == unit * ((c * x) * y)
  {
    assert x * (c * y) == c * (x * y) == (c * x) * y;
    Regroup(unit, c, x * y);
  }

  lemma AtLeastOne(x: nat, y: nat, z: nat)
    requires x >= 1 && y >= 1 && z >= 1
    ensures x * (y * z) >= 1
  {
    MulMonotone(1, y, z);
    MulMonotone(1, x, y * z);
  }

  /** Below 16 wei the base fee rises by one wei a block, which rounding up always makes good. */
  lemma {:induction false} RisenSlowly(base: nat, n: nat)
    requires base + n <= 16
    ensures Risen(base, n) == base + n
  {
    if n > 0 {
      RisenSlowly(base, n - 1);
    }
  }

  lemma {:induction false} GrownAtLeast(value: nat, bps: nat, n: nat)
    requires value >= 1 && bps > BASIS_POINTS
    ensures Grown(value, bps, n) >= value + n
  {
    if n > 0 {
      GrownAtLeast(value, bps, n - 1);
      MulMonotone(BASIS_POINTS + 1, bps, Grown(value, bps, n - 1));
    }
  }

  lemma {:induction false} GrownMonotone(low: nat, high: nat, bps: nat, n: nat)
    requires low <= high
    ensures Grown(low, bps, n) <= Grown(high, bps, n)
  {
    if n > 0 {
      GrownMonotone(low, high, bps, n - 1);
      MulMonotone(Grown(low, bps, n - 1), Grown(high, bps, n - 1), bps);
    }
  }

  // ----------------------------------------------------------------- the race

  /** Twice the base fee, growing at `bps`, is worth at least the base fee growing at the protocol's rate. */
  predicate Enough(bps: nat, k: nat) {
    2 * Pow(bps, k) >= Pow(MAX_BASE_FEE_GROWTH_BPS, k)
  }

  /** Two base fees keep up with any `k` blocks when the rate is enough; a base fee below 8 wei needs no rate. */
  lemma TwiceTheBaseFeeLasts(base: nat, bps: nat, k: nat)
    requires base >= 1 && bps > BASIS_POINTS
    requires if base >= 8 then Enough(bps, k) else base + k <= 16
    ensures Risen(base, k) <= Grown(2 * base, bps, k)
  {
    if base < 8 {
      RisenSlowly(base, k);
      GrownAtLeast(2 * base, bps, k);
    } else {
      RisenAtMost(base, k);
      GrownBounds(2 * base, bps, k);
      NineEighths(k);
      PowPositive(8, k);
      PowPositive(BASIS_POINTS, k);
      CompareScaled(Risen(base, k), Grown(2 * base, bps, k), base,
                    Pow(8, k), Pow(9, k), Pow(BASIS_POINTS, k), Pow(bps, k), Pow(MAX_BASE_FEE_GROWTH_BPS, k));
    }
  }

  lemma CompareScaled(risen: nat, grown: nat, base: nat, p8: nat, p9: nat, unit: nat, rate: nat, limit: nat)
    requires risen * p8 <= base * p9 && (2 * base) * rate <= grown * unit
    requires p9 * unit == limit * p8 && limit <= 2 * rate
    requires p8 >= 1 && unit >= 1
    ensures risen <= grown
  {
    ScaleUp(risen, p8, base, p9, unit);
    ScaleUp(2 * base, rate, grown, unit, p8);
    MulMonotone(limit, 2 * rate, base * p8);
    Regroup(limit, base, p8);
    assert 2 * rate * (base * p8) == (2 * base) * (rate * p8);
    MulMonotone(1, p8, unit);
    Cancel(risen, grown, p8 * unit);
  }

  lemma ScaleUp(x: nat, a: nat, y: nat, b: nat, m: nat)
    requires x * a <= y * b
    ensures x * (a * m) <= y * (b * m)
  {
    MulMonotone(x * a, y * b, m);
    Regroup(x, a, m);
    Regroup(y, b, m);
  }

  lemma Cancel(x: nat, y: nat, m: nat)
    requires m >= 1 && x * m <= y * m
    ensures x <= y
  {
    if x > y {
      MulMonotone(y + 1, x, m);
    }
  }

  /** When the rate is not enough, a large base fee that rises exactly is lost: no rounding makes up for it. */
  lemma {:induction false} TwiceTheBaseFeeFails(bps: nat, k: nat, base: nat)
    requires bps > BASIS_POINTS && !Enough(bps, k)
    requires base >= BASIS_POINTS * Pow(MAX_BASE_FEE_GROWTH_BPS, k)
    requires Risen(base, k) * Pow(BASIS_POINTS, k) == base * Pow(MAX_BASE_FEE_GROWTH_BPS, k)
    ensures Grown(2 * base, bps, k) < Risen(base, k)
  {
    PowPositive(BASIS_POINTS, k);
    GrownBounds(2 * base, bps, k);
    RoundingIsTooSmall(Risen(base, k), Grown(2 * base, bps, k), base, Pow(BASIS_POINTS, k), Pow(bps, k),
                       Pow(MAX_BASE_FEE_GROWTH_BPS, k), bps - BASIS_POINTS);
  }

  lemma ExactRise(unit: nat, k: nat)
    requires unit >= 1
    ensures Risen(unit * Pow(8, k), k) * Pow(BASIS_POINTS, k) == unit * Pow(8, k) * Pow(MAX_BASE_FEE_GROWTH_BPS, k)
  {
    RisenExactly(unit, k, 0);
    NineEighths(k);
    assert Risen(unit * Pow(8, k), k) == unit * Pow(9, k);
    Regroup(unit, Pow(9, k), Pow(BASIS_POINTS, k));
    Regroup(unit, Pow(8, k), Pow(MAX_BASE_FEE_GROWTH_BPS, k));
  }

  lemma RoundingIsTooSmall(risen: nat, grown: nat, base: nat, scale: nat, rate: nat, limit: nat, excess: nat)
    requires risen * scale == base * limit && base >= BASIS_POINTS * limit
    requires 2 * rate < limit && scale >= 1 && excess >= 1
    requires (2 * base) * rate <= grown * scale
    requires excess * (grown * scale - (2 * base) * rate) <= (BASIS_POINTS - 1) * (rate - scale)
    ensures grown < risen
  {
    MulMonotone(1, excess, grown * scale - (2 * base) * rate);
    MulMonotone(2 * rate + 1, limit, base);
    assert (2 * rate + 1) * base == (2 * base) * rate + base;
    assert grown * scale < risen * scale;
    if grown >= risen {
      MulMonotone(risen, grown, scale);
    }
  }

  // ------------------------------------------------------- automatic submissions

  /** The loader accepts at most this many attempts, hence one replacement fewer. */
  const MAX_ATTEMPTS: nat := 10

  /** The promise for every base fee except zero, every tip and every run of `k` blocks. */
  ghost predicate AlwaysKeepsUp(config: FeesConfig, k: nat) {
    forall base: U256, tip: U256, blocks: seq<Block> ::
      base >= 1 && |blocks| == k && (forall block <- blocks :: ValidBlock(block)) ==> KeepsUp(config, base, tip, blocks)
  }

  lemma EnoughKeepsUp(config: FeesConfig, base: U256, tip: U256, blocks: seq<Block>)
    requires AcceptedAutomatic(config) && forall block <- blocks :: ValidBlock(block)
    requires base >= 1 && Enough(BufferBump(config.bump), |blocks|)
    requires base >= 8 || |blocks| < MAX_ATTEMPTS
    ensures KeepsUp(config, base, tip, blocks)
  {
    var k, bps := |blocks|, BufferBump(config.bump);
    if ReplacedQuote(config, base, tip, k).Some? {
      var buffer := BufferOfReplacement(config, base, tip, k);
      GrownMonotone(2 * base, buffer, bps, k);
      TwiceTheBaseFeeLasts(base, bps, k);
      FullBlocksAreWorst(base, blocks);
    }
  }

  const ROOM: nat := 1_000_000_000_000_000_000_000_000_000_000_000_000_000_000_000_000_000_000_000_000

  function Doubled(value: nat, k: nat): (d: nat)
    ensures d >= value
    decreases k, value
  {
    if k == 0 then value else 2 * Doubled(value, k - 1)
  }

  lemma {:induction false} DoubledIsProduct(value: nat, k: nat)
    ensures Doubled(value, k) == value * Pow(2, k)
  {
    if k > 0 {
      DoubledIsProduct(value, k - 1);
      Regroup(2, value, Pow(2, k - 1));
      Regroup(value, 2, Pow(2, k - 1));
    }
  }

  /** A buffer at most doubles with each replacement. */
  lemma {:induction false} GrownAtMost(value: nat, bps: nat, k: nat)
    requires value >= 1 && BASIS_POINTS < bps <= MAX_BASE_FEE_GROWTH_BPS
    ensures 1 <= Grown(value, bps, k) <= Doubled(value, k)
  {
    if k > 0 {
      GrownAtMost(value, bps, k - 1);
      MulMonotone(bps, MAX_BASE_FEE_GROWTH_BPS, Grown(value, bps, k - 1));
      MulMonotone(BASIS_POINTS, bps, Grown(value, bps, k - 1));
    }
  }

  lemma ReplacedWithoutTip(buffer: U256, bump: U32)
    requires bump > BASIS_POINTS && buffer <= ROOM
    ensures Replacement(Fees(buffer, 0), bump).Ok?
    ensures Replacement(Fees(buffer, 0), bump).value.priorityFee == 0
    ensures Replacement(Fees(buffer, 0), bump).value.maxFee == (buffer * BufferBump(bump) + (BASIS_POINTS - 1)) / BASIS_POINTS
  {
    MulMonotone(BufferBump(bump), MAX_BASE_FEE_GROWTH_BPS, buffer);
    assert MultiplyCeil(0, bump) == Ok(0);
  }

  /** Without a tip and with room to grow, the replacements are the growth of the buffer alone. */
  lemma {:induction false} BufferAloneGrows(buffer: U256, bump: U32, k: nat)
    requires BASIS_POINTS < bump && 1 <= buffer && Doubled(buffer, k) <= ROOM
    ensures Grown(buffer, BufferBump(bump), k) <= ROOM
    ensures Escalated(Fees(buffer, 0), bump, k) == Ok(Fees(Grown(buffer, BufferBump(bump), k), 0))
  {
    GrownAtMost(buffer, BufferBump(bump), k);
    if k > 0 {
      BufferAloneGrows(buffer, bump, k - 1);
      ReplacedWithoutTip(Grown(buffer, BufferBump(bump), k - 1), bump);
    }
  }

  /** The base fee of the failing half: it rises exactly and its quotes are far from overflowing. */
  lemma Witness(k: nat) returns (base: nat)
    requires k < MAX_ATTEMPTS
    ensures base >= 1 && Doubled(2 * base, k) <= ROOM
    ensures base >= BASIS_POINTS * Pow(MAX_BASE_FEE_GROWTH_BPS, k)
    ensures Risen(base, k) * Pow(BASIS_POINTS, k) == base * Pow(MAX_BASE_FEE_GROWTH_BPS, k)
  {
    var unit := BASIS_POINTS * Pow(MAX_BASE_FEE_GROWTH_BPS, k);
    PowPositive(MAX_BASE_FEE_GROWTH_BPS, k);
    PowPositive(8, k);
    MulMonotone(1, Pow(8, k), unit);
    base := unit * Pow(8, k);
    WitnessFits(k);
    DoubledIsProduct(2 * base, k);
    ExactRise(unit, k);
  }

  lemma WitnessFits(k: nat)
    requires k < MAX_ATTEMPTS
    ensures 2 * (BASIS_POINTS * Pow(MAX_BASE_FEE_GROWTH_BPS, k) * Pow(8, k)) * Pow(2, k) <= ROOM
  {
    PowOfProduct(MAX_BASE_FEE_GROWTH_BPS, 8, k);
    PowOfProduct(MAX_BASE_FEE_GROWTH_BPS * 8, 2, k);
    PowLonger(MAX_BASE_FEE_GROWTH_BPS * 8 * 2, k, MAX_ATTEMPTS - 1);
    assert Pow(180_000, 4) == 1_049_760_000_000_000_000_000;
    assert Pow(180_000, 9) <= 1_000_000_000_000_000_000_000_000_000_000_000_000_000_000_000_000;
    Regroup(BASIS_POINTS, Pow(MAX_BASE_FEE_GROWTH_BPS, k), Pow(8, k));
    Regroup(2 * BASIS_POINTS, Pow(MAX_BASE_FEE_GROWTH_BPS * 8, k), Pow(2, k));
  }

  lemma {:induction false} QuoteWithoutTip(config: FeesConfig, base: U256, k: nat)
    requires AcceptedAutomatic(config) && config.multiplier == BASIS_POINTS
    requires base >= 1 && Doubled(2 * base, k) <= ROOM
    ensures ReplacedQuote(config, base, 0, k).Some?
    ensures ReplacedQuote(config, base, 0, k).value.maxFee == Grown(2 * base, BufferBump(config.bump), k)
    ensures ReplacedQuote(config, base, 0, k).value.priorityFee == 0
  {
    assert FirstQuote(config, base, 0) == Some(Fees(2 * base, 0));
    BufferAloneGrows(2 * base, config.bump, k);
  }

  /** A base fee that is lost to `k` full blocks when the rate is not enough. */
  lemma NotEnoughFallsBehind(config: FeesConfig, k: nat) returns (base: U256)
    requires AcceptedAutomatic(config) && config.multiplier == BASIS_POINTS
    requires k < MAX_ATTEMPTS && !Enough(BufferBump(config.bump), k)
    ensures base >= 1 && !KeepsUp(config, base, 0, FullBlocks(k))
  {
    base := Witness(k);
    QuoteWithoutTip(config, base, k);
    TwiceTheBaseFeeFails(BufferBump(config.bump), k, base);
    FullBlocksRise(base, k);
  }

  /**
   * The exact promise of the automatic mode over the attempts that the loader accepts: it holds whenever twice
   * the compounded bump reaches 11250 basis points compounded, and without a markup only then.
   */
  lemma AutomaticCondition(config: FeesConfig, k: nat)
    requires AcceptedAutomatic(config) && k < MAX_ATTEMPTS
    ensures Enough(BufferBump(config.bump), k) ==> AlwaysKeepsUp(config, k)
    ensures config.multiplier == BASIS_POINTS ==>
              (AlwaysKeepsUp(config, k) <==> Enough(BufferBump(config.bump), k))
  {
    if Enough(BufferBump(config.bump), k) {
      forall base: U256, tip: U256, blocks: seq<Block> |
        base >= 1 && |blocks| == k && (forall block <- blocks :: ValidBlock(block))
        ensures KeepsUp(config, base, tip, blocks)
      {
        EnoughKeepsUp(config, base, tip, blocks);
      }
    } else if config.multiplier == BASIS_POINTS {
      var base := NotEnoughFallsBehind(config, k);
    }
  }

  /** What that means for the smallest bump: five replacements are enough for it, six are not. */
  lemma SmallestBump(k: nat)
    requires k < MAX_ATTEMPTS
    ensures Enough(BASIS_POINTS + 1, k) <==> k <= 5
  {
    if k == 0 {
      assert Enough(10_001, 0);
    } else if k == 1 {
      assert Enough(10_001, 1);
    } else if k == 2 {
      assert Enough(10_001, 2);
    } else if k == 3 {
      assert Enough(10_001, 3);
    } else if k == 4 {
      assert Enough(10_001, 4);
    } else if k == 5 {
      assert Enough(10_001, 5);
    } else if k == 6 {
      assert !Enough(10_001, 6);
    } else if k == 7 {
      assert !Enough(10_001, 7);
    } else if k == 8 {
      assert !Enough(10_001, 8);
    } else if k == 9 {
      assert !Enough(10_001, 9);
    }
  }

  /**
   * Every accepted automatic configuration keeps up for at most six attempts, which include the default of
   * three and the fixed three of native transfers; the smallest bump without a markup does so for no more.
   */
  lemma SixAttemptsAreSafe(config: FeesConfig, k: nat)
    requires AcceptedAutomatic(config) && k < MAX_ATTEMPTS
    ensures k <= 5 ==> AlwaysKeepsUp(config, k)
    ensures config.bump == BASIS_POINTS + 1 && config.multiplier == BASIS_POINTS ==>
              (AlwaysKeepsUp(config, k) <==> k <= 5)
  {
    SmallestBump(k);
    PowGrows(BASIS_POINTS + 1, BufferBump(config.bump), k);
    AutomaticCondition(config, k);
  }

  /**
   * A chain whose base fee is zero leaves the automatic quote no buffer at all, whatever the configuration:
   * it keeps up exactly as long as the base fee stays zero, and the first full block ends that.
   */
  lemma {:induction false} ZeroBaseFeeLeavesNoBuffer(config: FeesConfig, tip: U256, blocks: seq<Block>)
    requires AcceptedAutomatic(config) && forall block <- blocks :: ValidBlock(block)
    requires ReplacedQuote(config, 0, tip, |blocks|).Some?
    ensures KeepsUp(config, 0, tip, blocks) <==> BaseFeeAfter(0, blocks) == 0
    ensures blocks != [] ==> BaseFeeAfter(0, FullBlocks(|blocks|)) >= 1
  {
    CapEqualsTip(config, tip, |blocks|);
    FullBlocksRise(0, |blocks|);
  }

  lemma {:induction false} CapEqualsTip(config: FeesConfig, tip: U256, k: nat)
    requires AcceptedAutomatic(config)
    ensures match ReplacedQuote(config, 0, tip, k) {
      case None => true
      case Some(last) => last.maxFee == last.priorityFee
    }
  {
    if ReplacedQuote(config, 0, tip, k).Some? {
      var buffer := BufferOfReplacement(config, 0, tip, k);
      NothingGrows(BufferBump(config.bump), k);
    }
  }

  lemma {:induction false} NothingGrows(bps: nat, k: nat)
    ensures Grown(0, bps, k) == 0
  {
    if k > 0 {
      NothingGrows(bps, k - 1);
    }
  }
}
