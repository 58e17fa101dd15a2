/** EIP-1559 fee pricing: the initial quote, the same-nonce replacement, and the predicted last attempt. */
module FeePolicy {
  import opened Words

  const BASIS_POINTS: nat := 10_000
  const MAX_BASE_FEE_GROWTH_BPS: nat := 11_250

  datatype Fees = Fees(maxFee: U256, priorityFee: U256)

  datatype FeeError = InvalidMultiplier | Overflow

  datatype FeeMode = Automatic | Manual(fees: Fees)

  datatype FeesConfig = FeesConfig(mode: FeeMode, bump: U32, multiplier: U32)

  /** The ranges that the configuration loader accepts. */
  predicate ValidFeesConfig(config: FeesConfig) {
    && BASIS_POINTS < config.bump <= 20_000
    && BASIS_POINTS <= config.multiplier <= 50_000
    && (config.mode.Manual? ==> config.mode.fees.maxFee >= config.mode.fees.priorityFee)
  }

  predicate ValidPolicy(multiplier: U32, bump: U32) {
    multiplier >= BASIS_POINTS && bump > BASIS_POINTS
  }

  // ---------------------------------------------------------------- one step

  /** Scales `value` by `bps` ten-thousandths, rounding up, with 256-bit overflow detected before the division. */
  function MultiplyCeil(value: U256, bps: U32): (r: Result<U256, FeeError>)
    ensures r.Ok? <==> value * bps + BASIS_POINTS - 1 <= MAX_U256
    ensures r.Ok? ==> value * bps <= r.value * BASIS_POINTS < value * bps + BASIS_POINTS
    ensures r.Err? ==> r.error == Overflow
  {
    if value * bps > MAX_U256 then Err(Overflow)
    else if value * bps + (BASIS_POINTS - 1) > MAX_U256 then Err(Overflow)
    else Ok((value * bps + (BASIS_POINTS - 1)) / BASIS_POINTS)
  }

  function InitialFees(estimate: Fees, multiplier: U32): Result<Fees, FeeError> {
    match MultiplyCeil(estimate.maxFee, multiplier)
    case Err(e) => Err(e)
    case Ok(maxFee) =>
      match MultiplyCeil(estimate.priorityFee, multiplier)
      case Err(e) => Err(e)
      case Ok(priorityFee) => Ok(Fees(maxFee, priorityFee))
  }

  function InitialTransactionFees(config: FeesConfig, estimate: Fees): Result<Fees, FeeError> {
    match config.mode
    case Manual(fees) => Ok(fees)
    case Automatic =>
      if !ValidPolicy(config.multiplier, config.bump) then Err(InvalidMultiplier)
      else InitialFees(estimate, config.multiplier)
  }

  function BufferBump(bump: nat): nat {
    if bump < MAX_BASE_FEE_GROWTH_BPS then bump else MAX_BASE_FEE_GROWTH_BPS
  }

  /** The tip grows at the configured rate, the buffer above it at no more than the protocol's base-fee rate. */
  function Replacement(pending: Fees, bump: U32): (r: Result<Fees, FeeError>)
    ensures r.Ok? ==> pending.maxFee >= pending.priorityFee && r.value.maxFee >= r.value.priorityFee
  {
    match MultiplyCeil(pending.priorityFee, bump)
    case Err(e) => Err(e)
    case Ok(tip) =>
      if pending.maxFee < pending.priorityFee then Err(Overflow)
      else
        match MultiplyCeil(pending.maxFee - pending.priorityFee, BufferBump(bump))
        case Err(e) => Err(e)
        case Ok(buffer) => if tip + buffer > MAX_U256 then Err(Overflow) else Ok(Fees(tip + buffer, tip))
  }

  /** Scaling up by at least one never loses value, and gains at least one when the factor exceeds one. */
  lemma MultiplyCeilGrows(value: U256, bps: U32)
    requires bps >= BASIS_POINTS && MultiplyCeil(value, bps).Ok?
    ensures MultiplyCeil(value, bps).value >= value
    ensures bps > BASIS_POINTS && value > 0 ==> MultiplyCeil(value, bps).value > value
  {
    MulMonotone(BASIS_POINTS, bps, value);
    if bps > BASIS_POINTS {
      MulMonotone(BASIS_POINTS + 1, bps, value);
    }
  }

  /** A replacement outbids what it replaces in both fields, strictly in the tip and in the buffer unless zero. */
  lemma {:induction false} ReplacementOutbids(pending: Fees, bump: U32)
    requires bump > BASIS_POINTS && Replacement(pending, bump).Ok?
    ensures var next := Replacement(pending, bump).value;
            && next.priorityFee >= pending.priorityFee
            && next.maxFee >= pending.maxFee
            && next.maxFee - next.priorityFee >= pending.maxFee - pending.priorityFee
            && (pending.priorityFee > 0 ==> next.priorityFee > pending.priorityFee)
            && (pending.maxFee > 0 ==> next.maxFee > pending.maxFee)
  {
    MultiplyCeilGrows(pending.priorityFee, bump);
    MultiplyCeilGrows(pending.maxFee - pending.priorityFee, BufferBump(bump));
  }

  lemma MultiplyCeilMonotone(low: U256, high: U256, bps: U32)
    requires low <= high && MultiplyCeil(high, bps).Ok? && MultiplyCeil(low, bps).Ok?
    ensures MultiplyCeil(low, bps).value <= MultiplyCeil(high, bps).value
  {
    MulMonotone(low, high, bps);
  }

  /** The first quote keeps the fee cap above the tip whenever the estimate or the manual setting does. */
  lemma {:induction false} InitialFeesCoverTip(config: FeesConfig, estimate: Fees)
    requires ValidFeesConfig(config)
    requires estimate.maxFee >= estimate.priorityFee
    requires InitialTransactionFees(config, estimate).Ok?
    ensures var fees := InitialTransactionFees(config, estimate).value; fees.maxFee >= fees.priorityFee
  {
    if config.mode.Automatic? {
      MultiplyCeilMonotone(estimate.priorityFee, estimate.maxFee, config.multiplier);
    }
  }

  // ------------------------------------------------------- the whole schedule

  /** The fees after `k` replacements. */
  function Escalated(fees: Fees, bump: U32, k: nat): Result<Fees, FeeError> {
    if k == 0 then Ok(fees)
    else
      match Escalated(fees, bump, k - 1)
      case Err(e) => Err(e)
      case Ok(previous) => Replacement(previous, bump)
  }

  function MaximumFees(config: FeesConfig, attempts: U32, fees: Fees): Result<Fees, FeeError> {
    if config.bump <= BASIS_POINTS then Err(InvalidMultiplier)
    else Escalated(fees, config.bump, SaturatingSub(attempts, 1))
  }

  method MaximumTransactionFees(config: FeesConfig, attempts: U32, initial: Fees) returns (r: Result<Fees, FeeError>)
    ensures r == MaximumFees(config, attempts, initial)
  {
    if !ValidPolicy(BASIS_POINTS, config.bump) {
      return Err(InvalidMultiplier);
    }
    var fees := initial;
    var attempt := 1;
    while attempt < attempts
      invariant 1 <= attempt && (attempt <= attempts || attempt == 1)
      invariant Escalated(initial, config.bump, attempt - 1) == Ok(fees)
    {
      var next := Replacement(fees, config.bump);
      if next.Err? {
        EscalatedFails(initial, config.bump, attempt, attempts - 1);
        return Err(next.error);
      }
      fees := next.value;
      attempt := attempt + 1;
    }
    return Ok(fees);
  }

  /** Once a replacement overflows, every longer schedule reports the same error. */
  lemma {:induction false} EscalatedFails(fees: Fees, bump: U32, k: nat, n: nat)
    requires k <= n && Escalated(fees, bump, k).Err?
    ensures Escalated(fees, bump, n) == Err(Escalated(fees, bump, k).error)
    decreases n
  {
    if k < n {
      EscalatedFails(fees, bump, k, n - 1);
    }
  }

  /** The prediction bounds every earlier attempt: a shorter schedule exists and is below it in both fields. */
  lemma {:induction false} EscalatedBelow(fees: Fees, bump: U32, k: nat, n: nat)
    requires k <= n && bump > BASIS_POINTS
    requires Escalated(fees, bump, n).Ok?
    ensures Escalated(fees, bump, k).Ok?
    ensures var early, late := Escalated(fees, bump, k).value, Escalated(fees, bump, n).value;
            early.maxFee <= late.maxFee && early.priorityFee <= late.priorityFee
    decreases n
  {
    if k < n {
      EscalatedBelow(fees, bump, k, n - 1);
      ReplacementOutbids(Escalated(fees, bump, n - 1).value, bump);
    }
  }

  /** Every attempt within the predicted number can be priced, and stays below the predicted maximum. */
  lemma PredictionPricesEarlier(config: FeesConfig, attempts: U32, fees: Fees, k: nat)
    requires MaximumFees(config, attempts, fees).Ok? && k < attempts
    ensures Escalated(fees, config.bump, k).Ok?
    ensures Escalated(fees, config.bump, k).value.maxFee <= MaximumFees(config, attempts, fees).value.maxFee
    ensures Escalated(fees, config.bump, k).value.priorityFee <= MaximumFees(config, attempts, fees).value.priorityFee
  {
    EscalatedBelow(fees, config.bump, k, attempts - 1);
  }

  /** Each further replacement outbids every earlier attempt, strictly in any field that is not zero. */
  lemma {:induction false} EscalatedOutbids(fees: Fees, bump: U32, k: nat, n: nat)
    requires k < n && bump > BASIS_POINTS
    requires Escalated(fees, bump, n).Ok?
    ensures Escalated(fees, bump, k).Ok?
    ensures var early, late := Escalated(fees, bump, k).value, Escalated(fees, bump, n).value;
            && (early.maxFee > 0 ==> early.maxFee < late.maxFee)
            && (early.priorityFee > 0 ==> early.priorityFee < late.priorityFee)
  {
    EscalatedBelow(fees, bump, k, n);
    EscalatedBelow(fees, bump, k + 1, n);
    ReplacementOutbids(Escalated(fees, bump, k).value, bump);
  }

  /** The cap never falls below the tip, over any number of replacements. */
  lemma {:induction false} EscalatedCoversTip(fees: Fees, bump: U32, k: nat)
    requires fees.maxFee >= fees.priorityFee && Escalated(fees, bump, k).Ok?
    ensures var late := Escalated(fees, bump, k).value; late.maxFee >= late.priorityFee
  {
    if k > 0 {
      EscalatedCoversTip(fees, bump, k - 1);
    }
  }

  // ------------------------------------------------------------ growth bounds

  function Pow(b: nat, k: nat): nat {
    if k == 0 then 1 else b * Pow(b, k - 1)
  }

  /** `value` scaled up `k` times, each time rounded up to a whole wei, without a word size. */
  function Grown(value: nat, bps: nat, k: nat): nat {
    if k == 0 then value else (Grown(value, bps, k - 1) * bps + (BASIS_POINTS - 1)) / BASIS_POINTS
  }

  /** While nothing overflows, the tip and the buffer each grow on their own, rounded up once a step. */
  lemma {:induction false} EscalatedIsGrown(fees: Fees, bump: U32, k: nat)
    requires fees.maxFee >= fees.priorityFee && Escalated(fees, bump, k).Ok?
    ensures var late := Escalated(fees, bump, k).value;
            && late.priorityFee == Grown(fees.priorityFee, bump, k)
            && late.maxFee == late.priorityFee + Grown(fees.maxFee - fees.priorityFee, BufferBump(bump), k)
  {
    if k > 0 {
      EscalatedIsGrown(fees, bump, k - 1);
    }
  }

  /** Compound growth with rounding: never below the exact power, and above it by a bounded amount. */
  lemma {:induction false} GrownBounds(value: nat, bps: nat, k: nat)
    requires bps >= BASIS_POINTS
    ensures value * Pow(bps, k) <= Grown(value, bps, k) * Pow(BASIS_POINTS, k)
    ensures (bps - BASIS_POINTS) * (Grown(value, bps, k) * Pow(BASIS_POINTS, k) - value * Pow(bps, k))
            <= (BASIS_POINTS - 1) * (Pow(bps, k) - Pow(BASIS_POINTS, k))
  {
    if k > 0 {
      GrownBounds(value, bps, k - 1);
      CompoundStep(value, bps, Grown(value, bps, k - 1), Grown(value, bps, k), Pow(bps, k - 1), Pow(BASIS_POINTS, k - 1));
    }
  }

  lemma CompoundStep(value: nat, bps: nat, g: nat, next: nat, b: nat, p: nat)
    requires bps >= BASIS_POINTS
    requires g * bps <= next * BASIS_POINTS <= g * bps + (BASIS_POINTS - 1)
    requires value * b <= g * p
    requires (bps - BASIS_POINTS) * (g * p - value * b) <= (BASIS_POINTS - 1) * (b - p)
    ensures value * (bps * b) <= next * (BASIS_POINTS * p)
    ensures (bps - BASIS_POINTS) * (next * (BASIS_POINTS * p) - value * (bps * b))
            <= (BASIS_POINTS - 1) * (bps * b - BASIS_POINTS * p)
  {
    MulMonotone(g * bps, next * BASIS_POINTS, p);
    MulMonotone(next * BASIS_POINTS, g * bps + (BASIS_POINTS - 1), p);
    Regroup(g, bps, p);
    Regroup(value, bps, b);
    assert (g * bps + (BASIS_POINTS - 1)) * p == (g * bps) * p + (BASIS_POINTS - 1) * p;
    assert next * (BASIS_POINTS * p) == (next * BASIS_POINTS) * p;
    CombineExcess(bps - BASIS_POINTS, g * p, value * b, next * (BASIS_POINTS * p), b, p);
  }

  lemma Regroup(x: int, y: int, z: int)
    ensures (x * y) * z == y * (x * z) == x * (y * z)
  {
  }

  lemma CombineExcess(d: nat, x: int, v: int, n: int, b: int, p: int)
    requires v <= x && d * (x - v) <= (BASIS_POINTS - 1) * (b - p)
    requires (d + BASIS_POINTS) * x <= n <= (d + BASIS_POINTS) * x + (BASIS_POINTS - 1) * p
    ensures (d + BASIS_POINTS) * v <= n
    ensures d * (n - (d + BASIS_POINTS) * v) <= (BASIS_POINTS - 1) * ((d + BASIS_POINTS) * b - BASIS_POINTS * p)
  {
    var m := d + BASIS_POINTS;
    var gap := d * (x - v);
    assert m * x - m * v == m * (x - v);
    MulMonotone(0, x - v, m);
    MulMonotone(n - m * v, m * (x - v) + (BASIS_POINTS - 1) * p, d);
    Regroup(d, m, x - v);
    assert d * (m * (x - v) + (BASIS_POINTS - 1) * p) == m * gap + (BASIS_POINTS - 1) * (d * p);
    MulMonotone(gap, (BASIS_POINTS - 1) * (b - p), m);
    assert m * ((BASIS_POINTS - 1) * (b - p)) == (BASIS_POINTS - 1) * (m * b - m * p);
    assert d * p == m * p - BASIS_POINTS * p;
  }

  lemma MulMonotone(x: int, y: int, m: nat)
    requires x <= y
    ensures x * m <= y * m
  {
  }

  /** After k replacements the tip is the exact compound growth, up to a bounded rounding excess. */
  lemma {:induction false} TipGrowth(fees: Fees, bump: U32, k: nat)
    requires bump >= BASIS_POINTS && fees.maxFee >= fees.priorityFee
    requires Escalated(fees, bump, k).Ok?
    ensures var tip := Escalated(fees, bump, k).value.priorityFee;
            && fees.priorityFee * Pow(bump, k) <= tip * Pow(BASIS_POINTS, k)
            && (bump - BASIS_POINTS) * (tip * Pow(BASIS_POINTS, k) - fees.priorityFee * Pow(bump, k))
               <= (BASIS_POINTS - 1) * (Pow(bump, k) - Pow(BASIS_POINTS, k))
  {
    EscalatedIsGrown(fees, bump, k);
    GrownBounds(fees.priorityFee, bump, k);
  }
}
