/** Waiting until any one of several same-nonce transactions is mined, or a deadline passes. */
module ReceiptPolling {
  import opened Words
  import opened Transactions

  datatype Policy = Policy(timeoutSeconds: U64, initialDelayMs: U64, maximumDelayMs: U64)

  /**
   * Everything the polling loop does not control: the node's answer to poll `i` of round `r`, the time a
   * round takes, how late a sleep wakes up, and the range of the platform timer. Times are milliseconds.
   */
  datatype Environment = Environment(
    start: nat, timerRange: nat, answer: (nat, nat) -> PollReply, busy: nat -> nat, late: nat -> nat)

  const MINIMUM_DELAY_MS: nat := 50

  /** The node said something definite about hash `i` in round `r`. */
  function Polled(env: Environment, hashes: seq<Hash>, r: nat, i: nat): Result<Option<Receipt>, ChainError>
    requires i < |hashes|
  {
    TransactionReceipt(env.answer(r, i), hashes[i])
  }

  /** Poll `i` of round `r` neither found a receipt nor failed for a reason other than rate limiting. */
  predicate Passed(env: Environment, hashes: seq<Hash>, r: nat, i: nat)
    requires i < |hashes|
  {
    Polled(env, hashes, r, i) == Ok(None) || Polled(env, hashes, r, i) == Err(RateLimited)
  }

  ghost predicate RoundPassed(env: Environment, hashes: seq<Hash>, r: nat, upTo: nat)
    requires upTo <= |hashes|
  {
    forall i: nat :: i < upTo ==> Passed(env, hashes, r, i)
  }

  ghost predicate RoundsPassed(env: Environment, hashes: seq<Hash>, rounds: nat) {
    forall r: nat :: r < rounds ==> RoundPassed(env, hashes, r, |hashes|)
  }

  /** Some poll of the first `rounds` rounds, or of the first `upTo` of the next, was answered "not mined". */
  ghost predicate Heard(env: Environment, hashes: seq<Hash>, rounds: nat, upTo: nat)
    requires upTo <= |hashes|
  {
    || (exists r: nat, i: nat :: r < rounds && i < |hashes| && Polled(env, hashes, r, i) == Ok(None))
    || (exists i: nat :: i < upTo && Polled(env, hashes, rounds, i) == Ok(None))
  }

  /** The poll that decided the result: all before it passed. */
  ghost predicate DecidedAt(env: Environment, hashes: seq<Hash>, rounds: nat, i: nat)
  {
    && i < |hashes|
    && RoundsPassed(env, hashes, rounds)
    && RoundPassed(env, hashes, rounds, i)
    && !Passed(env, hashes, rounds, i)
  }

  /** A finished round counts the same whether it is seen as the current one or as a past one. */
  lemma HeardRound(env: Environment, hashes: seq<Hash>, round: nat)
    ensures Heard(env, hashes, round, |hashes|) <==> Heard(env, hashes, round + 1, 0)
  {
    if Heard(env, hashes, round, |hashes|) && exists i: nat :: i < |hashes| && Polled(env, hashes, round, i) == Ok(None) {
      var i: nat :| i < |hashes| && Polled(env, hashes, round, i) == Ok(None);
      assert round < round + 1;
    }
  }

  /** When every poll of finished rounds passed and nothing was heard, all of them were rate limited. */
  lemma NothingHeard(env: Environment, hashes: seq<Hash>, rounds: nat, r: nat, i: nat)
    requires RoundsPassed(env, hashes, rounds) && !Heard(env, hashes, rounds, 0)
    requires r < rounds && i < |hashes|
    ensures Polled(env, hashes, r, i) == Err(RateLimited)
  {
    assert RoundPassed(env, hashes, r, |hashes|);
    assert Passed(env, hashes, r, i);
  }

  /** Polls every hash once; stops at a receipt, or at an error other than rate limiting. */
  method PollRound(hashes: seq<Hash>, env: Environment, round: nat, heard: bool, limited: bool)
    returns (decision: Option<Result<(nat, Receipt), ChainError>>, receivedResponse: bool, rateLimited: bool)
    requires hashes != [] && RoundsPassed(env, hashes, round)
    requires heard <==> Heard(env, hashes, round, 0)
    ensures decision.None? ==>
              && RoundsPassed(env, hashes, round + 1)
              && (receivedResponse <==> Heard(env, hashes, round + 1, 0)) && (receivedResponse || rateLimited)
    ensures decision.Some? && decision.value.Ok? ==>
              var (i, receipt) := decision.value.value;
              DecidedAt(env, hashes, round, i) && receipt.hash == hashes[i] && Polled(env, hashes, round, i) == Ok(Some(receipt))
    ensures decision.Some? && decision.value.Err? ==>
              && decision.value.error != RateLimited
              && exists i: nat :: DecidedAt(env, hashes, round, i) && Polled(env, hashes, round, i) == Err(decision.value.error)
  {
    receivedResponse, rateLimited := heard, limited;
    var index := 0;
    while index < |hashes|
      invariant index <= |hashes|
      invariant RoundPassed(env, hashes, round, index)
      invariant receivedResponse <==> Heard(env, hashes, round, index)
      invariant index >= 1 && !receivedResponse ==> rateLimited
    {
      match TransactionReceipt(env.answer(round, index), hashes[index]) {
        case Ok(Some(receipt)) =>
          assert !Passed(env, hashes, round, index);
          return Some(Ok((index, receipt))), receivedResponse, rateLimited;
        case Ok(None) =>
          assert Polled(env, hashes, round, index) == Ok(None);
          receivedResponse := true;
        case Err(error) =>
          if error == RateLimited {
            rateLimited := true;
            assert Polled(env, hashes, round, index) == Err(RateLimited);
          } else {
            assert !Passed(env, hashes, round, index);
            assert DecidedAt(env, hashes, round, index);
            return Some(Err(error)), receivedResponse, rateLimited;
          }
      }
      index := index + 1;
    }
    HeardRound(env, hashes, round);
    return None, receivedResponse, rateLimited;
  }

  method WaitForAnyReceipt(hashes: seq<Hash>, policy: Policy, env: Environment)
    returns (result: Result<Option<(nat, Receipt)>, ChainError>, ghost rounds: nat, ghost end: nat)
    ensures hashes == [] ==> result == Err(InvalidResponse)
    ensures hashes != [] && env.start + 1000 * policy.timeoutSeconds > env.timerRange ==>
              result == Err(PollingTimeoutOutOfRange)
    // A receipt belongs to the hash at the returned position, and is the first thing the node reported.
    ensures result.Ok? && result.value.Some? ==>
              var (i, receipt) := result.value.value;
              && DecidedAt(env, hashes, rounds, i)
              && receipt.hash == hashes[i]
              && Polled(env, hashes, rounds, i) == Ok(Some(receipt))
    // Giving up means: the deadline passed, every hash was polled, none was mined, and the node said so at least once.
    ensures result == Ok(None) ==>
              && hashes != [] && rounds >= 1 && end >= env.start + 1000 * policy.timeoutSeconds
              && RoundsPassed(env, hashes, rounds) && Heard(env, hashes, rounds, 0)
    ensures result == Err(RateLimited) && hashes != [] ==>
              && rounds >= 1 && end >= env.start + 1000 * policy.timeoutSeconds
              && forall r: nat, i: nat :: r < rounds && i < |hashes| ==> Polled(env, hashes, r, i) == Err(RateLimited)
    ensures result.Err? && result.error != RateLimited && hashes != []
            && env.start + 1000 * policy.timeoutSeconds <= env.timerRange ==>
              exists i: nat :: DecidedAt(env, hashes, rounds, i) && Polled(env, hashes, rounds, i) == Err(result.error)
    // The delays are long enough to bound the number of polling rounds by the timeout alone.
    ensures rounds >= 2 ==> MINIMUM_DELAY_MS * (rounds - 2) < 1000 * policy.timeoutSeconds
  {
    rounds, end := 0, env.start;
    if hashes == [] {
      return Err(InvalidResponse), rounds, end;
    }
    var deadline := env.start + 1000 * policy.timeoutSeconds;
    if deadline > env.timerRange {
      return Err(PollingTimeoutOutOfRange), rounds, end;
    }
    var delayMs := if policy.initialDelayMs < MINIMUM_DELAY_MS then MINIMUM_DELAY_MS else policy.initialDelayMs;
    var receivedResponse, rateLimited := false, false;
    var now, round := env.start, 0;
    while true
      invariant delayMs >= MINIMUM_DELAY_MS
      invariant now >= deadline || now >= env.start + MINIMUM_DELAY_MS * round
      invariant round >= 1 ==> MINIMUM_DELAY_MS * (round - 1) < 1000 * policy.timeoutSeconds
      invariant RoundsPassed(env, hashes, round)
      invariant receivedResponse <==> Heard(env, hashes, round, 0)
      decreases deadline - now
    {
      var decision;
      decision, receivedResponse, rateLimited := PollRound(hashes, env, round, receivedResponse, rateLimited);
      if decision.Some? {
        match decision.value {
          case Ok(found) => return Ok(Some(found)), round, now;
          case Err(error) => return Err(error), round, now;
        }
      }
      now := now + env.busy(round);
      round := round + 1;
      if now >= deadline {
        rounds, end := round, now;
        if receivedResponse {
          return Ok(None), rounds, end;
        }
        forall r: nat, i: nat | r < rounds && i < |hashes|
          ensures Polled(env, hashes, r, i) == Err(RateLimited)
        {
          NothingHeard(env, hashes, rounds, r, i);
        }
        return Err(if rateLimited then RateLimited else InvalidResponse), rounds, end;
      }
      var sleep := if delayMs < deadline - now then delayMs else deadline - now;
      now := now + sleep + env.late(round - 1);
      var ceiling := if policy.maximumDelayMs < MINIMUM_DELAY_MS then MINIMUM_DELAY_MS else policy.maximumDelayMs;
      delayMs := if 2 * delayMs < ceiling then 2 * delayMs else ceiling;
    }
  }
}
