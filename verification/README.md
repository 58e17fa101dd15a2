# Verified model of the mint scheduler and submitter

The program schedules NFT mint phases, prices and submits their transactions, replaces transactions that do not
land, funds and sweeps wallets, and executes sponsored EIP-7702 batches. This project models the parts of it that
decide something, and proves what every run of them keeps, whatever the RPC node, the chain, the clock and the
remote service do.

| file | part of the program |
|---|---|
| `FeePolicy`, `BaseFee`, `FeeRace` | EIP-1559 fee escalation, its prediction, and the race against the protocol's base fee |
| `Transactions`, `ReceiptPolling`, `Replacements` | transactions, node answers, receipt polling, and what every same-nonce replacement loop shares |
| `Transfers`, `Withdrawals`, `Funding` | native transfers, sweeping a wallet, funding a manifest of wallets |
| `MintSubmission`, `SelfFunded`, `Forwarding` | the two mint submission loops, and the self-funded run that forwards what it minted |
| `Lookup`, `Stages`, `Jobs`, `Launch`, `Session` | mint stages, phase jobs, the launch gates, and the scheduler as a state machine |
| `SponsoredGas`, `SponsoredBatch`, `Authorizations`, `Slots`, `Outcomes`, `MintedCount` | the sponsored batch: gas, calldata, authorization list, receipt |
| `Abi`, `AbiArrays`, `MintedAssets`, `NativeAmounts`, `DecimalPrices` | strict codecs |
| `Messages`, `Scoreboard`, `Sums`, `Sorting`, `Words` | message splitting, the endpoint scoreboard, and shared vocabulary |

## How the outside is modelled

- Machine words are bounded naturals (`U32`, `U64`, `U256`); checked arithmetic returns an explicit error, and the
  one place that wraps around is written with `%`.
- The node, the remote service, standard output and the clock are functions from a call number to an answer, so a
  theorem about a method holds for every sequence of answers. Loops that the program runs until something happens
  outside are bounded by a number of passes; the theorems hold for every such number, hence for every prefix of a run.
- Signing is a partial function from a transaction to a hash. Nothing is assumed about it.
- A broadcast that the node refuses for its rate limit is taken not to have been delivered.
- The scheduler reads one clock for monotonic time and wall time; readings never fail.
- Chain rules that the program relies on are written from their standards: the base fee update from the
  "Specification" section of EIP-1559, call gas from EIP-150, and the authorization list from the "Behavior" section
  of EIP-7702.

## Results that qualify what the program says about itself

- `src/domain/fees.rs` says that a replacement whose buffer growth is capped "can never fall behind the real base
  fee". With one replacement a block:
  - For automatic fees and a base fee of at least 1 wei, `FeeRace.AutomaticCondition` shows that k replacements keep up
    with every run of k blocks when 2 * b^k >= 11250^k, where b is the bump capped at 11250, and that without a markup
    on the estimate they do so only then, for every k that the loader's limit of ten attempts allows. Hence
    `FeeRace.SixAttemptsAreSafe`: every accepted bump is safe for up to six attempts (the default is three, and native
    transfers always use three), and at the smallest bump without a markup a seventh attempt can be lost.
  - With a base fee of 0 the automatic estimate leaves no buffer at all: `FeeRace.ZeroBaseFeeLeavesNoBuffer` shows that
    it keeps up exactly until the base fee leaves zero, whatever the configuration.
  - A manual fee may leave any buffer. From one that is not zero and covers the base fee, `BaseFee.DominanceCondition`
    shows that the promise holds exactly for bumps of at least 11250; the configuration accepts bumps down to 10001.
- A mint run that leaves a transaction pending stops the session, except when the signer or the output flush fails
  for a replacement: those errors are reported like failures before any broadcast. `MintSubmission.PendingStopsSession`
  and `Session.Session.Run` give the exact exception, and `MintSubmission.BrokenOutputLeavesPending` a run that meets it.
- The sponsored snipe path signs each wallet's authorization with the wallet's current nonce, also the sponsor's own,
  whose nonce the outer transaction uses up. `Authorizations.SnipeListDelegates` gives the exact condition under which
  a wallet is delegated after the whole list, and `Authorizations.SponsorStaysUndelegated` the case of the sponsor.

## Model

| member | source | states |
|---|---|---|
| FeePolicy.MultiplyCeil | src/domain/fees.rs:86-92 | the scaled value is the exact product rounded up to a whole wei, and it fails exactly when product plus rounding exceeds 256 bits |
| FeePolicy.ReplacementOutbids | src/domain/fees.rs:44-67 | a replacement is strictly above what it replaces in tip and cap unless they are zero, and its buffer never shrinks |
| FeePolicy.InitialFeesCoverTip | src/fee.rs:7-27 | a first quote from an accepted configuration keeps the cap at or above the tip |
| FeePolicy.MaximumTransactionFees | src/fee.rs:29-39 | the loop returns the fees after attempts minus one replacements, or the first overflow on the way |
| FeePolicy.EscalatedBelow | src/fee.rs:29-39 | if the predicted last attempt exists, every earlier attempt exists and is below it in both fields |
| FeePolicy.EscalatedOutbids | src/domain/fees.rs:44-67 | a later attempt of a schedule strictly outbids every earlier one in each nonzero field |
| FeePolicy.EscalatedCoversTip | src/domain/fees.rs:44-67 | the cap stays at or above the tip over any number of replacements |
| FeePolicy.EscalatedIsGrown | src/domain/fees.rs:44-67 | tip and buffer each follow their own compound growth, the buffer at the capped rate |
| FeePolicy.GrownBounds | src/domain/fees.rs:86-92 | k rounded-up steps stay between the exact power and that power plus an explicit rounding term |
| FeePolicy.TipGrowth | src/domain/fees.rs:44-67 | the tip after k replacements lies between the exact compound growth and that plus the rounding term |
| BaseFee.InitialBuffer | src/chain.rs:819-822 | the first automatic quote keeps two base fees above its tip, whatever the multiplier rounds |
| BaseFee.GrownDominates | src/domain/fees.rs:5-15 | a buffer that is not zero and starts at or above the base fee stays there for any blocks when it grows by at least 11250 basis points |
| BaseFee.ReplacementsOutrunBaseFee | src/domain/fees.rs:5-15 | with such a bump and a base fee of at least 1 an automatic cap after any number of replacements covers the tip on top of any base fee reachable in as many blocks |
| BaseFee.DominanceCondition | src/domain/fees.rs:5-15 | over all manual fees whose buffer is not zero and covers the base fee, and all runs of blocks, the promise holds if and only if the bump is at least 11250 |
| FeeRace.AutomaticCondition | src/domain/fees.rs:5-15 | over all base fees of at least 1, tips and runs of k blocks, k below the limit of ten attempts, automatic fees keep up if 2 * b^k >= 11250^k, and without a markup only if |
| FeeRace.SixAttemptsAreSafe | src/domain/fees.rs:5-15 | every accepted automatic configuration keeps up over at most five replacements; the smallest bump without a markup over no more |
| FeeRace.TwiceTheBaseFeeLasts | src/domain/fees.rs:44-67 | twice the base fee, grown and rounded up k times, is at least the base fee after k full blocks when the rate is enough, and below 8 wei at any rate |
| FeeRace.TwiceTheBaseFeeFails | src/domain/fees.rs:44-67 | when the rate is not enough no rounding rescues a large base fee that full blocks raise by exactly 9/8 |
| FeeRace.ZeroBaseFeeLeavesNoBuffer | src/chain.rs:819-822 | from a base fee of 0 every automatic configuration keeps up exactly as long as the base fee stays 0, which one full block ends |
| Transactions.Sign | src/transaction.rs:194-219 | a transaction is signed exactly when its cap is at least its tip, its gas limit and target are not zero, and the signer works |
| Transactions.TransactionReceipt | src/chain.rs:431-449 | a receipt is returned only for the hash that was asked for, and "not mined" only when the node said so |
| ReceiptPolling.WaitForAnyReceipt | src/chain.rs:451-494 | terminates, with at most two rounds more than the timeout holds 50 ms delays; a receipt carries the hash at the returned index and is the first decisive answer; giving up means every hash was polled, the deadline passed, and at least one definite "not mined" was heard |
| Replacements.ValueAtFee | src/funds.rs:188-201 | a sweep at a fee cap sends exactly what the gas reserve leaves, and fails exactly when nothing is left |
| Replacements.AttemptsWithinPrediction | src/funds.rs:811-894 | in every run, with any mix of rate limits, each attempt's fees and total cost stay within the prediction for the last attempt, and a sweep moves the whole balance |
| Replacements.DebitWithinPrediction | src/funds.rs:811-894 | whichever attempt is mined takes at most the fixed value and the gas at the predicted maximum |
| Replacements.LaterAttemptOutbids | src/funds.rs:811-894 | a later attempt repeats nonce, target and data, outbids each delivered one before it, and a sweep never sends more |
| Replacements.ThrottledRetriesAreIdentical | src/funds.rs:853-858 | after rate limits alone the very same transaction is sent again |
| Transfers.SubmitTransfer | src/funds.rs:811-894 | every run is a replacement chain of at most three attempts; each result says which broadcasts are settled, which hash is outstanding or uncertain, and a success carries the value of the attempt that was mined; with a reserve no run fails for fees, arithmetic or balance |
| Transfers.Settle | src/funds.rs:873-885 | a receipt is attributed to an accepted attempt with that hash and its value is found; the lookup that could miss it cannot |
| Transfers.ReservePricesEveryAttempt | src/funds.rs:722-787 | a balance above the reserve at the predicted maximum can price all three attempts |
| Withdrawals.BufferedGas | src/funds.rs:1176-1189 | the limit is at least a fifth and at least 5000 above the estimate; it fails exactly for zero or an estimate whose product overflows |
| Withdrawals.QuoteWithdrawal | src/funds.rs:722-787 | a quote means that the node accepted exactly the initial value, in one of the two calls that ask for it, within a gas limit that buffers an earlier call, and that the balance exceeds the worst-case reserve; the cases without one are characterised |
| Withdrawals.SweepWallet | src/funds.rs:722-894 | a sweep started from a quote never runs out of fees or balance, and on every attempt value plus gas limit times cap is the whole balance and the value is positive |
| Funding.FundingSubmission | src/funds.rs:1126-1145 | the submission keeps the account's nonce and never costs more than the balance; underfunding is reported only when it is real |
| Funding.CheckedSum | src/funds.rs:595-684 | the overflow-checked fold of the remaining gas limits is their sum, or an error exactly when that does not fit |
| Funding.SentIsAmountTimesSucceeded | src/funds.rs:595-684 | the value that reached wallets is the amount times the number of successes |
| Funding.ReserveLasts | src/funds.rs:595-684 | with stable fees and no outside debit, what the gate reserved still covers the remaining wallets after each transfer |
| Funding.RefreshPasses | src/funds.rs:595-684 | so the refreshed submission of an undisturbed run is never refused |
| Funding.NonceAdvances | src/funds.rs:595-684 | after an undisturbed transfer the node reports the nonce that the loop advances to |
| Funding.FundDirectly | src/funds.rs:513-684 | a completed run treats every wallet once, succeeded plus failed is the number of wallets, past the gate an undisturbed run is never stopped by balance, fees or payer code, and the local nonce matches the node's at every wallet |
| MintSubmission.FundingRequirement.Shortfall | src/multi_wallet.rs:196-208 | zero exactly when the balance covers value plus maximum gas, otherwise exactly what is missing |
| MintSubmission.GateCoversEveryAttempt | src/command.rs:1950-1973 | a mint that passed the gate can price every replacement, and the balance covers the cost of every attempt of every run |
| MintSubmission.PreparedMint.BroadcastAttempt | src/command.rs:2085-2123 | each error of the checks, the signature and the flush is tied to the event that caused it, and what is sent extends the replacement chain |
| MintSubmission.PreparedMint.SubmitReplacements | src/command.rs:2079-2158 | at most the configured attempts, each the same mint with escalated fees; the run ends with a receipt of one of its own transactions or with the exact event that stopped it; after the gate pricing never fails |
| MintSubmission.PendingStopsSession | src/command.rs:1668-1680 | a run that leaves a transaction pending ends in an error that stops the session, with exactly two exceptions |
| MintSubmission.BrokenOutputLeavesPending | src/command.rs:2198-2208 | the exception is reachable: a flush that fails at the second attempt leaves a pending transaction and lets the session continue |
| SelfFunded.SubmitWithReplacements | src/multi_mint.rs:1500-1553 | a replacement chain in which only the last broadcast can have an unknown fate; with a predicted maximum no run fails for a fee |
| Forwarding.GateReserves | src/multi_mint.rs:1324-1360 | passing the gate means that the balance covers the mint's value and, at the predicted maximum fee, the gas of the mint and of each transfer |
| Forwarding.ReserveLasts | src/multi_mint.rs:1417-1497 | with stable fees and no outside debit the wallet holds, before each leg, the leg's value and the gas of it and of all that follow |
| Forwarding.EveryLegIsCovered | src/multi_mint.rs:1417-1497 | so every attempt of the mint and of each transfer costs no more than the balance held before that leg |
| Forwarding.RunWallet | src/multi_mint.rs:1313-1497 | nothing is sent unless the gate passes; each leg starts after the one before is confirmed; success means the mint and one transfer for each asset are confirmed and the assets are exactly the ordered units; an undisturbed run never fails for a fee |
| Lookup.FindUniqueIsExact | src/command.rs:2345-2358 | taking the first match and looking for a second tells apart none, exactly one, and several |
| Stages.Timing | src/domain/timing.rs:19-28 | a window is immediate exactly from its start up to, not including, its end |
| Stages.DecodedStageSells | src/opensea.rs:1041-1068 | a decoded stage sells exactly the tokens between the bounds of its record, or token 0 in a single-token drop, and always some token |
| Stages.ValidateStageGroups | src/opensea.rs:1703-1721 | the nested loops accept exactly the lists whose stages of one index agree and have disjoint ranges |
| Stages.DecodeStages | src/opensea.rs:1037-1069 | accepts exactly the lists that decode stage by stage into a well-formed collection, and returns that collection |
| Stages.OneStagePerToken | src/opensea.rs:1703-1748 | in an accepted collection at most one stage of an index supports a token |
| Stages.SelectionIsNeverAmbiguous | src/command.rs:2261-2286 | the selection succeeds exactly when a stage matches, returns that stage, and never fails for ambiguity |
| Stages.MatchingOutcomes | src/command.rs:2345-2358 | one record with the stage's key is found, none and several are the two different errors |
| Stages.ValidateSnapshotShape | src/command.rs:2322-2343 | accepts exactly the snapshots in which every metadata stage has one matching record of the same sale and the counts agree |
| Stages.MatchingIsBijection | src/command.rs:2322-2358 | a validated snapshot pairs the stages of an accepted collection one to one with nothing left over |
| Stages.AvailableQuantity | src/command.rs:2415-2440 | a positive quantity is available if and only if it keeps the wallet within its total cap and its per-token cap, wherever the two caps come from |
| Stages.QualifyingIndicesDiffer | src/command.rs:2472-2501 | stages of an accepted collection that qualify for one sale have different indices |
| Stages.ValidateUnambiguousActiveStage | src/command.rs:2472-2501 | the test on the set of indices means: exactly one stage qualifies and it has the selected index; the error for an ended stage means that none qualifies |
| Jobs.RefreshNeverFails | src/command.rs:1538-1585 | over an accepted collection a validated snapshot gives every job a state |
| Jobs.RefreshJobStates | src/command.rs:1538-1585 | finished jobs are untouched, every other job takes the state of the snapshot, and it succeeds exactly for a snapshot of valid shape |
| Jobs.ActiveMeansOnSale | src/command.rs:1538-1595 | a refresh makes a job active exactly when its phase is offered, does not refuse the wallet, and sells the quantity of the token at that time |
| Jobs.NextScheduledIsEarliest | src/command.rs:1597-1605 | the scheduled job is a pending one with the earliest start, the first of them on a tie |
| Jobs.RunnableIsFirstOrEarliest | src/command.rs:1445-1459 | the runnable job is the first active one, else the earliest pending one whose wake time has come, and there is none exactly when neither exists |
| Jobs.ApplyJobOutcome | src/command.rs:1638-1666 | a success completes the job, a revert fails it, other errors suspend it, stopping errors change nothing, and only a success or a changed collection asks for a refresh; other jobs are untouched |
| Launch.ValidateMintLimits | src/command.rs:2442-2454 | passes exactly for a validated snapshot and a positive quantity that keeps the wallet within both caps of the stage's own record |
| Launch.PrepareLaunch | src/command.rs:1892-1948 | passes only when the launch snapshot still holds the job's own stage unchanged, and yields the price its record promises |
| Launch.RequestAction | src/command.rs:1831-1890 | an action is used only with the promised value and when the balance covers it |
| Launch.SubmitAction | src/command.rs:1812-1828 | every attempt of a funded action is covered by the captured balance, has its value and nonce, and a transaction stays pending without stopping the session only under a fault |
| Launch.ExecuteJob | src/command.rs:1697-1828 | nothing is broadcast unless the job's own stage is the only one that sells the quantity at the launch time, at the promised price, within the balance; the result explains every broadcast |
| Session.OutcomeIsVerdict | src/command.rs:1638-1666 | an execution finishes its job exactly when it has a receipt, with the state that the receipt says |
| Session.RecordExtends | src/command.rs:1410-1437 | running an unfinished job keeps the session's record: finished exactly with a receipt, at most one receipt a job |
| Session.Session.Refresh | src/command.rs:1385-1411 | a refresh replaces the snapshot and schedules the next one, a recoverable failure only delays it by at most a minute, and finished jobs stay as they are |
| Session.Session.WaitForScheduleProgress | src/command.rs:1461-1474 | after the wait a refresh is due or a job is runnable, and it never sleeps past the next refresh |
| Session.Session.RunJob | src/command.rs:1414-1438 | a job runs only while pending; its execution is recorded; an immediate refresh follows exactly a success or a changed collection; an error is one that must stop the session |
| Session.Session.Advance | src/command.rs:1380-1442 | one pass ends well exactly when every job is finished, refreshes only when due, runs only the runnable job and records it, and never waits when there is something to do |
| Session.Session.Run | src/command.rs:1356-1443 | over every run: each execution is settled before the next one starts, at most one receipt a job, finished jobs never change, success only when all jobs are finished, and never two waits in a row |
| SponsoredGas.LimitForWallets | src/sponsored.rs:406-432 | the step-by-step checked sum is the specified total, and overflow is reported exactly when the whole total does not fit |
| SponsoredGas.OuterGasLimit | src/sponsored.rs:344-358 | the exact limit is the specified total at 4 gas for a zero byte and 16 for any other |
| SponsoredGas.GasBoundChain | src/sponsored.rs:344-432 | exact limit at most the length bound at most the setup bound, also when setup counted more wallets or larger limits; and if the setup bound fits, so do the others |
| SponsoredGas.EveryWalletGetsItsLimit | contracts/src/SponsoredMintExecutor.sol:150-180 | in every run within the dispatch envelope each wallet passes the executor's check and gets its full limit under EIP-150, and the final reserve remains |
| SponsoredGas.CheckMeansFullLimit | contracts/src/SponsoredMintExecutor.sol:525-531 | after the executor's check the call cannot be clamped |
| SponsoredGas.ExactLimitSurvivesForwarding | src/sponsored.rs:406-432 | the exact outer limit pays for such a run including intrinsic gas, calldata, authorizations and entry |
| SponsoredBatch.LengthOfEncoding | src/sponsored.rs:319-342 | the calldata length depends only on the number of operations and their mint calldata lengths |
| SponsoredBatch.LengthWithinMaximum | src/sponsored.rs:20-21 | a valid batch stays within 100 fixed bytes and 16832 bytes an operation |
| SponsoredBatch.OffsetsLeadToOperations | src/sponsored.rs:37-55 | each offset word of the layout leads to the encoding of its operation |
| SponsoredBatch.EncodeValidated | src/sponsored.rs:319-342 | encodes exactly the batches with a valid identity, size and operations |
| SponsoredBatch.SigningKeepsShape | src/multi_mint.rs:2015-2031 | setting the deadline and signing changes neither lengths nor gas limits |
| SponsoredBatch.PrepareBatch | src/multi_mint.rs:1986-2043 | whatever the signers return, the gas bound is never exceeded by signing, and the sponsor's balance covers the exact limit at the predicted maximum fee |
| SponsoredBatch.BatchWithinSetup | src/multi_mint.rs:821-849 | a batch of wallets that setup counted needs no more gas than setup reserved |
| Authorizations.ExpectedIsDesignator | src/sponsored.rs:285-317 | code classifies as expected exactly when it is the delegate's designator |
| Authorizations.ListTakesEffect | src/multi_mint.rs:1885-1896 | processing the list after the sender's nonce went up gives every listed wallet whose tuple names its nonce the new delegate, unless that nonce is the last one, and leaves the others, also when wallets are listed more than once |
| Authorizations.PrepareBatchList | src/multi_mint.rs:1949-1995 | the batch holds exactly the selectable wallets, the list exactly the authorizations they need, and overflow is reported exactly for a wallet without a next nonce |
| Authorizations.EveryOperationIsDelegated | src/multi_mint.rs:2129-2158 | with the state as captured every operation's wallet classifies as expected if and only if it needs no authorization or its nonce is not the last; the sponsor may be one of them |
| Authorizations.PrepareRevocations | src/multi_mint.rs:2270-2314 | the list holds exactly the wallets with a delegation |
| Authorizations.EveryDelegationIsCleared | src/multi_mint.rs:2270-2314 | after the revocation list a wallet is clear if and only if it had no other code and its nonce was not the last |
| Authorizations.LoadManifest | src/multi_wallet.rs:107-123 | accepts exactly a nonempty manifest of usable entries with different addresses, in order |
| Authorizations.PrepareSnipeList | src/sponsored_snipe.rs:285-312 | the list holds exactly the authorizations of the wallets that are not delegated as expected, each with the wallet's current nonce |
| Authorizations.SnipeListDelegates | src/sponsored_snipe.rs:285-312 | after the whole list a wallet is delegated if and only if it already was, or it is not the sponsor, has no other code and has a nonce left; wallets may be listed more than once |
| Authorizations.SponsorStaysUndelegated | src/sponsored_snipe.rs:285-312 | a sponsor that mints with its own wallet is not delegated by the list, wherever it stands in it |
| Outcomes.DecodeReportIsExact | src/multi_mint.rs:2480-2513 | a log of the executor decodes exactly when it is byte for byte the report of that outcome |
| Outcomes.DecodeSponsoredOutcomes | src/multi_mint.rs:2465-2519 | accepts exactly the receipts that hold one report for each operation and nothing else from the executor, and returns outcome i for operation i |
| Outcomes.OrderDoesNotMatter | src/multi_mint.rs:2465-2519 | every permutation of the logs decodes to the same outcomes, and to no others |
| MintedCount.CountMintedUnits | src/sponsored_snipe.rs:597-622 | the loop computes the sum of the units of all logs modulo 64 bits and the number of failures |
| MintedCount.CountersAgree | src/sponsored_snipe.rs:597-622 | on every receipt that the strict decoder accepts these are the units of the successful outcomes and the number of failed ones |
| MintedCount.ReadBothWays | src/sponsored_snipe.rs:597-622 | reading one receipt both ways gives the same answer exactly when the units fit 64 bits |
| MintedCount.CountIsOrdered | src/sponsored_snipe.rs:538-543 | with the map that the path builds the units counted are what the successful operations ordered, also when a wallet is named more than once |
| Abi.ReadWritten | src/nft.rs:215-227 | a number written big-endian in a width it fits is read back |
| Abi.WriteRead | src/nft.rs:215-227 | bytes are the one representation of the number they hold |
| Abi.AbiU64IsExact | src/multi_mint.rs:2536-2544 | a whole word reads as a 64-bit number exactly when it is that number's canonical word |
| AbiArrays.DecodesExactlyTheCanonical | src/nft.rs:166-213 | accepts exactly the canonical encodings of two equally long arrays of 1 to 1024 words, and returns their pairs |
| MintedAssets.ValidateMintedAssets | src/nft.rs:106-138 | passes exactly for the expected token only, no empty transfer, and exactly the expected units |
| MintedAssets.ExtractMintedAssets | src/nft.rs:29-91 | succeeds exactly when the receipt delivers at most 1024 transfers that are the mint, and the units it returns sum to the expected units |
| NativeAmounts.ParseReadsMeaning | src/funds.rs:1241-1269 | digits with up to 18 fraction digits are read as exactly their value in wei; zero and what exceeds 256 bits are refused |
| NativeAmounts.ParseAcceptsOnlyPlain | src/funds.rs:1241-1269 | nothing but such a text between white space is accepted |
| NativeAmounts.RoundTrip | src/funds.rs:75-86 | parsing the display of any amount from 1 to 2^256 - 1 gives the amount back |
| NativeAmounts.DisplayIsTheCanonicalForm | src/funds.rs:75-86 | display after parse reproduces a text if and only if it is canonical: no leading zero, no trailing zero |
| DecimalPrices.CheckedPowerOfTen | src/opensea.rs:1634-1640 | the checked product is the power of ten, and fails exactly when that exceeds 256 bits |
| DecimalPrices.ShiftedIsExact | src/opensea.rs:1619-1631 | a result is exact, and for a positive coefficient every exact result that fits is accepted |
| DecimalPrices.PricesAreExact | src/opensea.rs:1591-1632 | with any exponent the parser never rounds, and for a positive coefficient that fits it accepts exactly the prices that are whole wei and fit |
| DecimalPrices.PriceReadsMeaning | src/opensea.rs:1591-1632 | on a plain decimal text it reads the same meaning, zero included |
| DecimalPrices.ParsersAgree | src/opensea.rs:1591-1632 | on a plain decimal text the two parsers give the same result if and only if its value is not zero |
| Messages.CutLine | src/bot.rs:1916-1934 | an oversized line is cut into full pieces and a nonempty rest that together are the line |
| Messages.SplitMessage | src/bot.rs:1900-1948 | the chunks concatenate to the text, none exceeds 3500 characters, none is empty unless the text is, and no cut is inside a line that fits |
| Scoreboard.Record | src/blast.rs:265-286 | counting one result keeps one entry for each endpoint seen, with exact sums |
| Scoreboard.TotalAttempts | src/blast.rs:261-290 | the attempts of all entries together are the number of results |
| Scoreboard.EndpointScoreboard | src/blast.rs:261-290 | labels are unique and are those that occur, each entry's attempts, acceptances and latency are the exact sums, the total is all results, and entries are sorted by mean latency |
| Sorting.SortIsStable | src/blast.rs:288-288 | the sort keeps the order of entries with equal means |

## Left out

- HTTP, JSON, GraphQL, cookies, sign-in, Telegram, terminal prompts and logging: they appear only as answers from outside.
- Cryptography: key derivation, signatures and hashes of events are parameters; that a signature recovers its wallet is part of the signer.
- Calldata floor pricing of EIP-7623, which the program does not compute.
- Waiting until a hot path opens, and the retries of the calldata request: only the last answer and the final check of the price are modelled.
- The bot wizard, the assistant, the configuration loader, the SeaDrop reads, the executor deployment and the simpler sweep and snipe dispatch code.
- Forwarding.RunWallet: the wallets of a run are independent, so one is modelled; the concurrency, the counters, and the abort of the whole run when a wallet cannot be priced are not, and the bytes of a transfer's calldata are a parameter.
- Atomic Multicall3 funding and the counters of the withdrawal loop around a single sweep.
- MintSubmission.PreparedMint.SubmitReplacements: the hashes listed in error texts are not modelled, only which event ended the run.
- Transfers.SubmitTransfer: retry delays between rate-limited attempts are not modelled.
- ReceiptPolling.WaitForAnyReceipt: the doubling of a delay does not saturate at 64 bits, where it would first exceed the configured maximum.
- Funding.FundDirectly: gas estimation and the user's confirmation before the refreshed gate are not modelled, and the totals are checked in one place.
- Session.Session.Run: the identity of a collection is compared through one flag for addresses and network; reports to the user are left out, and one clock stands for both of the program's.
- Jobs.RefreshJobStates: the texts of suspension reasons are an enumeration, and token identifiers are numbers, as validated when jobs are built.
- Launch.ExecuteJob: authentication before the launch snapshot is one of the snapshot's errors.
- Stages.DecodeStages: a time is its text, which is compared, together with what that text reads as; parsing the text is not part of this model.
- SponsoredBatch.EncodeValidated: the three errors of an invalid identity are one, and the four selector bytes are a parameter.
- SponsoredGas.EveryWalletGetsItsLimit: the envelope of 30000 gas of dispatch for each operation, and of 100000 for entering the executor, is a hypothesis; the executor's own cost is not computed.
- Authorizations.EveryOperationIsDelegated: accounts are as captured when the transaction is included, and the transaction is valid.
- AbiArrays.DecodesExactlyTheCanonical: address arithmetic that would overflow a machine word is treated as out of range, which is the same error.
- MintedAssets.ExtractMintedAssets: which of several errors is reported is stated only for the validation step.
- DecimalPrices.PricesAreExact: a coefficient above 256 bits is refused even when trailing zeros would make the amount fit, and so is a zero with an exponent whose power of ten does not fit.
- Scoreboard.EndpointScoreboard: counters are unbounded.
- Messages.SplitMessage: a character is one Unicode scalar value.
