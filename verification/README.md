# Verified models of the trust protocol

Dafny models of six parts of the repository, with proofs about every input and every run.

* **Aggregation.** `Sums`, `WaterFill`, `Aggregate`, `AggregateLaws` model the v1.1 trust score: receipts become decayed
  weights, weights become per-issuer fractions, and the in-place loop caps overweight issuers and shares the excess. The
  loop computes the water-level allocation min(cap, level x fraction) at the least level whose weights sum to 1.
  `AggregateMonotone`, `AggregateCrossing`, `AggregateRaises` say exactly when raising receipt scores never lowers the
  result. `AggregateV10` models the older algorithm that the Trust Authority still runs, and says exactly when its cap
  holds.
* **Runtime authority.** `Receipts`, `ReceiptLedger`, `ReplayLedger`, `Approval`, `Authority` model the request steps and the
  two durable ledgers, down to short writes and failed syncs. `Protocol` interleaves the steps of any number of requests
  with file failures, restarts under new configuration and spends of other processes; `AuthorityService` shows that the
  handlers, run against the mutable ledgers, take exactly these steps, so that every running service is in a reachable
  state; `LedgerLaws`, `ProtocolLaws`, `Safety` prove what holds throughout. `Decisions` says exactly which requests get
  which decision and reason, and follows a critical request through its record to its permit. `Assumptions` constructs
  libraries that meet what is assumed of text and digests.
* **Canonical text and the Go verifier.** `JsonText`, `SortByKey`, `Json` show that one canonical text stands for one value;
  `Verifier`, `VerifierLaws` show what an allowed call of the offline verifier means, over sessions that share a nonce ledger.
* **Trust Authority.** `TrustStore`, `TrustRoutes`, `TrustTokens` model the store and the routes that change it; `DedupLaws`,
  `ReceiptOrigins` and `QuarantineLaws` are about runs of submissions, prunes, token requests and administration.
* **Chains and routes of trust.** `IsnadChain`, `IsnadLaws`, `TrustRoute`.
* **Route resolver and proof evaluator.** `RouteResolver`, `ResolverLaws`, `RouteEngine`, `ProofEvaluator`.

Code that updates state is modelled by methods with loops, arrays and classes, each proved against a function or predicate;
the laws are about those. Hashes, MACs, signatures, date parsing, decay curves and JSON text of ledger records are arbitrary
functions passed as parameters; what is assumed of them is a named predicate (`FaithfulText`, `CollisionFree`, `ValidParams`,
`Decays`, `Halves`, `HalvesEachPeriod`). I/O outcomes, clock readings, fresh identifiers and answers of other services are inputs.

Where a promise fails, a lemma says exactly when it holds; an input on which it fails is in that lemma's proof or in a
lemma of its own:

* A higher receipt score never lowers the aggregate: `AggregateRaises.RaisingNeverLowersExactlyWhen` (the multiplier) and
  `AggregateRaises.HarmlessExactlyWhen` (the single raise); `AggregateRaises.CrossingLowers` fails at the multiplier 1.5.
* The v1.0 cap: `AggregateV10.CapHoldsIffNotNeeded`; `AggregateV10.CapFails`.
* No identifier counts twice: `DedupLaws.SafeExactlyWhen`; `DedupLaws.ResubmissionCountsTwice`, `DedupLaws.ArraysCountTwice`.
* A receipt is found under its own agent and domain only: `ReceiptOrigins.MixesExactlyWhen`.
* Provisioned receipts count at once: `TrustRoutes.AllThreeContributeExactlyWhen`.
* A longer chain conveys less: `IsnadLaws.LongerConveysNoMoreExactlyWhen` for all chains,
  `IsnadLaws.GrowthExcludedExactlyWhen` and `IsnadLaws.AmplificationExcludedExactlyWhen` for sound ones.
* Only the final trust of a route matters: `TrustRoute.FinalTrustDecidesExactlyWhen`.
* Less trust permits less: `ResolverLaws.LoweringNeverHelpsExactlyWhen`.
* A document valid now was valid before: `ProofEvaluator.DownwardClosedExactlyWhen`; `ProofEvaluator.BecomesValid`.

Where code and documentation differ, the code is modelled:

* `aggregation.ts` calls itself the normative algorithm but renormalises everyone after capping (v1.0), so its cap fails on
  every input on which it is needed.
* `routes.ts` says three provisioned receipts contribute immediately; with the default duration only the first does.
* The isnad documentation calls a non-transferable link a break of continuity; the code reports a scope violation and keeps
  `continuous` true. It says that a longer chain conveys less; with attenuation "none" it can convey more, and a chain
  without failures can unless monotonicity is enforced. The specification says trust must not amplify; with attenuation "none" and no monotonicity it can.
* `policy.minTrustScore` is required by the routing policy but never read; each candidate's own minimum is.
* The authority README lists durable receipt storage as remaining; the service has it.

## Model

| member | source | states |
|---|---|---|
| WaterFill.CapOver | sdk/python/aggregate.py:75-82 | one pass sets exactly the uncapped issuers above cap plus slack to the cap, leaves the others alone, and returns what they lose |
| WaterFill.ShareExcess | sdk/python/aggregate.py:87-88 | in place, every free issuer grows by its share of the excess and capped ones do not move |
| WaterFill.CappingConserves | sdk/python/aggregate.py:79-82 | the weights after capping plus the excess are the weights before |
| WaterFill.SomeoneIsFree | sdk/python/aggregate.py:83-86 | the early exit is dead code: with a feasible cap some issuer stays free and has positive weight |
| WaterFill.RoundRaisesLevel | sdk/python/aggregate.py:75-88 | a round turns one common level into the raised one, with the total still 1, and caps someone new |
| WaterFill.RoundStaysBelow | sdk/python/aggregate.py:75-88 | no level that hands out exactly 1 lies below the level a round moves to |
| WaterFill.Round | sdk/python/aggregate.py:75-88 | one pass of the loop either finds nobody over the cap and is done, or leaves all free issuers at one new level with more issuers capped |
| WaterFill.CapLoop | sdk/python/aggregate.py:74-88 | the loop ends because nobody is over the cap, never by its budget of n + 1 rounds; weights sum to 1, capped issuers hold exactly the cap, nobody exceeds cap plus slack, and the level is the least possible |
| WaterFill.LevelIgnoresOrder | sdk/python/aggregate.py:74-88 | the level depends on the fractions as a multiset only |
| WaterFill.ClosedFormUnique | sdk/python/aggregate.py:69-88 | without slack there is only one allocation of the form min(cap, level x fraction) that sums to 1 |
| Aggregate.GroupByIssuer | sdk/python/aggregate.py:55-60 | one pass over the window yields, for each issuer that occurs, its total weight and weighted score sum |
| Aggregate.MakeIssuers | sdk/python/aggregate.py:55-64 | each contributing issuer is listed once, with positive weight and its weighted mean score |
| Aggregate.IssuerScoreBetween | sdk/python/aggregate.py:58-64 | an issuer's score lies between the scores of its own receipts |
| Aggregate.AllocateAndCombine | sdk/python/aggregate.py:66-91 | every issuer is scaled up alike and held at the larger of the configured cap and an equal share 1/n, within the tolerance of 1e-12; the weights sum to 1, and the score is their weighted sum |
| Aggregate.FindOldestAge | sdk/python/aggregate.py:97 | the loop finds the age of the oldest contributing receipt |
| Aggregate.Report | sdk/python/aggregate.py:98-101 | reported scores and weights are within half a millionth of the exact ones, in order, with the same identifiers and flags |
| Aggregate.AggregateTrust | sdk/python/aggregate.py:32-102 | fails exactly on an empty window; otherwise the clamped score over those capped shares, the counts, the oldest age in rounded seconds and the rounded detail |
| AggregateLaws.ScoreIgnoresOrder | sdk/python/aggregate.py:55-91 | rearranging the receipts changes neither level, allocation nor score |
| AggregateLaws.WeightsNonNegative | sdk/python/aggregate.py:69-91 | weights lie between 0 and the larger of the configured cap and 1/n, plus slack, and sum to 1 |
| AggregateLaws.ScoreBetweenReceipts | sdk/python/aggregate.py:47-94 | the score lies between the extreme contributing scores, so the clamp changes nothing |
| AggregateLaws.NoIssuerDominates | sdk/python/aggregate.py:69-94 | however many receipts one issuer sends, the score is at most c + (1 - c) x the best score of the others and at least (1 - c) x the worst, where c is the larger of the configured cap and 1/n, plus slack |
| AggregateLaws.InfeasibleCapEqualises | sdk/python/aggregate.py:66-69 | where n times the configured cap is at most 1, every final weight is within n x 1e-12 of 1/n |
| AggregateLaws.SlackIsHarmless | sdk/python/aggregate.py:75 | the float tolerance moves no weight further than n x slack from the exact allocation |
| AggregateMonotone.BetterReceiptsBetterScore | sdk/python/aggregate.py:46-94 | raising any scores that keep their side of 0.5, or any scores at all at multiplier 1, never lowers the aggregate, with the source's tolerance (the exact conditions are the next four rows) |
| AggregateCrossing.ShareSumRises | sdk/python/aggregate.py:69-91 | when every issuer gets lighter and carries at least as much, the capped shares add up to at least as much, up to the tolerance of each comparison |
| AggregateCrossing.GentleRaisesNeverLower | sdk/python/aggregate.py:46-94 | any number of raises that keep their side of 0.5, or go to at least m x the score and at most m x the distance from 1, lower the aggregate by no more than the tolerance of each issuer, and not at all without tolerance |
| AggregateRaises.HarmlessExactlyWhen | sdk/python/aggregate.py:46-94 | in exact arithmetic, raising one score from s to s' is harmless in every window if and only if both are on one side of 0.5 or s' >= m x s and 1 - s' <= m x (1 - s) |
| AggregateRaises.RaisingNeverLowersExactlyWhen | sdk/python/aggregate.py:46-94 | for all times, windows and allocations with the source's tolerance: raising scores never lowers the aggregate if and only if the multiplier is 1 |
| AggregateRaises.CrossingLowers | sdk/python/aggregate.py:51-53 | with the multiplier 1.5, raising one receipt from 0.49 to 0.5 lowers the aggregate of two receipts from 0.245 to 0.2 |
| AggregateV10.AggregateTrustScore | reference-implementations/trust-authority/src/aggregation.ts:24-109 | fails exactly on an empty window; otherwise the clamped score over capped and renormalised fractions with per-issuer overrides, between the scores of the contributing receipts, the counts and the oldest age in whole seconds |
| AggregateV10.ScoreIsCappedMean | reference-implementations/trust-authority/src/aggregation.ts:74-97 | whatever the caps and overrides, the score is the mean of the issuers' scores weighted with their capped fractions |
| AggregateV10.ScoreBetweenReceipts | reference-implementations/trust-authority/src/aggregation.ts:74-97 | the score lies between the scores of the contributing receipts, so equal scores are returned and the clamp is idle |
| AggregateV10.CapHoldsIffNotNeeded | reference-implementations/trust-authority/src/aggregation.ts:74-91 | the final weights respect the caps if and only if no raw fraction exceeded its cap |
| AggregateV10.CapFails | reference-implementations/trust-authority/src/aggregation.ts:74-91 | of two issuers with fractions 0.9 and 0.1 under a cap of 0.4 the first ends with a weight of 0.8, and the score is 0.8 x its own plus 0.2 x the other's |
| AggregateV10.VersionsAgree | reference-implementations/trust-authority/src/aggregation.ts:74-97 | without overrides and with nobody over the cap, both versions return the same score |
| AggregateV10.OverweightIssuer | reference-implementations/trust-authority/src/aggregation.ts:74-91 | with a feasible cap, an issuer over it weighs exactly the cap in v1.1 and strictly more than the cap in v1.0 |
| JsonText.ReadNumberText | src/util.mjs:6 | the text of a rounded number, with an exponent from 1e21 on, followed by anything that may follow a value, reads back as that number |
| JsonText.RoundsToNearest | src/util.mjs:6 | rounding yields exactly the nearest millionth, of two equally near ones the one further from zero, and is symmetric |
| JsonText.ExponentExactlyWhen | src/util.mjs:6 | an exponent is written exactly from 1e21 on, in either direction |
| JsonText.NumberTextForm | src/util.mjs:6 | numbers are written without any zero that could be left out, with at most six places, a sign only below zero and one digit before the point of an exponent form |
| JsonText.EscapedExactlyWhen | src/util.mjs:5-7 | which characters are escaped in short, in long or not at all, by their codes |
| JsonText.ReadQuoted | src/util.mjs:5-7 | a quoted string reads back, whatever characters it contains and whatever follows it |
| Json.SameRepresentative | src/util.mjs:3-8 | two values have one representative exactly when they are equal up to key order and six-decimal rounding |
| Json.ReadCanonical | src/util.mjs:3-8 | reading canonical text yields the value with rounded numbers and sorted keys |
| Json.NothingMayFollow | src/util.mjs:3-8 | canonical text with more behind it is not read as a value |
| Json.NumberIsRounded | src/util.mjs:6 | the text of a number reads back as its nearest millionth, which is within half a millionth of it |
| Json.EquivalentNumbers | src/util.mjs:6 | two numbers have one canonical text exactly when they have the same nearest millionth |
| Json.UniquelyDecodable | src/util.mjs:3-8 | two values have equal canonical text if and only if they are equal up to key order and rounding |
| Json.RoundTrip | src/util.mjs:3-8 | canonical text parses, and serialising the result gives the same text |
| Verifier.Canonical | sdk/go/verifier/verifier.go:92-126 | the Go serialiser gives the same text as the JavaScript one, and fails exactly for numbers of 1e21 and above |
| Verifier.InRangeExactlyWhen | sdk/go/verifier/verifier.go:100-101 | the Go serialiser fails exactly for values that hold a number of 1e21 or above, in either direction, anywhere |
| Verifier.MemoryReplay.SpendOnce | sdk/go/verifier/verifier.go:55-62 | succeeds exactly for a new non-empty nonce and then adds only that one |
| Verifier.CheckExecution | sdk/go/verifier/verifier.go:161-172 | names the first mismatch between the signed body and the actual execution |
| Verifier.VerifyAuthority | sdk/go/verifier/verifier.go:133-175 | allows exactly an authority that a trusted key named by its own fingerprint has signed over the digest of its body, that is typed, timely, matches the execution and its parameters, and whose non-empty nonce is new; replays are reported exactly otherwise; reason, binding hash and spent nonces for every envelope and ledger |
| Verifier.VerifyReceipt | sdk/go/verifier/verifier.go:177-205 | accepts exactly the receipts that a trusted key named by its own fingerprint has signed over the digest of their body, that are not from the future, name the expected predecessor, and record an allowed verdict if anything was executed |
| Verifier.AuthorizesExactlyWhen | sdk/go/verifier/verifier.go:133-170 | no reason to deny is found exactly when the authority meets every requirement |
| Verifier.DeniedExactlyWhen | sdk/go/verifier/verifier.go:133-160 | each denial before the execution is compared, with its exact condition |
| Verifier.MismatchExactlyWhen | sdk/go/verifier/verifier.go:161-172 | each difference between the execution and what was signed, with its exact condition |
| Verifier.GenuineExactlyWhen | sdk/go/verifier/verifier.go:177-205 | no reason to reject is found exactly when the receipt meets every requirement |
| Verifier.RejectedExactlyWhen | sdk/go/verifier/verifier.go:177-205 | each rejection of a receipt, with its exact condition |
| VerifierLaws.SpendsExactlyWhenAllowed | sdk/go/verifier/verifier.go:171-174 | an allowed call spends exactly its own fresh nonce, a denied one spends nothing |
| VerifierLaws.SpentExactly | sdk/go/verifier/verifier.go:55-62 | at every point of a session the nonces spent are the initial ones and those of the allowed calls, nothing else |
| VerifierLaws.NonceAllowedOnce | sdk/go/verifier/verifier.go:133-175 | in a session no nonce is allowed twice, nor one that was spent before |
| VerifierLaws.AllowedMeansSigned | sdk/go/verifier/verifier.go:147-174 | an allowed call has the signed principal, action and target, and parameters equal to the signed ones up to key order and rounding |
| VerifierLaws.AllowedMeansVerified | sdk/go/verifier/verifier.go:137-160 | an allowed call's binding hash is that of its body, verified under a trusted key named by its own fingerprint, inside the validity window |
| VerifierLaws.BindingPinsBody | sdk/go/verifier/verifier.go:147-153 | without digest collisions, one binding hash stands for one signed body |
| VerifierLaws.HashPinsReceipt | sdk/go/verifier/verifier.go:185-199 | receipts with one hash, valid for whatever verifiers at whatever times, have one body and one predecessor |
| VerifierLaws.LastHashPinsHistory | sdk/go/verifier/verifier.go:177-205 | the hash of the last receipt fixes the length of a history and every body in it, for any two verifiers with their own clocks and keys |
| Assumptions.LibrariesExist | services/authority/receiptSigner.ts:4-18 | what is assumed of record text, payload text and digests can be met, by an explicit encoding |
| Receipts.FinalizedPasses | services/authority/receiptSigner.ts:20-27 | a receipt finalised with the current last hash passes the ledger's check |
| Receipts.NameExactlyWhen | services/authority/receiptLedger.ts:19-23 | which identifiers records may have, character by character |
| Receipts.RecordExactlyWhen | services/authority/receiptLedger.ts:19-34 | a record follows another exactly when well named, with the digest of predecessor and payload and the MAC of both; otherwise the first of these that fails is reported |
| Receipts.ThresholdIsScore | services/authority/index.ts:191-194 | the threshold of 0.85, a fraction of a power of two, is itself a score that a grant can carry |
| Receipts.HashInputInjective | services/authority/receiptSigner.ts:4-9 | although previous hash and payload are simply concatenated, the hash input determines both |
| Receipts.LastHashPinsChain | services/authority/receiptLedger.ts:19-34 | without digest collisions, chains that end in one hash are equal from the first record on |
| ReceiptLedger.ReceiptLedger.Append | services/authority/receiptLedger.ts:103-123 | memory, file and result after an append, for every stat, write and sync outcome; a closed ledger changes nothing |
| ReceiptLedger.ReceiptLedger.Close | services/authority/receiptLedger.ts:92-98 | the ledger is released and its lock file removed, once |
| ReceiptLedger.ReadLedger | services/authority/receiptLedger.ts:66-81 | the line loop rebuilds index, last hash and byte count of the file, or fails exactly when the size given differs or the text is not a chained list of complete lines |
| ReceiptLedger.OpenReceiptLedger | services/authority/receiptLedger.ts:45-90 | fails exactly when the lock file exists, a file operation fails, the size differs or the text is not a chained list of complete lines; the lock is held afterwards exactly if it was before or the opening succeeded |
| LedgerLaws.AppendRefines | services/authority/receiptLedger.ts:103-123 | an append extends the abstract list by its record or leaves all that is remembered unchanged |
| LedgerLaws.AppendExactlyWhen | services/authority/receiptLedger.ts:103-123 | each outcome of an append, with its exact condition, and what it leaves in the file |
| LedgerLaws.RunRefines | services/authority/receiptLedger.ts:103-123 | after any appends with any failures, index, last hash and byte count describe exactly the completed appends |
| LedgerLaws.PoisonedForever | services/authority/receiptLedger.ts:106-109 | while the file is longer than what is remembered, every append of the process refuses and writes nothing |
| LedgerLaws.ThrowingEndsAppends | services/authority/receiptLedger.ts:103-123 | an append that throws after changing the file makes all later appends of the process refuse |
| LedgerLaws.IndexFinds | services/authority/receiptLedger.ts:75-77 | every record of a chained list is found under its identifier |
| LedgerLaws.IndexHolds | services/authority/receiptLedger.ts:100 | what the index returns is a record of the list with that identifier |
| LedgerLaws.Reopen | services/authority/receiptLedger.ts:66-80 | opening the text of a chained list gives back the list |
| LedgerLaws.RunThenReopen | services/authority/receiptLedger.ts:66-123 | after a run without failures, reopening rebuilds the same memory |
| LedgerLaws.TornTailRefused | services/authority/receiptLedger.ts:68-70 | a file that breaks off inside a line does not open |
| LedgerLaws.OpenIsChained | services/authority/receiptLedger.ts:71-79 | whatever opens has distinct identifiers and an unbroken signed chain |
| LedgerLaws.NoForks | services/authority/receiptLedger.ts:19-34 | two files that open with the same last hash hold the same records in the same order |
| ReplayLedger.ReplayDirectory.ConsumeStepUpReceipt | services/authority/replayLedger.ts:13-53 | spend records and result for every outcome of every file operation, including a failing close on the way out |
| ReplayLedger.AcceptedCreates | services/authority/replayLedger.ts:33-44 | records are never deleted, and an accepted attempt has just created its own |
| ReplayLedger.AcceptedExactlyWhen | services/authority/replayLedger.ts:16-52 | an attempt is accepted exactly when all file operations work and no record exists; a record left by a failed attempt stays |
| ReplayLedger.RedeemableExactlyWhen | services/authority/replayLedger.ts:19-21 | which identifiers can be redeemed, character by character |
| ReplayLedger.CreatesExactlyWhen | services/authority/replayLedger.ts:16-52 | exactly when an attempt leaves a record, is accepted, or ends in an exception |
| ReplayLedger.RefusedExactlyWhen | services/authority/replayLedger.ts:16-48 | each refusal, with its exact condition |
| ReplayLedger.AcceptedOnRecord | services/authority/replayLedger.ts:22-52 | over any run of attempts with failures anywhere, no receipt is accepted twice |
| Approval.VerifiedExactlyWhenIndependent | services/authority/approvalVerifier.ts:22-42 | positive exactly for the claimed head and a history that can be read without an exception and has one approval of the protected environment by somebody who, regardless of case, is neither author nor invoker; otherwise the first of these that fails is the reason |
| AuthorityService.Service.Authorize | services/authority/index.ts:240-244 | the state afterwards, ledgers included, is that after the request step of the transition system, and so reachable |
| AuthorityService.Service.Continue | services/authority/index.ts:155-184 | the state after GitHub's answer, spend records included, is that after the resume step |
| AuthorityService.Service.Respond | services/authority/index.ts:245-286 | the state afterwards is that after the finish step, and the client gets the receipt exactly if its append completed |
| AuthorityService.Service.ElsewhereSpent | services/authority/replayLedger.ts:33-34 | a spend record that another process creates is a step too, and the service stays in a reachable state |
| AuthorityService.ServedPermits | services/authority/index.ts:228-289 | every permit that a running service has answered rests on a grant provisioned when its request arrived, and a critical or redeemed one on an earlier record that steps up that request and on the approval GitHub showed to it |
| AuthorityService.StartService | services/authority/index.ts:66 | starting on a file left behind is the restart step, ready exactly if the lock is free and the file can be read; it fails exactly if that leaves the service down, and otherwise yields a service in a reachable state |
| ProtocolLaws.GrantFound | services/authority/index.ts:28-41 | a grant is found exactly when the request names a provisioned one that covers it now |
| ProtocolLaws.FirstVerdictSound | services/authority/index.ts:134-197 | before the lookup, a permit is earned and a lookup is asked for only with a matching recorded receipt |
| ProtocolLaws.FinalVerdictSound | services/authority/index.ts:163-184 | after the lookup, a permit has an independent approval and has just created its spend record |
| ProtocolLaws.BeginKeeps | services/authority/index.ts:243-244 | a request step keeps the invariant |
| ProtocolLaws.ResumeKeeps | services/authority/index.ts:163-184 | an answered lookup keeps the invariant, in particular that each redeemed record belongs to one request |
| ProtocolLaws.FileAfterAppend | services/authority/index.ts:272-275 | if anything was written, the record extends the chain and the file holds it in part or in full |
| ProtocolLaws.FinishKeeps | services/authority/index.ts:245-275 | issuing a receipt keeps the invariant, whatever the file operations do |
| ProtocolLaws.RestartReads | services/authority/receiptLedger.ts:66-80 | a file of the service opens only if its last record is complete, and then yields the whole log |
| ProtocolLaws.ComesUpExactlyWhen | services/authority/receiptLedger.ts:45-90 | the service comes up again exactly when it gets the lock and the last record of its file is complete, and then with its whole log |
| ProtocolLaws.RestartKeeps | services/authority/index.ts:26-66 | losing the process, reading new grants and reopening the file keeps the invariant |
| ProtocolLaws.OtherSpendKeeps | services/authority/replayLedger.ts:33-34 | spend records that other processes create keep the invariant |
| ProtocolLaws.ReachedStep | services/authority/index.ts:228-289 | any step from a reachable state leads to a reachable state |
| ProtocolLaws.ReachedKeeps | services/authority/index.ts:228-289 | every interleaving of requests, failures, restarts under new configuration and spends of other processes keeps the invariant |
| Safety.CriticalPermitsAreApproved | services/authority/index.ts:74-197 | every permit on a critical risk is a reauthorization that redeems an earlier step-up or escalation, at most ten minutes older than the request event it answers, of an execution request with the same subject, repository, branch, resource, run, commit and paths, and GitHub answered that very request with an independent approval; a reauthorization receipt never serves |
| Safety.PermitsRestOnGrants | services/authority/index.ts:26-41 | every permit repeats a received request that a grant provisioned at that time covered and that was verified within 900 s, with the grant's score; without reauthorization the risk is not critical and the score at least 0.85 |
| Safety.CriticalExactlyWhen | services/authority/index.ts:74-80 | the risk is critical exactly for the two named actions and for requests that touch a path some policy pattern covers |
| Safety.DirectPermitExactlyWhen | services/authority/index.ts:134-197 | a request is permitted without a human exactly when freshly granted, trusted at 0.85 and not critical |
| Safety.RedeemedPermitExactlyWhen | services/authority/index.ts:163-184 | a reauthorization is permitted exactly for an independent approval of the same head, a fresh attestation and a successful spend |
| Decisions.FirstDecisionExactlyWhen | services/authority/index.ts:134-197 | a first request is denied, escalated, stepped up or permitted, each with its reason and exact condition |
| Decisions.ReauthorizationExactlyWhen | services/authority/index.ts:138-162 | a reauthorization is put to GitHub exactly when it is covered and names a recorded step-up or escalation of the same execution, ten minutes old at most; each denial with its exact condition |
| Decisions.FinalDecisionExactlyWhen | services/authority/index.ts:163-184 | permit, escalation, denial or exception after GitHub's answer, each with its exact condition, and the spend records afterwards |
| Decisions.SafeExactlyWhen | services/authority/index.ts:47-65 | which requests are looked at, character by character |
| Decisions.LesserRiskExactlyWhen | services/authority/index.ts:74-80 | high and medium risk are exactly the named actions among requests that are not critical |
| Decisions.CriticalRequestIsRedeemable | services/authority/index.ts:138-191 | a freshly granted critical execution request is stepped up, and once recorded can be redeemed for ten minutes in every state that holds the record, whatever runs in between |
| Decisions.CriticalRequestEndsInPermit | services/authority/index.ts:138-191 | and its reauthorization then ends in a permit when GitHub shows an independent approval and the spend works |
| Decisions.RecordsRepeatRequests | services/authority/index.ts:245-270 | every record of a reachable state, whatever its decision, repeats a received request field by field, with the score of the grant that then covered it, or 0 |
| Safety.EachPriorSupportsOnePermit | services/authority/index.ts:167-184 | in every interleaving no prior receipt supports two step-up permits, and every support is among the created spend records |
| Safety.AcknowledgedIsDurable | services/authority/index.ts:271-286 | every acknowledged receipt is completely in the file, and in the ledger of any process that opens it |
| Safety.InterleavingNeverBreaksTheChain | services/authority/index.ts:270-275 | whatever ran in between, a new receipt passes chain and signature checks, and with working files it is appended and acknowledged |
| Safety.GrantedRequestIsPermitted | services/authority/index.ts:134-197 | in whatever state the service is, a granted, trusted and uncritical request is decided with a permit |
| Safety.ApprovedRequestIsPermitted | services/authority/index.ts:138-184 | a redeemable request that GitHub approves is decided with a permit if its spend works, whatever ran since it arrived |
| Safety.DecidedIsServed | services/authority/index.ts:245-286 | with working files a decided request is answered with a receipt of that decision |
| TrustStore.TTPStore.RegisterAgent | reference-implementations/trust-authority/src/store.ts:52-54 | replaces the whole record, block and quarantine included, and no other |
| TrustStore.TTPStore.BlockAgent | reference-implementations/trust-authority/src/store.ts:64-70 | blocks the agent object in place; unknown agents and all others are untouched |
| TrustStore.TTPStore.GetAgentStatus | reference-implementations/trust-authority/src/store.ts:75-89 | the effective status; an expired timed quarantine is lifted as a side effect |
| TrustStore.TTPStore.QuarantineAgent | reference-implementations/trust-authority/src/store.ts:91-104 | refuses exactly missing and blocked agents, otherwise sets mode, reason, time and expiry |
| TrustStore.TTPStore.LiftQuarantine | reference-implementations/trust-authority/src/store.ts:110-118 | refuses exactly missing and blocked agents, otherwise clears the quarantine |
| TrustStore.StatusExactlyWhen | reference-implementations/trust-authority/src/store.ts:75-89 | a block outweighs all; a quarantine holds until after its expiry, if it has one other than zero |
| TrustStore.BlockedStaysAsIs | reference-implementations/trust-authority/src/store.ts:91-118 | quarantine, lift and status leave a blocked record as it is |
| TrustStore.TTPStore.StoreReceipt | reference-implementations/trust-authority/src/store.ts:128-135 | appends to the bucket of agent and domain and remembers the identifier |
| TrustStore.TTPStore.PruneOldReceipts | reference-implementations/trust-authority/src/store.ts:165-181 | both loops together keep exactly the young receipts, the non-empty buckets and the recently accepted identifiers |
| TrustRoutes.AcceptedExactlyWhen | reference-implementations/trust-authority/src/routes.ts:839-875 | a receipt is stored exactly when complete, of this version, in range, in time (as far as its timestamp converts to a number), signed by a registered issuer and, whatever JSON value its identifier is, not remembered |
| TrustRoutes.RejectedExactlyWhen | reference-implementations/trust-authority/src/routes.ts:839-875 | each rejection of a submission, with its exact condition |
| TrustRoutes.SubmitReceipt | reference-implementations/trust-authority/src/routes.ts:88-123 | response and store after a single submission |
| TrustRoutes.SubmitReceiptBatch | reference-implementations/trust-authority/src/routes.ts:127-165 | refuses exactly sizes outside 1 to 100; each receipt fares as if submitted alone after the ones before it |
| TrustRoutes.BatchHolds | reference-implementations/trust-authority/src/routes.ts:127-165 | what a batch accepts is held afterwards, an acceptable receipt with a new identifier is accepted, and oversized batches change nothing |
| TrustRoutes.PeerPassesExactlyWhen | reference-implementations/trust-authority/src/routes.ts:169-297 | a peer receipt passes exactly when acceptable and attested by a peer issuer with its own live token and enough trust |
| TrustRoutes.PeerRefusedExactlyWhen | reference-implementations/trust-authority/src/routes.ts:191-260 | each refusal of an otherwise acceptable peer receipt, with its exact condition |
| TrustRoutes.ForgedPeerRefusedExactlyWhen | reference-implementations/trust-authority/src/routes.ts:178-222 | a peer receipt is refused for its signature exactly when only that, or its token, is wrong |
| TrustRoutes.ConfirmationAskedExactlyWhen | reference-implementations/trust-authority/src/routes.ts:255-297 | a passing receipt waits for its peer exactly when the peer has registered an address, and that address is asked |
| TrustRoutes.AcceptPeerReceipt | reference-implementations/trust-authority/src/routes.ts:288-312 | after the confirmation only an approved receipt is stored, and only if its identifier is still new |
| TrustRoutes.ProvisionTrust | reference-implementations/trust-authority/src/routes.ts:730-803 | the error cases, or three staggered receipts stored without the submission checks |
| TrustRoutes.ProvisionableExactlyWhen | reference-implementations/trust-authority/src/routes.ts:735-763 | what can be provisioned: a domain, a score in [0, 1], and a duration of at most a week |
| TrustRoutes.ProvisionedAreHeld | reference-implementations/trust-authority/src/routes.ts:770-803 | afterwards the receipts are the last ones held for agent and domain, in the authority's name and each a sixth of the duration older |
| TrustRoutes.AllThreeContributeExactlyWhen | reference-implementations/trust-authority/src/routes.ts:770-799 | all three provisioned receipts lie in the window exactly for durations below 900.003 s; by default only the first does |
| TrustTokens.BuildOverrides | reference-implementations/trust-authority/src/routes.ts:359-366 | the keys are the provisioned issuer and the registered peers among the receipts' issuers; peers get 0.20, the provisioned issuer 0.30 unless it is such a peer |
| TrustTokens.NegativeWeighsMore | reference-implementations/trust-authority/src/routes.ts:367-373 | in the token route, scores below 0.5 weigh one and a half times as much |
| TrustTokens.AdjustQuarantine | reference-implementations/trust-authority/src/routes.ts:388-400 | what one score does to the agent's record, and to no other |
| TrustTokens.IssueToken | reference-implementations/trust-authority/src/routes.ts:317-448 | a token exactly for a known, unblocked agent with its own key and some receipt at most 300 s old; its score lies between the scores of those receipts, and quarantine and lifetime follow from it; the refusals in order |
| TrustTokens.RefusedExactlyWhen | reference-implementations/trust-authority/src/routes.ts:325-352 | each refusal of a token request, with its exact condition |
| TrustTokens.ScoredIsCappedMean | reference-implementations/trust-authority/src/routes.ts:354-386 | the score of a token is the mean of the issuers' scores weighted with their fractions up to 0.20 for peers, 0.30 for the authority and 0.40 for others |
| TrustTokens.LifetimeIs | reference-implementations/trust-authority/src/routes.ts:402-409 | the requested lifetime, five minutes by default, up to ten, or one while quarantined |
| DedupLaws.StoreKeeps | reference-implementations/trust-authority/src/store.ts:128-135 | storing an identifier that is not remembered keeps its copies more than the prune age apart, unless it is an array or object |
| DedupLaws.PruneKeeps | reference-implementations/trust-authority/src/store.ts:165-181 | pruning keeps that, although identifiers and receipts age by different clocks |
| DedupLaws.StepKeeps | reference-implementations/trust-authority/src/routes.ts:88-313 | so does every submission, batch, suspended peer receipt and provisioning |
| DedupLaws.CountsOnceInRuns | reference-implementations/trust-authority/src/store.ts:124-181 | from a prune age of 600 s on, only arrays and objects can occur twice in one window, in any run at any later time |
| DedupLaws.ResubmissionCountsTwice | reference-implementations/trust-authority/src/store.ts:165-181 | for every smaller prune age a run of four events makes one identifier count twice |
| DedupLaws.ArraysCountTwice | reference-implementations/trust-authority/src/store.ts:124-129 | a receipt whose identifier is an array counts twice when submitted twice, at every prune age |
| DedupLaws.SafeExactlyWhen | reference-implementations/trust-authority/src/aggregation.ts:37-41 | no identifier ever counts twice if and only if the prune age is at least window plus permitted skew and no client sends an array or object as identifier |
| DedupLaws.ServicePruneAge | reference-implementations/trust-authority/src/index.ts:119 | with the service's 24 hours, two receipts that one aggregation sees share their identifier only if it is an array or object |
| ReceiptOrigins.HeldIsEarned | reference-implementations/trust-authority/src/routes.ts:88-313 | after any run, whatever is held was stored by an acceptable submission, an attested peer receipt that needs no confirmation or got it under its own pending identifier, or a provisioning, and for its own agent and domain |
| ReceiptOrigins.StoredForItsOwner | reference-implementations/trust-authority/src/store.ts:124-135 | between agents whose names hold no colon, a receipt is found under its own agent and domain only |
| ReceiptOrigins.MixesExactlyWhen | reference-implementations/trust-authority/src/store.ts:124-135 | receipts of two agents can share a bucket exactly when one name continues the other after a colon |
| QuarantineLaws.BlockedExactlyWhen | reference-implementations/trust-authority/src/store.ts:52-118 | after any run an agent is blocked exactly if its last block was not followed by a re-registration |
| QuarantineLaws.ScoresLeaveManualAlone | reference-implementations/trust-authority/src/routes.ts:388-400 | no sequence of scores changes an unexpired manual or supervised quarantine |
| QuarantineLaws.LastDecisiveScoreDecides | reference-implementations/trust-authority/src/routes.ts:388-402 | over token requests the status follows from the last score outside [0.35, 0.65), and stays as it was without one |
| QuarantineLaws.LifetimeLimits | reference-implementations/trust-authority/src/routes.ts:402-409 | tokens live at most 600 s; more than 60 s only for an unquarantined agent whose score is at least 0.35 |
| IsnadChain.VerifyIsnadChain | src/isnad.mjs:7-39 | all failures in order, the effective trust of each mode, and the weakest link: the first minimum, or none exactly when every amount is 1 |
| IsnadLaws.ValidExactlyWhenSound | src/isnad.mjs:14-33 | no failure exactly for rooted, unbroken chains of individually sound links |
| IsnadLaws.ReportedExactlyWhen | src/isnad.mjs:14-33 | each failure code is reported exactly for the fault it names, at the link that has it; amounts may not exceed the last proper amount before |
| IsnadLaws.FailuresInOrder | src/isnad.mjs:14-33 | failures come in the order of their links, those of the whole chain first |
| IsnadLaws.ContinuousExactlyWhenUnbroken | src/isnad.mjs:35 | `continuous` holds exactly for non-empty chains without gaps and self-transmissions |
| IsnadLaws.ProductLeastEach | src/isnad.mjs:32-34 | the product is at most the minimum, which is at most every amount |
| IsnadLaws.OneLinkConveysItsAmount | src/isnad.mjs:32-34 | a single link conveys exactly its amount, in every mode |
| IsnadLaws.NothingConveysNothing | src/isnad.mjs:34 | no link conveys nothing, nor, in the mode "none", does a last link without an amount |
| IsnadLaws.JoiningMultiplies | src/isnad.mjs:32-34 | joining two chains multiplies their product trust |
| IsnadLaws.JoiningTakesLeastOrLast | src/isnad.mjs:32-34 | joining two chains takes the smaller "min" trust, and the "none" trust of the second |
| IsnadLaws.LongerConveysNoMore | src/isnad.mjs:34 | extending a chain never raises its trust in the modes "product" and "min", nor in any unknown mode |
| IsnadLaws.LongerConveysNoMoreExactlyWhen | src/isnad.mjs:34 | for all chains: no extension raises what a chain conveys, if and only if the mode is not "none" |
| IsnadLaws.GrowthExcludedExactlyWhen | src/isnad.mjs:31-34 | no sound chain conveys more than any of its beginnings, if and only if the mode is not "none" or monotonicity is enforced |
| IsnadLaws.MonotonicNoneIsMin | src/isnad.mjs:31-34 | on sound chains with enforced monotonicity, "none" grades like "min" |
| IsnadLaws.AmplificationExcludedExactlyWhen | src/isnad.mjs:31-34 | sound chains never convey more than any of their links, if and only if the mode is not "none" or monotonicity is enforced |
| TrustRoute.VerifyTrustRoute | src/trust_route.mjs:2-6 | all failures in order and the product of the decayed scores |
| TrustRoute.ValidExactlyWhen | src/trust_route.mjs:2-6 | valid exactly when the policy admits the route and the running trust never falls below the threshold |
| TrustRoute.JoiningMultiplies | src/trust_route.mjs:2-3 | joining two routes multiplies their trust |
| TrustRoute.OneHopConveys | src/trust_route.mjs:3 | one hop conveys its score less the decay, and nothing once that is used up |
| TrustRoute.DecayLowersTrust | src/trust_route.mjs:2-3 | more decay never conveys more |
| TrustRoute.LastCheckDecides | src/trust_route.mjs:3 | when no hop conveys more than 1, only the last per-hop check matters |
| TrustRoute.FinalTrustDecidesExactlyWhen | src/trust_route.mjs:3 | for all routes with scores up to 1 the final trust decides, if and only if the decay is not negative |
| RouteEngine.EvaluateAll | packages/trust-routing-engine/src/resolve.js:42-69 | one pass keeps exactly the candidates that pass all six tests, with their scores, and finds out whether any candidate is revoked |
| RouteEngine.PickStrongest | packages/trust-routing-engine/src/resolve.js:94-97 | the pick has the highest score, and is the first that has it |
| RouteEngine.Choose | packages/trust-routing-engine/src/resolve.js:73-98 | the chosen candidate is what the strategy promises: freshest, supervisor or strongest, the first among equals, with all valid or none refusing where required |
| RouteEngine.DecideRoute | packages/trust-routing-engine/src/resolve.js:100-138 | the successive reassignments of the decision amount to one ladder of step-up, throttle, constrain, permit |
| RouteEngine.ResolveTrustRoute | packages/trust-routing-engine/src/resolve.js:16-160 | a route is earned: by a candidate that passes the six tests, each written out, is optimal for the strategy and outside the critical zone, with nobody revoked and the request bound to its hash |
| ResolverLaws.RouteIsEarned | packages/trust-routing-engine/src/resolve.js:37-118 | a route goes to a candidate that passes all six tests, each written out, optimal for the strategy and first among equals, with nobody revoked and the request bound; and what each decision and its reasons say about score, candidate and action |
| ResolverLaws.RoutesExactlyWhen | packages/trust-routing-engine/src/resolve.js:36-118 | for every strategy: a route exists exactly when nothing about the request stands in its way and the candidate that the strategy promises exists and scores 0.4 |
| ResolverLaws.TurnedAwayExactlyWhen | packages/trust-routing-engine/src/resolve.js:36-72 | each denial before candidates are compared, with its exact condition |
| ResolverLaws.NoRouteExactlyWhen | packages/trust-routing-engine/src/resolve.js:73-120 | each denial although some candidate passes the tests, with its exact condition |
| ResolverLaws.PlainScore | packages/trust-routing-engine/src/decay.js:1-5 | without signals the score is the trust decayed by the seconds since it was verified, within [0, 1] |
| ResolverLaws.SignalMovesScore | packages/trust-routing-engine/src/decay.js:1-5 | one more signal moves a score by its weight times its value, up to the bounds |
| ResolverLaws.BindingPinsRequest | packages/trust-routing-engine/src/resolve.js:5-7 | without digest collisions or separators in the fields, one binding hash stands for one subject, action, resource, parameters and minute |
| ResolverLaws.StrongestRoutesExactlyWhen | packages/trust-routing-engine/src/resolve.js:62-101 | under strongest-path selection a route exists exactly when some usable candidate scores 0.4 |
| ResolverLaws.LessTrustPermitsLess | packages/trust-routing-engine/src/resolve.js:73-118 | when the choice is by score alone and step-up flags agree, less trust never yields a more permissive decision |
| ResolverLaws.LoweringNeverHelpsExactlyWhen | packages/trust-routing-engine/src/resolve.js:73-98 | that is so exactly for the strategies other than freshest path, supervisor override and domain hard deny |
| ProofEvaluator.ScoreNeverRises | src/evaluator.js:84-102 | with positive half-life the rounded effective score never rises as time moves forward |
| ProofEvaluator.ValidEarlier | src/evaluator.js:4-82 | a document valid at some time is valid at every earlier time, with at least that score |
| ProofEvaluator.ScoreAfterHalfLives | src/evaluator.js:84-102 | after n half-lives what exceeds the minimum has been halved n times; up to the issue nothing has |
| ProofEvaluator.UndecayedScore | src/evaluator.js:84-102 | without decay the score is the rounded one, at any time |
| ProofEvaluator.RoundScoreNearest | src/evaluator.js:102 | scores are rounded to the nearest ten-thousandth |
| ProofEvaluator.ValidExactlyWhen | src/evaluator.js:4-70 | valid with a score exactly when the subject's first claim is alive and fresh enough for its first proof and has that score, which suffices |
| ProofEvaluator.MissingExactlyWhen | src/evaluator.js:4-19 | what is reported missing, and when |
| ProofEvaluator.RefusedExactlyWhen | src/evaluator.js:21-82 | an unsupported proof mode and the two ways to be expired, each with its exact condition |
| ProofEvaluator.MalformedExactlyWhen | src/evaluator.js:21-97 | what cannot be read, as far as evaluation gets |
| ProofEvaluator.InsufficientExactlyWhen | src/evaluator.js:59-70 | insufficient exactly when only the required score is missed |
| ProofEvaluator.ScoreErrors | src/evaluator.js:86-97 | when the score cannot be computed, and which error that is |
| ProofEvaluator.DownwardClosedExactlyWhen | src/evaluator.js:25-102 | validity is downward closed in time exactly unless the half-life is zero and, as the document says, the claim outlives its issue and its minimum meets the requirement |
| ProofEvaluator.BecomesValid | src/evaluator.js:94-101 | one such document: insufficient at its issue, valid a millisecond later |

## Left out

- Floating point: scores, weights and decayed values are exact reals; decay curves are arbitrary positive (or falling) functions. Scores in receipts and grants are binary fractions in lowest terms, as every finite double is, of any size. In `Json`, numbers stand for the decimals that JavaScript prints for them.
- Times are whole milliseconds; a timestamp that is a fraction of a millisecond is not modelled. The clock is read once per uninterrupted step.
- SHA-256, HMAC, Ed25519, base64, PEM, JWT and the JSON text of ledger records: arbitrary functions with stated assumptions.
- Key order and escapes: strings are sequences of characters compared by code; differences between UTF-16 and UTF-8 order and the Go escapes of U+2028 and U+2029 and of control characters in older releases are not modelled. JSON numbers are the decoded reals.
- Verifier.VerifyAuthority: decoding the submitted bytes into one JSON object is an input; so is whether signature bytes decode.
- Operator recovery of a lock file left by a crash: the lock is free again at some later start.
- ReceiptLedger.ReceiptLedger.Append: one character stands for one byte; file modes, ownership and symbolic links show up only as a failing check.
- ProtocolLaws.RestartKeeps: the ledger file, its signing secret and the replay directory stay the same across restarts.
- Safety.AcknowledgedIsDurable: file contents written stay; data lost by the storage after a successful sync is not modelled.
- Safety.CriticalPermitsAreApproved: the network requests behind the GitHub lookup are not modelled; its answer is any history, author and head.
- Approval.VerifiedExactlyWhenIndependent: lower-casing covers the letters A to Z, which are all a GitHub login can contain.
- ReplayLedger.ReplayDirectory.ConsumeStepUpReceipt: the directory check is one boolean; the record's contents are not modelled.
- AuthorityService.Service.Authorize: blast radius, compliance and cost fields of the context and receipt are copied constants and left out, as are bearer authentication and the request parser.
- Aggregate.AggregateTrust: a missing or malformed receipt field is not modelled; parameters are positive.
- TrustTokens.IssueToken: signing and identifiers of the token; score claims rounded to three digits.
- TrustRoutes.PeerPassesExactlyWhen: the confirmation call is an answer that arrives later; its timeout counts as a refusal.
- DedupLaws.StepKeeps: provisioned identifiers are assumed distinct and not currently remembered; agent registration does not matter to receipts.
- RouteEngine.ResolveTrustRoute: the stable in-place sort is represented by the element it puts first; latency is whether it exceeded its budget.
- IsnadChain.VerifyIsnadChain: failure texts are a code and a link number; the chain hash and amounts of other types than number are not modelled.
- ProofEvaluator.ValidEarlier: parsing of documents and durations; durations are not negative.
- HTTP routing, environment parsing, admin listings, delegation and transfer checks, the gateway scoring, the token cache, the document parser and the keyword-based classifier: one or two branches each, or text matching.
