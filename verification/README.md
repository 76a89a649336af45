# A verified model of the fiber signing device

A device signs payment-channel commitments for a node it does not trust. This project models the four places where that
trust is decided, and proves what they keep over whole runs, not only message by message.

- **The signing gate and the balance rule** (`src/policy`). `Outcomes`, `Payments`, `ChargeSearch`, `BalanceRule`,
  `BalanceMethods`, `HoldRelease`, `Records` and `Engine` model the records and the code that rewrites them:
  `Engine.PolicyEngine` is the engine over its stored records, and each of its methods is proved equal to a function of
  the old state. `Runs` makes a run of any sequence of steps, refusals, restarts, mode changes and crashes between the
  writes of a claim among them; `Solvency`, `Budgets`, `Released`, `Unmixed`, `Shown`, `SignOnce`, `Versions` and
  `Claims` prove what every run keeps. `RuleAnswers`, `HonestMoves`, `ReleaseAnswers`, `ClaimAnswers` and `GateAnswers`
  say what is accepted, both ways and in the terms of amounts, hashes and totals, so that nothing safe is refused.
- **Settlement bodies and watchtower spends** (`src/digest/settlement-*`, `src/policy/watchtower-spend.ts`).
  `ByteStrings`, `Settlement` and `SettlementWitness` are the byte layout's reader and writer, `Descent` the lineages of
  unlocks, `Watchtower` and `WatchtowerFacts` the decision on a spend. `WitnessBytes` and `UnlockBytes` say which byte
  stands where, and `SpendAnswers` which spends are accepted, over the bytes they carry.
- **The invoice string** (`src/invoice`). `Powers`, `BitStrings`, `Scaling`, `Coding`, `CodingRoundTrip` and `Coder` are
  the arithmetic coder, bit by bit and in floating point, and `KnownStreams` some of its streams byte by byte; `Bech32m`,
  `Groups` and `InvoiceText` are the layers around it, `CheckPolynomial` the checksum's polynomial, and `InvoiceStrings`
  the string character by character.
- **Interleavings**. `Lanes` is the store's promise chain per key and `LaneProgress` its freedom from getting stuck,
  `Interleaving` the claim that is decided and then
  written beside writers outside the balance lane, `SmallSteps` the same read by read and write by write, `LeftAlone` that
  a claim nobody cuts off is carried through, `PaymentFlow` the sends and the runs of the payment step with failures and
  kills between awaits, `PaymentOverlap` what overlapping runs can do, `FlowAnswers` what each turn does with what it is
  told, and `PaymentRecords` the tie between the flow's intents and the gate's.

`Sums` holds sums over maps. Loops and classes of the code are methods and classes here, each proved against a function;
the theorems are lemmas about those functions.

The premises beside the code's own checks are these. Rounding (`Scaling.Rounds`) is monotone, exact on whole numbers up
to 2^53, and within half an ulp of other numbers below 2^53, tiny ones aside. The invoice's data layer writes back what
it accepts (`InvoiceText.WritesBack`). Data to compress is shorter than 2^40 bytes (`Coding.Countable`). TLC ids are
distinct per direction where the order of a list must not matter (`SettlementWitness.DistinctIds`), and the device's key
hashes have their length (`SettlementWitness.ValidKeys`). The peer's key hash in a signed commitment is not zero, for
one of two clauses (`WatchtowerFacts.PeersNamed`). Each invoice is recorded before a view shows its hash, for the
results on mixing (`Unmixed.Timely`). No run takes a hash another is reading, for the payment flow (`PaymentFlow.Apart`,
whose failure is characterised below). Session commitments, message digests and transaction hashes are injective, being
modelled as the values they stand for. Versions and slots are tied together as the dispatch ties them
(`Runs.DispatchFault`, `src/signer/utils/signing-terms.utils.ts:109-151`).

Two properties do not hold as they are usually said.

- The registered remote commitments are *not* always those without revocation evidence: the evidence for the commitment
  before the last can be recorded while a watchtower still counts it as registered. `Versions.RegisteredDespiteEvidence`
  is such a run, and `Versions.RegisteredAreOutstanding` says exactly when the two agree.
- An open intent is *not* always watched, nor a payment always ended on its latest answer: docs/sdk.md:297-299 has an
  answer that outlived its run act on nothing, but a write already awaited at the deadline still lands, beside the next
  run. Once both runs read one hash, the first to finish lets go of it for both. `PaymentOverlap.OverlapForgetsTheOpen`
  is such an interleaving. `PaymentOverlap.TakingIsSafeExactlyWhenUnread`, `EndsOnOlderExactlyWhenRead`,
  `EndsAmissExactlyWhenRead` and `ForgetsOpenExactlyWhenRead` say exactly which takes can lead to each failure; without
  them, as whenever each run ends before the next begins (`PaymentFlow.WaitingRunsKeepApart`), every interleaving keeps
  all three.

## Model

| member | source | states |
|---|---|---|
| `Solvency.RunsStaySolvent` | src/policy/policy-engine.ts:1008-1030 | After any run, each view of each channel holds, offered TLCs counted back and charges added, at least what the channel funded plus what the view was credited |
| `Solvency.ClosesPayOut` | src/policy/balance-rule.ts:189-204 | After any run, a close the gate accepts pays at least funded plus credited less charged, in either view, less one bound on the close fee |
| `Budgets.DrawsStayWithinBudgets` | src/policy/balance-rule.ts:95-127 | After any run and for every payment hash, the channels' draws, each at its worse view, sum to at most the highest budget ever approved under it (zero if none), and a channel that draws is listed on the intent |
| `Budgets.ClosedDrawsOnlyFall` | src/policy/balance-rule.ts:101-117 | While a hash has no open intent, no step raises any channel's draw under it |
| `Budgets.ExposuresCoverFunds` | src/policy/balance-rule.ts:278-306 | After any run and whichever view of each channel is broadcast, the exposures sum to at least everything funded and credited, less the highest budget approved per hash |
| `Shown.OfferedIsAuthorised` | src/policy/balance-rule.ts:50-60 | After any run, every offered TLC of a positive amount any view shows is the payment whose full hash the debit intent names |
| `Shown.PaidOnceIsPaid` | src/policy/policy-engine.ts:411-422 | Once a view was charged under a hash and its intent closed, no later run opens it again, and no channel's draw under it ever rises |
| `Released.ReleasedIsPaidOrHeld` | src/policy/hold-invoice-release.ts:32-67 | Once an invoice is released, in every reachable state and for every choice of one view per channel, credits and TLCs still listed sum to at least its amount |
| `Released.ReleaseIsForGood` | src/policy/policy-engine.ts:523-534 | A released invoice stays released with its hash and amount, whatever follows |
| `Released.RunsStayCovered` | src/policy/policy-engine.ts:404-410 | After any run no hash is both a payment's and an invoice's, an invoice lists each channel once, and every released one is covered at each channel's lesser view |
| `Unmixed.TimelyRunsStayOrderly` | src/policy/balance-rule.ts:129-137 | If each invoice is recorded before a view shows its hash, no reachable channel shows an offered TLC beside a received TLC of a released invoice, and no invoice is surely credited past its amount |
| `Unmixed.CreditsRaiseHoldings` | src/policy/balance-rule.ts:65-93 | In such a run, a commitment that credits an invoice raises its view's holdings by at least the credit and charges nothing |
| `Shown.ReleasedHeldOpens` | src/policy/balance-rule.ts:139-148 | In such a run, every received TLC of a released invoice any view shows is locked with the invoice's algorithm |
| `SignOnce.AtMostTwoSessions` | src/policy/policy-engine.ts:827-841 | Over every run, restarts and mode changes included, a slot answers at most two distinct sessions |
| `SignOnce.OneSessionWhenRefused` | src/policy/policy-engine.ts:838-840 | At most one when reuse was refused throughout |
| `SignOnce.LanesNeverFallInRuns` | src/policy/policy-engine.ts:842-859 | No lane's last number ever falls, between any two states of a run |
| `SignOnce.RepeatsChangeNothing` | src/policy/policy-engine.ts:829-831 | In any reachable state a well-formed claim whose slot has served its session is answered again, with the same status, and every record of the device stays as it was |
| `Versions.OneCommitmentPerVersion` | src/policy/policy-engine.ts:892-922 | No two different commitments are ever signed under one view and version of a channel |
| `Versions.VersionsRise` | src/policy/policy-engine.ts:903-912 | A new commitment's version is above every one signed in its view, and for the peer's exactly one above the last |
| `Versions.RemoteVersionsAreConsecutive` | src/policy/policy-engine.ts:930-936 | The peer's signed versions leave no gap up to the last |
| `Versions.LatestIsNeverRevoked` | src/policy/policy-engine.ts:960-975 | Every revocation ever signed is of a version below its view's last signed commitment |
| `Versions.OldRemoteIsRevoked` | src/policy/policy-engine.ts:930-952 | In every reachable state a signed remote version two or more below the last has its revocation signature recorded |
| `Versions.OutstandingAreRegistered` | src/policy/policy-engine.ts:892-922 | After any run every signed remote commitment without evidence is registered, and every registered one was signed |
| `Versions.RegisteredAreTheLastTwo` | src/policy/policy-engine.ts:911-921 | The registered remote commitments are exactly the signed ones whose version is at least the last one's less one |
| `Versions.RegisteredAreOutstanding` | src/policy/policy-engine.ts:911-921 | The registered remote commitments are exactly the signed ones without evidence if and only if neither of the two stored versions, the last and the one before it, is among the recorded revocations |
| `Versions.RegisteredDespiteEvidence` | src/policy/policy-engine.ts:198-217 | A run after which a registered remote commitment already has its evidence recorded |
| `Claims.ClaimsStayBounded` | src/policy/policy.constants.ts:110-113 | After any run a channel holds at most 768 spend claims, one per request id and one per commitment and unlocked entry, and while a claim's commitment is registered that commitment lists its entry |
| `Claims.ClaimsAreOnSigned` | src/policy/watchtower-spend.ts:86-111 | After any run every claim, its commitment registered or not, is on an entry or balance of a commitment signed under its view and version |
| `Claims.SignedClaimsStay` | src/policy/watchtower-spend.ts:101-111 | A claim once signed is there, signature and all, after every part of any further run at whose end its commitment is still registered, and its commitment is registered all along |
| `Claims.RegisteredBefore` | src/policy/watchtower-spend.ts:179-193 | A commitment signed before a step and registered after it was registered before it: one that leaves the registered ones never comes back |
| `Claims.StepKeepsClaims` | src/policy/watchtower-spend.ts:179-193 | Any step keeps the claims' invariant, a commitment's version never being bound to another body |
| `Interleaving.DecidedIsWritten` | src/policy/policy-engine.ts:622-646 | Whatever registrations, revocation and watchtower writes fall between a claim's decision and its write, it is written with the decided verdict and fields, as one step after them |
| `Interleaving.SameDecision` | src/policy/policy-engine.ts:204-216 | A decision accepted on a record is accepted, verdict and fields alike, on that record after any such writes |
| `SmallSteps.EveryStateIsARuns` | src/policy/policy-engine.ts:596-693 | A claim read hash by hash and channel by channel, decided, filed hash by hash and written, and payment records read and written apart, beside any writers outside the balance lane and cut off anywhere: every state's records, finished or not, are those a run of whole steps leaves, and the sessions answered for are those it served |
| `SmallSteps.TurnStands` | src/policy/policy-engine.ts:622-646 | Each such turn extends the run by at most one whole step and keeps what a pending claim or answer has read in force |
| `SmallSteps.WrittenWhole` | src/policy/policy-engine.ts:639-647 | The second decision never refuses a filed claim, and its write makes the device exactly the whole claim's |
| `LeftAlone.AcceptedIsWritten` | src/policy/policy-engine.ts:622-647 | Once the lane is free, a claim the gate accepts is answered and written by turns of its own, to exactly the state the whole step leaves |
| `LeftAlone.AnsweredIsPut` | src/policy/policy-engine.ts:687-693 | And a step on a payment record that is accepted is written |
| `ChargeSearch.Search` | src/policy/balance-rule.ts:251-262 | The loop over bit masks returns exactly the union of the non-empty subsets whose sum fits the interval |
| `ChargeSearch.ChargedTlcs` | src/policy/balance-rule.ts:236-270 | The TLCs charged, or the refusal, as the specification of the search gives them |
| `ChargeSearch.ChargesCoverShortfall` | src/policy/balance-rule.ts:236-270 | What is charged is offered TLCs that left, summing to at least the shortfall |
| `ChargeSearch.WhatWasPaidIsCharged` | src/policy/balance-rule.ts:245-269 | If a set of positive offered TLCs really was paid while departed received TLCs added anything up to their total, the search accepts and charges all of the set |
| `ChargeSearch.RefusesExactlyTheUnexplained` | src/policy/balance-rule.ts:239-268 | Up to twelve departed offered TLCs, it refuses exactly when the holdings fell and no such set explains the fall |
| `BalanceMethods.MultisetDifference` | src/policy/balance-rule.ts:329-338 | Counting down returns the multiset difference, in the first list's order |
| `BalanceMethods.SumByHash` | src/policy/balance-rule.ts:314-321 | The sum of one direction's amounts under each hash, holding exactly the hashes that direction shows |
| `BalanceMethods.SumCredits` | src/policy/balance-rule.ts:289-296 | This view's credit plus the lesser of both views' credits in every other channel |
| `BalanceMethods.SumDraws` | src/policy/balance-rule.ts:98-120 | The sum of the greater of both views' draws over the other channels |
| `BalanceMethods.CreditOne` | src/policy/balance-rule.ts:71-85 | One departed received TLC is credited up to what its released invoice still owes, and what is past it is counted unasked |
| `BalanceMethods.CreditLeft` | src/policy/balance-rule.ts:65-86 | The same over all TLCs that left, each credit lowering what is owed to the next |
| `BalanceMethods.ChargeAll` | src/policy/balance-rule.ts:89-93 | Each charged TLC adds its amount under its hash |
| `BalanceMethods.AccountForLeft` | src/policy/balance-rule.ts:62-93 | The snapshot a commitment leads to, credits and charges included, or a refusal when its shortfall is not explained |
| `BalanceMethods.JudgeDraws` | src/policy/balance-rule.ts:95-127 | Refuses exactly when a hash shown draws more than either view did, without an open intent that covers it across all channels |
| `BalanceMethods.OffersTwin` | src/policy/balance-rule.ts:50-60 | Refuses exactly when some offered TLC sits under an intent's bound bytes and binds a whole hash other than the intent's |
| `BalanceMethods.JudgeMix` | src/policy/balance-rule.ts:129-137 | Refuses exactly when a channel comes to show, or grows while showing, an offered TLC beside a released held one |
| `BalanceMethods.JudgeAlgorithms` | src/policy/balance-rule.ts:139-148 | Refuses exactly when an added TLC of a released invoice has another algorithm |
| `BalanceMethods.JudgeCommitment` | src/policy/balance-rule.ts:44-151 | The rule in its loops gives the snapshot or the refusal of its specification, which `RuleAnswers.AcceptedExactly` and `RuleAnswers.AcceptedSnapshot` state in amounts, hashes and totals |
| `RuleAnswers.AcceptedExactly` | src/policy/balance-rule.ts:44-151 | A commitment is accepted exactly when each TLC it offers under an intent's bytes is the intent's own, what fell is explained by offered TLCs that left, each payment it shows takes no more than either view did or is covered by its open intent with the other channels at their worse views, it mixes no more than before, and each received TLC of a released invoice it adds has the invoice's algorithm; any other is a policy refusal |
| `RuleAnswers.AcceptedSnapshot` | src/policy/balance-rule.ts:62-93 | The snapshot an accepted one leaves: its exposure and list, each hash charged what the explaining TLCs of it amount to, and each released invoice credited what left of it up to what it is owed |
| `RuleAnswers.AccrualIs` | src/policy/balance-rule.ts:65-86 | The credits taken TLC by TLC are, hash by hash, what left in all, up to what the invoice was owed before |
| `HonestMoves.OfferIsSigned` | src/policy/balance-rule.ts:95-127 | A payment offered under its own open intent, the exposure down by its amount and the budget covering it beside every draw, no TLC of a released invoice shown, is accepted with exactly that list and exposure and nothing charged or credited |
| `HonestMoves.OfferComesBack` | src/policy/balance-rule.ts:62-93 | An offered TLC that leaves with its amount back on the exposure is accepted and charges nothing |
| `HonestMoves.OfferIsPaid` | src/policy/balance-rule.ts:236-270 | One that leaves with its amount gone is accepted and charged, whole, to its own hash alone |
| `HonestMoves.HeldIsPaid` | src/policy/balance-rule.ts:65-93 | A received TLC of a released invoice may leave exactly when the exposure rises by what the invoice is still owed of it, and is credited that |
| `HonestMoves.HeldLeaves` | src/policy/balance-rule.ts:71-85 | A received TLC of no released invoice may leave exactly when the exposure does not fall |
| `HonestMoves.HeldIsAdded` | src/policy/balance-rule.ts:129-148 | A received TLC may be added at no loss exactly when it brings no mix and has its released invoice's algorithm |
| `BalanceFacts.HoldingsAreKept` | src/policy/balance-rule.ts:88-93 | An accepted commitment keeps holdings plus charges less credits from falling |
| `BalanceFacts.DrawsAreCovered` | src/policy/balance-rule.ts:101-127 | A draw above both views' is under an open intent whose maximum covers it with every other channel at its worst |
| `BalanceFacts.CreditsCover` | src/policy/balance-rule.ts:65-86 | Departed TLCs of a released invoice are credited in full or until it is surely paid, and other hashes not at all |
| `BalanceFacts.ReleasedStaysCovered` | src/policy/balance-rule.ts:62-86 | What a view was credited to a released invoice and still lists of it does not fall, unless the invoice is surely paid |
| `BalanceFacts.CreditRaisesHoldings` | src/policy/balance-rule.ts:88-93 | With no offered TLC leaving, a credit is matched by the holdings |
| `Payments.DifferenceIsMultisetDifference` | src/policy/balance-rule.ts:329-338 | The ordered difference is the difference of multisets |
| `Payments.TotalOfMultiset` | src/policy/balance-rule.ts:23-34 | Totals do not depend on the order a commitment lists its TLCs in |
| `Payments.ShownOrLeft` | src/policy/balance-rule.ts:62-63 | What a list showed is still shown or among what left |
| `HoldRelease.JudgeHoldInvoiceRelease` | src/policy/hold-invoice-release.ts:32-83 | Releases, or refuses with the code, exactly as its specification: algorithm, offered TLC, amount held, expiry margin, in that order over the channels; `ReleaseAnswers.ReleasedExactly` states when, by quantifiers and sums |
| `HoldRelease.HoldingOf` | src/policy/hold-invoice-release.ts:40-57 | One channel's holding of the invoice at its lesser view, or its fault, the algorithm looked at before offered TLCs |
| `HoldRelease.GatherHeld` | src/policy/hold-invoice-release.ts:37-58 | Each channel's lesser holding of the invoice, or the first channel's fault |
| `HoldRelease.CheckDeadlines` | src/policy/hold-invoice-release.ts:69-82 | The first expiry within its channel's margin, or none |
| `HoldRelease.HeldByIsSum` | src/policy/hold-invoice-release.ts:60-61 | The amount held, added up channel by channel, is the sum over the channels whatever their order |
| `HoldRelease.ReleasedIsHeld` | src/policy/hold-invoice-release.ts:38-67 | A release implies the channels, each at its lesser view, hold the amount, with no other algorithm and no offered TLC beside |
| `HoldRelease.ReleasedIsTimely` | src/policy/hold-invoice-release.ts:69-82 | A release implies every held TLC expires after its channel's margin |
| `ReleaseAnswers.ReleasedExactly` | src/policy/hold-invoice-release.ts:32-83 | A release is accepted exactly when no channel listed shows the invoice under another algorithm or beside an offered TLC, the sum of what the channels show of it at their lesser views is at least its amount, and every TLC of it expires past its channel's margin, which is there |
| `ReleaseAnswers.RefusedExactly` | src/policy/hold-invoice-release.ts:37-82 | What each refusal code means: the first channel in order to rule it out and by what, then an amount not held, then the first channel with an expiry too close or with no margin |
| `Records.JudgeClosingTx` | src/policy/balance-rule.ts:189-204 | Accepts exactly when both views list no TLC and the payout is within one close fee of each exposure |
| `Records.DecideClaim` | src/policy/policy-engine.ts:819-884 | The decision on a claim: repeats first, then slot, lane, succession, pins and balance rule, with their refusal codes |
| `ClaimAnswers.ClaimedExactly` | src/policy/policy-engine.ts:596-647 | In every reachable state, what a claim is answered: malformed, unknown, repeated with its slot's status, refused for its slot, stale in its lane or succession, refused by pins or funds, and accepted in every other case |
| `ClaimAnswers.SignedExactly` | src/policy/policy-engine.ts:819-884 | A claim not answered before is signed exactly when its slot has room, its lane goes on, a revocation has its replacement, a commitment's version follows, the pins admit it and the funds pass, each refusal with its code |
| `ClaimAnswers.SignedLeaves` | src/policy/policy-engine.ts:859-883 | What signing leaves of the record: the session in its slot, the lane at its number, the commitments and views decided, and every other field |
| `ClaimAnswers.FollowsIs` | src/policy/policy-engine.ts:892-922 | A version follows exactly when it is above the device's last, or the peer's next with the one two below it revoked and recorded if ever signed; it becomes the last, and the peer's last the one before it |
| `ClaimAnswers.FundsAre` | src/policy/policy-engine.ts:1008-1030 | A first commitment must be bare and at the funding, each is judged by the rule, and a close must find both views bare and pay within 100,000,000 shannons of each exposure |
| `ClaimAnswers.ContextIsTheRecords` | src/policy/policy-engine.ts:655-680 | In every reachable state a commitment is judged on exactly the records of the hashes either view or its list shows and the views of exactly the other channels those records name |
| `ClaimAnswers.ClaimedLeaves` | src/policy/policy-engine.ts:639-647 | A newly signed claim rewrites its own channel's record alone, and names the channel once under exactly the hashes it shows |
| `ClaimAnswers.OfferIsClaimed` | src/policy/policy-engine.ts:596-647 | In every reachable state a payment the user approved, covered beside all that every channel draws on it, is signed once its claim is in order: the view gains the TLC and gives up its amount, nothing is charged or credited, other channels stay, and the intent names the channel |
| `Engine.PolicyEngine.RegisterChannel` | src/policy/policy-engine.ts:114-160 | A new channel opens both views at what it funded; a known one must state the same amount |
| `Engine.PolicyEngine.ReadListedChannels` | src/policy/policy-engine.ts:580-588 | Every listed channel's views, or none if one holds no record |
| `Engine.PolicyEngine.IsChargedAnywhere` | src/policy/policy-engine.ts:700-704 | Whether any listed channel's view charged the intent's hash |
| `Engine.PolicyEngine.RecordDebitIntent` | src/policy/policy-engine.ts:400-431 | Opens the intent, keeping its listed channels, unless an invoice, a twin, an open or a charged intent refuses it |
| `GateAnswers.ApprovedExactly` | src/policy/policy-engine.ts:400-431 | In every reachable state a payment is approved, a closed one with its new budget, unless its bytes are an invoice's or another payment's, it is open, or a channel its intent names was charged for it; each refusal with its code |
| `Engine.PolicyEngine.CloseDebitIntent` | src/policy/policy-engine.ts:437-446 | Closes the intent of exactly that full hash |
| `Engine.PolicyEngine.RecordHoldInvoice` | src/policy/policy-engine.ts:467-509 | Records the invoice once, refusing zero, a payment's hash and any other terms |
| `Engine.PolicyEngine.MarkHoldInvoiceReleased` | src/policy/policy-engine.ts:516-536 | Releases once and for good, under the judgement of its listed channels |
| `GateAnswers.MarkedExactly` | src/policy/policy-engine.ts:516-536 | In every reachable state a release is judged on the views of the channels its invoice names, a second one changes nothing, and only the invoice's flag is written |
| `GateAnswers.PreimageGoesOutExactly` | src/policy/policy-engine.ts:516-536 | In every reachable state an invoice not released yet is released exactly when the channels it names hold its amount at their lesser views, in its algorithm, beside no offered TLC and long enough |
| `Engine.PolicyEngine.ReadPaymentRecords` | src/policy/policy-engine.ts:661-670 | The intents and invoices under every hash either view or the claim shows, and every channel they list |
| `Engine.PolicyEngine.ReadOthers` | src/policy/policy-engine.ts:673-678 | Both views of every other channel listed, or none if one holds no record |
| `Engine.PolicyEngine.LoadBalanceContext` | src/policy/policy-engine.ts:655-680 | Nothing for an operation that shows no TLC lists; for a commitment, what `ReadPaymentRecords` and `ReadOthers` find for its own list and both stored ones, or a host error |
| `Engine.PolicyEngine.FileChannel` | src/policy/policy-engine.ts:687-693 | Afterwards each of the given hashes' records, intent or invoice, names the channel once, and nothing else has changed |
| `Engine.PolicyEngine.CheckAndClaimSlot` | src/policy/policy-engine.ts:596-647 | Decides before writing, files and then writes; a refusal or a repeat leaves every record |
| `Engine.PolicyEngine.RecordRevocationSignature` | src/policy/policy-engine.ts:198-217 | Records the signature of a revocation whose slot was served, and rewrites it on every delivery |
| `Engine.PolicyEngine.CheckWatchtowerSpend` | src/policy/policy-engine.ts:226-248 | Refuses without the host's approval, else writes what the spend rules decide |
| `Engine.PolicyEngine.RecordWatchtowerSignature` | src/policy/policy-engine.ts:256-268 | Records a claim's signature once, refusing another |
| `Engine.PolicyEngine.MarkWatchtowerSpendApplied` | src/policy/policy-engine.ts:275-284 | Marks a signed claim applied |
| `GateAnswers.SignatureExactly` | src/policy/policy-engine.ts:256-268 | In every reachable state a claimed spend takes one signature, again the same one and no other, and no other spend changes |
| `GateAnswers.AppliedExactly` | src/policy/policy-engine.ts:275-284 | In every reachable state a claimed spend is marked applied exactly once it is signed, and no other spend changes |
| `GateAnswers.PassedExactly` | src/signer/utils/signing-terms.utils.ts:109-151 | A request comes to the gate unless it is an announcement, a sent commitment off its slot's number, or a revocation of any version but the one below it |
| `Engine.PolicyEngine.constructor` | src/policy/policy-engine.ts:84-104 | The engine starts on the records stored, under the mode and approval it is given |
| `Runs.StepMoves` | src/policy/policy-engine.ts:596-631 | Every step of the device is one of eight moves of its money ledger, or leaves it |
| `Descent.FindDescentFault` | src/policy/watchtower-spend.ts:300-316 | Finds no fault exactly when the entries are a sub-multiset of the committed ones and each balance is unchanged or settled |
| `Descent.EveryDescendantPasses` | src/policy/watchtower-spend.ts:246-256 | Every body reached from a committed one by any unlocks and settlements of either party passes the descent check |
| `Descent.WhatPassesIsReached` | src/policy/watchtower-spend.ts:300-316 | Every body that passes is reached by some lineage, up to the order of its entries |
| `Descent.LineageConserves` | src/digest/settlement-unlock.ts:172-195 | Along any lineage, the released amounts and what the body still holds sum to the committed total |
| `Watchtower.FindDescendants` | src/policy/watchtower-spend.ts:246-256 | The registered commitments the spent body descends from, or the refusal of one that cannot be read |
| `Watchtower.AssertPaidOut` | src/policy/watchtower-spend.ts:456-484 | Accepts exactly when one or two bare outputs past the remainder pay the destination what is released less the fee |
| `Watchtower.DecideWatchtowerSpend` | src/policy/watchtower-spend.ts:63-112 | The verdict and the claims to keep, every rule in its order; `SpendAnswers.AcceptedExactly` and `SpendAnswers.VerdictExactly` state them over the spend's bytes |
| `SpendAnswers.AcceptedExactly` | src/policy/watchtower-spend.ts:63-112 | A spend is accepted on its terms exactly when they are those of its bytes: its source the one registered commitment it reads as, its unlock one the key may sign, its signature empty, its remainder the source's cell less what is released, and its payout in one or two outputs to the destination |
| `SpendAnswers.ReleasedExactly` | src/policy/watchtower-spend.ts:364-422 | A TLC key frees an entry's amount exactly when the entry shows the key's hash as the device's half, with a preimage if and only if its bit says it was received; the settlement key frees the device's own balance under its base key, with no offered entry left unless the peer's balance is settled, and then every entry with it |
| `SpendAnswers.RemainderExactly` | src/policy/watchtower-spend.ts:424-447 | The first output is a remainder exactly when it keeps the source's lock but for the args, which carry on with the hash of the body past the unlock and a set flag, has no type and no data, and is worth the source less the release where that is known |
| `SpendAnswers.PayoutExactly` | src/policy/watchtower-spend.ts:456-484 | The payout is one or two bare outputs to the destination worth the release less the fee |
| `SpendAnswers.SourceExactly` | src/policy/watchtower-spend.ts:201-280 | The source is the first registered commitment, in order, whose reading the remainder names or, where it names none, the first that reads at all |
| `SpendAnswers.VerdictExactly` | src/policy/watchtower-spend.ts:81-111 | An accepted spend's verdict: a request recorded before is answered again or refused for another transaction, an entry signed for before is unclaimed, and a fresh one is added in place of unsigned claims of its entry and of claims on commitments no longer registered |
| `WatchtowerFacts.AcceptedSpendPaysOut` | src/policy/watchtower-spend.ts:364-447 | An accepted spend descends from a registered commitment, pays the destination what it releases less the fee, and leaves a remainder committing the next body, conserving both its amounts and its capacity |
| `WatchtowerFacts.FinalSpendReleasesAll` | src/policy/watchtower-spend.ts:406-422 | A spend with no remainder releases all the body holds exactly when the peer's balance is zero, which holds whenever the commitments name a peer key |
| `WatchtowerFacts.DecisionKeepsClaims` | src/policy/watchtower-spend.ts:81-111 | A decision keeps claims distinct and bounded, and every signed claim of a registered commitment |
| `Settlement.ReadsWrittenBody` | src/digest/settlement-unlock.ts:116-129 | The reader gives back every body the writer wrote, under both layouts |
| `Settlement.WritesReadBody` | src/digest/settlement-unlock.ts:116-129 | Rejoining what was read gives the same bytes: one body, one form |
| `Settlement.UnlockIsWellFormed` | src/digest/settlement-unlock.ts:67-108 | An accepted unlock targets an entry of its body or a balance without preimage, and its body rejoins to the bytes read |
| `UnlockBytes.ReadsWrittenUnlock` | src/digest/settlement-unlock.ts:67-108 | An unlock written byte by byte, prefix, body, kind, flag, signature and preimage, is read back as it was |
| `UnlockBytes.WritesReadUnlock` | src/digest/settlement-unlock.ts:203-211 | Every unlock the reader accepts is the bytes it was written as |
| `Settlement.NextWitnessReadsBack` | src/digest/settlement-unlock.ts:172-195 | The remainder's body reads back as the body with the entry dropped or the device's balance zeroed |
| `SettlementWitness.WitnessReadsBack` | src/digest/settlement-witness.ts:54-128 | A built witness reads back, in both views and both layouts, as each TLC's direction, amount and device key hash in order and both balances at their indices, and rejoins to the same bytes; `WitnessBytes.WitnessIsSpelled` states every other byte |
| `WitnessBytes.WitnessIsSpelled` | src/digest/settlement-witness.ts:54-128 | A built body, byte by byte: the count, one entry for each TLC in order, and both balances; an entry is a flag of the algorithm (0 for ckb-hash, 1 for sha256) twice plus one where the view's owner offered the TLC, the amount, the first 20 or 32 bytes of the payment hash, both key hashes in the view's order with the peer's the hash of its key, and 2^62 plus the expiry in seconds |
| `WitnessBytes.WrittenExactlyWhenFit` | src/digest/settlement-witness.ts:54-77 | A body is written exactly when the balances and amounts fit sixteen bytes, there are at most 255 TLCs, hashes have 32 bytes and expiries fit |
| `WitnessBytes.EqualWitnessesSpellAlike` | src/digest/settlement-witness.ts:54-128 | Equal bodies are of equal ordered lists of directions, algorithms, hashes, amounts, key halves and expiries, and of equal balances |
| `SettlementWitness.WitnessIgnoresListOrder` | src/digest/settlement-witness.ts:79-91 | The witness does not depend on the order of the TLC list when ids are distinct per direction |
| `Scaling.FloatsShare` | src/invoice/arithmetic-coder.ts:65-71 | Any rounding scaling as the code computes it maps none to none and all to all and is strictly increasing on ranges a quarter wide |
| `Scaling.ExactlyShares` | src/invoice/arithmetic-coder.ts:65-71 | So does scaling by exact integer division |
| `Coding.SubRangeInside` | src/invoice/arithmetic-coder.ts:26-29 | On a settled range every symbol's share is inside it and not empty |
| `Coding.SharesInOrder` | src/invoice/arithmetic-coder.ts:65-71 | The shares do not overlap and follow the symbols' order |
| `Coding.FindsHolder` | src/invoice/arithmetic-coder.ts:37-47 | The pass over the symbols finds the one whose share holds the value |
| `Coding.FoundHolds` | src/invoice/arithmetic-coder.ts:37-46 | For any value of the range, what is found holds it, the end marker by default |
| `Coder.CoderModel.constructor` | src/invoice/arithmetic-coder.ts:15-18 | Every symbol starts with one count |
| `Coder.CoderModel.SubRangeOf` | src/invoice/arithmetic-coder.ts:26-29 | A symbol's share of the range, summed over the counts |
| `Coder.CoderModel.FindSymbol` | src/invoice/arithmetic-coder.ts:37-47 | The first symbol whose share holds the value, the end marker by default, and that share |
| `Coder.CoderModel.Update` | src/invoice/arithmetic-coder.ts:53-56 | One more count for a byte, and the total with it |
| `Coder.CoderOutput.Emit` | src/invoice/arithmetic-coder.ts:83-86 | The bit and then its opposite for every scaling owed, none owed after |
| `Coder.CoderOutput.ToBytes` | src/invoice/arithmetic-coder.ts:92-96 | The bits in bytes, most significant first, zero padded |
| `Coder.CoderInput.NextBit` | src/invoice/arithmetic-coder.ts:115-124 | The next bit, then 48 padding zeros, then a refusal |
| `Coder.CoderInput.constructor` | src/invoice/arithmetic-coder.ts:99-109 | The reader starts at the first bit with all its padding |
| `Coder.PackingPads` | src/invoice/arithmetic-coder.ts:92-96 | The packed bytes spell the bits and then zeros |
| `Coder.WriteSettled` | src/invoice/arithmetic-coder.ts:138-147 | The renormalising loops end, write the bits of the specification and leave a range at least a quarter wide |
| `Coder.CodeOne` | src/invoice/arithmetic-coder.ts:136-149 | One symbol coded and counted leaves the bits written and owed, with those still to come, as they were specified |
| `Coder.CodeEnd` | src/invoice/arithmetic-coder.ts:150-151 | The final bit and its opposite complete the specified stream, whatever was owed |
| `Coder.Compress` | src/invoice/arithmetic-coder.ts:132-153 | Writes the bytes of the specified bit stream for every input |
| `Coder.ReadSettled` | src/invoice/arithmetic-coder.ts:171-179 | The decoder's renormalising loops end, with the value kept in the half-open range, or refuse past the padding |
| `Coder.ReadDoubled` | src/invoice/arithmetic-coder.ts:172-178 | One doubling reads one bit and keeps the value in the range |
| `Coder.ReadValue` | src/invoice/arithmetic-coder.ts:164-165 | The first 48 bits, zeros past the end, as a number |
| `Coder.DecodeOne` | src/invoice/arithmetic-coder.ts:170-181 | One byte decoded, counted and settled |
| `Coder.DecodeAll` | src/invoice/arithmetic-coder.ts:167-184 | The decoder's loop gives the specified bytes or refusal, the length limit included |
| `Coder.Decompress` | src/invoice/arithmetic-coder.ts:160-185 | Reads as its specification, bounded padding and limit included |
| `Coder.CompressedIsDecompressed` | src/invoice/arithmetic-coder.ts:132-185 | Decompressing what was compressed gives back the bytes, for every input up to the length limit |
| `Coder.RoundTripInFloats` | src/invoice/arithmetic-coder.ts:65-71 | The same with the ranges computed in floating point |
| `Coder.TrailingBytesChangeNothing` | test/tests/invoice/arithmetic-coder.spec.ts:37-40 | The decoder never reads past the end marker: bytes after a compressed stream change nothing of what it decompresses to |
| `KnownStreams.KnownInFloats` | test/tests/invoice/arithmetic-coder.spec.ts:14-21 | In floating point, whatever its ties, nothing is written as ff40, a zero byte as 00fe80 and a 0xff byte as ff0040; and the model adapts, a zero byte twice being 0001f9 |
| `CodingRoundTrip.DecodesWhatWasCoded` | src/invoice/arithmetic-coder.ts:160-185 | Decoding the coded bits, whatever bits follow them, gives back exactly the data up to the length limit and refuses what is longer; the 48 padding bits always suffice |
| `CodingRoundTrip.CodedLands` | src/invoice/arithmetic-coder.ts:150-151 | From any settled range the coded bits, whatever follows the two final ones, make a value inside that range and inside the next symbol's share |
| `Bech32m.Polymod` | src/invoice/bech32m.ts:21-31 | The loop computes the residue of the checksum polynomial (BIP-173, section "Bech32") |
| `Bech32m.StepIsLinear` | src/invoice/bech32m.ts:25-28 | One polynomial step is linear over xor |
| `Bech32m.ChecksOnlyItsChecksum` | src/invoice/bech32m.ts:57-69 | After any values, the six groups that make the residue the constant of BIP-350 (section "Bech32m") are the written ones and no others |
| `CheckPolynomial.StepDivides` | src/invoice/bech32m.ts:21-31 | One step of the checksum multiplies a polynomial over the field of 32 by x, adds the value and takes the generator x^6 + 29x^5 + 22x^4 + 20x^3 + 21x^2 + 29x + 18 off (BIP-173, section "Bech32") |
| `CheckPolynomial.CheckedExactly` | src/invoice/bech32m.ts:48-59 | A string is checked exactly when 21x^5 + 28x^4 + 16x^3 + 12x^2 + 5x + 3 is left of it, its head's high and low bits and its groups the coefficients |
| `CheckPolynomial.GeneratorIsThePolynomial` | src/invoice/bech32m.ts:8 | The five words are the generator's coefficients times the powers of the field's root |
| `Bech32m.DecodesWhatWasEncoded` | src/invoice/bech32m.ts:48-71 | The reader gives back every lowercase part and groups the writer wrote |
| `Bech32m.EncodesWhatWasDecoded` | src/invoice/bech32m.ts:48-71 | Every string the reader accepts is the one the writer writes for its parts |
| `Groups.BytesToGroups` | src/invoice/bech32m.ts:78-92 | The accumulator loop cuts the bytes' bits into fives, zero padding the last |
| `Groups.GroupsToBytes` | src/invoice/bech32m.ts:100-114 | The accumulator loop rejoins them, refusing padding of a whole group or not zero |
| `Groups.BytesComeBack` | src/invoice/bech32m.ts:78-114 | Regrouping bytes and back gives the same bytes |
| `Groups.GroupsComeBack` | src/invoice/bech32m.ts:78-114 | Groups the reader accepts are those the writer cuts its bytes into |
| `InvoiceText.ParsedIsWritten` | src/invoice/invoice.ts:31-48 | A human-readable part the reader accepts is written back the same |
| `InvoiceText.WrittenIsParsed` | src/invoice/invoice.ts:31-48 | Every currency and canonical amount written reads back |
| `InvoiceStrings.InvoiceIsSpelled` | src/invoice/invoice.ts:75-80 | An invoice's string is its currency's name, "fibb", "fibt" or "fibd", its amount if it states one, a "1", and in the charset's characters the flag 1, the groups of the data, the 104 of the signature and six more |
| `InvoiceStrings.AmountsAreNumerals` | src/invoice/invoice.ts:42-48 | The amounts accepted are exactly the decimal numerals, without leading zeros, of the numbers below 2^128 |
| `InvoiceText.DecodedIsEncoded` | src/invoice/invoice.ts:128-143 | Every string the reader accepts is exactly what the writer writes for the invoice read |
| `InvoiceText.DecodingIsInjective` | src/invoice/invoice.ts:123-128 | Two strings read as one invoice are one string |
| `InvoiceText.EncodedIsDecoded` | src/invoice/invoice.ts:75-80 | Every string written for a well-signed invoice reads back as it |
| `Lanes.OneAtATimeInOrder` | src/policy/signer-store.ts:307-318 | In every interleaving, two operations of one key never run at once, and the one joined earlier has settled before the later starts |
| `Lanes.EqualsSequentialUpdates` | src/policy/signer-store.ts:239-253 | What a key holds is its first value under whole updates, one after another in the order they joined, an update that hands back nothing leaving it as it was |
| `LaneProgress.NoneIsStuck` | src/policy/signer-store.ts:307-318 | From any state of any interleaving some turns more settle any operation that has not, writing its update: at most three for it and three for each that joined before it |
| `Lanes.SignerStore.Join` | src/policy/signer-store.ts:307-312 | An operation waits for the last one in its key's lane |
| `Lanes.SignerStore.Start` | src/policy/signer-store.ts:309 | An operation starts once the one before it in its lane has settled |
| `Lanes.SignerStore.ReadValue` | src/policy/signer-store.ts:245 | It reads what its key holds then |
| `Lanes.SignerStore.WriteValue` | src/policy/signer-store.ts:246-251 | It writes what its update makes of the value read, and nothing where the update hands back nothing |
| `Lanes.SignerStore.Clean` | src/policy/signer-store.ts:313-317 | A lane is dropped by its last operation alone |
| `Lanes.SignerStore.UpdateAt` | src/policy/signer-store.ts:239-253 | A free key's read, update and write as one step, the lane cleaned after |
| `PaymentFlow.EveryInterleavingKeeps` | src/sdk/payment-sending.ts:59-105 | In every interleaving of sends and any number of step runs, abandoned ones still acting, with failures and kills between any two awaits, an open intent's full hash is watched and no hash is both sent and read, as long as no run takes a hash another is still reading |
| `PaymentFlow.EndsOnTheLatestAnswer` | src/sdk/payment-step.ts:52-91 | In those interleavings no run, abandoned or not, closes or forgets a payment but on an answer read after the last send under its hash, with no send in progress; that the answer said so is `FlowAnswers.EndsOnlyTheEnded` |
| `FlowAnswers.EndsOnlyTheEnded` | src/sdk/payment-step.ts:76-90 | In every interleaving whatever, a run that closes, announces or forgets a payment was last told, since it took it, that the payment has ended |
| `FlowAnswers.NotEndedChangesNothing` | src/sdk/payment-step.ts:76-88 | After an answer that it has not ended, the run lets go of the hash and every intent, watch and send is as it was |
| `FlowAnswers.EndedIsForgotten` | src/sdk/payment-step.ts:52-91 | After an answer that it has, a run left alone closes the intent if one is recorded, forgets the hash and lets go of it |
| `FlowAnswers.IntentsChangeOnlyBy` | src/sdk/payment-step.ts:52-91 | The turns that change an intent are a recorded attempt, a refused send taken back and a run's end, each in its own way |
| `FlowAnswers.ListChangesOnlyBy` | src/sdk/payment-sending.ts:59-105 | The turns that change the watched list are a send's first watch, its taking back and a run's forgetting |
| `FlowAnswers.TransfersDoAsTold` | src/sdk/payment-sending.ts:59-105 | In every interleaving a transfer stands where it was last told to: it sends what the gate approved, closes what the node refused, and unwatches what the gate refused with nothing open |
| `FlowAnswers.SentIsFollowed` | src/sdk/payment-sending.ts:59-105 | A transfer left alone whose send is not refused leaves its hash watched, its intent open and one send more |
| `FlowAnswers.RefusedIsTakenBack` | src/sdk/payment-sending.ts:86-105 | One whose send is refused, left alone, closes its intent and watches its hash no more |
| `PaymentFlow.ForgetsOnlyClosed` | src/sdk/payment-step.ts:56-62 | In those interleavings what any run forgets has no open intent |
| `PaymentFlow.WaitingRunsKeepApart` | src/sdk/poller.ts:101-127 | Where each tick lists the payments only once no earlier run is left, no run takes a hash another is reading |
| `PaymentOverlap.OverlapForgetsTheOpen` | src/sdk/poller.ts:134-166 | An interleaving in which a run abandoned at its deadline overlaps the next: a run about to forget an open intent on an answer older than its last send, and one turn later the intent is open and unwatched |
| `PaymentOverlap.TakingIsSafeExactlyWhenUnread` | src/sdk/payment-step.ts:70-74 | In any state reached with its runs apart, a run's next take can lead to an open unwatched intent, every later take being of an unread hash, if and only if another run is reading that hash and no other payment is recorded under its bound bytes |
| `PaymentOverlap.EndsOnOlderExactlyWhenRead` | src/sdk/payment-step.ts:76-90 | The same take can lead to a run that closes or forgets a payment on an answer older than its last send, under exactly the same condition |
| `PaymentOverlap.EndsAmissExactlyWhenRead` | src/sdk/payment-step.ts:73-89 | The same take can lead to a run that closes or forgets a payment on an older answer or with a send in progress if and only if another run is reading the hash, whatever is recorded under its bound bytes |
| `PaymentOverlap.ForgetsOpenExactlyWhenRead` | src/sdk/payment-step.ts:56-62 | The same take can lead to a run that forgets a payment whose intent is open if and only if another run is reading the hash and no other payment is recorded under its bound bytes |
| `PaymentRecords.AttemptIsRecorded` | src/sdk/payment-sending.ts:163-175 | In any reachable state of the gate, its answer to an attempt to record an intent is one of the outcomes the flow allows, and leaves the same intents |
| `PaymentRecords.CloseIsRecorded` | src/policy/policy-engine.ts:437-446 | The gate closes an intent exactly where the flow finds it recorded, and closes nothing else |
| `PaymentRecords.OthersLeaveIntents` | src/policy/policy-engine.ts:687-693 | No other step of the device opens an intent, closes one or changes its hash |
| `PaymentFlow.ActivityTracker.WatchIfAbsent` | src/sdk/activity.ts:56-64 | Adds the hash unless watched, telling which, and keeps every other entry |
| `PaymentFlow.ActivityTracker.Mark` | src/sdk/activity.ts:72-80 | Records a watched hash's status, leaving the list on one not watched |
| `PaymentFlow.ActivityTracker.Forget` | src/sdk/activity.ts:87-95 | Drops exactly the hash |

## Left out

- Cryptography: keys, hashes, nonces and signatures are values; which signature an invoice verifies under is a parameter.
- Digest and transaction serialisation: a claim carries the message its operation rebuilds to, and a spend's transaction stands for its own hash; the legacy commitment record without its cell is left out with them.
- Channel pins and capacity bounds: one flag of a claim (`pinned`) that says whether they admit it.
- Channel names, aliases and close scripts: a channel is its index, and registration compares the funded amount only.
- Amounts and numbers are unbounded naturals in the gate, as its decimal strings are big integers; the range checks of arguments are left out.
- Revocation evidence is a map by version, so the order of the stored list is not captured.
- TLC lists are kept in the order given: the sort of a view's list by key (src/policy/balance-rule.ts:23-34) does not reach any total or difference, as `Payments.TotalOfMultiset` shows.
- SmallSteps.EveryStateIsARuns: the balance lane is at most one holder at a time, in any order, and each write of one record is one turn, which is what `Lanes.OneAtATimeInOrder` and `Lanes.EqualsSequentialUpdates` prove of the lanes; the two models are not one state machine.
- Storage failures and corruption, record shape guards: what is read is what was last written.
- Lanes.EqualsSequentialUpdates: a record is its serialised text; parsing and the shape guards of an update's result, which make it fail, are a turn that writes nothing.
- Coder.CompressedIsDecompressed: covers data shorter than 2^40 bytes, past which a count could outgrow the scaling's proof; an invoice's limit is 16384.
- Scaling.FloatsShare: binary64 is any rounding with the bounds of `Scaling.Rounds`, its ties and subnormal numbers left open.
- Coder.CoderOutput.ToBytes: setting a bit with `|` is adding a bit not set yet.
- Bech32m.Polymod: the 30-bit words are strings of bits, so shifts drop and append bits instead of masking.
- InvoiceText.DecodedIsEncoded: a string is its code points, and the data layer is the premise `InvoiceText.WritesBack`.
- PaymentFlow.EveryInterleavingKeeps: events, arguments and the fee default are not modelled; it needs that no run takes a hash another still reads, which the code does not test.
- PaymentFlow.EndsOnTheLatestAnswer: the same condition on takes.
- PaymentFlow.ForgetsOnlyClosed: the same condition on takes.
- Versions.OldRemoteIsRevoked: rests on the dispatch's tie of a remote commitment's version to its slot.
- Clocks and release margins are parameters, a channel without a pinned delay having none.
- RPC client, field decoders, protocol statuses, listeners, timers and the facade: thin checks and wiring.
- Error texts: only acceptance, refusal and its code are kept.
