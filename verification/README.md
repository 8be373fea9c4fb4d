# Verification of Milepost's funding core

A Dafny model of the parts of Milepost that hold money or promise something exact about it, and
proofs about that model. `dafny verify dfyconfig.toml` checks everything.

## What is modelled

**The Programme contract** (`contracts/program/src/lib.rs`) is a funding round: donors give,
applicants ask, reviewers vote, awards are settled against the budget and released tranche by tranche
against attestations, what is left goes back to the donors, and the rest is swept. `Programme.dfy`
states what each entry point does to the whole world around the contract (its storage, the token and
the log of transfers, the attestation registry, the standing record, the clock) as a function with the
same checks in the same order and the same error. `ProgrammeContract.dfy` is the contract itself: a
class whose methods update storage in place and are proved to do exactly that, with the host's
rollback when a call fails. A run is any sequence of calls mixed with whatever else the ledger may do:
time passing, attestations made and revoked, other programmes crediting the record, policies installed
and removed, tokens moving between others or sent to the contract. The other `Programme*.dfy` files
prove what holds after every run.

| file | what it proves over runs |
|---|---|
| `ProgrammeTerms` | terms never change but for later deadlines; which parts of the state each call may write |
| `ProgrammeLedger`, `ProgrammeSolvency`, `ProgrammeHoldings` | conservation of money; every payment is covered; nothing is lost, swept or not |
| `ProgrammeVotes`, `Votes` | the vote vector is the last votes; the award is their order statistic, and when it is their median |
| `ProgrammeAwards`, `ProgrammeTranches`, `ProgrammeSmallAwards` | totals add up within the budget; the tranche schedule in closed form; awards too small for it |
| `ProgrammeBudget` | order of settling: one result when all fits, maximal otherwise; refusals are final |
| `ProgrammeBatch`, `ProgrammePause` | a batch against single releases; what a pause stops |
| `ProgrammeRefunds`, `ProgrammeEntitlements`, `Shares` | entitlements, claims, dust and the screen's mirror |
| `ProgrammeWindows` | which call can succeed when; cancelling, sweeping and too small a panel |
| `ProgrammeDestinations`, `ProgrammeBooks` | where every payment went; proofs, credits and escrow |
| `ProgrammeRuns` | the invariants together, from deployment on |
| `ProgrammeOutcomes` | exactly when each call goes through, in every reachable state; what a cancellation brings |
| `ProgrammeAnswers` | what calls return, and that no error is ever false |
| `ProgrammeHistory`, `Histories` | every flag, set, date and gift read off the calls that were made; how long a control lasts |
| `ProgrammeReach` | runs that exist: a panel that settles, a batch that overpays |

Around it: **policy-spend** (`PolicySpend.dfy`), the spend cap of a restricted wallet; **record**
(`Record.dfy`, `HashChain.dfy`) with the off-chain check of a history (`StandingHistory.dfy`);
**attest** (`Attest.dfy`); the front end's **read layer** (`ProgrammeReads.dfy`, `ReadSchedule.dfy`,
`ReadOutcomes.dfy`) as an interleaving system; and the exact arithmetic and text of `Amounts.dfy`,
`Csv.dfy`, `Ics.dfy` and `FeeMirror.dfy`.

Amounts are mathematical integers with the source's overflow checks written out; ledger times are
naturals up to the 64-bit maximum. Floors are Dafny's division on non-negative operands; the bigint
mirrors use an explicit truncating division. The hash, the serialised form of an address and the bytes
of an identifier are parameters: where a result needs them to be injective it says so, and for the hash
only on the strings actually hashed. Registry identifiers are the terms that were hashed. Whoever must
sign for a call is taken to have signed; nobody else can sign for the programme itself.

## Where code and documentation disagree

The model follows the code. Each of these is proved, with the exact condition where there is one.

- `release_batch` asks whether the award is fully released once, before its loop, so a batch can
  release more than was granted. It does so exactly when it names more proofs than the award has
  tranches left (`BatchKeepsGrantExactly`); `BatchCanOverpay` is a legal run from a deployed programme
  that ends with an award of 100 having released 200. Results that bound releases by grants carry that
  premise (`AllFit`); conservation, votes, budget, refunds, destinations and books do not need it.
- `release_batch` does not look at the pause, though releasing is listed among what a pause halts
  (`PauseStopsReleasesNotBatches`).
- A finalisation refused for want of budget is documented to be retryable if whatever consumed the
  budget is never finalised. What consumed it was finalised already, and the budget only shrinks: on
  unchanged votes the refusal is permanent (`RefusalIsFinal`).
- The vote vector is documented to be bounded by the quorum. The panel bounds it: a vote beyond the
  quorum still lengthens it (`VoteLengthens`, `VectorIsLastVotes`).
- The award is documented as the median of the reviewer votes. It is the entry at (quorum - 1) / 2 of
  all votes, and so their median, the lower of the middle two when their number is even, if and only if
  that entry and the lower middle are equal (`AwardIsMedianExactly`; over runs
  `SettledIsMedianExactly`). That holds for all votes exactly when as many are in as the quorum, or one
  more than an odd quorum (`AlwaysMedianExactly`): with a quorum of one, votes of 3 and 9 settle on 3,
  their lower median, but three votes of 3, 9 and 9 settle on 3 too, and their median is 9.
- The error for a refused cancellation is documented to protect a programme with money in it or awards
  made. Only a release protects it: a programme with gifts and settled awards can be cancelled while
  nothing has been released (`CancelTakesEffect`).
- An extended release deadline is documented to stay before the sweep deadline; it can come to coincide
  with it (`ExtensionKeepsOrderExactly`).
- A quorum above the reviewer count is to be refused because it would leave every application
  unfinalisable. The count is of the list given: a reviewer named twice counts twice, and a programme
  whose distinct reviewers are fewer than its quorum can be constructed (`RepeatedReviewersPass`). For
  a programme someone can give enough to, some run settles an application if and only if the distinct
  reviewers are at least as many as the quorum (`SettlesExactly`), as they are in a list without
  repetition (`DistinctPanelMeetsQuorum`).
- With no minimum award, an award of fewer stroops than tranches can be settled but never pays: its
  first tranche is zero and the record refuses it (`ZeroTrancheExactly`). After any run such an award
  has released nothing, and single releases and batches both fail on it (`TooSmallNeverReleases`).
- The application card's median is the contract's figure if and only if the award is the lower median
  and an even middle pair, which the card averages, is within a stroop (`MedianVoteAgrees`).
- `held` on the money page is derived from the contract's totals, so it still counts the fee once that
  is paid, and leaves out escrow still on the books and tokens that strayed in; it is the balance exactly
  when these cancel (`HeldGap`).
- A parent read keeps its slot while it waits for its own reads, and
  `frontend/src/hooks/useProgrammeReads.ts:65-66` asks for all programmes at once. Asked for together
  they all complete, in every interleaving, if and only if they are at most three
  (`ChainReadsCompleteExactly`); from four on none ever does (`FourOutersStick`).
- `verifyStandingHistory` is documented to fold and report entries after a divergence; it returns at the
  first (`MismatchIsLeast`).
- The record checks its count of programmes for overflow, and the programme its totals Granted,
  Refunded and of each donor. In every reachable state another check has already refused
  (`CreditsExactly`, `SucceedsExactly`).
- The exporter prints a negative amount with a fraction with a second sign after the point
  (`UnitsOfNegative`, `UnitsAreExact`); no amount of the contract is negative.
- `csvRow` of no fields reads as one empty field (`RowRoundTrip`), and the exported file joins rows by a
  newline where section 2 of RFC 4180 names CRLF; the reader here takes either.

## Model

| member | source | states |
|---|---|---|
| `ProgrammeContract.Contract.Contribute` | contracts/program/src/lib.rs:714-746 | the in-place `contribute`: takes the gift, records donor and total, or fails with the first error in order; the new state in full |
| `ProgrammeContract.Contract.Apply` | contracts/program/src/lib.rs:751-787 | `apply` opens one application per applicant, in the open phase, unpaused |
| `ProgrammeContract.Contract.CastVote` | contracts/program/src/lib.rs:799-914 | `review`: removes the reviewer's old vote if there is one and inserts the new one in place, by the two loops, keeping one ballot a reviewer |
| `Votes.InsertVote` | contracts/program/src/lib.rs:862-870 | the insertion loop places a vote before the first strictly larger one |
| `Votes.RemoveVote` | contracts/program/src/lib.rs:853-860 | the removal loop takes out exactly the first equal vote |
| `ProgrammeContract.Contract.WithdrawApplication` | contracts/program/src/lib.rs:1186-1210 | `withdraw` marks an open application and nothing else |
| `ProgrammeContract.Contract.CheckAward` | contracts/program/src/lib.rs:937-1013 | every check of `finalize` in order, up to the budget, without writing anything |
| `ProgrammeContract.Contract.Settle` | contracts/program/src/lib.rs:931-1040 | `finalize` marks the application, commits the amount and creates the award with no tranche released |
| `ProgrammeContract.Contract.SpendAllocation` | contracts/program/src/lib.rs:1217-1263 | `spend` moves part of an allocation to a verified payee before the sweep deadline |
| `ProgrammeContract.Contract.CountTranche` | contracts/program/src/lib.rs:1332-1340 | the amount of the next tranche: an equal part, the remainder for the last |
| `ProgrammeContract.Contract.PayTranche` | contracts/program/src/lib.rs:1384-1425 | `pay_out` by mode: escrow, or a transfer, with the policy looked up for a restricted wallet |
| `ProgrammeContract.Contract.ReleaseTranche` | contracts/program/src/lib.rs:1332-1367 | books, payment and standing credit of one tranche, in that order, all or nothing |
| `ProgrammeContract.Contract.ReleaseOne` | contracts/program/src/lib.rs:1276-1378 | `release` with its checks in order |
| `ProgrammeContract.Contract.ReleaseProofs` | contracts/program/src/lib.rs:1490-1556 | the loop of `release_batch`, which keeps the award in a local and never asks again whether it is fully released |
| `ProgrammeContract.Contract.ReleaseMany` | contracts/program/src/lib.rs:1445-1566 | `release_batch`: size, phase, verifier and award checked once, then every proof or none |
| `ProgrammeContract.Contract.SweepProtocolFee` | contracts/program/src/lib.rs:1573-1600 | `sweep_fee` pays the fee once, after contributions closed |
| `ProgrammeContract.Contract.CheckRefund` | contracts/program/src/lib.rs:1622-1678 | what one claim is due: the floor of the donor's share less what they have had |
| `ProgrammeContract.Contract.ExecuteRefund` | contracts/program/src/lib.rs:1622-1704 | `refund` and `refund_partial` record and pay the claim |
| `ProgrammeContract.Contract.SweepRemainder` | contracts/program/src/lib.rs:1717-1752 | `sweep_unclaimed` sends the whole balance to the treasury and marks the fee swept |
| `ProgrammeContract.Contract.CancelProgramme` | contracts/program/src/lib.rs:1762-1783 | `cancel` only while nothing has been released |
| `ProgrammeContract.Contract.ExtendDeadline` | contracts/program/src/lib.rs:1791-1830 | `extend_release_deadline` moves release later and sweep with it if it would be passed |
| `ProgrammeContract.Contract.SetPaused` | contracts/program/src/lib.rs:1884-1916 | `pause` and `unpause` |
| `ProgrammeContract.Contract.SetPayee` | contracts/program/src/lib.rs:1047-1084 | `allow_payee` and `deny_payee` |
| `ProgrammeContract.Contract.SetVerifier` | contracts/program/src/lib.rs:1142-1180 | `add_verifier` and `remove_verifier`, which report the payee errors |
| `ProgrammeContract.Contract.Invoke` | contracts/program/src/lib.rs:1438-1443 | one transaction: the entry point's effect, or the state exactly as before when it fails |
| `ProgrammeLedger.NextConserves` | contracts/program/src/lib.rs:714-1752 | every call of every kind, and everything others do in between, keeps balance = allocations + unswept fee + budget neither released nor refunded (+ tokens that strayed in), until the sweep |
| `ProgrammeRuns.RunKeepsSound` | contracts/program/src/lib.rs:598-1830 | after every sequence of calls from deployment: conservation, vote soundness, award accounts, budget never exceeded, no allocation overdrawn; no premise on batches |
| `ProgrammeRuns.FreshIsDeployed` | contracts/program/src/lib.rs:598-696 | a concrete configuration the constructor accepts, so the runs the results speak of exist |
| `ProgrammeOutcomes.CreatesExactly` | contracts/program/src/lib.rs:598-696 | the constructor accepts exactly these terms, of which the check for reviewers is implied by the quorum, and starts with nothing given, asked, granted or paid, neither paused nor cancelled |
| `ProgrammeOutcomes.SomeVerifierCanAttest` | contracts/program/src/lib.rs:659-680 | from every deployed programme some trusted verifier can at once make a claim about anyone that a release will take, which is what the checks of the schema are for |
| `ProgrammeOutcomes.SucceedsExactly` | contracts/program/src/lib.rs:714-1916 | in every reachable state each call but the batch goes through if and only if its conditions hold, written out in what a caller can read; the checks on a donor's own total, on Granted, on Refunded and on a record's programme count are shown never to decide |
| `ProgrammeAnswers.AmountsAreTrue` | contracts/program/src/lib.rs:1217-1566 | what `release`, `release_batch` and `spend` return is what Released grew by and what is left of the allocation, and `finalize` returns the award it stored |
| `ProgrammeAnswers.SweepsAreTrue` | contracts/program/src/lib.rs:1573-1752 | what the sweeps return is what left the balance, and a final sweep leaves none |
| `ProgrammeAnswers.ErrorsAreTrue` | contracts/program/src/lib.rs:222-288 | no call is ever refused with an error that is not true of the state and of the call, each error's claim written out; which of several true ones is reported first is not stated |
| `ProgrammeAnswers.ConstructorErrorsAreTrue` | contracts/program/src/lib.rs:598-680 | nor is an error of the constructor |
| `ProgrammeOutcomes.CancelTakesEffect` | contracts/program/src/lib.rs:1762-1783 | a cancellation goes through exactly when there was none and nothing has been released, and marks the programme cancelled |
| `ProgrammeOutcomes.CancellingIsFinal` | contracts/program/src/lib.rs:1754-1783 | after it, over any further run, refunds are open and no gift, release or batch succeeds |
| `ProgrammeOutcomes.CancellingPaysBack` | contracts/program/src/lib.rs:1754-1783 | from any run state before the sweep, it puts the whole budget up for refund and a donor with anything left of their share can claim all of it at once |
| `ProgrammeHoldings.NothingIsLost` | contracts/program/src/lib.rs:714-1752 | in every reachable state, before and after any sweep: what is held and all that was ever paid out are what was contributed and what strayed in |
| `ProgrammeHoldings.HeldGap` | frontend/src/lib/amount.ts:188-202 | the screen's `held` is the balance short of the escrow still on the books and of strays, and over by the fee paid; it is the balance if and only if these cancel |
| `ProgrammeSolvency.SolventUntilSwept` | contracts/program/src/lib.rs:714-1752 | in every run whose batches fit, until swept: that equality with each of its terms non-negative |
| `ProgrammeSolvency.EveryPaymentIsCovered` | contracts/program/src/lib.rs:1217-1752 | in those runs no release, fitting batch, spend, fee sweep or refund is ever refused by the token for lack of cover, in any interleaving |
| `ProgrammeTerms.TermsArePermanent` | contracts/program/src/lib.rs:589-597 | over any run the constructor's terms stay as they were, deadlines only move later, cancellation and open refunds are never undone, and the terms stay well formed |
| `ProgrammeTerms.ExtensionKeepsOrderExactly` | contracts/program/src/lib.rs:1785-1812 | release stays strictly before sweep if and only if the extension is short of the old sweep deadline; the documentation promises it always |
| `ProgrammeHistory.DeadlinesByHistory` | contracts/program/src/lib.rs:1785-1830 | over any run the release deadline is that of the last extension made in time and to a later date, or the original; the sweep deadline is the original or, once passed, the release deadline |
| `ProgrammeHistory.CancelledByHistory` | contracts/program/src/lib.rs:1762-1783 | a programme is cancelled if and only if a call of the run cancelled it while nothing had been released |
| `ProgrammeHistory.PausedByHistory` | contracts/program/src/lib.rs:1884-1916 | it is paused if and only if a pause was made before any cancellation and not lifted since |
| `ProgrammeHistory.PauseLasts` | contracts/program/src/lib.rs:1884-1916 | a pause that goes through refuses every forward call, over any further run, until it is lifted, and can always be lifted |
| `ProgrammeHistory.PayeesByHistory` | contracts/program/src/lib.rs:1047-1084 | the verified payees are exactly those allowed by a call and denied by none since |
| `ProgrammeHistory.DeniedPayeeIsShutOut` | contracts/program/src/lib.rs:1069-1084 | a payee denied gets no spend and no direct award, over any run that does not allow them again |
| `ProgrammeHistory.VerifiersByHistory` | contracts/program/src/lib.rs:1142-1180 | the trusted verifiers are exactly those named at construction or added since, and not removed since |
| `ProgrammeHistory.RemovedVerifierIsShutOut` | contracts/program/src/lib.rs:1166-1180 | a verifier removed unlocks nothing, singly or in a batch, over any run that does not add them again |
| `ProgrammeHistory.ApplicationsByHistory` | contracts/program/src/lib.rs:751-787 | over any run an application stands as the one call made it that was in time, unpaused, for something and the applicant's first |
| `ProgrammeHistory.WithdrawnByHistory` | contracts/program/src/lib.rs:1186-1210 | an application is withdrawn if and only if a call of the run withdrew it before it was settled |
| `ProgrammeHistory.WithdrawalCloses` | contracts/program/src/lib.rs:1186-1210 | after a withdrawal that goes through it is never voted on or settled, over any run |
| `ProgrammeHistory.GiftsAreRecorded` | contracts/program/src/lib.rs:714-746 | over any run each donor is credited with exactly what the token's log says they deposited |
| `ProgrammeHistory.FeeByHistory` | contracts/program/src/lib.rs:1573-1600 | the fee counts as swept if and only if a call of the run swept it or swept everything |
| `ProgrammeHistory.ProofsByHistory` | contracts/program/src/lib.rs:1291-1320 | a proof is spent if and only if a call of the run unlocked a tranche with it |
| `ProgrammeHistory.EveryCreditIsTraced` | contracts/program/src/lib.rs:1353-1367 | every credit of the programme's in the standing record was made by a release of the run that went through: about its recipient, for this programme, at its time and against one of its proofs |
| `Votes.AscendingUnique` | contracts/program/src/lib.rs:842-868 | an ascending vector is determined by the multiset of its votes |
| `Votes.IndexIsOrderStatistic` | contracts/program/src/lib.rs:962-968 | entry k of the vector is the k-th order statistic of the ballots, defined by counting, in whatever order they came, and no other amount is |
| `Votes.AmendmentIsLocal` | contracts/program/src/lib.rs:828-885 | replacing one vote moves no order statistic past its neighbour on either side |
| `Votes.RaisingNeverLowers` | contracts/program/src/lib.rs:828-885 | raising a vote lowers no order statistic |
| `Votes.LoweringNeverRaises` | contracts/program/src/lib.rs:828-885 | lowering a vote raises none |
| `Votes.AwardIndexIsMiddle` | contracts/program/src/lib.rs:959-968 | the index (quorum - 1) / 2 is that of the lower middle of n votes if and only if n is the quorum, or one more than an odd quorum |
| `Votes.AlwaysMedianExactly` | contracts/program/src/lib.rs:20-34 | those are exactly the counts at which the award is the lower median of all votes whatever they are |
| `Votes.AwardIsMedianExactly` | contracts/program/src/lib.rs:957-968 | for given votes the award is the lower median of the ballots, in whatever order they came, if and only if the entries at (quorum - 1) / 2 and at the lower middle are equal |
| `Votes.MedianVoteAgrees` | frontend/src/lib/applicationView.ts:39-45 | for every quorum the votes reach, the card's median is the contract's figure if and only if the award is the lower median and, when the votes are even in number, the middle pair differ by at most one stroop |
| `ProgrammeVotes.AmendmentMovesAward` | contracts/program/src/lib.rs:828-885 | the same on the contract's own state: an accepted amendment moves what would be settled no further than a neighbouring vote and never against the amendment |
| `ProgrammeVotes.VoteLengthens` | contracts/program/src/lib.rs:888-897 | a first vote lengthens the vector whatever the quorum, an amendment never does |
| `ProgrammeVotes.VectorIsLastVotes` | contracts/program/src/lib.rs:799-914 | over any run the vector is ascending and holds each distinct reviewer's last accepted vote once; its length is the number of reviewers who voted, so the panel bounds it and not the quorum |
| `ProgrammeVotes.SettledByLastVotes` | contracts/program/src/lib.rs:957-968 | what would be settled is the order statistic at (quorum - 1) / 2 of those last votes listed in any order, lies in 1..requested, and is what the screen's `medianForQuorum` shows |
| `ProgrammeVotes.SettledIsMedianExactly` | contracts/program/src/lib.rs:20-34 | over any run: the settled amount is the lower median of all the last votes if and only if the entries at the two indices are equal, which is always so when exactly a quorum voted, or one more than an odd quorum |
| `ProgrammeVotes.SettledIsOrderStatistic` | frontend/src/fixtures/finalizeFixtures.ts:69-72 | the mirror of the lookup returns exactly the settled amount in any state with sound votes |
| `ProgrammeVotes.ClosedIsFinal` | contracts/program/src/lib.rs:68-70 | a settled or withdrawn application never changes again and cannot be applied for, voted on, withdrawn or settled again, over any run |
| `ProgrammeAwards.NextKeepsAccounts` | contracts/program/src/lib.rs:931-1040 | Granted is the sum of all awards and within the budget, Released the sum of their releases, the used proofs as many as their tranches, each award what its own votes settled on; kept by every call |
| `ProgrammeAwards.ContributedOnlyGrows` | contracts/program/src/lib.rs:699-702 | contributions never shrink and change only in the open phase, so the budget is frozen once it ends |
| `ProgrammeTranches.NextOnSchedule` | contracts/program/src/lib.rs:1332-1340 | the next tranche is floor(g/T), plus g mod T for the last, never more than is left, and keeps the schedule |
| `ProgrammeTranches.ScheduleIsExact` | contracts/program/src/lib.rs:1332-1340 | after k < T releases exactly k*floor(g/T) has been paid, after T exactly g |
| `ProgrammeRuns.RunKeepsSchedule` | contracts/program/src/lib.rs:1332-1515 | every award is on that schedule after every run whose batches fit |
| `ProgrammeRuns.ReleasedWithinGranted` | contracts/program/src/lib.rs:1332-1352 | on schedule Released never exceeds Granted, and no award is owed more than the whole programme has left |
| `ProgrammeTranches.ZeroTrancheExactly` | contracts/program/src/lib.rs:636-640 | the first tranche is zero exactly when fewer stroops than tranches were granted, which a minimum award excludes |
| `ProgrammeTranches.PositivityNeverBlocks` | contracts/record/src/lib.rs:206-208 | a tranche of an award of at least as many stroops as tranches is never refused by the record for paying nothing |
| `ProgrammeSmallAwards.TooSmallNeverReleases` | contracts/program/src/lib.rs:1276-1566 | after any run, whatever its batches: an award of fewer stroops than tranches has released no tranche and nothing, and both `release` and `release_batch` fail on it |
| `ProgrammeTranches.BatchKeepsGrantExactly` | contracts/program/src/lib.rs:1480-1515 | a batch that goes through pays no more than was granted if and only if it names no more proofs than tranches are left |
| `ProgrammeReach.BatchCanOverpay` | contracts/program/src/lib.rs:1474-1515 | from a deployed programme a legal run (gift, application, vote, settling, two claims, one batch of both proofs) ends with an award of 100 that has released 200 |
| `ProgrammeBatch.BatchIsOneByOne` | contracts/program/src/lib.rs:1445-1566 | unpaused, a batch that fits goes through if and only if it names one to fifty proofs and no release of them in order is refused, and is then exactly those releases |
| `ProgrammeBatch.BatchIsOneByOneExactly` | contracts/program/src/lib.rs:1480-1566 | a batch that goes through equals the releases one by one if and only if it fits |
| `ProgrammePause.PauseIsContained` | contracts/program/src/lib.rs:1869-1883 | a pause refuses every forward call and changes nothing about refunds, sweeps, withdrawal, cancelling, extending or the clock |
| `ProgrammePause.PauseStopsReleasesNotBatches` | contracts/program/src/lib.rs:1445-1456 | a pause stops every single release, while a batch does exactly what it would do unpaused |
| `ProgrammeBudget.DueExactly` | contracts/program/src/lib.rs:931-1013 | settling succeeds exactly when every check but the budget passes and the amount fits what is left |
| `ProgrammeBudget.EveryOrderAgrees` | contracts/program/src/lib.rs:43-61 | in every reachable state a set of ready applications fits the remaining budget if and only if settling them succeeds, and then every order ends in one state given in closed form |
| `ProgrammeBudget.EveryOrderEndsMaximal` | contracts/program/src/lib.rs:43-61 | settled in any order, skipping refusals, no ready application is left that could still be settled |
| `ProgrammeBudget.RefusalIsFinal` | contracts/program/src/lib.rs:62-67 | an application refused for want of budget can be settled later, after anything at all, only if amended votes settle on less; the documentation says the identical call may succeed |
| `Shares.SharesCoverPool` | contracts/program/src/lib.rs:1655-1657 | floors of proportional shares never exceed the pool and leave less than one stroop a donor of it |
| `ProgrammeRefunds.NextKeepsClaims` | contracts/program/src/lib.rs:1622-1704 | contributions are the sum of gifts, refunds the sum of claims, each claim within its entitlement, the token's own log agrees, and nothing is claimed before refunds open; kept by every call |
| `ProgrammeEntitlements.EntitlementsAreConstant` | contracts/program/src/lib.rs:1622-1830 | once refunds are open, over any further run, extensions and cancellation included, no contribution, release or batch succeeds and every entitlement stays the same number |
| `ProgrammeEntitlements.NeverOverpaid` | contracts/program/src/lib.rs:1622-1704 | over any run a donor has been paid back what the books say, at most their entitlement, never more than they gave |
| `ProgrammeEntitlements.RefundsWithinPool` | contracts/program/src/lib.rs:1655-1657 | all claims of any run together stay within what was never released |
| `ProgrammeEntitlements.DustAfterAllClaims` | contracts/program/src/lib.rs:1655-1657 | when every donor has claimed in full, less than one stroop a donor is left |
| `ProgrammeEntitlements.NoOverflowBelow63Bits` | contracts/program/src/lib.rs:1650-1657 | no checked product on the refund path overflows while contributions are at most 2^63 |
| `ProgrammeEntitlements.ClaimSucceedsExactly` | contracts/program/src/lib.rs:1622-1704 | in every reachable state before the sweep, with contributions at most 2^63, a claim succeeds if and only if refunds are open and what is asked is left of the share, and pays exactly that |
| `ProgrammeEntitlements.MirrorIsExact` | frontend/src/lib/funding.ts:56-77 | `claimableRefund` is then exactly what a full claim pays, and zero exactly when it is refused |
| `ProgrammeEntitlements.ShownIsLeft` | frontend/src/lib/funding.ts:56-77 | in any state with sound claims the mirror shows what is left of the entitlement while refunds are open, else nothing |
| `ProgrammeWindows.OnlyInWindow` | contracts/program/src/lib.rs:714-1830 | when each call can succeed at all: giving and applying while open, voting in review, settling in review or after, releasing strictly before refunds open, claiming only after, sweeping only once its deadline has come |
| `ProgrammeWindows.WindowsNeverReopen` | contracts/program/src/lib.rs:1939-1952 | over any run phases only advance, and giving, applying and voting never succeed again once their phase has passed, nor settling once cancelled |
| `ProgrammeWindows.CancellingReturnsEverything` | contracts/program/src/lib.rs:1754-1783 | in every run that cancels: nothing was or will be released, refunds are open, and entitlements divide the whole budget |
| `ProgrammeWindows.RunInOrder` | contracts/program/src/lib.rs:1706-1783 | nothing is ever swept before the sweep deadline, and nothing released by a cancelled programme |
| `ProgrammeWindows.DistinctPanelMeetsQuorum` | contracts/program/src/lib.rs:623-627 | the constructor's check makes the quorum reachable for a list of distinct reviewers |
| `ProgrammeWindows.RepeatedReviewersPass` | contracts/program/src/lib.rs:623-627 | but accepts one reviewer named twice with a quorum of two |
| `ProgrammeWindows.QuorumNeedsPanel` | contracts/program/src/lib.rs:957-968 | nothing is ever due, over any run, unless at least a quorum of the distinct reviewers have their last vote on that very application |
| `ProgrammeWindows.AwardNeedsPanel` | contracts/program/src/lib.rs:931-1040 | every award of a run has at least a quorum of distinct reviewers who voted on it |
| `ProgrammeReach.PanelSettles` | contracts/program/src/lib.rs:623-627 | from every deployed programme with at least a quorum of distinct reviewers, and any gift that covers the least award, some legal run settles an award for any applicant |
| `ProgrammeReach.SettlesExactly` | contracts/program/src/lib.rs:623-627 | given such a gift, some legal run settles an award if and only if the distinct reviewers are at least as many as the quorum |
| `ProgrammeDestinations.EveryPaymentIsTraced` | contracts/program/src/lib.rs:992-1425 | every outgoing transfer of a run was made by a call that allowed it, in its window: a tranche, before the release deadline and uncancelled, to its award's payee, which had been a verified payee (Direct) or the recipient (Open) when settled, or a wallet with the policy installed at that release (Restricted); a spend, before the sweep deadline and within the allocation, to a payee verified then; a refund of exactly what was due to the claiming donor; the fee, once, and after the deadline the whole balance, to the treasury |
| `ProgrammeDestinations.AwardsComeFromSettling` | contracts/program/src/lib.rs:992-1004 | every award's payee and mode were named by the call that settled it, under that call's check |
| `ProgrammeBooks.RunKeepsBooks` | contracts/program/src/lib.rs:1342-1425 | over any run each award's releases were paid in tranches or equal its allocation plus what was spent of it; the record holds one credit of the programme's per used proof, adding up to Released; standings stay exact summaries; the attestation registry stays sound |
| `ProgrammeBooks.EveryProofWasLive` | contracts/program/src/lib.rs:1291-1320 | every used proof unlocked at one call of the run, where it was unspent and a registered claim whose subject was that recipient, whose schema was the programme's and whose attester was the verifier named, then trusted, unrevoked and before any expiry |
| `PolicySpend.SpendPolicy.SetRules` | contracts/policy-spend/src/lib.rs:138-176 | `configure` sets the rules and starts a fresh window; only the steward may change them |
| `PolicySpend.SpendPolicy.Authorise` | contracts/policy-spend/src/lib.rs:277-348 | the loop of `policy__` charges a working copy, stored only if every context passes |
| `PolicySpend.SpendPolicy.Uninstall` | contracts/policy-spend/src/lib.rs:360-366 | removing the policy leaves the spend record |
| `PolicySpend.RemainingExactly` | contracts/policy-spend/src/lib.rs:243-276 | `remaining` is the whole cap once a period has passed since the window began, and before that what is left of it |
| `PolicySpend.ApprovedExactly` | contracts/policy-spend/src/lib.rs:265-348 | a batch is approved if and only if the wallet has rules, every context is a positive transfer of its asset from it to a verified payee, and together they are at most the cap when the window began a period ago or more, and at most what is left of it otherwise; the first approval past a window's end begins the next and counts alone in it |
| `PolicySpend.ConfiguresExactly` | contracts/policy-spend/src/lib.rs:138-176 | rules are accepted exactly with a positive cap and period, from anyone for a wallet without rules and from its steward afterwards, and begin an unspent window |
| `PolicySpend.ListsExactly` | contracts/policy-spend/src/lib.rs:178-225 | payees are listed and struck by the steward alone, and only to some effect |
| `PolicySpend.RulesByHistory` | contracts/policy-spend/src/lib.rs:138-176 | over any run a wallet's steward, asset, cap and period are those last accepted for it |
| `PolicySpend.PayeesByHistory` | contracts/policy-spend/src/lib.rs:178-225 | its verified payees are exactly those its steward has allowed and not denied since |
| `PolicySpend.InstalledByHistory` | contracts/policy-spend/src/lib.rs:351-366 | the wallets that carry the policy are those it was installed on and not removed from since, and removing it keeps what the wallet has spent |
| `PolicySpend.ErrorsAreTrue` | contracts/policy-spend/src/lib.rs:138-348 | no error is ever false: each names what is wrong with the call, or a context of the batch that is wrong in that way |
| `PolicySpend.AtMostTwoCaps` | contracts/policy-spend/src/lib.rs:265-348 | in any interval one period long a wallet nobody reconfigures gets at most two caps approved, over any run |
| `PolicySpend.CappedSinceConfigured` | contracts/policy-spend/src/lib.rs:265-348 | from a configuration at s0 to T at most cap*(floor((T-s0)/period)+1) is approved |
| `PolicySpend.RunKeepsPolicy` | contracts/policy-spend/src/lib.rs:277-348 | without reconfiguration cap and period never change and spent stays within the cap |
| `Record.RecordContract.CreditRelease` | contracts/record/src/lib.rs:194-264 | `credit` in place: first-time programme marker, checked counters, the folded root |
| `Record.RecordContract.FoldCredit` | contracts/record/src/lib.rs:311-326 | `fold` appends five fields to one buffer and hashes it |
| `HashChain.PreimageInjective` | contracts/record/src/lib.rs:311-326 | fixed-width fields on both sides of one variable-length address leave no ambiguity: equal preimages mean equal root and equal credit |
| `HashChain.ChainInjective` | contracts/record/src/lib.rs:243-250 | without collisions among the strings hashed and none hashing to the zero root, equal roots mean equal histories |
| `HashChain.PreimageReads` | contracts/record/src/lib.rs:311-326 | what is hashed reads back field by field: root, address, the amount in sixteen bytes of two's complement, proof, and the time in eight, most significant byte first |
| `Record.CreditKeepsBook` | contracts/record/src/lib.rs:194-264 | every accepted credit keeps every standing the exact summary of its subject's log: distinct programmes, tranches, total, first and last time, chained root |
| `Record.RunKeepsBook` | contracts/record/src/lib.rs:194-264 | over any run of credits and writer changes |
| `Record.CreditsExactly` | contracts/record/src/lib.rs:194-264 | a credit is accepted if and only if its writer is authorised, it is positive, and its subject's total and number of tranches stay in range; the programme counter's own check never decides |
| `Record.WritersByHistory` | contracts/record/src/lib.rs:121-163 | whoever may credit after a run was added in it and not removed since |
| `Record.EveryCreditWasAuthorised` | contracts/record/src/lib.rs:203-206 | every credit in the book was written by a call whose writer had been added by an earlier call and not removed since |
| `Record.ErrorsAreTrue` | contracts/record/src/lib.rs:121-264 | no error is ever false |
| `StandingHistory.Verify` | frontend/src/lib/standingHistory.ts:132-189 | the loop returns exactly the specified verdict |
| `StandingHistory.AcceptsExactlyTheLog` | frontend/src/lib/standingHistory.ts:132-189 | without collisions among the strings hashed, the verdict is match or genesis if and only if the entries are the subject's own log in order, each recorded root being the published one |
| `StandingHistory.PublishedLogAccepted` | frontend/src/lib/standingHistory.ts:132-189 | whatever the hash, the published log is always accepted |
| `StandingHistory.MismatchIsLeast` | frontend/src/lib/standingHistory.ts:147-186 | a mismatch names the least entry whose recorded root is not reproduced, or the last entry when only the stored root disagrees |
| `StandingHistory.GenesisExactly` | frontend/src/lib/standingHistory.ts:132-145 | an empty history is a genesis if and only if nothing is stored |
| `StandingHistory.RejectedExactly` | frontend/src/lib/standingHistory.ts:147-170 | a history is rejected exactly at the first entry whose figures do not encode, if every recorded root before it is reproduced |
| `Attest.AttestRegistry.WalkPredecessors` | contracts/attest/src/lib.rs:193-207 | the loop of `check_cycle` over a moving current link |
| `Attest.AttestRegistry.Register` | contracts/attest/src/lib.rs:140-191 | `register_schema` with its checks in order |
| `Attest.AttestRegistry.Claim` | contracts/attest/src/lib.rs:211-266 | `attest` issues a claim under a fresh nonce |
| `Attest.AttestRegistry.Withdraw` | contracts/attest/src/lib.rs:272-296 | `revoke` only by the attester, once, and only if the schema allows it |
| `Attest.RunKeepsSound` | contracts/attest/src/lib.rs:140-296 | over any run predecessors form a forest under one authority each, and claims keep their schema's restrictions |
| `Attest.ChainsEnd` | contracts/attest/src/lib.rs:140-207 | in every reachable registry every chain of predecessors ends, stays registered and under one authority, and never returns |
| `Attest.CutOffNeverDecides` | contracts/attest/src/lib.rs:160-207 | which registrations succeed, and what is then stored, does not depend on the walk's cut-off, whatever it is |
| `Attest.SchemasByHistory` | contracts/attest/src/lib.rs:140-191 | after any run the schemas are exactly those a call registered, as that call gave them |
| `Attest.ClaimsExactly` | contracts/attest/src/lib.rs:211-266 | which claims are accepted, and the record made of each |
| `Attest.RevokesExactly` | contracts/attest/src/lib.rs:272-296 | a revocation goes through exactly for the attester's own unrevoked claim under a schema that allows it |
| `Attest.ClaimsByHistory` | contracts/attest/src/lib.rs:211-296 | after any run the unrevoked claims are exactly those a call made and none since revoked, field by field |
| `Attest.VerifiesExactly` | contracts/attest/src/lib.rs:316-334 | `verify` holds if and only if the claim is registered, its subject, schema and attester are the ones asked, it is unrevoked and it has not expired |
| `Attest.VerifiesByHistory` | contracts/attest/src/lib.rs:316-334 | so after any run it holds if and only if that attester made that claim about that subject under that schema in some call, none since revoked it, and it has not expired |
| `Attest.ErrorsAreTrue` | contracts/attest/src/lib.rs:140-296 | no error is ever false, and a cycle is only ever found where the schema is registered already |
| `Attest.RunKeepsClaim` | contracts/attest/src/lib.rs:272-296 | a claim changes only by `revoked_at` being set once, by its attester's own revoking call of the run, to the time of that call |
| `Attest.DeadStaysDead` | contracts/attest/src/lib.rs:316-334 | a claim that failed through revocation or expiry never verifies again, whatever is called and whenever it is asked |
| `ProgrammeReads.ReadLayer.Read` | frontend/src/lib/programmeReads.ts:71-83 | `sessionRead` up to its await: share the promise, take a slot or queue |
| `ProgrammeReads.ReadLayer.Release` | frontend/src/lib/programmeReads.ts:57-62 | the `finally` passes the slot to the head of the queue |
| `ProgrammeReads.ReadLayer.Forget` | frontend/src/lib/programmeReads.ts:79-82 | a failed read's own entry is dropped, so it can be retried |
| `ReadSchedule.EveryInterleaving` | frontend/src/lib/programmeReads.ts:39-83 | in every interleaving the counter is the number of tasks holding a slot, at most four; a task waits only while all are taken; admission is in order of asking; a key has at most one run pending or cached |
| `ReadSchedule.EvictKeeps` | frontend/src/lib/programmeReads.ts:79-82 | a failure removes its own entry and no other |
| `ReadOutcomes.LeafEndsAsAnswered` | frontend/src/lib/programmeReads.ts:71-83 | in every interleaving a read of the RPC's own succeeds if and only if its answer was good and fails if and only if it was bad |
| `ReadOutcomes.OuterEndsAsAwaited` | frontend/src/lib/programmeReads.ts:114-134 | in every interleaving a read that only awaits others has, once ended, failed if and only if an answer to a read it awaited at a stage that does not tolerate failure was bad |
| `ReadOutcomes.AskingAgainExactly` | frontend/src/lib/programmeReads.ts:71-83 | asking for a key starts a new read if and only if every read of it so far has failed and been dropped; otherwise it shares the one that has not |
| `ReadOutcomes.FailureIsRetried` | frontend/src/lib/programmeReads.ts:79-82 | once a failure has been dropped, asking again starts a new read |
| `ReadSchedule.StuckExactly` | frontend/src/lib/programmeReads.ts:43-63 | reads are stuck for good if and only if all four slots are held by reads that wait for reads of their own |
| `ReadSchedule.EveryReadCompletes` | frontend/src/lib/programmeReads.ts:114-180 | with at most three outer reads outstanding only finitely many events can happen, and when none can every read has completed |
| `ReadSchedule.FourOutersStick` | frontend/src/lib/programmeReads.ts:114-134 | four or more programmes asked for together: in every interleaving every read is and stays pending |
| `ReadSchedule.ChainReadsCompleteExactly` | frontend/src/lib/programmeReads.ts:43-134 | n programmes asked for together all complete in every interleaving if and only if n is at most three |
| `Amounts.FractionHasSevenDigits` | frontend/src/lib/amount.ts:57-58 | the padded fraction has exactly seven digits and writes down the remainder |
| `Amounts.GroupedReads` | frontend/src/lib/amount.ts:167-169 | the grouped form matches the parser's grouping rule and loses nothing but commas |
| `Amounts.ParsesExactly` | frontend/src/lib/amount.ts:90-120 | an input is accepted if and only if, trimmed, it is digits or whole groups of three with at most seven decimals, and not zero |
| `Amounts.ExactRoundTrip` | frontend/src/lib/amount.ts:70-120 | every positive amount printed exactly parses back to itself, whatever spaces surround it |
| `Amounts.DisplayRoundTrip` | frontend/src/lib/amount.ts:40-120 | at every precision, grouped or not, what is displayed parses to the truncated amount, or to an error exactly when that is zero |
| `Amounts.TruncateBounds` | frontend/src/lib/amount.ts:36-38 | the truncated amount is at most the true one and less than one unit of the last place below it, equal at seven places |
| `Amounts.NegativeIsRefused` | frontend/src/lib/amount.ts:64-94 | a negative amount printed either way is refused as negative |
| `FeeMirror.DerivedIsClose` | frontend/src/lib/programmeView.ts:212-218 | for every rate up to 1000 basis points the derived contribution is the true one or up to two stroops more, and its own budget is the contract's or one stroop more |
| `FeeMirror.BudgetRoundsUp` | contracts/program/src/lib.rs:2049-2056 | the contract's budget is the contribution at the complementary rate, rounded up |
| `FeeMirror.BoundsAreMet` | frontend/src/lib/programmeView.ts:212-218 | both bounds are met: ten stroops at 999 basis points are shown as twelve |
| `FeeMirror.FreeIsExact` | frontend/src/lib/programmeView.ts:212-218 | without a fee the derived contribution is the true one |
| `Csv.RowRoundTrip` | frontend/src/lib/csv.ts:13-23 | a reader as in section 2 of RFC 4180 recovers exactly the fields of a row if and only if there are any |
| `Csv.QuotedExactly` | frontend/src/lib/csv.ts:13-18 | a field is written as it is if and only if it holds no quote, comma or line break |
| `Csv.TableReads` | frontend/src/lib/csv.ts:73 | what that reader makes of any table of rows joined by newlines |
| `Csv.ExportReads` | frontend/src/lib/csv.ts:31-74 | the export succeeds exactly when every amount reads as a bigint, and its file then reads back as the header, the notice and one row an award, whatever the names and the index's own strings hold |
| `Csv.ColumnsMatchHeader` | frontend/src/lib/csv.ts:31-74 | in the file as it reads back every figure of an award stands under its own heading |
| `Csv.UnitsAreExact` | frontend/src/lib/csv.ts:77-83 | exported units are the exact form if and only if the amount is not negative or is whole, and a positive one parses back to the stroop |
| `Ics.FoldLine` | frontend/src/lib/ics.ts:40-59 | the folding loop over characters and octets |
| `Ics.FoldRoundTrip` | frontend/src/lib/ics.ts:40-59 | unfolding as in section 3.1 of RFC 5545 gives back every line that holds no fold itself |
| `Ics.FoldedLinesFit` | frontend/src/lib/ics.ts:35-59 | no physical line is longer than 75 octets, and the pieces are the line: no character is split |
| `Ics.FoldsOnlyLongLines` | frontend/src/lib/ics.ts:40-59 | a line is left alone if and only if it fits |
| `Ics.FoldsAsLateAsPossible` | frontend/src/lib/ics.ts:40-59 | no piece has room for the character after it |
| `Ics.WidthIsUtf8` | frontend/src/lib/ics.ts:47-48 | the width counted for a character is the length of its form in UTF-8, which reads back |
| `Ics.EscapeRoundTrip` | frontend/src/lib/ics.ts:22-28 | a reader as in section 3.3.11 of RFC 5545 recovers the text with CRLF made newline, through all four replacements in order |
| `Ics.PropertyRoundTrip` | frontend/src/lib/ics.ts:22-59 | a property whose value was escaped and whose line was folded reads back whole, within 75 octets a line |
| `Ics.CalendarReads` | frontend/src/lib/ics.ts:96 | a whole file of content lines unfolds and splits into exactly those lines |

## Left out

- Signatures (`require_auth`) and who may call what: platform authorisation, taken as given; the model only excludes others signing for the programme.
- Storage lifetimes, `keepalive`, archival and events: host behaviour no result depends on.
- `upgrade`, the registry contract and its deployer, and `set_admin` of the record: configuration without a deeper invariant.
- `allow_payees` and `deny_payees`: each is a run of `allow_payee` or `deny_payee` calls that skips an address already in or out, so every result over runs covers it; only its limit of fifty addresses is not modelled.
- The token's own overflow of a receiver's balance: the total supply of the asset fits an i128, so balances are plain integers here.
- Tokens already at the contract's address when it is deployed: a run starts from an empty balance, and tokens that arrive later are counted as strays.
- An application's metadata hash: stored and never read.
- Ledger times past the 64-bit maximum, and an extension beyond it: deadlines are naturals in the model.
- The inside of SHA-256 and of address serialisation: parameters, injective where a result says so.
- Attestation and schema identifiers as bytes: kept as the terms that are hashed, which is the hash without collisions.
- Parsing a pasted history before it is checked (`parseStandingHistory`): input validation without arithmetic.
- The dates of a calendar file (`formatIcsTimestamp`, the choice of events in `generateIcs`): the platform's date library; folding, escaping and assembling lines are modelled.
- How the platform reads a bigint from the index's string amounts: a parameter of the exporter, which fails where it does.
- JavaScript strings with unpaired surrogates: text is a sequence of Unicode characters.
- ReadSchedule.EveryReadCompletes: every simulation is taken to answer eventually; a connection that never answers keeps its slot for ever.
- ProgrammeEntitlements.ClaimSucceedsExactly: needs contributions of at most 2^63 stroops; beyond them the checked product of a gift and the pool may overflow, and `SucceedsExactly` has the condition in general.
- ProgrammeContract.Contract.Invoke: a failing call is undone as one step, so nothing is said of what the storage held part-way through it.
- Pages, components, wallets, RPC and indexer code: no exact promise to prove.
