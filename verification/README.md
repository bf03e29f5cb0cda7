# AfriPay money paths: a Dafny model

This project models the parts of the AfriPay wallet that hold, move or compare money, and proves what
they promise over every input and every run:

- **Decimal codec** (`digits.dfy`, `amounts.dfy`, `format.dfy`): parsing XLM text into stroops, printing stroops,
  the NUMERIC(30,12) column, and the display format, over strings of digits.
- **Payment checks** (`payments.dfy`): the backend's check of an intent and of a signed envelope, the wallet's check
  before it signs, and the preflight that builds a native payment.
- **Payment intents** (`intents.dfy`, `intents_service.dfy`): any number of API instances create, submit and
  reconcile intents against one database and one append-only ledger.
- **Mobile money** (`momo.dfy`, `momo_service.dfy`): reservation before an external charge, and callbacks, polls and
  batch reconciliation racing on one conditional update.
- **Contracts** (`tokens.dfy`, `escrow.dfy`, `multisig.dfy`, `vault.dfy`): custody of a token by an escrow and by a
  multisig, and interest accrual with checked 128-bit arithmetic.
- **Rate limiter** (`rate_limit.dfy`): fixed windows per client, purged on every request.

`wrappers.dfy` holds `Option` and `Result`, `runs.dfy` sequences of steps. `dafny verify dfyconfig.toml` checks the whole project.

## How it is modelled

Every state machine has a `State`, one `...Step` function per operation, a `Step` over all calls and a `Run` over a
sequence of them. Beside it stands a class whose methods follow the source statement by statement over mutable fields;
each is proved to compute the step function, so the theorems about steps and runs hold of the methods.

The two backend protocols run on many instances at once. A call in flight is a program counter holding the values its
code has in local variables; each database statement, broadcast, provider call or ledger query is one atomic step; a
call may vanish between any two steps. A service method takes as parameters the steps that *other* calls make during
each of its awaits, arbitrary in number and kind, and is proved to be a run of the protocol whatever they are. The
ledger of the intent protocol is a map from hash to outcome that only grows, and any transaction at all may enter it.
A Horizon answer is either current or PENDING.

A contract call is atomic: an error, a missing authorisation or a failed token transfer leaves everything as it was.
The escrow and multisig contracts never authorise calls themselves. Between contract calls, tokens may be transferred
by their other holders or minted, arbitrarily.

Assumptions: different transactions have different hashes (`HashOf` is a free constructor); a ledger entry never
changes; a mobile-money UUID is used once; database constraints are enforced as declared;
the rate limiter's clock does not go back and its limit is fixed during a run.

## Findings

Properties one would expect that the code does not have, each with an input at which it fails and the exact condition
under which it holds:

- **Signed zero.** `formatAmount` shows "0" as "0.00" and "-0" as "-0.00" (`Format.NegativeZeroShownApart`). On signed
  input the display is canonical exactly for the pairs that are not two zeros of different signs
  (`Format.SignedCanonicalUnlessNegativeZero`).
- **Display of a display.** "1000" is shown as "1,000.00", and that as "0.00" (`Format.ThousandShownAgain`). Showing
  a display again keeps it exactly below 1000, and gives "0.00" from there on (`Format.FormatIdempotent`).
- **Byte order mark.** The wallet decodes memo bytes with `TextDecoder`, which drops a leading byte order mark; the
  backend decodes them with `Buffer`, which keeps it. Every intent with a memo of at most 25 bytes has a transaction that
  the wallet reviews and signs for it and the backend then refuses (`Payments.MarkedMemoRefused`,
  `Payments.MarkedMemoExample`). A reviewed envelope is accepted exactly when its memo does not open with the mark
  (`Payments.WalletThenBackend`), and a request gets from the builder through the wallet to the backend's check
  exactly when it can be built and its memo does not (`Payments.BuildReviewSign`).
- **Oversized intents.** An intent of 922337203685.4775808 XLM is valid and stored, and no envelope is accepted for it
  (`Intents.OversizedIntentExample`, and `Intents.OversizedIntentStored` for every amount above 2^63 - 1 stroops). Some
  envelope is accepted for a valid payment exactly when its stroops fit 64 signed bits (`Payments.SettleableIff`).
- **Frozen vault accounts.** Two seconds after a deposit of 2^127 - 1 units at a rate of one basis point, nothing ever
  changes the account again (`Vault.FrozenAccountReached`). An account is frozen, whatever is called from some time on,
  exactly when its accrual overflows at that time (`Vault.FrozenIff`); `Vault.DepositAvailable` and
  `Vault.WithdrawAvailable` are the exact conditions of one call. Up to 2^31 units this cannot happen
  (`Vault.SmallBalancesAccrue`).
- **Rate limit in 60 seconds.** The guard can admit more than the limit within a minute (`RateLimit.LateBurstAdmitted`).
  The 60 seconds from a time keep to the limit, whatever is requested, exactly when at that time the guard does not hold
  a window of the client that ends inside them and is not used up (`RateLimit.MinuteKeepsToLimit`). Both ends included,
  60 seconds never admit more than twice the limit (`RateLimit.AtMostTwiceTheLimit`), and do admit that
  (`RateLimit.TwiceTheLimitReached`).

## Model

| member | source | states |
|---|---|---|
| Amounts.UnitsRoundTrip | frontend/src/lib/format.ts:22-25 | Parsing what `unitsToDecimal` prints gives the same stroops for every value below 10^19, and fails for every other value |
| Amounts.AmountBound | backend/src/stellar/payment-validation.ts:6-10 | An accepted amount is always below 10^19 stroops, so `stroops` and `unitsToDecimal` cover the same range |
| Amounts.StroopsMeans | backend/src/stellar/payment-validation.ts:6-10 | `stroops` accepts exactly one to twelve digits, with or without a point and one to seven more, and makes of them that many whole units and decimal places of a unit |
| Amounts.DecimalShape | frontend/src/lib/format.ts:15-17 | A decimal is exactly a run of digits, or two of them around one point, and splits there |
| Amounts.FirstBeyondLedger | backend/src/stellar/payment-validation.ts:6-10 | The text 922337203685.4775808 is an accepted amount of 2^63 stroops |
| Amounts.RowAmountAccepted | backend/src/payments/payment-intent.store.ts:25-28 | Which NUMERIC values, printed with twelve decimals and stripped by `intent`, `stroops` accepts again, and with what value: exactly those that are whole stroops with at most twelve whole digits |
| Amounts.RowRoundTrip | backend/src/payments/payment-intent.store.ts:25-28 | Every accepted amount survives storage, printing and stripping with the same stroops |
| Format.FormatCanonical | frontend/src/lib/format.ts:13-20 | Two well-formed unsigned amounts are displayed alike exactly when they are the same number |
| Format.FormatKeepsNumber | frontend/src/lib/format.ts:13-20 | Deleting the commas of the display gives a decimal of the same number |
| Format.FormatEquality | frontend/src/lib/format.ts:13-20 | For signed input, two displays are equal exactly when the signs as written and the magnitudes agree |
| Format.NegativeAndMalformed | frontend/src/lib/format.ts:13-20 | A negative amount is displayed as a minus and the display of its magnitude, and a missing or malformed one as 0.00 |
| Format.SignedCanonicalUnlessNegativeZero | frontend/src/lib/format.ts:16-19 | The display of signed input is canonical exactly for the pairs that are not two zeros written with different signs |
| Format.NegativeZeroShownApart | frontend/src/lib/format.ts:16-19 | Zero and negative zero are one number with two displays |
| Format.FormatShape | frontend/src/lib/format.ts:17-19 | The display has comma-separated groups of three, no superfluous leading zero, at least two decimals and no superfluous trailing zero |
| Format.GroupsOfThree | frontend/src/lib/format.ts:18 | Grouping puts a comma before every third digit from the right and nowhere else, and never at the front |
| Format.FormatIdempotent | frontend/src/lib/format.ts:13-20 | Displaying a display again changes nothing exactly when the whole part is below 1000, and gives 0.00 otherwise |
| Format.ThousandShownAgain | frontend/src/lib/format.ts:13-20 | 1000 is displayed with a separator, and that display as 0.00 |
| Format.UnitsFormatted | frontend/src/lib/format.ts:13-25 | The displayed stroops denote exactly that number of stroops, for any count |
| Format.TotalWithFeeExact | frontend/src/lib/format.ts:32-36 | `totalWithFee` is null exactly on malformed input, and otherwise displays exactly the amount's stroops plus the fee |
| Format.StroopsToXlmExact | frontend/src/lib/format.ts:27-29 | A displayed stroop count denotes exactly that many stroops, and text that is no count is handed back |
| Payments.ParseAccepts | backend/src/stellar/payment-validation.ts:18-37 | `parsePayment` accepts an envelope for an intent exactly when it is signed by the payer, bounded in time and fee, and its transaction is one native payment of exactly the intent's stroops to its recipient with its memo |
| Payments.ParseAlone | backend/src/stellar/payment-validation.ts:18-37 | Without an intent, `parsePayment` accepts exactly what its source signed within the time and fee bounds, and returns it |
| Payments.ValidMeans | backend/src/stellar/payment-validation.ts:12-16 | A payment is valid exactly when it moves a positive amount of XLM between two different accounts with a memo whose UTF-8 encoding has at most 28 bytes |
| Payments.SettleableIff | backend/src/stellar/payment-validation.ts:12-37 | Some envelope is accepted for a payment exactly when it is valid and its stroops fit 64 signed bits |
| Payments.AmountBeyondLedgerNeverParses | backend/src/stellar/payment-validation.ts:12-37 | No envelope is accepted for an intent above the ledger's 64-bit range |
| Payments.WalletTransaction.SignReviewed | frontend/src/lib/stellar.ts:30-46 | The wallet signs in place exactly when every check of the review passes and no signature of any kind is attached, and otherwise leaves the transaction as it was |
| Payments.ReviewAccepts | frontend/src/lib/stellar.ts:30-46 | The review passes exactly for an unsigned transaction of the wallet's key that makes the reviewed payment in whole stroops at the reviewed fee of at most 1000000, with a memo that reads as the reviewed one, expiring within six minutes |
| Payments.WalletThenBackend | frontend/src/lib/stellar.ts:30-46 | What the wallet signs for an intent's reviewed fields, the backend accepts for that intent exactly when the memo does not open with a byte order mark, and otherwise rejects for the memo |
| Payments.MarkedMemoRefused | frontend/src/lib/stellar.ts:38-41 | Every intent with a memo that leaves room for a byte order mark has a transaction the wallet accepts for it and the backend rejects for its memo |
| Payments.MarkedMemoExample | frontend/src/lib/stellar.ts:38-41 | One XLM with the memo x is such an intent |
| Payments.BuildNativePayment | backend/src/stellar/stellar.service.ts:105-134 | A transaction is built exactly when the payment is valid, both accounts exist, the fee is within bounds and the sender can afford it; it pays exactly the request for 300 seconds, and the unchanged account, once the ledger has taken payment and fee from it, holds at least reserve plus selling liabilities |
| Payments.ReserveMeans | backend/src/stellar/stellar.service.ts:115-116 | The reserve is two base reserves for a bare account, one more per subentry and sponsorship given, one less per sponsorship received |
| Payments.FeeMeans | backend/src/stellar/stellar.service.ts:113-118 | The fee is the 95th percentile and never below 100, and missing selling liabilities count as zero |
| Payments.BuiltPassesBoth | backend/src/stellar/stellar.service.ts:119-128 | With clocks at most 60 seconds apart, what the backend builds passes the wallet's check (but for a memo with a byte order mark) and, once signed by the sender, the backend's |
| Payments.BuildReviewSign | backend/src/stellar/stellar.service.ts:105-134 | Built, reviewed and signed with clocks at most 60 seconds apart, a payment passes the backend's check of the signed envelope exactly when it can be built and its memo does not open with a byte order mark, which the wallet refuses |
| Intents.NewRowSound | backend/src/payments/payment-intent.service.ts:39-53 | A validated request stored as a new row reads back as the same valid payment |
| Intents.ValidKeyMeans | backend/src/payments/payment-intent.service.ts:41 | A key is usable exactly when some character of it is not white space and it has at most 200 UTF-16 code units |
| Intents.CreateAnswers | backend/src/payments/payment-intent.service.ts:50-52 | A request that adds no row changes no table: it is refused, or answered with the row stored under its key, and then only for the same details |
| Intents.OversizedIntentStored | backend/src/payments/payment-intent.service.ts:39-53 | Every valid request above 64 signed bits of stroops is stored and returned like any other, and no envelope is accepted for its row |
| Intents.OversizedIntentExample | backend/src/payments/payment-intent.service.ts:39-53 | 922337203685.4775808 XLM on an empty database is such a request |
| Intents.StepKeepsInv | backend/src/payments/payment-intent.store.ts:35-81 | Every step of every instance, crashes and ledger closes included, keeps rows, indexes, broadcasts and calls in flight consistent, and never changes details, bindings, settled rows or ledger entries |
| Intents.RunKeepsInv | backend/src/payments/payment-intent.store.ts:35-81 | The same over every run |
| Intents.SettlementTruthfulAndFinal | backend/src/payments/payment-intent.store.ts:70-81 | In every reachable state a SUCCEEDED or FAILED intent is bound to a transaction the ledger holds with that outcome, and nothing later changes the row |
| Intents.BindingUniqueAndFinal | backend/migrations/002_payment_hash_uniqueness.sql:3 | A bound hash never changes and no two intents ever share one |
| Intents.OneBroadcastPerIntent | backend/src/payments/payment-intent.service.ts:67-76 | Over every run, each intent has at most one distinct transaction broadcast and each transaction is broadcast for at most one intent; it is the bound one and pays exactly that intent |
| Intents.BoundBeforeBroadcast | backend/src/payments/payment-intent.service.ts:71-74 | A step broadcasts only a transaction whose hash the intent's row already holds, and one at a time |
| Intents.PayableIntentsSettle | backend/src/payments/payment-intent.service.ts:67-76 | From every reachable state, an accepted envelope whose hash is unused settles its unbound intent: one undisturbed submit, once included, broadcasts it once and returns the ledger's outcome |
| Intents.SucceededIntentsArePaid | backend/src/payments/payment-intent.service.ts:67-82 | In every reachable state the SUCCEEDED intents map one to one into successful ledger transactions, each paying that intent exactly, so the amounts asked and the amounts moved have the same sum |
| IntentService.IntentBackend.CreateIntent | backend/src/payments/payment-intent.store.ts:42-47 | The insert statement against the unique key index |
| IntentService.IntentBackend.ClaimRow | backend/src/payments/payment-intent.store.ts:64-67 | The bind statement against the unique hash index: the whole new state, and a refusal changes nothing |
| IntentService.IntentBackend.SettlePending | backend/src/payments/payment-intent.store.ts:79 | The conditional settlement statement |
| IntentService.IntentBackend.Create | backend/src/payments/payment-intent.service.ts:39-53 | `create` succeeds exactly for a valid request with a usable key that is new or stored with the same details, and otherwise says whether the request or the key was refused; it returns the row stored under the key; a reused key changes no row |
| IntentService.IntentBackend.VerifyTransaction | backend/src/stellar/stellar.service.ts:148-156 | The answer is terminal exactly when the ledger holds the transaction and the reply is current, and is then the ledger's outcome |
| IntentService.IntentBackend.VerifyAndSettle | backend/src/payments/payment-intent.store.ts:70-81 | Query, conditional update and read, with any interference: the returned row is the stored one and tells the ledger's outcome when settled |
| IntentService.IntentBackend.Reconcile | backend/src/payments/payment-intent.service.ts:78-82 | Whatever others do meanwhile, one reconcile with a current answer brings an intent whose bound transaction is in the ledger to that transaction's outcome; an unknown intent is refused |
| IntentService.IntentBackend.BindHash | backend/src/payments/payment-intent.service.ts:72-73 | The bind step of `submit` under interference: bound, or refused because this intent or this hash is taken |
| IntentService.IntentBackend.Send | backend/src/stellar/stellar.service.ts:136-146 | The second check always passes after a bind, and exactly the bound transaction is broadcast |
| IntentService.IntentBackend.Submit | backend/src/payments/payment-intent.service.ts:67-76 | Whatever others do meanwhile, `submit` succeeds exactly when the envelope passes the check for the intent and the intent ends up bound to it, and otherwise gives the reason; a settled answer is the ledger's |
| IntentService.RefusedClaimIsFinal | backend/src/payments/payment-intent.store.ts:55-68 | A refused bind stays refused: that intent is never bound to that transaction in any later run |
| IntentService.MemoryIntentStore.CreateIntent | backend/src/payments/payment-intent.store.ts:36-41 | The in-memory search by key gives the identity the insert statement gives, the new map mirrors the new rows, and each intent keeps its text |
| IntentService.MemoryIntentStore.ClaimIntent | backend/src/payments/payment-intent.store.ts:56-63 | The in-memory bind succeeds exactly when the statement does, and the new map mirrors the new rows |
| IntentService.MemoryIntentStore.Settle | backend/src/payments/payment-intent.store.ts:71-78 | The in-memory settlement mirrors the statement, and refuses exactly a hash that is not the bound one |
| IntentService.SameDecisions | backend/src/payments/payment-intent.service.ts:51-69 | The amount text kept in memory and the number kept in a row accept the same envelopes and count the same requests as repeated |
| Momo.StepKeepsInv | backend/src/momo/momo-transaction.store.ts:149-173 | Every step of every call keeps index, charges, statuses and calls in flight consistent |
| Momo.StepEvolves | backend/src/momo/momo-transaction.store.ts:149-165 | No step deletes a row, changes its details, or changes a terminal row at all |
| Momo.AtMostOneCharge | backend/src/momo/momo.service.ts:28-59 | Over every run of any number of instances, at most one charge is made per type and external id, and each charge has a row with the same reference, type, external id, amount, currency and party |
| Momo.RepeatIsAnswered | backend/src/momo/momo.service.ts:29-33 | A request whose type and external id are stored ends at once, with the stored row when amount, currency and party are the same and with a conflict otherwise |
| Momo.StatusIsFirstTerminalReport | backend/src/momo/momo-transaction.store.ts:113-137 | A PENDING row has had no terminal report, any other row has the status and reason of its first one, and every report that reached the database had the row's type, external id, currency and amount |
| Momo.CallerGetsWinningRow | backend/src/momo/momo-transaction.store.ts:126-137 | A finished call holds a row with the stored details, terminal whenever it reported a terminal status, and a terminal row it holds is the stored one ever after |
| MomoService.MomoBackend.PersistRow | backend/src/momo/momo-transaction.store.ts:149-165 | The upsert statement: inserts, updates only a PENDING row, or conflicts on the unique reference |
| MomoService.MomoBackend.StartPayment | backend/src/momo/momo.service.ts:28-33 | A stored external id is answered with its row exactly when type, amount, currency and party are the request's, refused otherwise, and never charged; only an unstored one goes on to reserve |
| MomoService.MomoBackend.CallProvider | backend/src/momo/momo.service.ts:229-265 | Sent, lost or refused, the provider call leaves the reserved row for a retry to find; a call that left is recorded with the row's details |
| MomoService.MomoBackend.RequestPayment | backend/src/momo/momo.service.ts:28-59 | Under any interference the request is a run of the protocol; a stored external id is answered or refused by its details; a new one succeeds exactly when nobody else takes it first and the provider accepts, and is then charged; a lost answer leaves the row a retry is answered with |
| MomoService.MomoBackend.UpsertStatus | backend/src/momo/momo-transaction.store.ts:113-137 | Read, conditional update and read again, under interference: the report reaches the database unless the row is final, and the row is returned as it then stands |
| MomoService.MomoBackend.ApplyCallback | backend/src/momo/momo.service.ts:141-175 | A callback is not found exactly when no transaction of its type has its external id, and otherwise applied exactly when its status is known and its currency and amount are the stored ones; the caller gets the stored row, terminal if the payload was |
| MomoService.MomoBackend.RefreshStatus | backend/src/momo/momo.service.ts:177-227 | A poll is applied exactly when the transaction is of that product and the provider's answer has a known status and the stored external id, currency and amount; each failure is told apart |
| MomoService.MomoBackend.ListPending | backend/src/momo/momo-transaction.store.ts:139-142 | Lists exactly the PENDING rows, each once |
| MomoService.MomoBackend.ReconcilePending | backend/src/momo/momo.service.ts:124-135 | Under any interference the collected rows are, in order, exactly those listed transactions whose answer agreed with them; one failure does not stop the rest; an agreeing terminal answer leaves its transaction terminal, and no collected terminal row differs from the stored one |
| Tokens.TransferKeepsSupply | contracts/escrow/src/lib.rs:133-137 | A token transfer keeps the supply of every asset |
| Escrows.EscrowContract.Create | contracts/escrow/src/lib.rs:87-122 | `create_escrow`: result and whole new state for every input |
| Escrows.EscrowContract.FundEscrow | contracts/escrow/src/lib.rs:124-141 | `fund`: result and whole new state, rollback included |
| Escrows.EscrowContract.ReleaseEscrow | contracts/escrow/src/lib.rs:143-161 | `release`: result and whole new state, rollback included |
| Escrows.EscrowContract.RefundEscrow | contracts/escrow/src/lib.rs:163-180 | `refund`: result and whole new state, rollback included |
| Escrows.StepKeepsInv | contracts/escrow/src/lib.rs:87-180 | Every call keeps the contract solvent in every asset and every escrow's payments in step with its status |
| Escrows.CreateAccepts | contracts/escrow/src/lib.rs:87-122 | When an escrow is created and which error refuses it; it takes the next id with exactly the terms asked for and changes nothing else |
| Escrows.Refusals | contracts/escrow/src/lib.rs:124-180 | Which error refuses a fund, release or refund, and that a refusal changes nothing |
| Escrows.SolventForever | contracts/escrow/src/lib.rs:87-180 | In every run and every asset the contract holds at least the sum of its Funded escrows, and each escrow has had exactly the movements its status implies: at most one in, then at most one out of the same amount, to the stored sender or recipient |
| Escrows.StepKeepsSupply | contracts/escrow/src/lib.rs:87-180 | No call changes the supply of any asset |
| Escrows.SurplusNeverShrinks | contracts/escrow/src/lib.rs:124-180 | What the contract holds beyond its Funded escrows never falls, and rises only by a transfer or mint to the contract or a release of an escrow whose recipient is the contract |
| Escrows.PayoutCovered | contracts/escrow/src/lib.rs:143-180 | The payout of a Funded escrow never fails for lack of funds: the token makes it exactly when the payee's balance stays within 128 bits, which a 128-bit supply guarantees |
| Escrows.ExactlyOneExit | contracts/escrow/src/lib.rs:143-180 | At each time exactly one of release and refund passes for a Funded escrow, given the sender's authorisation, a willing token and room at the payee |
| Escrows.FundAccepts | contracts/escrow/src/lib.rs:124-141 | Funding succeeds exactly before expiry, once, with the sender's authorisation and balance |
| Escrows.OnlyTheSenderMoves | contracts/escrow/src/lib.rs:124-180 | An escrow changes only by its own call with its sender's authorisation, and the contract's balance falls only in such a release or refund by that escrow's amount |
| Escrows.LifeOfPayment | contracts/escrow/src/lib.rs:87-180 | Created, funded and released, an escrow moves exactly the amount asked for from sender to recipient before the expiry; refunded, it moves nothing, and not before the expiry |
| Escrows.FundThenRefund | contracts/escrow/src/lib.rs:124-180 | Fund and refund together leave every balance of every asset unchanged |
| Escrows.FundThenRelease | contracts/escrow/src/lib.rs:124-161 | Fund and release together are one transfer from the sender to the recipient |
| Escrows.LifeForward | contracts/escrow/src/lib.rs:124-180 | Over every run an escrow's terms never change and its status only moves Created, Funded, then Released or Refunded |
| Escrows.ExpiredNeverFunded | contracts/escrow/src/lib.rs:129-131 | An escrow left Created past its expiry stays exactly as it is in every later run |
| Multisig.MultisigContract.InitializeContract | contracts/multisig/src/lib.rs:54-79 | The loop over the signers: result and whole new state for every list |
| Multisig.InitializeAccepts | contracts/multisig/src/lib.rs:54-79 | Initialisation succeeds exactly once, for distinct signers that all authorise and a threshold between one and their number, and stores exactly those; each refusal is told apart and changes nothing |
| Multisig.MultisigContract.ProposeTransaction | contracts/multisig/src/lib.rs:83-119 | Result and whole new state |
| Multisig.MultisigContract.ApproveProposal | contracts/multisig/src/lib.rs:122-145 | Result and whole new state |
| Multisig.MultisigContract.ExecuteProposal | contracts/multisig/src/lib.rs:147-170 | Result and whole new state |
| Multisig.MultisigContract.ProposeAssetTransfer | contracts/multisig/src/lib.rs:174-206 | Result and whole new state |
| Multisig.MultisigContract.ApproveAssetTransfer | contracts/multisig/src/lib.rs:209-232 | Result and whole new state |
| Multisig.MultisigContract.ExecuteAssetTransfer | contracts/multisig/src/lib.rs:234-261 | Result and whole new state, rollback of a failed transfer included |
| Multisig.MultisigContract.CheckSigner | contracts/multisig/src/lib.rs:270-281 | Passes exactly the registered signers, reports no initialisation exactly when there are no signers, and a stranger exactly otherwise |
| Multisig.OnlySignersAct | contracts/multisig/src/lib.rs:83-281 | In every reachable state a propose or approve call changes something only for a registered signer that authorised it, and then records exactly that signer's approval; no other call but initialisation and execution touches the contract's own state |
| Multisig.StepKeepsInv | contracts/multisig/src/lib.rs:54-281 | Every call keeps signers distinct, the threshold within range, approvals duplicate-free signers that the history of calls records, and each id in exactly one map |
| Multisig.RunLog | contracts/multisig/src/lib.rs:83-232 | Every approval in the history was recorded by a call of the run that its address authorised and that succeeded: an approve call for that id, or the propose call that created it |
| Multisig.ExecutedMeansApproved | contracts/multisig/src/lib.rs:54-261 | In every run an executed proposal has approvals from at least threshold distinct signers, each of which authorised a successful approve call for that very id or the propose call that created it |
| Multisig.MissingSigner | contracts/multisig/src/lib.rs:54-79 | A duplicate-free approval list shorter than the signer list misses a signer (pigeonhole) |
| Multisig.ApproveProgress | contracts/multisig/src/lib.rs:122-145 | One approval by a signer that has not approved adds exactly that approval and keeps everything else |
| Multisig.DriveToThreshold | contracts/multisig/src/lib.rs:209-232 | Every unexecuted proposal reaches its threshold by exactly as many calls as approvals are missing, all by signers that had not approved |
| Multisig.Progress | contracts/multisig/src/lib.rs:147-261 | After those calls a plain proposal executes, and a transfer executes exactly when the contract's balance covers the amount and the payee's stays within 128 bits |
| Multisig.OutflowExact | contracts/multisig/src/lib.rs:234-261 | Over every run and in every asset, the contract's balance is what it was, plus what others sent in, minus the sum of executed transfer proposals |
| Multisig.ExecutedForever | contracts/multisig/src/lib.rs:147-261 | An executed proposal never changes again, so none pays twice |
| Multisig.IdsUnique | contracts/multisig/src/lib.rs:83-206 | In every run an id is in one of the two maps exactly when it is below the shared counter, and never in both |
| Multisig.ProposeAccepts | contracts/multisig/src/lib.rs:89-104 | In every reachable state, when a propose call succeeds and which error refuses it |
| Multisig.ProposalStored | contracts/multisig/src/lib.rs:83-119 | A successful propose call stores exactly the payee and amount asked for under the next id, approved by the proposer alone, and touches no other proposal |
| Multisig.TransferProposalStored | contracts/multisig/src/lib.rs:174-206 | A successful propose call stores exactly the asset, payee and amount asked for under the next id, approved by the proposer alone, and touches no other proposal |
| Multisig.RunKeepsTerms | contracts/multisig/src/lib.rs:83-261 | No run changes the asset, payee or amount of a proposal, the signers or the threshold, or takes back an approval |
| Multisig.ApproveAccepts | contracts/multisig/src/lib.rs:122-145 | When an approval succeeds, which error refuses it, and that it adds exactly that approval |
| Multisig.ApproveTransferAccepts | contracts/multisig/src/lib.rs:209-232 | The same for the approval of a transfer |
| Multisig.ExecuteAccepts | contracts/multisig/src/lib.rs:147-170 | When a plain proposal executes, which error refuses it, and that it marks exactly that proposal executed |
| Multisig.ExecuteTransferAccepts | contracts/multisig/src/lib.rs:234-261 | When a transfer executes, which error refuses it, and that it moves exactly its amount of its asset from the contract to its payee, no other balance, and marks exactly that proposal executed |
| Multisig.PaidAsAsked | contracts/multisig/src/lib.rs:174-261 | However many calls come between, executing a transfer proposal moves exactly the amount its propose call asked for, in the asset and to the payee asked for |
| Multisig.ExecutedAsAsked | contracts/multisig/src/lib.rs:83-170 | However many calls come between, a plain proposal stands and is executed as its propose call asked |
| Vault.VaultContract.InitializeRate | contracts/vault/src/lib.rs:39-47 | Result and whole new state |
| Vault.VaultContract.AccrueFor | contracts/vault/src/lib.rs:102-136 | The account with interest folded in, or the error, for every stored account |
| Vault.VaultContract.DepositFor | contracts/vault/src/lib.rs:51-70 | Result and whole new state; a failed call changes nothing |
| Vault.VaultContract.WithdrawFor | contracts/vault/src/lib.rs:73-92 | Result and whole new state; a failed call changes nothing |
| Vault.VaultContract.BalanceOf | contracts/vault/src/lib.rs:94-97 | The accrued balance, or the accrual's error, with nothing stored |
| Vault.AccrueExact | contracts/vault/src/lib.rs:102-136 | Accrual fails exactly when balance times rate times elapsed, or the sum, exceeds 128 bits, and otherwise adds the floored interest; the intermediate product never fails alone |
| Vault.SmallBalancesAccrue | contracts/vault/src/lib.rs:119-132 | Up to 2^31 units accrual never fails, at any rate and any elapsed time |
| Vault.AccrueMonotone | contracts/vault/src/lib.rs:102-136 | Success and result are monotone in balance and time |
| Vault.SplitNeverEarnsMore | contracts/vault/src/lib.rs:119-132 | Splitting a balance over two accounts never earns more and loses at most one unit per accrual |
| Vault.RepeatedUpper | contracts/vault/src/lib.rs:102-136 | After any number of accruals, the balance times D to the number of accruals is at most the first balance times the product of D plus rate times gap, with D = 10000 * 31536000 |
| Vault.RepeatedLower | contracts/vault/src/lib.rs:102-136 | n accruals yield at least the single accrual over the total time, less n - 1 units |
| Vault.StepAccounts | contracts/vault/src/lib.rs:51-92 | One call changes a balance by exactly deposit minus withdrawal plus credited interest, and a failed call changes nothing |
| Vault.RunConserves | contracts/vault/src/lib.rs:51-92 | Over every run a balance is deposits minus withdrawals plus credited interest |
| Vault.RunIsolated | contracts/vault/src/lib.rs:51-136 | A user's account after any run is what that user's own calls alone make of it |
| Vault.DepositThenWithdraw | contracts/vault/src/lib.rs:51-92 | Withdrawing a deposit at once always succeeds and leaves only the accrual |
| Vault.DepositAnswers | contracts/vault/src/lib.rs:51-70 | A successful deposit answers the balance now stored, which is what a query at that instant answers and what was stored plus interest plus amount; each refusal is told apart and changes nothing |
| Vault.WithdrawAnswers | contracts/vault/src/lib.rs:73-92 | A successful withdrawal answers the balance now stored, which is what a query at that instant answers and what was stored plus interest less amount; each refusal is told apart and changes nothing |
| Vault.RateForever | contracts/vault/src/lib.rs:39-47 | Initialisation succeeds exactly once and sets the given rate, which no later run changes |
| Vault.YearlyInterest | contracts/vault/src/lib.rs:119-132 | A year of 31536000 seconds earns balance times rate over 10000, rounded down |
| Vault.DepositAvailable | contracts/vault/src/lib.rs:51-70 | The exact condition for a deposit to succeed |
| Vault.WithdrawAvailable | contracts/vault/src/lib.rs:73-92 | The exact condition for a withdrawal to succeed |
| Vault.OverflowPersists | contracts/vault/src/lib.rs:119-132 | Accrual that overflows at one time overflows at every later time |
| Vault.OverflowFreezes | contracts/vault/src/lib.rs:51-136 | Once its accrual overflows, no run of later calls ever changes the account |
| Vault.FrozenIff | contracts/vault/src/lib.rs:51-136 | No call from some time on can ever change an account exactly when its accrual overflows at that time |
| Vault.FrozenAccountReached | contracts/vault/src/lib.rs:51-136 | An initialisation at one basis point and one deposit reach an account that no later call changes |
| RateLimit.RateLimitGuard.PurgeExpired | backend/src/auth/rate-limit.guard.ts:12 | The deletion loop keeps exactly the windows still open |
| RateLimit.RateLimitGuard.CanActivate | backend/src/auth/rate-limit.guard.ts:7-24 | Outcome and whole new client table for every request, under a configured positive limit or under 60 |
| RateLimit.Verdict | backend/src/auth/rate-limit.guard.ts:12-23 | A request is refused for capacity exactly when its client has no open window and 10000 are open, and for its count exactly when its window has used up the limit; the new table has exactly the open windows, with the client's count raised or its 60-second window opened |
| RateLimit.CapacityBounded | backend/src/auth/rate-limit.guard.ts:17 | No run of requests ever keeps more than 10000 clients |
| RateLimit.AtMostTwiceTheLimit | backend/src/auth/rate-limit.guard.ts:7-24 | With a clock that never goes back, every closed 60-second interval admits at most twice the limit of one client |
| RateLimit.WindowRemainder | backend/src/auth/rate-limit.guard.ts:15-22 | What is left of a client's window is all it can still be admitted in that window |
| RateLimit.WindowAdmitsLimit | backend/src/auth/rate-limit.guard.ts:15-22 | A client's window admits at most the limit |
| RateLimit.MinuteKeepsToLimit | backend/src/auth/rate-limit.guard.ts:7-24 | Every run of requests keeps to the limit of a client in the 60 seconds from a time exactly when at that time the guard holds no window of that client that ends inside them with admissions left |
| RateLimit.LateBurstAdmitted | backend/src/auth/rate-limit.guard.ts:12-22 | Otherwise the rest of that window and then a whole limit are admitted within those 60 seconds |
| RateLimit.TwiceTheLimitReached | backend/src/auth/rate-limit.guard.ts:12-22 | For every limit there is a run that admits exactly twice the limit in one such interval |

## Left out

- HTTP routing, request validation decorators, guards on keys and tokens, CORS, health checks, OAuth token fetch, timers and logging.
- Cryptography, XDR encoding, key checksums: an envelope is a transaction with the set of keys whose signature verifies, and an address is a valid key or not. Muxed accounts are not distinguished.
- React components and client-side state: the client is arbitrary.
- Payment links, listings of intents, the gateway contract, the unbacked `create_payment` of the escrow contract, and the USSD menu: single-branch facts.
- `createdAt` and `updatedAt` columns, and response fields computed from the hash alone.
- Database unavailability other than the constraint errors modelled: a call that meets it vanishes like a crashed one.
- The in-memory path of mobile-money storage, which awaits between read and write and serves isolated use only, and the write-only record cache beside the database.
- Floating-point comparison of mobile-money amounts: the controller admits two decimals, so amounts are whole cents.
- Blank padding of the CHAR(3) currency column: currencies are three letters.
- Storage lifetime, events and re-entry of contract calls: each call is atomic and its storage does not expire.
- Tokens with administrative clawback, fees or misbehaving balances: a token may refuse a transfer, and otherwise moves exactly the amount.
- Invalid UTF-16 in memos (lone surrogates).
- Fee statistics that are not whole numbers: the p95 fee is a natural number of stroops.
- Collisions of a new intent's UUID in the in-memory store; in the database they are refused by the primary key, which is modelled.
- The hash-format check of `verifyTransaction`, since hashes come only from transactions.
