# Restaurant platform: verified models

Dafny models of the parts of the platform where money, orders, kitchen steps and sign-ins meet
concurrency, bad networks or exact arithmetic, with proofs over all inputs and all runs. Check
everything with `dafny verify dfyconfig.toml`.

## What is modelled

* **Online payments** (`Settlement`, `PaymentHistory`, `GatewayPayments`, `Money`). A webhook, the return page and a
  poll race to settle one payment: look at the row, ask the provider, claim with one conditional
  update, check out, mark or release. `Settlement` is the protocol: every database statement,
  provider answer, failure after a commit and crash is one step of any caller. `GatewayPayments` is
  the service with its rows, its ledger and its throttle; each of its statements is shown to be a
  step of the protocol while other callers do anything they like at every wait.
* **Refunds** (`Refunds`, `RefundHistory`, `RefundService`). Reserve under a row lock, ask the provider once, record
  in the books; anything unclear is parked for a person.
* **Orders a caller may repeat** (`UniqueOrders`, `OrderHistory`, `OrderDesk`). Websites, delivery platforms and the
  kiosk share one protocol: look the key up, insert under a unique index, look again after a clash,
  three inserts at most.
* **The kiosk** (`KioskBasket`, `KioskFlow`, `Uuid`, `KioskNetwork`, `KioskServer`,
  `KioskRefusals`, `KioskHistory`). The basket, the reducer that locks it after an ambiguous failure, its request
  ids, and the kiosk over a network that loses, delays and repeats. `KioskServer` puts the server's
  own calls behind it, each a caller of `UniqueOrders` among others, and shows that to the kiosk
  they are what `KioskNetwork` assumes.
* **Offline updates** (`Outbox`, `OutboxHistory`, `OutboxSender`). A queue with replacement by group, sent in order
  while more is added.
* **The kitchen board** (`KotLifecycle`, `KitchenBoard`, `KitchenQueue`, `KitchenStars`). The ticket
  state machine, the queue laid over the server's tickets, and the steps and stars a cook queues
  with no connection.
* **Second factor** (`Base32`, `Totp`, `TwoFactor`, `TwoFactorHistory`, `TwoFactorService`). Base32 in a 32-bit shift
  register that is never masked, six-digit codes and their window, the conditional advance of the
  last step under any number of logins, and the lock after five wrong codes.
* **Tree copy** (`TreeCopy`). A work stack walking a cyclic graph of directories, refining the
  recursive unfolding; it terminates because the unfolding left on the stack shrinks.
* **Arithmetic and bookkeeping** (`Money`, `TaxRounding`, `LocalDays`, `TableDrafts`). Minor units,
  tax gross-up and back-out, local days over a changing zone offset, one cart per table.

A state machine is a datatype `State`, a total function `Next` that leaves the state alone when a
step is not enabled, and `Run` over any sequence of events. Where other callers interfere, a class
has a method `Others` whose contract allows every sequence of steps of other callers and says
nothing else. What an environment decides (an answer, an outcome, a time) is a parameter.

The history modules tell what a state holds from the events of the run alone: which answer confirmed
a payment, what a refund was asked for, which tap chose the service, which codes were wrong. Their
results use none of the tests and none of the steps they speak about.
Beside them stand short laws of single statements (`PaymentHistory.EndDecides`, `KioskServer.AnswerTells` and
the like), in the fields themselves.

## What turned out

* A provider refusal counts as definite whenever it carries an HTTP status, a 5xx included
  (`gateway-payments.service.ts:520` with `adapters/http.ts:38-43`). A refund the provider sent and
  then answered so is written off as FAILED and its amount is free again. After any run with no call
  under way, refunds with plain answers can take what is sent above the payment exactly when more
  was lost that way than is stuck in reserved rows whose money never moved
  (`Refunds.OverpaysIffMoreLostThanStuck`); for every payment two such refusals return twice its
  amount (`Refunds.RefusalsThatSendOverpay`).
* A crash between the claim and its release strands a payment (`Settlement.CrashStrands`). An open,
  linked live payment can still be settled exactly when it is not stranded
  (`Settlement.SettlesIffNotStranded`).
* Checkout takes every unique-index clash of its transaction for a repeat of the request id
  (`orders.service.ts:1790-1793`), the fiscal record's indexes included (`schema.prisma:2415-2416`).
  Such a clash rolls the credit back and reports success: the payment ends SUCCEEDED and is never
  credited (`Settlement.MistakenRepeatIsNeverCredited`). After any run without one, the next step
  lets a live payment end so exactly when it is such a clash of a payment that is not in the ledger
  (`Settlement.UncreditedIffClash`).
* That a payment is credited at most once follows from the request id at checkout alone
  (`Settlement.CreditedAtMostOnce`). What the claim adds is in `Settlement.ClaimAloneSuffices`, and
  what a status means in `Settlement.StatusMeansCredit`.
* `zonedDayStart` is right exactly at the midnights `LocalDays.CleanMidnight` describes. In a zone
  that jumps forward from midnight it misplaces instants exactly west of Greenwich, in one that
  jumps back to midnight exactly when it is not west of it afterwards, and always where a jump
  passes over midnight (`LocalDays.JumpFromMidnight`, `JumpBackToMidnight`, `JumpPastMidnight`).
* The days of a range tile it, and adjacent ranges join, in every zone whose offset moves by no more
  than a day within two days; with changes further apart than that, a zone is of this kind exactly
  when no single change moves its clock by more than a day (`LocalDays.SparseZoneIsClose`), so a
  move across the date line is within it. In any zone at all both hold exactly when the offsets used for
  the day starts say so (`LocalDays.DaysTileIff`, `LocalDays.RangesJoinIff`); a jump of two days
  would break them (`LocalDays.TwoDayJumpDoesNotJoin`).
* The kiosk's rule keeps one order per guest exactly as long as no submit is refused while an
  earlier one can still be stored, or is (`KioskNetwork.CarelessRefusalCanDouble`, and of the order
  rows `KioskRefusals.CarelessRefusalCanDouble`); a rate limit on a retry is enough to break it
  (`KioskRefusals.CarelessRefusalHappens`). A call that gives up after three clashes answers 409
  (`prisma-exception.filter.ts:38-39`), which the kiosk takes for a refusal as well.
* A kitchen step queued offline is refused exactly when the board was two steps or more behind, or
  the tap's own request slipped through behind waiting steps (`KitchenQueue.TapIsAcceptedIffSafe`).
  Both come about (`KitchenQueue.UnrefreshedBoardIsUnsafe`, `KitchenQueue.LostAnswerThenLostAnswer`);
  in one offline stretch neither does (`KitchenQueue.OfflineStepsDrain`).
* Another enrolment that ends while the user is enrolled lets a step be accepted twice exactly when
  its step is behind the last one accepted (`TwoFactor.ReplaysIffOlder`), and that comes about
  (`TwoFactor.OlderEnableHappens`).
* The limit of five wrong codes is kept all the way exactly by the runs in which every code that was
  waited for is counted wrong only while fewer than five others are recent
  (`TwoFactor.LimitKeptIffTimely`). Recovery codes sent at once break it, since each is compared
  after the lock was looked at (`TwoFactor.GuessesAtOnceAreNotLimited`). Wrong authenticator codes
  are counted without a wait, so they keep it however many come at once
  (`TwoFactor.WrongCodesAtOnceAreLimited`).
* A price times a quantity survives gross-up and back-out exactly when the unit's rounding error,
  times the quantity, with the tax taken out, is within half a cent (`TaxRounding.ManyUnitsExactIff`).

## Where each step comes from

| step | source |
|---|---|
| Settlement.CreateRow, SaveLinkStep, LinkFailedStep | apps/backend/src/payment-gateways/gateway-payments.service.ts:102-181 |
| Settlement.LookStep, AnswerStep, ActStep | apps/backend/src/payment-gateways/gateway-payments.service.ts:193-298 |
| Settlement.ReadOrderStep, CheckoutStep, OtherClashStep | apps/backend/src/modules/orders/orders.service.ts:1501-1520 and 1655-1793, apps/backend/prisma/schema.prisma:1730 and 2415-2416 |
| Settlement.MarkStep, ReleaseStep | apps/backend/src/payment-gateways/gateway-payments.service.ts:315-336 |
| Refunds.BeginStep, LockStep, SumStep, ReserveStep | apps/backend/src/payment-gateways/gateway-payments.service.ts:449-505 |
| Refunds.SendStep, WriteFailedStep, WriteReviewStep | apps/backend/src/payment-gateways/gateway-payments.service.ts:507-536 and 562-576 |
| Refunds.RecordStep, WriteSucceededStep, StaffRefundStep | apps/backend/src/payment-gateways/gateway-payments.service.ts:538-555, apps/backend/src/modules/orders/orders.service.ts:1903-1940 |
| UniqueOrders.LookUpStep, InsertStep, LookAgainStep | apps/backend/src/integrations/integrations.service.ts:186-190 and 231-302, apps/backend/prisma/schema.prisma:1511-1513 |
| KioskFlow.Reduce | apps/web/lib/kiosk-flow.ts:78-167 |
| KioskServer.ArriveStep, AnswerStep, TurnAwayStep | apps/backend/src/modules/public/public-kiosk.controller.ts:24-29, apps/backend/src/modules/public/public-kiosk.service.ts:66-117, apps/backend/src/common/filters/prisma-exception.filter.ts:34-53 |
| KioskNetwork.SubmitTapStep, ReceiveStep, TimeOutStep | apps/web/components/kiosk/kiosk-app.tsx:61-90, apps/web/lib/kiosk-api.ts:73-109 |
| Outbox.AddStep, HearStep, FinishStep | apps/web/lib/outbox.ts:45-48 and 66-93 |
| KitchenQueue.TapStep, StarStep, Serve | apps/web/hooks/use-kds.ts:88-112 and 207-229, apps/backend/src/modules/orders/orders.service.ts:2361-2416 |
| TwoFactor.VerifyStep, AdvanceStep, SettleStep, EnableStep | apps/backend/src/auth/two-factor.service.ts:54-118 and 174-201 |
| TableDrafts.Next | apps/web/lib/pos-drafts.ts:13-47, apps/web/app/(dashboard)/pos/page.tsx:55-62 |

## Model

| member | source | states |
|---|---|---|
| Settlement.CreditedAtMostOnce | apps/backend/src/payment-gateways/gateway-payments.service.ts:299-336 | in every interleaving of looks, claims, checkouts that fail or commit and then fail, and crashes, a payment is credited at most once, by the request id at checkout alone |
| Settlement.ClaimAloneSuffices | apps/backend/src/payment-gateways/gateway-payments.service.ts:285-298 | the atomic claim by itself, with no repeat check at checkout, credits at most once while nothing commits and then reports a failure |
| Settlement.CommitThenFailureCreditsTwice | apps/backend/src/payment-gateways/gateway-payments.service.ts:319-336 | without the request id a checkout that commits and then reports a failure lets any settleable payment be credited twice |
| Settlement.NewLinkIsClaimable | apps/backend/src/payment-gateways/gateway-payments.service.ts:138-166 | every new live link, whatever its bill and currency, is a payment that can be settled |
| Settlement.StatusMeansCredit | apps/backend/src/payment-gateways/gateway-payments.service.ts:271-337 | in every reachable state a live payment marked succeeded was confirmed by the provider and credited exactly once, unless a clash on another index was taken for a repeat; a test payment never was, and one both expired and credited was reported both |
| Settlement.MistakenRepeatIsNeverCredited | apps/backend/src/modules/orders/orders.service.ts:1785-1793 | after any run a payment that can be settled and was not credited can end succeeded through such a clash, and no continuation credits it |
| Settlement.UncreditedIffClash | apps/backend/src/modules/orders/orders.service.ts:1785-1793 | after any run without such a clash, the next step lets a live payment end succeeded and uncredited, with no clash later, if and only if it is one, of a checkout that found no repeat of a payment not in the ledger |
| Settlement.OneCallerSettles | apps/backend/src/payment-gateways/gateway-payments.service.ts:285-298 | never two callers between the claim and the end of one payment's settlement |
| Settlement.CreditIsTheBalance | apps/backend/src/payment-gateways/gateway-payments.service.ts:102-114 | every credit is the amount its link was made for, and to the cent the bill's balance in a currency with decimals |
| Settlement.OpenPaymentCanStillSettle | apps/backend/src/payment-gateways/gateway-payments.service.ts:319-336 | after any run an open, unclaimed live payment can still be settled, ending succeeded and credited once |
| Settlement.CrashStrands | apps/backend/src/payment-gateways/gateway-payments.service.ts:286-336 | after any run a crash of a claim's holder, wherever it is, leaves the payment stranded |
| Settlement.SettlesIffNotStranded | apps/backend/src/payment-gateways/gateway-payments.service.ts:271-337 | after any run an open, linked live payment can end succeeded and credited once if and only if it is not stranded |
| Settlement.StrandedForever | apps/backend/src/payment-gateways/gateway-payments.service.ts:286-298 | a claim nobody holds is never freed, its payment never credited again and, if live, never marked succeeded, in any continuation |
| Settlement.StepKeepsInv | apps/backend/src/payment-gateways/gateway-payments.service.ts:189-337 | every step keeps: one holder per claim, claims only on confirmed live payments, honest ledger, statuses given for a reason |
| PaymentHistory.CreditWasReported | apps/backend/src/payment-gateways/gateway-payments.service.ts:245-269 | behind every ledger entry of every run there is an answer, to a caller asking about that payment, that reported exactly the credited amount and currency paid, under that payment's name or none |
| PaymentHistory.StatusWasReported | apps/backend/src/payment-gateways/gateway-payments.service.ts:245-284 | so it is for every payment marked succeeded, by the row's own amount and currency; and every expired one was reported expired |
| PaymentHistory.AnswerDecides | apps/backend/src/payment-gateways/gateway-payments.service.ts:241-298 | whatever others do before an answer is acted on: another amount, currency or name sends the payment to review, an expiry expires it, and a payment reported as it is gets claimed exactly when it is live, open and unclaimed |
| PaymentHistory.RowIsItsLink | apps/backend/src/payment-gateways/gateway-payments.service.ts:102-163 | every row is for the mode, the bill in units and the currency of an event that asked for a link |
| PaymentHistory.LookIsForOpenOnes | apps/backend/src/payment-gateways/gateway-payments.service.ts:217-236 | a look is taken up exactly for a linked payment that is new or under review |
| GatewayPayments.Service.Refresh | apps/backend/src/payment-gateways/gateway-payments.service.ts:189-269 | looks exactly when the payment is linked, open and not looked at just now; one shown as succeeded is credited exactly once if live, but for a clash taken for a repeat, and never if test, whatever others do meanwhile |
| GatewayPayments.Service.Webhook | apps/backend/src/payment-gateways/gateway-payments.service.ts:370-396 | an event seen before changes nothing; any other is recorded, and if it is about a linked open payment the look happens whatever the throttle says |
| GatewayPayments.Service.Claim | apps/backend/src/payment-gateways/gateway-payments.service.ts:286-298 | the conditional update wins exactly when the payment was unclaimed and open, and then sets the claim only |
| GatewayPayments.Service.Apply | apps/backend/src/payment-gateways/gateway-payments.service.ts:271-298 | a test payment is marked with the ledger as it was; a live one that is claimed or closed is left alone, so only the claim's winner settles |
| GatewayPayments.Service.CheckOut | apps/backend/src/modules/orders/orders.service.ts:1501-1793 | the winner checks out under the payment's id: reported when committed or when another index clashed and no repeat was found |
| GatewayPayments.Service.Settle | apps/backend/src/payment-gateways/gateway-payments.service.ts:299-336 | a reported checkout and a final update that goes through: succeeded; anything else: needs review with the claim released |
| GatewayPayments.Service.CreateLink | apps/backend/src/payment-gateways/gateway-payments.service.ts:102-180 | a link handed back has the server-side amount, currency and mode; nothing due makes no link and changes nothing |
| GatewayPayments.Service.constructor | apps/backend/src/payment-gateways/gateway-payments.service.ts:189-211 | a new service starts the protocol with no steps taken |
| Refunds.ReservedWithinPaid | apps/backend/src/payment-gateways/gateway-payments.service.ts:475-505 | in every interleaving pending, succeeded and needs-review refunds never exceed the payment, the refundable figure is never negative, and the books never exceed the order |
| Refunds.SentWithinPaid | apps/backend/src/payment-gateways/gateway-payments.service.ts:475-537 | the provider never sends more than was paid plus what it sent behind definite refusals; with no such refusal never more than was paid |
| Refunds.NothingLostTrackOf | apps/backend/src/payment-gateways/gateway-payments.service.ts:408-581 | in every reachable state each row reached the provider at most once, money that moved is pending, under review or succeeded (or behind a refusal), and a succeeded row is in the books exactly once |
| Refunds.RefusalsThatSendOverpay | apps/backend/src/payment-gateways/gateway-payments.service.ts:519-530 | for every payment, in any currency, and an order that covers it, two refunds of the whole that were sent and then refused with a status return twice its amount |
| Refunds.OverpaysIffMoreLostThanStuck | apps/backend/src/payment-gateways/gateway-payments.service.ts:475-537 | after any run with no call under way and enough of the order left, plain refunds can take what is sent above the payment if and only if more was lost behind refusals than is stuck in rows that never moved |
| Refunds.PlainRunMovesWhatIsLeft | apps/backend/src/payment-gateways/gateway-payments.service.ts:475-537 | from a state with no call under way plain refunds move no more than what is left to reserve |
| Refunds.WithoutLockBothReserve | apps/backend/src/payment-gateways/gateway-payments.service.ts:475-479 | without the row lock two refunds reserve the whole payment each, for every payment and an order that covers it |
| Refunds.StepKeepsInv | apps/backend/src/payment-gateways/gateway-payments.service.ts:408-581 | every step keeps the lock's discipline, each row's status in agreement with its fate, one call per row, and the books' limit |
| RefundHistory.BooksHoldTheAmount | apps/backend/src/payment-gateways/gateway-payments.service.ts:538-549 | in every reachable state the books hold each refund at exactly the cents it was asked for, once it is in them, and at nothing before |
| RefundHistory.BookTotalIsRefunds | apps/backend/src/modules/orders/orders.service.ts:1903-1940 | what is taken off the order is the sum of the recorded refunds' amounts and of the staff refunds that were within its limit when they came |
| RefundHistory.RowIsItsRequest | apps/backend/src/payment-gateways/gateway-payments.service.ts:449-505 | every row is for cents some call asked for within what was left of the order then, and for their worth in the currency's units |
| RefundHistory.FateIsTheAnswer | apps/backend/src/payment-gateways/gateway-payments.service.ts:507-536 | every row's fate is one answer of the provider's: moved exactly if it accepted or moved the money without saying so, succeeded only if accepted, failed only if refused, under review only if not |
| RefundService.Service.Refund | apps/backend/src/payment-gateways/gateway-payments.service.ts:419-581 | a refund of nothing, or of a payment that is unknown, a test, unsettled, at a gateway without refunds or of an unpaid order, is rejected with nothing changed; one for more than the order has left exactly so, with rows and books as they were; one for more than the payment has left after finding that under the lock; no rejected call touched a row or the books; otherwise the result says the row's amount and status, the cents the books hold for it and what the provider did; an accepted refund that was booked and saved is under review only for want of room in the books |
| RefundService.Service.RefundInUnits | apps/backend/src/payment-gateways/gateway-payments.service.ts:453-581 | rejected for the order exactly above its limit; done: accepted, moved, recorded once; turned away: refused, failed, in no book; otherwise under review; the provider asked once in each case |
| RefundService.Service.LockPayment | apps/backend/src/payment-gateways/gateway-payments.service.ts:476-479 | goes on only as the lock's holder, at once if it is free, and gives up only on a lock that is taken |
| RefundService.Service.InsertRow | apps/backend/src/payment-gateways/gateway-payments.service.ts:487-505 | refuses exactly what exceeds the amount left, otherwise adds one pending row; the lock goes either way |
| RefundService.Service.SendAndRecord | apps/backend/src/payment-gateways/gateway-payments.service.ts:507-581 | which of succeeded, failed or needs review the row ends in, by the provider's answer |
| UniqueOrders.OneOrderPerKey | apps/backend/src/integrations/integrations.service.ts:231-302 | under any number of concurrent calls a key has at most one order, and so has a daily number |
| UniqueOrders.SameKeySameOrder | apps/backend/src/integrations/integrations.service.ts:178-190 | calls that succeed under one key got the same order; two websites' calls came from one API key with the same body |
| UniqueOrders.DifferentBodyIsRefused | apps/backend/src/integrations/integrations.service.ts:173-185 | a call refused for a different body did send another body than any call that succeeded under the key |
| UniqueOrders.AtMostThreeInserts | apps/backend/src/integrations/integrations.service.ts:231-302 | no call makes more than three inserts |
| UniqueOrders.TakenKeyEndsCall | apps/backend/src/integration-hub/aggregator-orders.service.ts:350-398 | a call whose key is taken inserts no more: its next lookup ends it with that order, or with a refusal for a website that sent something else |
| UniqueOrders.ScopedKeysApart | apps/backend/src/integrations/integrations.service.ts:168-172 | without colons in the keys, stored keys are equal exactly when API key and idempotency key are |
| UniqueOrders.ColonLetsKeysMeet | apps/backend/src/integrations/integrations.service.ts:170-171 | a colon in an idempotency key would make two API keys' stored keys equal |
| UniqueOrders.KeyIsOwn | apps/backend/src/integrations/integrations.service.ts:449-458 | the lookup limited to one API key finds every order stored under that website's key, the kiosk's included |
| UniqueOrders.Find | apps/backend/src/integrations/integrations.service.ts:449-458 | an order the lookup finds answers the request, and none is missed |
| OrderHistory.KeysMeetIff | apps/backend/src/integrations/integrations.service.ts:166-172 | two well-formed requests share a stored key exactly as one website's same idempotency key, the same kiosk id or the same platform order; only a website's without one has none |
| OrderHistory.AnswersAreOfTheRequest | apps/backend/src/integrations/integrations.service.ts:173-190 | in every run of well-formed requests an order handed back is of that very request, for a website of that very body; a refusal for another body means there is one with another |
| OrderHistory.UnkeyedIsNeverReplayed | apps/backend/src/integrations/integrations.service.ts:186-190 | a website call without an idempotency key is never answered with an older order, nor refused for one |
| OrderHistory.UnkeyedGetTheirOwn | apps/backend/src/integrations/integrations.service.ts:168-172 | two such calls that succeed got different orders |
| OrderHistory.InsertDecides | apps/backend/src/integrations/integrations.service.ts:231-284 | an insert goes in unless the request has an order or the number is taken or it failed before, and is answered as placed exactly if it went in and was acknowledged |
| OrderHistory.FreeKeyGoesOn | apps/backend/src/integrations/integrations.service.ts:286-301 | while a request has no order its lookups let it insert, three times in all |
| OrderHistory.FailureHasReason | apps/backend/src/integrations/integrations.service.ts:285-303 | in every run a call that failed was cut off, had an insert that threw, or clashed three times |
| OrderDesk.Desk.CreateOrder | apps/backend/src/modules/public/public-kiosk.service.ts:76-116 | whatever other calls did meanwhile: an order handed back is this request's own, without a key never an older one, within three inserts, and a failure has its reason |
| OrderDesk.Desk.InsertOrder | apps/backend/src/modules/orders/orders.service.ts:366-383 | adds this order exactly if no unique index refuses and it commits, and answers unless one refused or seemed to |
| OrderDesk.Desk.CheckClash | apps/backend/src/integrations/integrations.service.ts:286-301 | after a clash: the order found, another attempt below three, or failure |
| KioskBasket.SameLineIffSameChoice | apps/web/lib/kiosk-basket.ts:37-39 | two choices share a line exactly when they are the same item with the same options in any order |
| KioskBasket.AddChangesOneLine | apps/web/lib/kiosk-basket.ts:41-54 | adding keeps keys unique and matching, 1 to 20 per line and 50 lines, and changes one quantity by one, up to the limits |
| KioskBasket.ChangeChangesOneLine | apps/web/lib/kiosk-basket.ts:56-63 | a change moves one line by delta, capped at twenty and gone at nothing, and no other |
| KioskBasket.RemoveLineRemovesIt | apps/web/lib/kiosk-basket.ts:65-67 | exactly that line goes |
| KioskBasket.RemoveItemsRemovesThem | apps/web/lib/kiosk-basket.ts:69-72 | exactly the lines of the sold-out items go, quantities of the others stay |
| KioskBasket.FilterInPieces | apps/web/lib/kiosk-basket.ts:56-72 | removing lines keeps the others in their order |
| KioskFlow.EveryStateIsValid | apps/web/lib/kiosk-flow.ts:101-167 | after any actions in any order: a sound basket, a request id exactly after a submit, and a locked screen on the review with a service and a basket |
| KioskFlow.EveryBodyMeetsTheSchema | packages/types/src/orders.ts:130-143 | what a pending submit sent has a key, a service, one to fifty lines of one to twenty, and no choice twice; it meets the whole schema if and only if its request id and the choices' ids and options do |
| KioskFlow.DrawnIdsFit | packages/types/src/orders.ts:130-131 | when every id drawn has the form of a UUID, so has the one sent, over any actions |
| Uuid.Draw | apps/web/lib/uuid.ts:5-14 | whatever the sixteen bytes, they are stamped in place and written as a UUID of RFC 4122 section 3, version 4 |
| Uuid.SameIdIffSameBits | apps/web/lib/uuid.ts:8-13 | two draws give one text if and only if the 122 bits that are not stamped agree |
| KioskFlow.OfferedChoicesFit | packages/types/src/orders.ts:134-139 | when every choice offered fits the schema's ids and options, so does every basket |
| KioskFlow.LockHolds | apps/web/lib/kiosk-flow.ts:77-88 | until an answer or a start over nothing a guest does changes basket, service or key |
| KioskHistory.ScreenIsItsHistory | apps/web/lib/kiosk-flow.ts:101-167 | after any actions each field is what the last action that speaks of it said: the service last tapped or the only one offered, the first key drawn for this basket, the last submit's outcome with its failure, the names last reported, the screen last led to, the basket the edits made |
| KioskHistory.ConfirmationIsItsHistory | apps/web/lib/kiosk-flow.ts:143-149 | the confirmation shown has the number the server gave and the service that was tapped, until the next start over |
| KioskHistory.BodyIsWhatWasChosen | apps/web/components/kiosk/kiosk-app.tsx:65-72 | what a pending submit sent has the service tapped, the key in use, and of every choice as many units as the edits left |
| KioskNetwork.OneOrderPerSession | apps/web/lib/kiosk-flow.ts:1-11 | between two starts over the server holds at most one order, given careful refusals, for this guest and every one before |
| KioskNetwork.OrderIsTheLockedBasket | apps/web/lib/kiosk-flow.ts:77-99 | until the guest is told, that order is the locked basket, service and key on the screen |
| KioskNetwork.ConfirmedIsOrdered | apps/web/lib/kiosk-flow.ts:143-149 | when the screen says done, the server holds exactly the order that was shown, for the service confirmed |
| KioskNetwork.CarelessRefusalCanDouble | apps/web/lib/kiosk-flow.ts:150-163 | after any careful run a refusal lets two orders come about if and only if something sent before may still become, or is, an order, whatever ids are drawn as long as one is unused |
| KioskNetwork.CarelessRefusalHappens | apps/web/lib/kiosk-flow.ts:78-83 | a rate limit on the retry of a timed-out submit is such a refusal |
| KioskNetwork.StepKeepsInv | apps/web/components/kiosk/kiosk-app.tsx:61-90 | every careful step keeps: keys belong to one session, the screen waits for its own attempt, one order open per session and shown locked |
| KioskServer.SiteRefinesNetwork | apps/backend/src/modules/public/public-kiosk.service.ts:66-117 | every run of kiosk, network and the server's interleaved lookups, inserts and second lookups is to the kiosk a run of KioskNetwork, careful if it is careful |
| KioskServer.StepKeepsInv | apps/backend/src/modules/public/public-kiosk.service.ts:66-117 | every step keeps the server's own invariant, each call in the name of an attempt still unanswered, and each kiosk row that of an attempt made |
| KioskServer.OneRowPerSession | apps/web/lib/kiosk-flow.ts:1-11 | however calls interleave, the order rows hold at most one from each guest, given careful refusals |
| KioskServer.ConfirmedIsRow | apps/web/lib/kiosk-flow.ts:143-149 | when the screen says done, one of the rows is the very order that was shown |
| KioskRefusals.CallStores | apps/backend/src/modules/public/public-kiosk.service.ts:76-117 | from every sound state an attempt not past its last insert, whose key has no order, comes to be the next row when the server is left to it |
| KioskRefusals.CarelessRefusalCanDouble | apps/web/lib/kiosk-flow.ts:150-163 | after any careful run a refusal lets the rows come to hold two of the guest's orders if and only if something the guest sent can still be stored, or is |
| KioskRefusals.CarelessRefusalHappens | apps/backend/src/modules/public/public-kiosk.controller.ts:24-29 | for every choice and ids a rate limit on the retry of a submit that has not arrived is such a refusal |
| KioskHistory.OrderIsWhatWasTapped | apps/web/lib/kiosk-flow.ts:1-11 | over any careful run of kiosk and network the guest's order has the service tapped and of every choice as many units as were chosen |
| KioskHistory.ConfirmedIsWhatWasTapped | apps/web/lib/kiosk-flow.ts:143-149 | when the screen says done it confirms that order, for the service tapped, under the server's number |
| KioskHistory.ConfirmedRowIsWhatWasTapped | apps/web/lib/kiosk-flow.ts:143-149 | and so it is of the order rows, whatever the server's calls do meanwhile |
| Outbox.NothingIsForgotten | apps/web/lib/outbox.ts:45-93 | every update ever added is waiting, acknowledged, refused or superseded by a later one of its group |
| Outbox.SentInOrder | apps/web/lib/outbox.ts:64-93 | acknowledged updates were acknowledged in the order added, none twice, before anything still waiting; no group waits twice |
| Outbox.DrainedMeansUpToDate | apps/web/lib/outbox.ts:45-48 | drained without refusals, the last update of each group was acknowledged, after every other of its group |
| Outbox.StepKeepsInv | apps/web/lib/outbox.ts:45-93 | every add, answer and end of a send keeps the queue in order, nothing superseded in it, and settled updates before waiting ones |
| OutboxHistory.AddedAreTheAdditions | apps/web/lib/outbox.ts:45-48 | over any run what was added is what the events added, in order, each under a key of its own |
| OutboxHistory.SettledIsHeard | apps/web/lib/outbox.ts:72-84 | over any run an update is acknowledged if and only if the server accepted it when its turn came, and refused if and only if it refused it |
| OutboxHistory.SendIsItsEvents | apps/web/lib/outbox.ts:59-93 | over any run a send takes in turn what the queue held when it began, ends when nothing is left or one gets no verdict, and the notices are the last ten refused, told at its end, until dismissed |
| OutboxHistory.VerdictTakesOut | apps/web/lib/outbox.ts:72-84 | a verdict takes that update out of the queue and no other |
| OutboxSender.Sender.Flush | apps/web/lib/outbox.ts:64-93 | a second send does nothing; otherwise what the queue held, up to the first answer that could not be had, is acknowledged or refused as each was answered, in order, no longer waits, and is counted; the notices end with the texts refused, ten at most |
| OutboxSender.Sender.Enqueue | apps/web/lib/outbox.ts:45-48 | the update comes last, in place of a waiting one of its group |
| OutboxSender.Sender.DismissNotices | apps/web/lib/outbox.ts:51-54 | notices go, the queue stays |
| KotLifecycle.OfferedStepIsTheOnlyOne | packages/types/src/order-lifecycle.ts:10-41 | the step a board offers is the only forward move the server accepts; moves go up by one and never back |
| KotLifecycle.ProgressIsTheSlowest | packages/types/src/order-lifecycle.ts:43-60 | an order's kitchen status is one of its live tickets', none of which is further behind; none exactly when all are withdrawn |
| KotLifecycle.WithdrawnUntil | packages/types/src/order-lifecycle.ts:10-25 | a ticket can be cancelled exactly until it is served, rejected exactly until it is ready, and never made new again |
| KitchenBoard.BoardTickets | apps/web/hooks/use-kds.ts:71-86 | the loop over the queue shows each ticket with its last waiting status and priority, without those that will have been served |
| KitchenBoard.SendingChangesNothing | apps/web/hooks/use-kds.ts:66-86 | the whole queue over the server's tickets looks like the rest of the queue after the server took the first update |
| KitchenBoard.BoardShowsTheDrainedState | apps/web/hooks/use-kds.ts:66-86 | the board already shows the tickets as they will be after everything is sent |
| KitchenBoard.RefreshAfterDrainShowsTheSame | apps/backend/src/modules/kds/kds.service.ts:26-31 | the list a refresh brings after a drain is what the board showed all along |
| KitchenQueue.QueuedStepsAreLegal | apps/web/hooks/use-kds.ts:88-112 | whatever is tapped, starred, lost or sent late, nothing is refused and waiting steps lead by legal moves from the server's status to the one shown |
| KitchenQueue.DrainReachesTheBoard | apps/web/lib/outbox.ts:64-93 | sending everything brings the server to the status shown, nothing refused |
| KitchenQueue.TapIsAcceptedIffSafe | apps/backend/src/modules/orders/orders.service.ts:2361-2401 | a tap's update drains unrefused if and only if the board is at most one step behind and the tap's own request did not slip ahead of waiting steps |
| KitchenQueue.OfflineStepsDrain | apps/web/hooks/use-kds.ts:88-112 | in one offline stretch, whatever is tapped, starred or sent without an answer, waiting steps are legal, drain unrefused and bring the server to what is shown |
| KitchenQueue.LostAnswerThenLostAnswer | apps/web/hooks/use-kds.ts:91-106 | a tap applied with its answer lost makes the next such tap unsafe |
| KitchenQueue.UnrefreshedBoardIsUnsafe | apps/web/lib/outbox.ts:72-84 | two steps sent and heard with no refresh leave the board two steps behind, and any tap unsafe |
| KitchenQueue.RefreshShowsTheServer | apps/backend/src/modules/kds/kds.service.ts:26-31 | after a refresh the board has exactly the tickets the server still works on, at its status |
| KitchenQueue.RefreshMakesSafe | apps/web/hooks/use-kds.ts:108-112 | after any careful run and a refresh every tap on a ticket with no step waiting is safe and drains unrefused |
| KitchenStars.LastStarWaits | apps/web/hooks/use-kds.ts:207-229 | whatever is tapped, starred, sent or refreshed, of each ticket's stars at most one waits, the last one set, until it is sent and answered, and the board shows it |
| KitchenQueue.SendKeeps | apps/backend/src/modules/orders/orders.service.ts:2385-2416 | an update sent with its answer heard, lost, or not reached leaves every ticket's waiting steps legal |
| Base32.Base32Encode | apps/backend/src/auth/totp.ts:19-33 | the unmasked 32-bit register computes the text of RFC 4648 section 6, without padding |
| Base32.Base32Decode | apps/backend/src/auth/totp.ts:35-48 | the unmasked register reads the whole octets of the text without ASCII white space, padding and dashes, in upper case, or refuses a character outside the alphabet |
| Base32.DecodeInvertsEncode | apps/backend/src/auth/totp.ts:19-48 | decoding undoes encoding for every byte string |
| Base32.EncodeInjective | apps/backend/src/auth/totp.ts:19-33 | two byte strings never share a text |
| Base32.EncodeInvertsDecode | apps/backend/src/auth/totp.ts:19-48 | encoding undoes decoding exactly on canonical unpadded text |
| Base32.FillerIsDropped | apps/backend/src/auth/totp.ts:35-37 | white space, padding and dashes may stand anywhere in a secret |
| Base32.CaseIsIgnored | apps/backend/src/auth/totp.ts:35-37 | a small letter anywhere stands for its capital |
| Base32.RefusedIffStrange | apps/backend/src/auth/totp.ts:38-42 | a secret is refused exactly for a character that is none of these, no letter and no digit from two to seven |
| Base32.Alphabet | apps/backend/src/auth/totp.ts:16 | the thirty-two symbols in order |
| Totp.TruncatedIsItsBits | apps/backend/src/auth/totp.ts:58-63 | the truncated digest is, bit for bit, the last thirty-one of the thirty-two bits of the four bytes from where the digest's last four bits point |
| Totp.MessageIsBigEndian | apps/backend/src/auth/totp.ts:55-57 | the message is the sixty-four bits of the step, in eight bytes |
| Totp.HotpIsSixDigits | apps/backend/src/auth/totp.ts:54-65 | a text is the code of a step if and only if it is six digits whose number is that of those bits of the digest, modulo a million |
| Totp.VerifyTotp | apps/backend/src/auth/totp.ts:74-89 | the earliest half-minute step of the window whose code this is in that sense, none exactly when no step matches, and an error exactly when a step that fits no message comes first |
| Totp.ShownCodeIsAccepted | apps/backend/src/auth/totp.ts:67-89 | a shown code is accepted up to half a minute before and after, for its own step or an earlier one with the same code |
| Totp.AcceptedCodeIsRecent | apps/backend/src/auth/totp.ts:67-89 | an accepted code's step is less than a minute away, in milliseconds |
| TwoFactor.NoStepTwice | apps/backend/src/auth/two-factor.service.ts:91-111 | over all interleaved logins the steps accepted while a user stays enrolled rise strictly from the enrolment step, as long as no other enrolment ends with a step behind the last accepted one |
| TwoFactor.ReplaysIffOlder | apps/backend/src/auth/two-factor.service.ts:193-200 | after any such run, with the user enrolled and another enrolment about to end, its end lets a step be accepted twice if and only if its step is behind the last one accepted |
| TwoFactor.OlderEnableHappens | apps/backend/src/auth/two-factor.service.ts:174-200 | two enrolments begun at once with a login between their ends lead there, for every step and time |
| TwoFactor.AtMostFiveInAnyWindow | apps/backend/src/auth/two-factor.service.ts:19-70 | over runs of any length a half-open quarter of an hour holds at most five wrong codes since the last success, if every code that was waited for is counted wrong only when there is room |
| TwoFactor.LimitBreaksIffUntimely | apps/backend/src/auth/two-factor.service.ts:54-118 | after any such run a step breaks the limit if and only if it counts a waited-for code wrong with five others recent |
| TwoFactor.LimitKeptIffTimely | apps/backend/src/auth/two-factor.service.ts:54-118 | a run of any length keeps the limit in every state on its way if and only if it meets that condition |
| TwoFactor.FiveWhenOneAtATime | apps/backend/src/auth/two-factor.service.ts:54-118 | with calls run one at a time the limit of five needs no other condition |
| TwoFactor.WrongCodesAtOnceAreLimited | apps/backend/src/auth/two-factor.service.ts:78-110 | wrong six-digit codes stay within five in any quarter of an hour however many calls send them at once |
| TwoFactor.GuessesAtOnceAreNotLimited | apps/backend/src/auth/two-factor.service.ts:113-117 | any number of recovery codes can be counted wrong in the same instant |
| TwoFactorHistory.CountedAreTheWrong | apps/backend/src/auth/two-factor.service.ts:54-118 | over any run the codes counted are the wrong ones since the last success, and the user is locked out exactly after five in a row, none a quarter of an hour after the one before, until a quarter of an hour after the last |
| TwoFactorHistory.RowIsWhatWasWritten | apps/backend/src/auth/two-factor.service.ts:91-105 | over any run the row says what the last enrolment, login or clearing wrote, and the accepted steps are those the conditional update let through |
| TwoFactorHistory.CodeDecides | apps/backend/src/auth/two-factor.service.ts:76-118 | a code is taken up exactly when the user is not locked out and its step comes after the row read |
| TwoFactorService.Service.VerifyLogin | apps/backend/src/auth/two-factor.service.ts:76-118 | a login is let in by a code only if this call advanced a row whose step was absent or behind, otherwise by a recovery code; and then the counter is gone; one with a good code is turned away only by the lock or by a row that moved past its step |
| TwoFactorService.Service.CheckCode | apps/backend/src/auth/two-factor.service.ts:54-60 | goes on exactly when not locked and the step is newer than the row read; a wrong code is counted, a locked-out one is not |
| TwoFactorService.Service.AdvanceRow | apps/backend/src/auth/two-factor.service.ts:93-105 | the row advances exactly when its step is absent or behind |
| TwoFactorService.Service.CountFailure | apps/backend/src/auth/two-factor.service.ts:62-70 | one user's counter grows or starts again, no other user's is touched |
| TwoFactorService.Service.EnableTwoFactor | apps/backend/src/auth/two-factor.service.ts:174-209 | a call that succeeds wrote the row with the step its valid code matched, and dropped the counter; one that fails never wrote it, and with a good code and no enrolment it failed for the lock |
| TwoFactorService.Service.Clear | apps/backend/src/auth/two-factor.service.ts:252-263 | the row ends cleared whatever came between the two parts |
| TreeCopy.CopyTree | windows/msix/dereference-copy.js:41-84 | the loop ends on every directory graph, cycles included, and writes exactly what the recursive unfolding copies |
| TreeCopy.CopiedIffNoRepeat | windows/msix/dereference-copy.js:67-79 | a path is copied, as the directory or file it names, exactly when no real directory repeats along it |
| TreeCopy.PlaceIsResolved | windows/msix/dereference-copy.js:67-76 | a branch's ancestor set is exactly the real directories along it |
| LocalDays.DayStartShowsMidnight | apps/backend/src/common/time.ts:29-35 | with at most one change near, the two passes show the date's midnight exactly when that midnight happens |
| LocalDays.SkippedMeansNeverHappens | apps/backend/src/common/time.ts:29-35 | a midnight happens exactly when the clock does not jump over it |
| LocalDays.DayStartSplitsDates | apps/backend/src/common/time.ts:29-60 | instants from the day start on are those of the date or later exactly at a clean midnight |
| LocalDays.RangeIsLocalDates | apps/backend/src/common/time.ts:43-60 | a report range holds exactly the instants whose local date it names, with clean midnights at both ends |
| LocalDays.JumpFromMidnight | apps/backend/src/common/time.ts:29-35 | at a jump forward from midnight the day start splits dates if and only if the offset before it is not negative |
| LocalDays.JumpBackToMidnight | apps/backend/src/common/time.ts:29-35 | at a jump back to midnight it does if and only if the offset after it is negative |
| LocalDays.JumpPastMidnight | apps/backend/src/common/time.ts:29-35 | at a jump over midnight, forward or back, it never does |
| LocalDays.DaysTile | apps/backend/src/common/time.ts:43-49 | in a zone whose offset moves at most a day within two days, every instant of a range is in exactly one of its days, and no day reaches outside |
| LocalDays.DaysTileIff | apps/backend/src/common/time.ts:43-49 | in any zone the days of a range tile it if and only if from no day to the next the offset used gains over a day, or from each at least one |
| LocalDays.AdjacentRangesJoin | apps/backend/src/common/time.ts:43-49 | in such a zone two adjacent ranges join with no instant lost or counted twice |
| LocalDays.RangesJoinIff | apps/backend/src/common/time.ts:43-49 | in any zone two adjacent ranges join if and only if over neither the offset used gains more than its days, or over each at least that |
| LocalDays.TwoDayJumpDoesNotJoin | apps/backend/src/common/time.ts:29-49 | there is a zone with offsets within a day whose ranges do not join |
| LocalDays.SparseZoneIsClose | apps/backend/src/common/time.ts:6-35 | where changes are over two days apart, the offset moves at most a day within two days if and only if no change moves it more |
| LocalDays.SparseZoneDayStart | apps/backend/src/common/time.ts:29-35 | for every zone whose changes are over two days apart the day start shows every midnight that happens |
| Money.MathRound | apps/backend/src/payment-gateways/money.ts:26-29 | the nearest integer, halves upwards |
| Money.ToMinorOfCents | apps/backend/src/payment-gateways/money.ts:24-31 | every figure's provider units are a function of its cents and the currency's decimals alone |
| Money.DecimalsOf | apps/backend/src/payment-gateways/money.ts:5-22 | which currencies have no decimals, which three, and that every other has two |
| Money.UnitsOfOne | apps/backend/src/payment-gateways/money.ts:33-36 | one, a hundred or a thousand units make one of the currency, by its decimals |
| Money.TotalRoundTrip | apps/backend/src/payment-gateways/money.ts:24-36 | a two-decimal total survives the trip to provider units and back exactly when the currency has decimals or the total is whole |
| Money.ZeroDecimalWithinHalf | apps/backend/src/payment-gateways/money.ts:24-36 | in a currency without decimals the figure moves by at most half a unit |
| Money.MinorRoundTrip | apps/backend/src/payment-gateways/money.ts:24-36 | provider units survive the trip the other way exactly but for a third decimal |
| TaxRounding.PriceShown | apps/web/lib/kiosk-basket.ts:12-21 | on an inclusive menu, or without tax, the price shown is the price; elsewhere it is price and tax to the nearest cent |
| TaxRounding.LineIsPriced | apps/backend/prisma/seed.ts:18-27 | a line is its units' prices, and its tax to the nearest cent what is over the net |
| TaxRounding.OneUnitNetIsExact | apps/web/lib/kiosk-basket.ts:12-21 | grossing one unit up to the cent and backing the tax out recovers its price exactly, at every rate |
| TaxRounding.ManyUnitsNetWithin | apps/backend/prisma/seed.ts:15-27 | for q units the net is within q/(2(1+t)) + 1/2 cents of q times the price |
| TaxRounding.ManyUnitsExactIff | apps/backend/prisma/seed.ts:15-27 | q units come back exactly if and only if the unit's rounding error times q over (1+t) is above -1/2 and at most 1/2 cent |
| TaxRounding.NetMissesByDrift | apps/backend/prisma/seed.ts:15-27 | the net of q units misses q times the price by exactly that figure, rounded |
| TaxRounding.SeveralUnitsCanDrift | apps/backend/prisma/seed.ts:18-27 | two units of 3 cents at 10 % come back as 5 cents |
| TableDrafts.Merge | apps/web/lib/pos-drafts.ts:13-21 | the loop puts each line on the first line of its key, or after all |
| TableDrafts.MergeKeepsUnits | apps/web/lib/pos-drafts.ts:13-21 | merging loses and invents no units of any item, keeps the first cart's lines in place and keys unique |
| TableDrafts.MergedLineIs | apps/web/lib/pos-drafts.ts:13-21 | each line of the first cart stays in place, with all the second has of its item added to the first line that has it |
| TableDrafts.LinesAfterAreNew | apps/web/lib/pos-drafts.ts:13-21 | what comes after is one line for each item only the second cart has, with all its units |
| TableDrafts.SwitchTableDraft | apps/web/lib/pos-drafts.ts:23-40 | the step by step update of the drafts is the switch the results speak about |
| TableDrafts.ClearDraft | apps/web/lib/pos-drafts.ts:42-47 | exactly that table's draft goes |
| TableDrafts.TillRefinesCarts | apps/web/lib/pos-drafts.ts:1-40 | over any run the visible cart and the drafts are exactly one independent cart per table, and the visible table has no draft as well |
| TableDrafts.OtherTablesUntouched | apps/web/lib/pos-drafts.ts:1-5 | a switch leaves every other table's cart as it was |
| TableDrafts.CarriedOntoItsLines | apps/web/lib/pos-drafts.ts:33-39 | after any run a cart begun without a table goes onto the lines the first table chosen had |
| TableDrafts.CarriedOnce | apps/web/lib/pos-drafts.ts:36-39 | a cart begun without a table is merged once: while a table is chosen there is none left |
| TableDrafts.SwitchKeepsUnits | apps/web/lib/pos-drafts.ts:23-40 | switching neither loses nor invents a unit of any item over all tables |

## Left out

- Settlement: which amount of an overpayment the bill keeps, gift cards and the bill's own checks are not part of this model; a checkout is refused, committed, committed and then reported as failed, or rolled back and reported as a repeat.
- Settlement.SettlesIffNotStranded: says that a settling continuation exists, not that one will come.
- GatewayPayments.Service.CreateLink: says nothing about several calls at once, since looking for a reusable link and making one are not atomic; the reuse window of time is left out.
- GatewayPayments.Service.Webhook: says nothing about an event whose look failed being handled again, because the code records it all the same.
- RefundService.Service.Refund: amounts in the books are whole cents; what the rows read before a refund say is a parameter.
- KioskNetwork: one kiosk. An id is drawn fresh, which at random is only overwhelmingly likely.
- KioskServer: when a call refuses, and when it fails, is left to the environment; so are the items and the staff member it looks up. A retry after a rate limit and a request's own time-out are steps of the kiosk.
- KioskRefusals.CarelessRefusalCanDouble: takes for granted an unused id and that what is left in the basket fits the schema (KioskFlow.OfferedChoicesFit).
- Uuid.Draw: where the browser has its own generator, that is used, and is not part of this model.
- KioskBasket: names, option labels and preview prices beyond the tax gross-up.
- Outbox: several tabs, storage that is blocked or full, and a crash between an acknowledged send and its removal.
- KitchenQueue: sends the head of the queue, so a star replaced while its own send was under way is not sent again; other screens moving a ticket, and taps answered online while steps wait, are left out.
- TwoFactor: consuming a recovery code under concurrency, which writes back a stale list, and the sealed secret.
- Base32.Base32Decode: white space and letter case outside ASCII.
- TreeCopy.CopyTree: the file system stands still while it is copied; a destination inside the source, which changes what is listed, is not modelled.
- LocalDays: the calendar's date texts; a date is its number of days since 1970, and the zone database is any sequence of changes.
- Floating point: money and tax are exact reals and integers, Number.EPSILON is dropped.
- Hash functions, HMAC, bcrypt, AES and webhook signatures: uninterpreted or left out; a body stands for its fingerprint.
- HTTP, controllers, guards, queries, React hooks and the screens as such.
- Permissions, scan parsing, audit, notifications, backups, the updater and the desktop launcher: a reading settles them.
