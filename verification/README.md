# Event platform: verified models

This project models the stateful core of the event platform in Dafny and proves what its services,
its worker and its browser client guarantee over whole runs.

Each part has the same shape. A datatype holds the rows, a function per service call says what the
call does to them, and a class with the program's own updates implements that function, field by
field and loop by loop. The invariants and the run-level theorems are about the functions, so they
hold of the methods.

- `RefreshTokens`: rotating refresh tokens with reuse detection. Rotation links form disjoint chains
  that only grow at an active tail; reuse of any revoked token kills the whole chain for good.
- `SingleFlight`: the browser client composed with that server, over every interleaving. The shared
  promise keeps the client safe exactly as long as no response that carries a rotated token is lost
  and no request the client has given up on takes effect.
- `RateLimit`, `Validators`, `Otp`: fixed-window counters and a cooldown over a clock with key expiry,
  and the challenge state machine on top. Bounds on guesses and challenges hold over every run.
- `Discounts`, `Orders`, `DiscountLedger`, `OrderService`: orders, tickets, registrations and the uses of
  discount codes, whose denormalised counters are proved equal to counts over the rows.
- `Outbox`, `WorkerLock`, `Reminders`: delivery with capped backoff, the expiring lock and the reminder
  scan.
- `Slugs`, `Search`, `Reviews`, `MonthlyKpis`: the unique-slug loop, re-ranking of an untrusted index,
  cached ratings, monthly grouping.
- `Wrappers`, `Arithmetic`, `Counting`, `Decimal`, `Rounding`, `Sorting`, `Registrations`: shared definitions.

Clocks, generated codes and tokens, provider outcomes and index answers are parameters. Where the
database may return any of several rows, or rows in any order, the model allows each of them.

Four promises turn out to hold only under a condition. For each the project proves that the condition
is exact and gives a run that fails it:

- Single flight is safe until a response that carries a rotated token is lost, or a refresh request
  whose fetch has already rejected rotates its token or counts as reuse when it reaches the server.
  From then on the client holds only revoked tokens (`SafeUntilHarmed`). An abandoned request is fatal
  in either order: handled first it takes the rotation with it, handled after the client's next
  refresh it trips reuse detection (`AbandonedRequestDecides`). The runs are `LostRotationTripsReuse`,
  `AbandonedRequestTripsReuse` and `AbandonedRequestStealsRotation`.
- The worker lock excludes a second worker until the first has run for a whole TTL
  (`SecondWorkerEntersIffOverdue`, `OverrunCascades`).
- Scans miss a registration whose window they span if and only if two consecutive scans are more than
  120 seconds apart (`GapMissesIffTooWide`).
- `max_uses` is not a hard cap, because completion does not check it again: it holds over a run if and
  only if no step completes an order that carries the code while the code is exhausted
  (`MaxUsesHoldsIffNeverOverused`, and `CompletionIgnoresMaxUses` for a run that exceeds it). What holds
  always is that uses plus pending orders freeze once the maximum is reached (`ExhaustedCodeIsFrozen`).

## Model

| member | source | states |
|---|---|---|
| RefreshTokens.AuthService.IssueTokenPair | backend/app/services/auth_service.py:52-73 | issues one new active row under a fresh id and records the login; the store stays well-linked |
| RefreshTokens.AuthService.Refresh | backend/app/services/auth_service.py:75-111 | implements the rotation transition with its six outcomes; the store stays well-linked |
| RefreshTokens.AuthService.Logout | backend/app/services/auth_service.py:113-118 | revokes the named row if it is active and nothing else |
| RefreshTokens.AuthService.RevokeChainForward | backend/app/services/auth_service.py:120-127 | the loop terminates and revokes exactly the active rows that the start row leads to |
| RefreshTokens.StepKeepsValid | backend/app/services/auth_service.py:52-127 | every call keeps links going from revoked rows to strictly newer rows of the same user, with at most one predecessor each |
| RefreshTokens.Run | backend/app/services/auth_service.py:107-118 | in every run the store stays well-linked, and a revoked row never changes again: `revoked_at` and `replaced_by` are write-once |
| RefreshTokens.StepExtends | backend/app/services/auth_service.py:107-124 | one call revokes active rows at most, and links them only to rows that did not exist before |
| RefreshTokens.OnlyForwardChanges | backend/app/services/auth_service.py:75-127 | a call leaves alone every row that its token does not lead to |
| RefreshTokens.ForwardIsLinear | backend/app/models/refresh_token.py:23-25 | two rows reached from one row lie on one line |
| RefreshTokens.BackwardIsLinear | backend/app/models/refresh_token.py:23-25 | two rows that lead to one row lie on one line: chains never merge |
| RefreshTokens.FamiliesPartition | backend/app/services/auth_service.py:100-109 | the chains partition the rows |
| RefreshTokens.ActiveRowIsTheOnlyTail | backend/app/services/auth_service.py:100-109 | a chain has at most one active row, and every other row of the chain leads to it |
| RefreshTokens.RefreshSucceedsIff | backend/app/services/auth_service.py:78-100 | refresh succeeds exactly for an active, unexpired row of a user in good standing, detects reuse exactly for revoked rows, and otherwise changes nothing |
| RefreshTokens.ReuseRevokesWholeFamily | backend/app/services/auth_service.py:88-91 | presenting a revoked token leaves its whole chain revoked, earlier rows included, and no other row changed |
| RefreshTokens.ReuseStampsRows | backend/app/services/auth_service.py:120-126 | the active row of the chain gets the time of the reuse and nothing else |
| RefreshTokens.DeadFamilyIsFrozen | backend/app/services/auth_service.py:88-127 | a chain without active row stays the same chain, row for row, in every later store |
| RefreshTokens.ReuseIsPermanent | backend/app/services/auth_service.py:88-91 | after a reuse, in every later state, each token of the chain is refused as reuse |
| RefreshTokens.RotationExtendsFamily | backend/app/services/auth_service.py:100-111 | a successful refresh adds exactly the new row to the chain as its active tail and revokes the old row |
| RefreshTokens.RotationWrites | backend/app/services/auth_service.py:59-69 | a refresh stores a row of the same user that expires one lifetime later, dates and links the old row, and records the login |
| RefreshTokens.LogoutRevokes | backend/app/services/auth_service.py:113-118 | a logout leaves the named row revoked, dated now if it was active, and changes nothing else |
| RefreshTokens.LogoutIsPermanent | backend/app/services/auth_service.py:113-118 | after a logout, in every later state, the token is refused as reuse |
| RefreshTokens.RevokedIsRefusedForever | backend/app/services/auth_service.py:88-91 | in every run, a token once revoked is refused as reuse ever after |
| RefreshTokens.SessionLastsItsLifetime | backend/app/services/auth_service.py:63-98 | whatever other tokens are presented in between, a login's token can be refreshed at t if and only if t is no later than login plus lifetime and the user is in good standing |
| RefreshTokens.LoginIsUnlinked | backend/app/services/auth_service.py:59-69 | a login stores an active row of the user that expires one lifetime later, that no row leads to |
| RefreshTokens.ActiveSessionsAreBounded | backend/app/services/auth_service.py:52-111 | over any run, active rows number at most the initial ones plus the logins: rotation multiplies no session |
| SingleFlight.SingleFlightIsSafe | frontend/src/lib/api-client.ts:21-50 | in every interleaving that abandons no refresh request and loses no rotation: at most one refresh in flight, an idle cookie names an active row, the server never enters the reuse branch |
| SingleFlight.SafeUntilHarmed | frontend/src/lib/api-client.ts:23-50 | the client is safe at the end of a run if no rotation was lost and no abandoned request took effect, and holds only revoked tokens otherwise |
| SingleFlight.SafeStep | frontend/src/lib/api-client.ts:23-95 | from a safe state exactly those steps end safety, and no other step trips reuse detection |
| SingleFlight.SafeIsNotDead | backend/app/services/auth_service.py:88-91 | a client with a cookie is never both safe and left with revoked tokens only, so the dividing line is sharp |
| SingleFlight.AbandonedRequestDecides | frontend/src/lib/api-client.ts:39-47 | an abandoned request that is handled after all counts as reuse exactly if its token has been rotated meanwhile, and otherwise ends the session exactly if it succeeds |
| SingleFlight.AbandonedRequestTripsReuse | frontend/src/lib/api-client.ts:39-47 | from every safe idle client with a renewable session: a run that loses no answer, in which the abandoned first request arrives after the second and kills the session |
| SingleFlight.AbandonedRequestStealsRotation | frontend/src/lib/api-client.ts:39-47 | from the same clients: a run in which the abandoned request arrives first and leaves the client with a revoked token, unnoticed |
| SingleFlight.NothingAbandonedNothingStray | frontend/src/lib/api-client.ts:23-50 | runs that abandon nothing and lose no rotation contain no harmful step |
| SingleFlight.ClientsBeginSafe | backend/app/services/auth_service.py:52-73 | a client is safe without a cookie and after every new login |
| SingleFlight.DeadForever | frontend/src/lib/api-client.ts:25-42 | a client that holds only revoked tokens never again holds, sends or is sent another |
| SingleFlight.HarmTripsReuse | backend/app/services/auth_service.py:88-91 | after a harmful step every later refresh of the client that reaches the server is taken for reuse |
| SingleFlight.LostRotationTripsReuse | backend/app/services/auth_service.py:88-91 | from every safe idle client with a renewable session: a run that loses one rotation and whose next refresh is taken for reuse |
| SingleFlight.SafeClientRenews | frontend/src/lib/api-client.ts:23-50 | a safe idle client with a renewable session does obtain its next token and is safe and idle again |
| SingleFlight.RequestsRetryAtMostOnce | frontend/src/lib/api-client.ts:66-84 | in every interleaving a request fetches at most twice, and whoever waits for a refresh waits for one that has a message on its way or is over |
| SingleFlight.RetriesIffTokenDelivered | frontend/src/lib/api-client.ts:75-84 | in every interleaving a request is sent again if and only if its authorised fetch was refused and the refresh it waited for delivered a token; if that refresh delivered none it is done after one fetch |
| SingleFlight.RefusedRequestIsRetried | frontend/src/lib/api-client.ts:75-84 | from every safe idle client with a renewable session: refused fetch, refresh, and the request is sent again with the new cookie in place |
| SingleFlight.RefusedRequestGivesUpOnLoss | frontend/src/lib/api-client.ts:39-42 | the same with the refresh lost: the request is done after one fetch and the cookie is as before |
| SingleFlight.RefusedRequestGivesUpOnFailure | frontend/src/lib/api-client.ts:29-37 | the same with the refresh refused: the request is done, and the cookie gone if the answer clears it |
| SingleFlight.AnswerFinishes | frontend/src/lib/api-client.ts:66-75 | an answer finishes its request unless it refuses a first, authorised fetch |
| SingleFlight.PromiseIsShared | frontend/src/lib/api-client.ts:24-49 | a refresh is asked for only when there is no promise, and a settled promise is shared until it is reset |
| SingleFlight.RevokedTokenKillsChain | backend/app/services/auth_service.py:88-91 | presenting a revoked token is reuse whenever it decodes, and revokes every token of its chain |
| SingleFlight.RotationCarriesChain | backend/app/services/auth_service.py:100-111 | the tokens of a chain are in one chain with the token that a rotation mints |
| SingleFlight.ActiveTokenIsHonoured | backend/app/services/auth_service.py:88-111 | presenting an active token is never reuse: it is rotated or stays active |
| SingleFlight.OthersKeepActive | backend/app/services/auth_service.py:75-127 | calls on other chains leave an active token active |
| RateLimit.CheckFixedWindow | backend/app/core/rate_limit.py:27-34 | counts the call, opens a window on the first one, refuses beyond the limit with the time left in the window, at least one second |
| RateLimit.EnforceCooldown | backend/app/core/rate_limit.py:37-42 | accepts exactly when no cooldown is running, and then starts one |
| RateLimit.RetryTimeIsExact | backend/app/core/rate_limit.py:27-34 | after a refusal by a window the next call is accepted if and only if it comes no earlier than told |
| RateLimit.CooldownTimeIsExact | backend/app/core/rate_limit.py:37-42 | a cooldown is over exactly when told |
| RateLimit.RefusalNamesCounter | backend/app/core/rate_limit.py:45-68 | a refusal reports one of the checks whose counter is above its limit, and the time that counter has left |
| RateLimit.SaturatedRefuses | backend/app/core/rate_limit.py:45-68 | while a counter stands at its limit every series of checks that includes it refuses |
| RateLimit.EnforceOtpRequestLimits | backend/app/core/rate_limit.py:45-68 | runs hour, day, IP and user checks in order until one refuses; those that ran have counted; the refusing rule and its retry time are reported |
| RateLimit.EnforceRequesterLimits | backend/app/core/rate_limit.py:61-68 | the address is checked only if given and non-empty, the user only if known |
| RateLimit.CallSpendsAllowance | backend/app/core/rate_limit.py:27-34 | acceptance costs exactly one unit of what the key may still accept before a deadline |
| RateLimit.AcceptedWithinAllowance | backend/app/core/rate_limit.py:27-34 | no trace accepts more than the allowance of its initial state |
| RateLimit.FixedWindowBound | backend/app/core/rate_limit.py:27-34 | any half-open interval of k windows accepts at most (k+1) * limit calls of one identifier |
| RateLimit.EntryRecordsWindow | backend/app/core/rate_limit.py:28-31 | the stored entry is the number of calls since the call that opened the window, expiring one window after it |
| RateLimit.WindowAcceptsFirstCalls | backend/app/core/rate_limit.py:27-34 | a window accepts exactly its first `limit` calls |
| RateLimit.EnforceSpendsAllowance | backend/app/core/rate_limit.py:45-68 | a request that passes has paid one unit for each key it is checked against |
| Validators.MobileSpellings | backend/app/core/validators.py:34-44 | a text is normalised to a given number exactly when, separators dropped, it spells that national number with some accepted country prefix |
| Validators.EmailIsCanonical | backend/app/core/validators.py:47-51 | a lower-cased accepted address is accepted and is its own canonical form |
| Validators.EmailSpellings | backend/app/core/validators.py:47-51 | an address is accepted exactly if it is one after trimming, and only its capitals change |
| Validators.TrimLeftTrims | backend/app/core/validators.py:48 | trimming takes off exactly the spaces at the end |
| Validators.NormalizeIsIdempotent | backend/app/core/validators.py:54-59 | the canonical destination is its own canonical form |
| Decimal.ToStringIsInjective | backend/app/services/event_service.py:93 | decimal suffixes of different numbers differ |
| Otp.OtpService.Request | backend/app/services/otp_service.py:55-115 | normalises, applies cooldown and limits, then creates one pending challenge; a refusal reports when to retry |
| Otp.OtpService.Verify | backend/app/services/otp_service.py:134-170 | implements the verification transition: expiry, lock, failed attempt, success |
| Otp.OtpService.Resend | backend/app/services/otp_service.py:172-187 | cancels the old challenge if pending, then requests a new one |
| Otp.VerifyOtp | backend/app/services/otp_service.py:134-170 | verification succeeds exactly for a pending, unexpired, unlocked challenge and its own code |
| Otp.VerifyWrites | backend/app/services/otp_service.py:134-170 | expired, verified, locked or counted as a failed attempt, each under its own condition, with `used_at` set on success only; nothing else changes |
| Otp.RequestWrites | backend/app/services/otp_service.py:90-109 | a granted request adds one pending challenge for the canonical destination with the code sent and its expiry |
| Otp.SentCodeVerifies | backend/app/services/otp_service.py:134-170 | after any run with fewer wrong guesses than allowed, a guess succeeds if and only if it is the code sent and comes in time |
| Otp.ThrottleTimeIsExact | backend/app/services/otp_service.py:67-81 | the time reported with a throttled request is exactly what is left of the cooldown or of a counter that stands above its limit |
| Otp.AskingEarlyIsThrottled | backend/app/services/otp_service.py:67-81 | asking again earlier than told is throttled again |
| Otp.TerminalIsForever | backend/app/services/otp_service.py:141-166 | a challenge that has left the pending status never changes again |
| Otp.RunAccounts | backend/app/services/otp_service.py:157-166 | over any run the row accounts exactly for the comparisons and verifications made |
| Otp.GuessesAreBounded | backend/app/services/otp_service.py:151-166 | each challenge is compared with at most `max_attempts` codes and verified at most once, in every run |
| Otp.StepKeepsSpaced | backend/app/services/otp_service.py:67-101 | challenges of one destination are created at least a cooldown apart |
| Otp.UnexpiredAreFew | backend/app/core/rate_limit.py:37-42 | at any instant a destination has at most expiration / cooldown + 1 unexpired challenges |
| Otp.GuessesPerDestinationAreBounded | backend/app/services/otp_service.py:67-101 | all challenges of a destination unexpired at an instant have together been compared with at most (expiration / cooldown + 1) * max_attempts codes |
| Otp.ChallengesPerHoursAreBounded | backend/app/core/rate_limit.py:55-57 | in every run, k consecutive hours add at most (k+1) * hourly limit challenges whose stored destination is the given one |
| Otp.ChallengesPerDaysAreBounded | backend/app/core/rate_limit.py:58-60 | likewise for days and the daily limit |
| Otp.ChallengesPerAddressAreBounded | backend/app/core/rate_limit.py:61-64 | likewise for a stored address, ten minutes and the address limit |
| Otp.ChallengesPerUserAreBounded | backend/app/core/rate_limit.py:65-68 | likewise for a stored user, hours and the hourly limit |
| Otp.ResendKeepsDestination | backend/app/services/otp_service.py:172-187 | in every run a resend cancels the old challenge if pending, is held to the cooldown of the same destination, and creates a challenge with the same destination, purpose, address, user and event and a new code |
| Otp.StandardNormalizerIsIdempotent | backend/app/core/validators.py:54-59 | the program's normaliser meets the condition of ResendKeepsDestination |
| Rounding.RoundHalfEven | backend/app/services/discount_service.py:39-41 | the result is a nearest integer, the even one in case of a tie |
| Rounding.RoundIsMonotone | backend/app/services/discount_service.py:39-41 | rounding is monotone |
| Discounts.FindDiscount | backend/app/services/discount_service.py:24-34 | looks at the event's code first and at the platform's only if that yields none usable |
| Discounts.LookupIsComplete | backend/app/services/discount_service.py:24-34 | with one row per code and level, a code is found exactly when some level has it usable, the event's own first |
| Discounts.DiscountAmount | backend/app/services/discount_service.py:37-42 | the discount lies between 0 and the subtotal |
| Discounts.AmountIsAsAdvertised | backend/app/services/discount_service.py:37-42 | a percentage code takes that part of the subtotal to the nearest unit, all of it from 100 on; a fixed code takes its value to the nearest unit but no more than the subtotal |
| Discounts.FoundCodeIsGood | backend/app/services/discount_service.py:11-34 | a code that is found has the given text, is the event's or the platform's, is switched on, within its dates and has a use left |
| Discounts.GoodCodeIsFound | backend/app/services/discount_service.py:11-34 | a good code that is the only one of its text is found, the event's own before the platform's |
| Discounts.DiscountGrowsWithSubtotal | backend/app/services/discount_service.py:37-42 | a dearer ticket never gets a smaller discount |
| Discounts.DiscountGrowsWithValue | backend/app/services/discount_service.py:37-42 | a larger code value never gives a smaller discount |
| Discounts.PriceLeftGrowsWithSubtotal | backend/app/services/order_service.py:71 | despite rounding, the total never falls when the ticket gets dearer |
| Orders.Run | backend/app/services/order_service.py:34-190 | every reachable ledger is consistent: sold counts the places held and never exceeds the total, uses_count counts completed orders, money adds up, orders and registrations match one to one |
| Orders.StepKeepsValid | backend/app/services/order_service.py:34-190 | each call, and each maintenance of the catalogue, keeps that consistency |
| Orders.CreateKeepsValid | backend/app/services/order_service.py:34-100 | creating an order keeps it |
| Orders.CompleteKeepsValid | backend/app/services/order_service.py:103-139 | completing an order keeps it, so no ticket type is oversold |
| Orders.CancelKeepsValid | backend/app/services/order_service.py:155-167 | cancelling a registration keeps it |
| Orders.CheckInKeepsValid | backend/app/services/order_service.py:170-190 | checking in keeps it |
| Orders.NewOrderIsOk | backend/app/services/order_service.py:56-85 | a new order has 0 <= total = subtotal - discount <= subtotal and carries at most one kind of code, known and not exhausted |
| Orders.OrderIsPlacedIff | backend/app/services/order_service.py:34-64 | an order is placed exactly when places held are below the total, confirmed registrations below the session's capacity, the event is open and a given code usable |
| Orders.RefusalIsTrue | backend/app/services/order_service.py:35-54 | the reason given for refusing an order is true of the rows |
| Orders.PlacementWrites | backend/app/services/order_service.py:56-98 | a new order stores user, event, ticket price and the discount its code advertises, is to be paid unless the ticket is free, and its item names ticket and session |
| Orders.OrderCompletesIff | backend/app/services/order_service.py:103-112 | completion succeeds exactly for a pending order whose ticket type has a place left |
| Orders.CompletionWrites | backend/app/services/order_service.py:114-138 | a completion dates the order, settles a payment that is due, and adds a confirmed registration under the ticket code; other orders and registrations stay |
| Orders.CancellationWrites | backend/app/services/order_service.py:155-167 | a cancellation succeeds exactly for a confirmed registration and changes its status and the number sold, nothing else |
| Orders.CheckInSucceedsIff | backend/app/services/order_service.py:170-190 | a check-in succeeds exactly with the code of a confirmed registration of that very event, records when and by whom, and changes nothing else |
| Orders.CancelFreesOnePlace | backend/app/services/order_service.py:155-163 | cancelling frees exactly the registration's place: the clamp at zero never fires |
| Orders.OrderHasItsRegistration | backend/app/services/order_service.py:129-138 | a completed order has exactly one registration through its only item, with matching user, event and session; a pending one has none |
| Orders.SettledForever | backend/app/services/order_service.py:155-186 | a cancelled or checked-in registration never changes again |
| Orders.TicketAdmitsOnce | backend/app/services/order_service.py:170-186 | after a check-in its ticket code is refused in every later state, and the place can no longer be cancelled |
| DiscountLedger.ExhaustedCodeIsFrozen | backend/app/services/order_service.py:61-69 | once a code has reached `max_uses`, its uses plus the pending orders that carry it are constant in every later run |
| DiscountLedger.UsesAfterStep | backend/app/services/order_service.py:122-127 | no call changes anything of a code but its use count, which counts exactly the completions that carry it |
| DiscountLedger.CapHoldsIff | backend/app/services/order_service.py:103-127 | one call keeps a code within `max_uses` exactly if it does not complete an order that carries the exhausted code |
| DiscountLedger.MaxUsesHoldsIffNeverOverused | backend/app/services/order_service.py:103-127 | over every run `max_uses` holds, throughout and at the end, exactly if no step does so |
| DiscountLedger.CompletionIgnoresMaxUses | backend/app/services/order_service.py:61-64 | a run from the empty ledger in which a code that may be used once ends with two uses |
| Orders.CancelUndoesCompletion | backend/app/services/order_service.py:155-167 | cancelling a fresh completion restores all ticket counters, but neither the order's status nor the code's use |
| OrderService.Database.Refuse | backend/app/services/order_service.py:35-54 | refuses exactly when the ticket is not on sale: unknown, wrong session, event closed, early-bird sale over, all places held, or session full; the first reason is reported |
| OrderService.Database.FindCode | backend/app/services/order_service.py:61-64 | an absent or empty code counts as none; otherwise the two-level lookup decides |
| OrderService.Database.PlaceOrder | backend/app/services/order_service.py:34-100 | implements order creation on the stored rows and keeps the ledger consistent |
| OrderService.Database.FinishOrder | backend/app/services/order_service.py:103-139 | implements completion, refusals included, and keeps the ledger consistent |
| OrderService.Database.Record | backend/app/services/order_service.py:114-138 | the separate updates of a completion add up to the one ledger transition |
| OrderService.Database.MarkPaid | backend/app/services/order_service.py:116-120 | the order becomes completed, and paid if payment was pending |
| OrderService.Database.CountUse | backend/app/services/order_service.py:122-127 | counts one use of the code the order carries |
| OrderService.Database.CancelPlace | backend/app/services/order_service.py:155-167 | implements cancellation and keeps the ledger consistent |
| OrderService.Database.CheckInTicket | backend/app/services/order_service.py:170-190 | implements check-in and keeps the ledger consistent |
| OrderService.Database.FreePlace | backend/app/services/order_service.py:159-163 | the updates of a cancellation add up to one ledger transition |
| OrderService.Database.Insert | backend/app/services/order_service.py:75-98 | the order and its item are added under fresh ids |
| OrderService.Database.ValidSuffices | backend/app/services/order_service.py:103-190 | a consistent ledger meets what these calls need of the stored rows |
| Outbox.Worker.MarkRetryOrFailed | backend/app/workers/scheduler.py:60-66 | gives up at the maximum, else postpones by the capped backoff |
| Outbox.Worker.SendOne | backend/app/workers/scheduler.py:69-88 | counts one attempt and records its outcome; an exception is a failure |
| Outbox.Worker.DispatchOutbox | backend/app/workers/scheduler.py:91-114 | processes the fetched rows one by one |
| Outbox.TriedIsOk | backend/app/workers/scheduler.py:60-88 | an attempt on a due row keeps: PENDING below the maximum, FAILED at it, sends spaced by the backoff |
| Outbox.DispatchOutcomes | backend/app/workers/scheduler.py:60-88 | every row of a batch is sent if its attempt was delivered, else failed if it was the last allowed, else due again after exactly the backoff |
| Outbox.SentIffDelivered | backend/app/workers/scheduler.py:60-114 | in every run a pending row ends SENT if and only if an attempt on it was delivered, FAILED if and only if all attempts were made and none was |
| Outbox.EnqueuedIsSentIffDelivered | backend/app/workers/scheduler.py:60-114 | the same for rows enqueued during the run |
| Outbox.DeliveredIsNeverResent | backend/app/workers/scheduler.py:97-110 | no round touches a row after a delivered attempt |
| Outbox.SettledIsLeftAlone | backend/app/workers/scheduler.py:97-110 | no round touches a row that is SENT or FAILED |
| Outbox.SmallBacklogIsSentAtOnce | backend/app/workers/scheduler.py:47-111 | up to fifty waiting messages are all sent by one round whose attempts are delivered |
| Outbox.DispatchIsSound | backend/app/workers/scheduler.py:91-114 | a dispatch of any batch keeps that, touches no other row, and spends at least one unit of the remaining sends per row processed |
| Outbox.RunIsSound | backend/app/workers/scheduler.py:60-114 | in every run SENT and FAILED are final and the sends made are exactly the attempts recorded |
| Outbox.SendsAreBounded | backend/app/workers/scheduler.py:60-114 | n rows cause at most n * max sends |
| Outbox.QueueDrains | backend/app/workers/scheduler.py:47-111 | with nothing new, rounds an hour apart empty the queue within as many rounds as sends were left, in spite of the batch limit and the unspecified order |
| Outbox.QueueDrainsInTime | backend/app/workers/scheduler.py:47-114 | with rounds as frequent as one likes, the queue is empty after an hour, a gap and a round for every send left |
| Outbox.BackoffIsCapped | backend/app/workers/scheduler.py:65 | the backoff is 30 * 2^(j-1) seconds up to the seventh attempt and an hour from then on |
| Outbox.SendsAreSpaced | backend/app/workers/scheduler.py:60-111 | the j-th send comes at least 30 * (2^(j-1) - 1) seconds after the first for j up to 8, and every later gap is at least an hour |
| WorkerLock.LockIsSafe | backend/app/workers/scheduler.py:50-57 | if every job finishes before its TTL, at most one worker is inside and each delete removes the caller's own lock |
| WorkerLock.TimelyRunsAreGuarded | backend/app/workers/scheduler.py:50-57 | in such runs whoever is inside set the key that is there |
| WorkerLock.SecondWorkerEntersIffOverdue | backend/app/workers/scheduler.py:52-53 | a second worker gets in exactly when the first has run for a whole TTL |
| WorkerLock.OverrunCascades | backend/app/workers/scheduler.py:56-57 | after an overrun the late worker deletes another's lock, and a third worker gets in beside the second |
| Reminders.Scanner.ScanReminders | backend/app/workers/scheduler.py:117-147 | one scan reminds exactly the due registrations, once each |
| Reminders.NeverRemindedTwice | backend/app/workers/scheduler.py:131-143 | in every run no registration is reminded twice |
| Reminders.EveryEligibleRegistrationIsRemindedOnce | backend/app/workers/scheduler.py:122-144 | if scans at most 120 seconds apart span the window, a registration that stays eligible is reminded exactly once |
| Reminders.WindowIsCovered | backend/app/workers/scheduler.py:122-134 | the same from any scan before the window opens |
| Reminders.RemindedIffSeen | backend/app/workers/scheduler.py:125-143 | in every run a registration is reminded if and only if it is confirmed, its event published and its session 59 to 61 minutes away at some scan; the first such scan is the time recorded |
| Reminders.SeenIffInWindow | backend/app/workers/scheduler.py:123-136 | scans find an unchanging registration if and only if one of them falls between 61 and 59 minutes before its session |
| Reminders.GapMissesIffTooWide | backend/app/workers/scheduler.py:122-144 | scans at given times can leave some registration, whose window they span, without reminder if and only if two consecutive ones are more than 120 seconds apart |
| Slugs.GenerateUniqueSlug | backend/app/services/event_service.py:86-94 | the loop ends for every finite set of slugs and returns the plain slug if free, else the least free suffix from 2 upward |
| Slugs.CandidatesDiffer | backend/app/services/event_service.py:89-93 | different suffixes give different slugs |
| Sorting.SortIsStable | backend/app/services/search_service.py:90 | sorting by key keeps the order of elements with equal keys |
| Search.Fetch | backend/app/services/search_service.py:76-86 | the query returns the matching rows, each once, in no promised order |
| Search.BuildRank | backend/app/services/search_service.py:89 | every id is mapped to its last position |
| Search.SearchEvents | backend/app/services/search_service.py:57-92 | fetch-then-sort returns exactly the ranking filtered to what may be shown, whatever the index contains |
| Search.ResultsAreExact | backend/app/services/search_service.py:76-84 | the results are exactly the ranked events that are live, published, public and of the category and format asked for, each once |
| Search.SortedFetchIsRanked | backend/app/services/search_service.py:86-90 | sorting the rows by rank, in whatever order they arrive, gives that sequence |
| Search.RankedIsStrictlySorted | backend/app/services/search_service.py:89-90 | the filtered ranking is strictly increasing in rank and holds exactly the matching rows |
| Search.DistinctIdsAreFilteredInOrder | backend/app/services/search_service.py:72-92 | for distinct ids it is the plain filter of the id list in order |
| Reviews.ReviewService.RecomputeEventRating | backend/app/services/review_service.py:42-50 | writes the event's rating from its published reviews |
| Reviews.ReviewService.SubmitReview | backend/app/services/review_service.py:53-83 | creates or overwrites the user's review, publishes it and recomputes |
| Reviews.ReviewService.SetReviewHidden | backend/app/services/review_service.py:95-102 | hides or publishes a review and recomputes |
| Reviews.StepIsSound | backend/app/services/review_service.py:42-102 | each call keeps one review per user and event and every rating equal to the recomputed one, and leaves other events' ratings alone |
| Reviews.Run | backend/app/services/review_service.py:42-102 | the same agreement in every reachable store |
| Reviews.OtherEventsUnaffected | backend/app/services/review_service.py:43-47 | changing a review shows in no other event's sum or count |
| Reviews.RatingsAreInRange | backend/app/services/review_service.py:49 | every reachable rating lies between 0 and 5, rounding included |
| Reviews.RatingIsMean | backend/app/services/review_service.py:42-50 | in every reachable store the count is the number of the event's published reviews and the average their mean to two decimals, 0 without any |
| Reviews.SubmissionWrites | backend/app/services/review_service.py:57-77 | a submission stores the four marks and their mean, published; the reviews of others stay |
| Reviews.HidingWrites | backend/app/services/review_service.py:95-102 | hiding takes exactly the one review out of the event's published reviews, publishing puts it back |
| Reviews.UnhideUndoesHide | backend/app/services/review_service.py:95-102 | hiding and unhiding a review restores the store exactly |
| Reviews.SubmissionCountsOnce | backend/app/services/review_service.py:65-80 | a first or hidden review adds one to the count, a resubmission none |
| MonthlyKpis.AddRow | frontend/src/app/admin/page.tsx:95-103 | the entries that summarise the rows so far become the entries that summarise one row more |
| MonthlyKpis.SumGroups | frontend/src/app/admin/page.tsx:94-104 | one entry per group with rows, in order of first appearance, each with the sum of its group |
| MonthlyKpis.CountFunnels | frontend/src/app/admin/page.tsx:106-113 | views and completions of every month that has rows |
| MonthlyKpis.SetConversions | frontend/src/app/admin/page.tsx:114-119 | conversion entries get the rate of their month's totals, zero without views; others keep their sum |
| MonthlyKpis.AggregateMonthlyKpis | frontend/src/app/admin/page.tsx:93-122 | exactly one entry per group, newest month first and stable within a month, with the right value and title |
| MonthlyKpis.TotalsAreConserved | frontend/src/app/admin/page.tsx:93-104 | grouping conserves the total of every summed metric |
| MonthlyKpis.ConversionIsRecomputed | frontend/src/app/admin/page.tsx:114-119 | a conversion entry is the month's completed orders in per cent of its views, 0 without views |

## Left out

- Cryptography: SHA-256 and HMAC are taken as injective, so a token row stores the token and a code hash is a free constructor. Whether a JWT decodes is an input. A generated token, `jti` or ticket code that is already taken is an error outcome.
- Crashes between commits and unserialised database access: each call is one atomic step. The program commits the new token row before it revokes the old one, and enqueues a reminder before it marks the registration; a crash in between is not modelled.
- SingleFlight: the promise chain is modelled on values as a state machine, because its steps interleave; several browser tabs and the direct `authApi.refresh` call, which bypasses the shared promise, are not part of it. On an error response the cookie may be cleared or not, since an exception can drop the header that clears it. The answer to an abandoned request never reaches the browser.
- SingleFlight.SingleFlightIsSafe: assumes that nobody else presents a token of this client's chain and that this client neither logs in nor out during the run.
- Redis: a key is alive exactly while the clock is before its expiry, and INCR with EXPIRE is one step. Times to live are whole seconds of the model clock.
- Validators: ASCII text only; Unicode spaces, digits and case folding are not modelled.
- Otp: sending the message and its provider's answer are not modelled. A resend cancels the old challenge even when the new request is refused, as in the code.
- Orders.Run: no capacity of sessions is claimed, because capacity is checked only when an order is created and counts only confirmed registrations. Whether early-bird sale is open is an input. The ticket code given to check-in is taken after trimming.
- Orders.Step: ticket types and codes are only ever added, since no route edits or deletes one; changes made to the rows outside the program are not modelled.
- Discounts.FindDiscount: event codes are not unique in the database, so which row a lookup returns is unspecified; LookupIsComplete therefore assumes uniqueness.
- Money and ratings: floating-point values (discount percentages, averages, KPI values) are exact reals.
- Outbox: payloads that do not parse as JSON, a maximum of attempts below one and crashes within a batch are not modelled.
- Reminders: rendering and enqueueing the message is one event.
- Search: the index's answer is any list of ids, so its limit of 30 results and the embedding are not modelled.
- Reviews: the query for an eligible registration is an input. Resubmitting a hidden review publishes it and keeps the old reason for hiding it, as in the code.
- MonthlyKpis: the Persian calendar is an abstract month and title of a date; the joined text key is the triple it is made of.
- Routers, permissions, user creation, follows, favourites, categories, images, home page sections, people search, suggestions, the KPI roll-up query and all other pages: they would only add easy members.
