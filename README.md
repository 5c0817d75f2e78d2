# RentoVerse escrow core in Dafny

RentoVerse is a room-rental site. A renter requests a room (PENDING_REQUEST). The
provider approves (AWAITING_PAYMENT, with a three-day payment deadline) or declines.
The renter pays a 25% deposit into escrow, which creates a PENDING payment. An admin
confirms it (CONFIRMED payment, PAID_CONFIRMED booking, three-day viewing window). After
the visit the renter asks for a refund or for completion. The admin then refunds and
cancels (REFUNDED, CANCELLED_AFTER_VIEWING) or completes and releases (COMPLETED). A
provider whose booking is COMPLETED may request a payout, which an admin marks PAID. A
scheduled job expires bookings whose payment deadline (EXPIRED_UNPAID) or viewing
deadline (EXPIRED_NO_VISIT) has passed, and lists their rooms again.

The project models:

- **The escrow store** (`Escrow.EscrowStore`): bookings, payments, payouts, rooms and user
  emails, updated in place by the operations of `BookingService`, `PaymentService` and
  `ProviderPayoutService`. Each method states its whole new state and every error path.
  The two deadline sweeps are loops proved against set-valued specifications in
  `EscrowSpec`. `EscrowProperties` relates several operations: the sweeps are idempotent
  and disjoint, a refund unblocks the unpaid sweep, a new payout request is the one
  `getByBooking` returns, and the payment list satisfies its filters.
- **The scheduler** (`ExpireJob`): one tick runs both sweeps and logs only when something expired.
- **Entities and the DTO** (`Domain`, `PaymentDtos`): the `@PrePersist` defaults, the room's
  public code "RENTO:" + (100 + id), and `PaymentDto.from`.
- **The renter's updates feed** (`Updates`): the items per booking, the newest CONFIRMED or
  REFUNDED payment under a nulls-last comparator, and the final sort. As the source sorts
  them, items with no timestamp come first.
- **Accounts** (`Accounts`, `AccountProperties`): registration with a six-digit verification
  code, email verification, the two login variants, password reset with a ten-minute
  code, and the in-memory admin access codes.
- **The browser pages' logic**. `Client` holds the JavaScript value model and the helpers
  shared by the pages. The pages themselves are `RenterDashboard`, `AdminPayments`,
  `PaymentForm`, `ProviderDashboard` and `AdminDashboard`. They cover the countdown
  arithmetic, relative times, HTML escaping, room-code fallbacks and status badges. They
  also cover the action and button gating, the admin list's ordering and overdue filter,
  the deposit form's checks and the payment reference it builds. That reference
  round-trips through the admin page's room-code extraction.

The clock, random draws, the password encoder and `Date.parse` are parameters.

## Model

| member | source | states |
|---|---|---|
| Escrow.EscrowStore.constructor | src/main/java/com/rentoverse/app/service/BookingService.java:19-26 | The store starts with the given users and rooms and no bookings, payments or payouts. |
| Escrow.EscrowStore.CreateBooking | src/main/java/com/rentoverse/app/service/BookingService.java:30-49 | An unknown renter or room fails with nothing changed. Otherwise a fresh id gets a PENDING_REQUEST booking for that renter and room, created now, with no decision; nothing else changes. |
| Escrow.EscrowStore.RespondBooking | src/main/java/com/rentoverse/app/service/BookingService.java:51-111 | "approve" in any case, from any prior status, sets AWAITING_PAYMENT, approvedAt = now, deadline = now + 3 days, and takes the room off the market. "decline" sets DECLINED only. Any other action answers "Invalid action" and changes nothing; an unknown booking fails. |
| Escrow.EscrowStore.CancelPending | src/main/java/com/rentoverse/app/service/BookingService.java:139-146 | Deletes the booking exactly when it is PENDING_REQUEST. Otherwise it answers "Only pending can be cancelled." and changes nothing. |
| Escrow.EscrowStore.RequestRefundDecision | src/main/java/com/rentoverse/app/service/BookingService.java:298-314 | Only in PAID_CONFIRMED, sets decision REFUND_REQUESTED and the note, leaving the status. Otherwise it answers with the visit-window message and changes nothing. |
| Escrow.EscrowStore.RequestCompleteDecision | src/main/java/com/rentoverse/app/service/BookingService.java:316-332 | The same for COMPLETE_REQUESTED. |
| Escrow.SweepUnpaid | src/main/java/com/rentoverse/app/service/BookingService.java:156-191 | The loop over due bookings: the result is the table with exactly the unblocked due bookings expired, their rooms listed, and their count. |
| Escrow.SweepNoVisit | src/main/java/com/rentoverse/app/service/BookingService.java:201-227 | The loop over due bookings: all of them expired, their rooms listed, and their count. |
| Escrow.EscrowStore.ExpireUnpaid | src/main/java/com/rentoverse/app/service/BookingService.java:154-193 | Exactly the AWAITING_PAYMENT bookings with deadline strictly before now and no PENDING or CONFIRMED payment become EXPIRED_UNPAID. Their rooms become available, and the returned count is their number. |
| Escrow.DueAfterThreeDays | src/main/java/com/rentoverse/app/service/BookingService.java:56-61 | In a valid store, a booking is unpaid-due iff it awaits payment and was approved more than three days before now; no-visit-due iff it is paid-confirmed and its payment was confirmed more than three days before now. |
| Escrow.EscrowStore.ExpireNoVisit | src/main/java/com/rentoverse/app/service/BookingService.java:199-229 | Exactly the PAID_CONFIRMED bookings with viewing deadline strictly before now become EXPIRED_NO_VISIT. Their rooms become available, and the count is returned. |
| Escrow.EscrowStore.CompleteBooking | src/main/java/com/rentoverse/app/service/BookingService.java:234-260 | From any status: COMPLETED, room off the market, no payment touched. |
| Escrow.EscrowStore.CancelAfterViewing | src/main/java/com/rentoverse/app/service/BookingService.java:263-289 | From any status: CANCELLED_AFTER_VIEWING, room listed, no payment touched. |
| Escrow.EscrowStore.PayEscrow | src/main/java/com/rentoverse/app/service/PaymentService.java:38-85 | An unknown booking fails; one not AWAITING_PAYMENT fails with IllegalState. Otherwise a PENDING payment with the given fields is appended, even beside another PENDING one, and the booking is untouched. Failures change nothing. |
| Escrow.EscrowStore.ConfirmPayment | src/main/java/com/rentoverse/app/service/PaymentService.java:89-134 | Only a PENDING payment is confirmed: CONFIRMED with confirmedAt = now. Its booking becomes PAID_CONFIRMED with the visit window now + 3 days and the decision reset, and its room goes off the market. A rejected call changes nothing. |
| Escrow.EscrowStore.RefundPayment | src/main/java/com/rentoverse/app/service/PaymentService.java:138-170 | A REFUNDED payment is returned unchanged. Any other becomes REFUNDED with refundedAt = now, and the booking is not modified. |
| Escrow.EscrowStore.RefundAndCancel | src/main/java/com/rentoverse/app/service/PaymentService.java:174-219 | Requires a booking and a CONFIRMED payment, in that order, each failure changing nothing. The payment is refunded. The booking becomes CANCELLED_AFTER_VIEWING with decision, note and both deadlines cleared, and the room is listed. |
| Escrow.EscrowStore.CompleteAndRelease | src/main/java/com/rentoverse/app/service/PaymentService.java:223-269 | Same guards. The booking becomes COMPLETED with the decision cleared and the room off the market; the payment stays CONFIRMED. |
| Escrow.EscrowStore.RequestPayout | src/main/java/com/rentoverse/app/service/ProviderPayoutService.java:20-51 | An unknown booking or one not COMPLETED fails and saves nothing. Otherwise a REQUESTED payout is appended, created now, with the given fields and the room provider's email or null. Repeats are kept and the booking is untouched. |
| Escrow.EscrowStore.GetByBooking | src/main/java/com/rentoverse/app/service/ProviderPayoutService.java:53-56 | Fails exactly when the booking has no payout; otherwise returns one of its payouts whose createdAt is no earlier than any other of its payouts. |
| Escrow.EscrowStore.MarkPaid | src/main/java/com/rentoverse/app/service/ProviderPayoutService.java:59-78 | An unknown id fails and changes nothing. Otherwise the payout becomes PAID with paidAt = now from any status; a repeat re-stamps. |
| EscrowSpec.HasActivePaymentExists | src/main/java/com/rentoverse/app/repository/PaymentRepository.java:20 | The "exists payment in PENDING or CONFIRMED" query holds iff some payment of the booking blocks it. |
| EscrowSpec.UnpaidExpiredUnblocked | src/main/java/com/rentoverse/app/repository/BookingRepository.java:18-19 | The set the unpaid sweep expires is the strict-deadline query's result minus the bookings with a blocking payment. |
| EscrowSpec.WithStatusWellFormed | src/main/java/com/rentoverse/app/model/Booking.java:39-40 | Expiring bookings keeps the table's keys, its well-formedness and every createdAt (the column is not updatable). |
| EscrowSpec.NewestPayout | src/main/java/com/rentoverse/app/repository/ProviderPayoutRepository.java:9 | The newest payout of a booking: none iff it has none, otherwise one with the latest createdAt. |
| EscrowSpec.Selection | src/main/java/com/rentoverse/app/service/PaymentService.java:272-298 | The selected payments, in increasing store order: every index satisfies the filters and every satisfying index appears. |
| EscrowSpec.ListPayments | src/main/java/com/rentoverse/app/service/PaymentService.java:272-298 | Every listed DTO is the listing of a payment that meets the three filters; every payment that meets them is listed; ids strictly increase, so the list is in store order with no repeats. |
| EscrowProperties.UnpaidSweepIdempotent | src/main/java/com/rentoverse/app/service/BookingService.java:154-193 | A second unpaid sweep at the same instant expires nothing and changes nothing. |
| EscrowProperties.NoVisitSweepIdempotent | src/main/java/com/rentoverse/app/service/BookingService.java:199-229 | A second no-visit sweep at the same instant returns 0 and changes nothing. |
| EscrowProperties.UnpaidSweepKeepsNoVisitDue | src/main/java/com/rentoverse/app/scheduler/EscrowExpireJob.java:19-20 | The unpaid sweep leaves the no-visit due set as it was, and no booking is expired by both sweeps. |
| EscrowProperties.NoVisitIgnoresDecision | src/main/java/com/rentoverse/app/service/BookingService.java:199-229 | A PAID_CONFIRMED booking past its viewing deadline is expired whatever its decision. |
| EscrowProperties.UnpaidExpiredIff | src/main/java/com/rentoverse/app/service/BookingService.java:154-193 | A booking is expired as unpaid iff it is AWAITING_PAYMENT, past its deadline, and no payment blocks it. |
| EscrowProperties.RefundUnblocks | src/main/java/com/rentoverse/app/service/PaymentService.java:146-150 | Refunding the only blocking payment of an overdue AWAITING_PAYMENT booking lets the unpaid sweep expire it. |
| EscrowProperties.PendingBlocks | src/main/java/com/rentoverse/app/repository/PaymentRepository.java:20 | A PENDING payment keeps its booking out of the unpaid sweep. |
| EscrowProperties.NewestAfterRequest | src/main/java/com/rentoverse/app/service/ProviderPayoutService.java:53-56 | A payout requested no earlier than all earlier ones is what the lookup returns for its booking. |
| EscrowProperties.NewestIgnoresOthers | src/main/java/com/rentoverse/app/repository/ProviderPayoutRepository.java:9 | A request for another booking does not change a booking's newest payout. |
| EscrowProperties.UnfilteredListsAll | src/main/java/com/rentoverse/app/service/PaymentService.java:272-298 | Without filters every payment is listed, in store order. |
| EscrowProperties.ListedMatchFilters | src/main/java/com/rentoverse/app/service/PaymentService.java:276-285 | Each listed payment matches the status (ignoring case; blank means any), the booking id, and the renter-email substring (ignoring case), whichever were given. |
| EscrowProperties.ListedPayoutStatus | src/main/java/com/rentoverse/app/service/PaymentService.java:286-296 | A listed payment carries its booking's newest payout status, and none without a booking. |
| ExpireJob.LogIfAny | src/main/java/com/rentoverse/app/scheduler/EscrowExpireJob.java:21-23 | A line is logged iff at least one count is positive. |
| ExpireJob.TickLine | src/main/java/com/rentoverse/app/scheduler/EscrowExpireJob.java:22 | The line starts with "EscrowExpireJob: expired ", whose following digits read back as the unpaid count, and ends with the no-visit count's digits and " no-visit bookings.". |
| ExpireJob.DevTickLine | src/main/java/com/rentoverse/app/scheduler/EscrowExpireJob.java:32 | The same for the "[DEV] expired " line ending in " no-visit.". |
| ExpireJob.TickLineInjective | src/main/java/com/rentoverse/app/scheduler/EscrowExpireJob.java:22 | The log line determines both counts. |
| ExpireJob.DevTickLineInjective | src/main/java/com/rentoverse/app/scheduler/EscrowExpireJob.java:32 | The same for the development tick's line. |
| ExpireJob.EscrowExpireJob.constructor | src/main/java/com/rentoverse/app/scheduler/EscrowExpireJob.java:11-14 | The job holds the booking service it is given. |
| ExpireJob.EscrowExpireJob.SweepEvery15Minutes | src/main/java/com/rentoverse/app/scheduler/EscrowExpireJob.java:17-24 | One tick is the unpaid sweep followed by the no-visit sweep, each once, on disjoint sets, with the log as LogIfAny states. |
| ExpireJob.EscrowExpireJob.SweepEveryMinuteForLocalDev | src/main/java/com/rentoverse/app/scheduler/EscrowExpireJob.java:28-34 | The development tick runs the same two sweeps in the same order. |
| Domain.PaymentStatusNameInjective | src/main/java/com/rentoverse/app/model/PaymentStatus.java:4-9 | Payment statuses have distinct names. |
| Domain.NewRoom | src/main/java/com/rentoverse/app/model/Room.java:41-42 | A new room is available. |
| Domain.PublicCodeShape | src/main/java/com/rentoverse/app/model/Room.java:57-60 | The public code is "RENTO:" followed by the decimal 100 + id, with an absent id read as 0; it is never blank. |
| Domain.PublicCode | src/main/java/com/rentoverse/app/model/Room.java:57-60 | Starts with "RENTO:" and is never blank; "RENTO:100" without an id; for a stored id the digits after the prefix read back as 100 + id. |
| Domain.PublicCodeInjective | src/main/java/com/rentoverse/app/model/Room.java:57-60 | Distinct non-negative ids give distinct codes. |
| Domain.BookingEntity.constructor | src/main/java/com/rentoverse/app/model/Booking.java:21-68 | A new booking entity has its renter and room, PENDING_REQUEST, decision NONE and no timestamps. |
| Domain.BookingEntity.OnCreate | src/main/java/com/rentoverse/app/model/Booking.java:70-75 | Fills createdAt, status and decision only where they are null; every other field is kept. |
| Domain.BookingEntity.Row | src/main/java/com/rentoverse/app/model/Booking.java:21-40 | The stored row carries the entity's renter, room, status, createdAt and decision. |
| Domain.PaymentEntity.constructor | src/main/java/com/rentoverse/app/model/Payment.java:25-74 | A new payment entity has its booking and the given fields, with no room code and no confirm or refund stamp. |
| Domain.PaymentEntity.OnCreate | src/main/java/com/rentoverse/app/model/Payment.java:76-80 | Fills createdAt and a PENDING status only where they are null. |
| Domain.PaymentEntity.Row | src/main/java/com/rentoverse/app/model/Payment.java:25-68 | The stored row carries the entity's booking, status, createdAt, amount, reference and transaction id. |
| PaymentDtos.From | src/main/java/com/rentoverse/app/dto/PaymentDto.java:47-81 | Booking-derived fields are null without a booking and copied (enums by name) with one. The renter email needs a booking and a renter. The payment's fields are copied unchanged and its status by name. The payout status is left unset. |
| PaymentDtos.FromStatusIdentifies | src/main/java/com/rentoverse/app/dto/PaymentDto.java:65 | The DTO's status string identifies the payment status. |
| Updates.SafeRoomCodeIsPublic | src/main/java/com/rentoverse/app/controller/UpdatesController.java:103-122 | "your room" for no room, otherwise the public code; the title and ROOM# fallbacks are unreachable. |
| Updates.SafeRoomCode | src/main/java/com/rentoverse/app/controller/UpdatesController.java:103-122 | "your room" with no room; a present room never gets a blank label, and a non-blank public code is preferred. |
| Updates.Newest | src/main/java/com/rentoverse/app/controller/UpdatesController.java:49-57 | The chosen payment of a status: none iff there is none, otherwise the first maximum under the nulls-last order. |
| Updates.NullStampWins | src/main/java/com/rentoverse/app/controller/UpdatesController.java:49-57 | A payment with no timestamp beats every dated one. |
| Updates.PaymentsOf | src/main/java/com/rentoverse/app/controller/UpdatesController.java:38-41 | The group of a booking holds only its payments and each of them; payments without a booking are dropped. |
| Updates.PaymentsOfAppend | src/main/java/com/rentoverse/app/controller/UpdatesController.java:38-41 | Grouping distributes over concatenation, so each group keeps the query's order and repeats. |
| Updates.PaymentsOfSingle | src/main/java/com/rentoverse/app/controller/UpdatesController.java:38-41 | A single payment is kept iff it belongs to the booking. |
| Updates.ItemsForKinds | src/main/java/com/rentoverse/app/controller/UpdatesController.java:61-94 | The items of a booking by status, decision and refund: SUCCESS for COMPLETED; REFUND or PENDING for CANCELLED_AFTER_VIEWING; PENDING for a PAID_CONFIRMED decision; an extra REFUND otherwise; at most two. |
| Updates.Banner | src/main/java/com/rentoverse/app/controller/UpdatesController.java:61-87 | At most one item, present exactly for COMPLETED, CANCELLED_AFTER_VIEWING and a PAID_CONFIRMED booking with a refund or completion request; SUCCESS for COMPLETED; REFUND after viewing iff some payment is refunded; PENDING items stamped now. |
| Updates.Extra | src/main/java/com/rentoverse/app/controller/UpdatesController.java:89-94 | One REFUND item ("Refund processed") exactly when some payment is refunded and the booking is not CANCELLED_AFTER_VIEWING, else none. |
| Updates.ItemsForStamps | src/main/java/com/rentoverse/app/controller/UpdatesController.java:62-94 | SUCCESS is stamped with the chosen confirmation (or null), REFUND with the chosen refund, and PENDING with now. |
| Updates.AllItemsAtMostTwoEach | src/main/java/com/rentoverse/app/controller/UpdatesController.java:45-95 | The feed has at most two items per booking. |
| Updates.NewestFirstOrder | src/main/java/com/rentoverse/app/controller/UpdatesController.java:97-98 | In the sorted feed, undated items come first and dated ones are in descending time. |
| Updates.RenterUpdates | src/main/java/com/rentoverse/app/controller/UpdatesController.java:33-100 | The loop collects every booking's items; the result is that collection sorted newest first, stably, as a permutation. |
| Sorting.SortBySorted | src/main/java/com/rentoverse/app/controller/UpdatesController.java:98 | The stable sort's result is ordered by the key. |
| Sorting.SortByPermutes | src/main/java/com/rentoverse/app/controller/UpdatesController.java:98 | The stable sort permutes its input. |
| Sorting.SortByStable | src/main/resources/static/js/admin-payments.js:96-101 | Elements with equal keys keep their relative order. |
| Accounts.UserStore.constructor | src/main/java/com/rentoverse/app/model/User.java:11-35 | An empty table of users keyed by their unique email, with ids starting at 1. |
| Accounts.AuthController.constructor | src/main/java/com/rentoverse/app/controller/AuthController.java:21-31 | The controller uses the given store. |
| Accounts.AuthController.Register | src/main/java/com/rentoverse/app/controller/AuthController.java:35-66 | A known email answers 400 and saves nothing. Otherwise it saves an unverified user with the encoded password, the role (RENTER by default), a zero-padded code and the reset code and expiry the body carried. |
| Accounts.AuthController.VerifyCode | src/main/java/com/rentoverse/app/controller/AuthController.java:70-98 | Unknown email: 400. Already verified: "Already verified." with nothing changed. A matching code verifies and clears it; a mismatch answers 400 and changes nothing. |
| Accounts.AuthController.Login | src/main/java/com/rentoverse/app/controller/AuthController.java:102-128 | A profile iff the email is known, the password matches and the user is verified. The checks run in order: 401 unknown, 401 password, 403 unverified. The profile carries name, email, role and id. |
| Accounts.PasswordResetController.constructor | src/main/java/com/rentoverse/app/controller/PasswordResetController.java:17-21 | The controller uses the given store. |
| Accounts.PasswordResetController.Forgot | src/main/java/com/rentoverse/app/controller/PasswordResetController.java:24-40 | An unknown email fails with nothing changed. Otherwise it stores a zero-padded code expiring now + 10 minutes, replacing any earlier one. |
| Accounts.PasswordResetController.Reset | src/main/java/com/rentoverse/app/controller/PasswordResetController.java:43-60 | Rejected with nothing changed unless the code matches and now is not after the expiry. Success stores the encoded password and clears the code and expiry. |
| Accounts.AdminAccessService.constructor | src/main/java/com/rentoverse/app/service/AdminAccessService.java:8-16 | The code map starts empty. |
| Accounts.AdminAccessService.RequestAccess | src/main/java/com/rentoverse/app/service/AdminAccessService.java:18-30 | A wrong secret leaves the map unchanged. The right one stores a six-digit code for the email, replacing any earlier one. |
| Accounts.AdminAccessService.VerifyCode | src/main/java/com/rentoverse/app/service/AdminAccessService.java:32-34 | True iff a code is stored for the email and equals the given one. |
| Accounts.AdminAccessService.ClearCode | src/main/java/com/rentoverse/app/service/AdminAccessService.java:36-38 | Removes exactly that email's entry. |
| Accounts.AdminCode | src/main/java/com/rentoverse/app/service/AdminAccessService.java:23 | The admin code is six digits with value draw + 100000. |
| Accounts.RequestThenVerify | src/main/java/com/rentoverse/app/service/AdminAccessService.java:18-34 | After a request, only the new code verifies for that email; other emails are unaffected. |
| Accounts.ClearThenReject | src/main/java/com/rentoverse/app/service/AdminAccessService.java:32-38 | After clearing, no code verifies for that email; other emails are unaffected. |
| Accounts.AdminAccessController.constructor | src/main/java/com/rentoverse/app/controller/AdminAccessController.java:18-30 | The controller uses the configured secret and the given store. |
| Accounts.AdminAccessController.RegisterAdmin | src/main/java/com/rentoverse/app/controller/AdminAccessController.java:33-63 | A wrong secret answers 401 before the email check. A known email answers 400. Neither saves anything. Otherwise it saves an unverified ADMIN, whatever the input role, with the encoded password, a zero-padded code and the body's reset code and expiry. |
| Accounts.AuthService.constructor | src/main/java/com/rentoverse/app/service/AuthService.java:14-21 | The service uses the given store. |
| Accounts.AuthService.Register | src/main/java/com/rentoverse/app/service/AuthService.java:23-35 | A known email answers "Email already exists" and saves nothing. Otherwise it saves the user with the encoded password and the role (RENTER by default); the verified flag, both codes and the reset expiry are the body's. |
| Accounts.AuthService.Login | src/main/java/com/rentoverse/app/service/AuthService.java:37-47 | "Invalid email", "Invalid password", or success naming the role, with no verification check. |
| AccountProperties.RegisteredAwaitsCode | src/main/java/com/rentoverse/app/controller/AuthController.java:40-49 | A registered user is unverified and holds a six-digit code below 999999, which is the only code that matches; its role defaults to RENTER and its reset code and expiry are the body's. |
| AccountProperties.ZeroPad6Injective | src/main/java/com/rentoverse/app/controller/AuthController.java:44 | Distinct draws give distinct codes. |
| AccountProperties.VerifiedStaysVerified | src/main/java/com/rentoverse/app/controller/AuthController.java:82-97 | After verification no code matches again. |
| AccountProperties.ServiceRowHasNoCode | src/main/java/com/rentoverse/app/service/AuthService.java:23-35 | A user registered through the service is verified exactly when the body said so, and a code verifies it exactly when the body carried that code; a body with neither leaves an unverified row with no code, which no code can verify. |
| AccountProperties.ForgotThenReset | src/main/java/com/rentoverse/app/controller/PasswordResetController.java:28-52 | After forgot, a reset is accepted iff the code matches and the time is at most the expiry, the expiry instant included. |
| AccountProperties.ForgotReplacesCode | src/main/java/com/rentoverse/app/controller/PasswordResetController.java:28-31 | A second forgot invalidates the first code. |
| AccountProperties.ResetNotReusable | src/main/java/com/rentoverse/app/controller/PasswordResetController.java:54-57 | After a reset no code is accepted. |
| AccountProperties.AdminCodeRange | src/main/java/com/rentoverse/app/service/AdminAccessService.java:23 | Admin codes lie in 100000..999999 and distinct draws differ. |
| AccountProperties.LoginsDiffer | src/main/java/com/rentoverse/app/service/AuthService.java:37-47 | Over the same store, the controller refuses with 401 exactly when the service answers "Invalid ...". An unverified user with the right password is refused 403 by the controller but logged in by the service. |
| Text.NatToString | src/main/java/com/rentoverse/app/model/Room.java:59 | Decimal rendering: non-empty digits with no leading zero. |
| Text.NatToStringValue | src/main/java/com/rentoverse/app/model/Room.java:59 | The rendering reads back as the number. |
| Text.NatToStringInjective | src/main/java/com/rentoverse/app/model/Room.java:59 | Distinct numbers render differently. |
| Text.ZeroPad6 | src/main/java/com/rentoverse/app/controller/PasswordResetController.java:28 | "%06d": six digits whose value is the number. |
| Text.JsTrimEmpty | src/main/resources/static/js/provider-dashboard.js:261-266 | A trimmed string is empty iff every character is whitespace. |
| Client.Up | src/main/resources/static/js/admin-payments.js:13 | `String(v \|\| "").toUpperCase()`: "" for falsy values, the upper-cased string otherwise. |
| Client.FirstPresent | src/main/resources/static/js/admin-payments.js:17 | The `??` chain: the first non-nullish field, or nullish when all are. |
| Client.MillisOf | src/main/resources/static/js/admin-payments.js:18-24 | 0 when falsy, the number itself, or the parsed time with 0 for an unparseable string. |
| Client.StatusNameUpper | src/main/java/com/rentoverse/app/model/Status.java:3-20 | Status names are already upper case. |
| Client.RoomCodeOr | src/main/resources/static/js/renter-dashboard.js:77-83 | The fallback chain: a truthy publicCode, else a truthy code, else a truthy roomCode, else "ID#" + id for a non-nullish id, else the page's last resort; each step is stated with the earlier ones failing. |
| Client.ServerRoomCode | src/main/java/com/rentoverse/app/model/Room.java:57-60 | A room as the server sends it resolves to its public code. |
| Client.RoomCodeOrLastResort | src/main/resources/static/js/payment.js:34 | Pages that differ only in the last resort agree unless both fall to it. |
| Client.Truncate | src/main/resources/static/js/admin-payments.js:12 | Unchanged up to n characters; otherwise the first n characters followed by "…". |
| Client.RenterEscape | src/main/resources/static/js/renter-dashboard.js:625-627 | The three chained replacements equal one per-character pass, so each & of the input is escaped once and no < or > remains. |
| Client.PaymentsEscape | src/main/resources/static/js/admin-payments.js:5-11 | The five chained replacements equal one per-character pass; no < > " ' remains. |
| Client.DashboardEscape | src/main/resources/static/js/admin-dashboard.js:257-261 | null and undefined give ""; the single-pass table escape leaves no < > " '. |
| Client.DashboardEscapeAppend | src/main/resources/static/js/admin-dashboard.js:257-261 | Escaping distributes over concatenation. |
| Client.DashboardEscapeChar | src/main/resources/static/js/admin-dashboard.js:257-261 | & < > " ' become &amp; &lt; &gt; &quot; &#39;; every other character is kept; with the append lemma this fixes the whole output. |
| Client.DashboardEscapeAttr | src/main/resources/static/js/admin-dashboard.js:262 | escapeAttr equals escapeHtml: its extra pass finds no " left. |
| Client.EscapersDiffer | src/main/resources/static/js/admin-payments.js:11 | The payments page writes ' as &#039; and the dashboard as &#39;. |
| RenterDashboard.Pad2 | src/main/resources/static/js/renter-dashboard.js:538 | Two-digit padding of a value below 100 reads back as the value. |
| RenterDashboard.Tick | src/main/resources/static/js/renter-dashboard.js:529-538 | The step-by-step split gives h < 24, m < 60, s < 60 and d·86400 + h·3600 + m·60 + s = the remaining whole seconds (0 when past); a deadline under a second away shows 0d 00:00:00. |
| RenterDashboard.SplitUnique | src/main/resources/static/js/renter-dashboard.js:529-538 | The split is the only one with those bounds. |
| RenterDashboard.StartCountdown | src/main/resources/static/js/renter-dashboard.js:544-558 | No deadline: no label. Otherwise the label of the same decomposition. |
| RenterDashboard.StartDeadlineCountdown | src/main/resources/static/js/renter-dashboard.js:524-541 | A null or empty ISO text: no label. Text that does not parse: "NaNd NaN:NaN:NaN". Otherwise the label of the decomposition of the parsed deadline. |
| RenterDashboard.EpochDeadlineDiffers | src/main/resources/static/js/renter-dashboard.js:524-545 | For a deadline at the epoch the millisecond countdown shows nothing while the ISO one shows a label, "0d 00:00:00" once the epoch has passed. |
| RenterDashboard.AgoOf | src/main/resources/static/js/renter-dashboard.js:611-623 | NaN iff unparseable. Otherwise future times clamp to 0 and the unit is seconds below 60, minutes below 3600, hours below 86400, else days, with the count the whole number of units. |
| RenterDashboard.TimeAgo | src/main/resources/static/js/renter-dashboard.js:611-623 | "NaNd ago" iff the time is unparseable; otherwise the label is the count in decimal, reading back as the count, followed by the unit's " ago" suffix. |
| RenterDashboard.TsMillis | src/main/resources/static/js/renter-dashboard.js:59-73 | The first present of createdAt, requestedAt, created_at, createdAtTs and created, read as milliseconds, with 0 when absent or unparseable. |
| RenterDashboard.EmptyCreatedAtWins | src/main/resources/static/js/renter-dashboard.js:61-65 | An empty createdAt is present for `??` and yields 0, even when later fields hold a time. |
| RenterDashboard.BadgeGroups | src/main/resources/static/js/renter-dashboard.js:213-226 | The badge of each booking status: pending yellow, awaiting indigo, paid or confirmed green, declined red, expired or cancelled gray, COMPLETED the default slate. |
| RenterDashboard.BadgeClass | src/main/resources/static/js/renter-dashboard.js:213-226 | Each colour is shown for exactly its statuses: yellow for PENDING or PENDING_REQUEST, indigo for AWAITING_PAYMENT, green for PAID_CONFIRMED or CONFIRMED, red for DECLINED, gray for the two expiries and CANCELLED_AFTER_VIEWING; anything else slate. |
| RenterDashboard.CancelOnlyWhilePending | src/main/resources/static/js/renter-dashboard.js:274-277 | The cancel button shows iff the status is PENDING_REQUEST. |
| RenterDashboard.CancelShown | src/main/resources/static/js/renter-dashboard.js:274-277 | A card without a status shows the cancel button; otherwise it shows iff the status upper-cases to PENDING_REQUEST. |
| RenterDashboard.DecisionGating | src/main/resources/static/js/renter-dashboard.js:416-439 | The decision buttons show iff the decision is NONE; otherwise a chip names the request. |
| RenterDashboard.DecisionButtonsShown | src/main/resources/static/js/renter-dashboard.js:416-439 | A card without a decision shows the buttons; otherwise they show iff the decision upper-cases to NONE. |
| AdminPayments.Rank | src/main/resources/static/js/admin-payments.js:26 | Rank 0..3 iff the upper-cased status is PENDING, CONFIRMED, REFUNDED or FAILED; 99 otherwise. |
| AdminPayments.CompareIsKeyOrder | src/main/resources/static/js/admin-payments.js:96-101 | The comparator is the order on (rank, negated stamp). |
| AdminPayments.Compare | src/main/resources/static/js/admin-payments.js:96-101 | Different status groups order by the group rank (PENDING, CONFIRMED, REFUNDED, FAILED, others); within a group the newer stamp comes first; 0 iff same rank and same stamp. |
| AdminPayments.OverdueOnly | src/main/resources/static/js/admin-payments.js:93-94 | The filter keeps exactly the overdue rows. |
| AdminPayments.OverdueOnlyAppend | src/main/resources/static/js/admin-payments.js:93-94 | The filter distributes over concatenation, so it keeps the fetched order and repeats. |
| AdminPayments.OverdueOnlySingle | src/main/resources/static/js/admin-payments.js:93-94 | A single row is kept iff it is overdue; with the append lemma this fixes the filtered list. |
| AdminPayments.DisplayedOrder | src/main/resources/static/js/admin-payments.js:93-101 | The displayed list is a permutation of the (filtered) rows, in comparator order, stable among equal keys, and all overdue when filtered. The filtered rows are in fetched order by OverdueOnlyAppend. |
| AdminPayments.ActionsFor | src/main/resources/static/js/admin-payments.js:291-321 | No actions on a final booking; Confirm alone iff PENDING; Refund & Cancel and Complete & Release iff CONFIRMED. |
| AdminPayments.OnActionClick | src/main/resources/static/js/admin-payments.js:325-359 | Only confirm, refund-cancel and complete post; only the last two blank the cell; any other action posts nothing. |
| AdminPayments.ClickReachesEndpoint | src/main/resources/static/js/admin-payments.js:342-346 | An action posts to an action's endpoint iff it is that action's name, and the three endpoints differ. |
| AdminPayments.ButtonsPostTheirEndpoint | src/main/resources/static/js/admin-payments.js:291-346 | Every button offered posts to its own endpoint. |
| AdminPayments.ResolveNote | src/main/resources/static/js/admin-payments.js:140-144 | The trimmed decision note when non-empty, else the trimmed payment note. |
| AdminPayments.ResolveNoteEmpty | src/main/resources/static/js/admin-payments.js:140-144 | The note is empty iff both notes are absent or all whitespace. |
| AdminPayments.CodeRun | src/main/resources/static/js/admin-payments.js:149 | The greedy `[A-Za-z0-9:-]+` run: the longest prefix of code characters. |
| AdminPayments.MatchFrom | src/main/resources/static/js/admin-payments.js:149 | The leftmost match position: a match with none before it, or none at all. |
| AdminPayments.RoomInReference | src/main/resources/static/js/admin-payments.js:148-151 | A found group is never empty. |
| AdminPayments.ResolveRoomCode | src/main/resources/static/js/admin-payments.js:145-153 | Never empty. A non-blank roomCode wins; else a non-blank roomId; else the ROOM: group of a truthy reference; else "-". |
| AdminPayments.ReferenceRoom | src/main/resources/static/js/admin-payments.js:148-151 | On a payment-page reference whose txnId has no "ROOM:", the match is the code-character run of the room code. |
| AdminPayments.ReferenceRoundTrip | src/main/resources/static/js/payment.js:125 | A room code over `[A-Za-z0-9:-]` is recovered exactly from the reference. |
| AdminPayments.PublicCodeRoundTrip | src/main/java/com/rentoverse/app/model/Room.java:57-60 | Every public code is recovered exactly. |
| AdminPayments.IdFallbackLosesId | src/main/resources/static/js/payment.js:34 | An "ID#" + id fallback code is recovered as "ID" only. |
| AdminPayments.ResolveFromReference | src/main/resources/static/js/admin-payments.js:145-153 | With no roomCode or roomId, the displayed code is the one the payment page put in the reference. |
| AdminPayments.OverdueMatchesServer | src/main/resources/static/js/admin-payments.js:111-116 | On a server row, overdue iff PENDING past the payment deadline or CONFIRMED past the viewing deadline, strictly, as the sweeps read deadlines. |
| AdminPayments.IsOverdue | src/main/resources/static/js/admin-payments.js:111-116 | Only a status of exactly PENDING or CONFIRMED can be overdue, and then only when its own deadline (payment, respectively viewing) has passed. |
| AdminPayments.OverdueStaysOverdue | src/main/resources/static/js/admin-payments.js:111-116 | An overdue row stays overdue at every later instant. |
| AdminPayments.ActionsOnServerRow | src/main/resources/static/js/admin-payments.js:291-321 | On a server row: none for final bookings, Confirm for PENDING, the two CONFIRMED actions, none otherwise. |
| AdminPayments.StampOnServerRow | src/main/resources/static/js/admin-payments.js:16-25 | On a server row the stamp is confirmedAt when set, else createdAt. |
| AdminPayments.RankOnServerRow | src/main/resources/static/js/admin-payments.js:26 | On a server row the rank follows the payment status. |
| AdminPayments.PayoutModal.constructor | src/main/resources/static/js/admin-payments.js:28 | No current payout; the modal is hidden. |
| AdminPayments.PayoutModal.Open | src/main/resources/static/js/admin-payments.js:172-200 | A failed lookup changes nothing. Otherwise the payout becomes current and shown, with Mark paid disabled iff it is PAID. |
| AdminPayments.PayoutModal.MarkPaidPath | src/main/resources/static/js/admin-payments.js:201-213 | A request is sent iff a payout is current. |
| AdminPayments.PayoutModal.MarkPaidAnswered | src/main/resources/static/js/admin-payments.js:201-213 | A successful answer hides the modal; a failure leaves it. |
| PaymentForm.PaymentPage.constructor | src/main/resources/static/js/payment.js:5 | The globals start with room code "-" and no status. |
| PaymentForm.PaymentPage.GenerateCaptcha | src/main/resources/static/js/payment.js:98-103 | Operands are draw + 1, in 1..9. |
| PaymentForm.PaymentPage.Init | src/main/resources/static/js/payment.js:9-68 | A zero booking or amount hides the form with "Invalid booking or amount.". Otherwise the room code comes from the fetched booking, falling back to "-", and a captcha is drawn. |
| PaymentForm.PaymentPage.OnSubmit | src/main/resources/static/js/payment.js:105-144 | Checks method, name, phone, txn and captcha in that order and reports the first failure with its own message; posts iff all pass, with the whole body: amount, method, the reference of the trimmed txn, room code and booking id, and the trimmed name, phone, txn and note. |
| PaymentForm.CaptchaRange | src/main/resources/static/js/payment.js:99-119 | The captcha passes iff the answer is x + y, which lies in 2..18. |
| PaymentForm.ReferenceFields | src/main/resources/static/js/payment.js:125 | Each field reads back from its place: "TXN:" then the txn id, "\|ROOM:" then the room code, "\|BK:" then the booking id. |
| ProviderDashboard.RoomPublicCode | src/main/resources/static/js/provider-dashboard.js:48 | The sent publicCode, else "RENTO:" + (100 + id) with a missing id as 0. |
| ProviderDashboard.RoomPublicCodeMatchesServer | src/main/resources/static/js/provider-dashboard.js:48 | Agrees with Room.getPublicCode whether or not the code was sent. |
| ProviderDashboard.NormalizeStatus | src/main/resources/static/js/provider-dashboard.js:49 | Missing becomes PENDING; PENDING_REQUEST or REQUESTED in any case becomes PENDING; anything else is upper-cased. The result is non-empty and upper case. |
| ProviderDashboard.NormalizeIdempotent | src/main/resources/static/js/provider-dashboard.js:49 | Normalizing twice equals once. |
| ProviderDashboard.NormalizeServerStatus | src/main/resources/static/js/provider-dashboard.js:49 | Server statuses stay as named, except PENDING_REQUEST, which becomes PENDING. |
| ProviderDashboard.BadgeClass | src/main/resources/static/js/provider-dashboard.js:50-63 | Each colour is shown for exactly its normalised statuses; COMPLETED alone gets green-700, PENDING alone yellow; anything else slate. |
| ProviderDashboard.ServerStatusBadges | src/main/resources/static/js/provider-dashboard.js:50-63 | No server status falls to the default badge; green-700 iff COMPLETED. |
| ProviderDashboard.Deadline | src/main/resources/static/js/provider-dashboard.js:189-194 | Pay-by iff AWAITING_PAYMENT with a payment deadline; visit-by iff PAID_CONFIRMED with a viewing deadline. |
| ProviderDashboard.CardSection | src/main/resources/static/js/provider-dashboard.js:178-217 | Approve/Decline iff PENDING. Otherwise the details carry the status and badge; the payout area appears iff COMPLETED; the deposit line iff AWAITING_PAYMENT with a truthy depositAmount or room rent, so a card without a room needs the deposit. |
| ProviderDashboard.ServerCardSections | src/main/resources/static/js/provider-dashboard.js:178-217 | For server statuses: respond iff PENDING_REQUEST; payout area iff COMPLETED; deadlines only in their statuses. |
| ProviderDashboard.PayoutAreaFor | src/main/resources/static/js/provider-dashboard.js:293-308 | Waiting iff REQUESTED, the paid chip iff PAID, the request button iff the lookup failed or holds any other status. |
| ProviderDashboard.PayoutAreaOnServer | src/main/resources/static/js/provider-dashboard.js:293-308 | Each server payout status gets its area; a failed lookup gets the button. |
| ProviderDashboard.ProviderPage.constructor | src/main/resources/static/js/provider-dashboard.js:253-257 | No payout areas; the modal is hidden with empty fields. |
| ProviderDashboard.ProviderPage.UpdatePayoutArea | src/main/resources/static/js/provider-dashboard.js:293-308 | Sets an existing booking's area from the lookup; otherwise nothing changes. |
| ProviderDashboard.ProviderPage.LoadBookingRequests | src/main/resources/static/js/provider-dashboard.js:196-244 | Rendering replaces every area by an empty one per COMPLETED card, and the loop then fills each from its lookup: the areas become CompletedAreas. |
| ProviderDashboard.CompletedAreasHas | src/main/resources/static/js/provider-dashboard.js:238-244 | Every COMPLETED card has an area showing its lookup's answer. |
| ProviderDashboard.CompletedAreasOnly | src/main/resources/static/js/provider-dashboard.js:196-200 | Only COMPLETED cards have an area. |
| ProviderDashboard.ProviderPage.OpenPayoutModal | src/main/resources/static/js/provider-dashboard.js:253-257 | Fills the booking id and room code (empty when falsy) and shows the modal. |
| ProviderDashboard.ProviderPage.SubmitPayoutRequest | src/main/resources/static/js/provider-dashboard.js:259-290 | Refused iff the booking id is missing or the trimmed account is empty; otherwise sends the trimmed fields. |
| ProviderDashboard.ProviderPage.SubmitAnswered | src/main/resources/static/js/provider-dashboard.js:275-282 | Success hides the modal and shows waiting; failure changes nothing. |
| ProviderDashboard.SubmitRefusedWhenBlank | src/main/resources/static/js/provider-dashboard.js:261-266 | Refused iff no booking id or an all-whitespace account. |
| ProviderDashboard.OptimisticAreaAgrees | src/main/resources/static/js/provider-dashboard.js:280-282 | The optimistic waiting area equals what a reload shows for the REQUESTED payout. |
| AdminDashboard.DeleteControlFor | src/main/resources/static/js/admin-dashboard.js:81-100 | The locked control iff the role is exactly "ADMIN". |
| AdminDashboard.WithRole | src/main/resources/static/js/admin-dashboard.js:22-24 | Keeps exactly the users of that role. |
| AdminDashboard.WithRoleAppend | src/main/resources/static/js/admin-dashboard.js:22-24 | The filter distributes over concatenation, so it keeps the users' order and repeats. |
| AdminDashboard.WithRoleSingle | src/main/resources/static/js/admin-dashboard.js:22-24 | A single user is kept iff its role is strictly that role. |
| AdminDashboard.LockedAdminNeverRendered | src/main/resources/static/js/admin-dashboard.js:22-24 | The rendered lists hold only renters and providers, so every rendered user gets a delete button; the locked control belongs to ADMIN alone. |
| AdminDashboard.BadgeClass | src/main/resources/static/js/admin-dashboard.js:140-153 | A falsy status gets slate; otherwise each colour is shown for exactly the statuses whose upper case it lists. |
| AdminDashboard.BadgeIgnoresCase | src/main/resources/static/js/admin-dashboard.js:140-153 | The badge ignores letter case. |
| AdminDashboard.BadgeAgreesWithRenterPage | src/main/resources/static/js/admin-dashboard.js:140-153 | For every server status the badge is the renter page's. |
| AdminDashboard.RoomCode | src/main/resources/static/js/admin-dashboard.js:154-156 | Never empty; "—" with no room or with no code field and no id; otherwise the shared chain, whatever its last resort. |
| AdminDashboard.RoomCodeAgreesWithRenterPage | src/main/resources/static/js/admin-dashboard.js:154-156 | Agrees with the renter page except at the last resort ("—" against "ID#—"). |
| AdminDashboard.Deposit | src/main/resources/static/js/admin-dashboard.js:177 | Math.round(rent·0.25) for integer rent: the d with 4d − 2 ≤ rent < 4d + 2; 0 without rent. |
| AdminDashboard.DepositZero | src/main/resources/static/js/admin-dashboard.js:177 | The deposit is 0 iff no rent or rent in −2..1. |
| AdminDashboard.DepositLinkFor | src/main/resources/static/js/admin-dashboard.js:207-212 | The "View 25%" link iff the card status is AWAITING_PAYMENT, carrying the id and deposit. |
| AdminDashboard.DepositLinkOnServer | src/main/resources/static/js/admin-dashboard.js:207-212 | For server statuses, the link iff AWAITING_PAYMENT. |
| AdminDashboard.FollowDepositLink | src/main/resources/static/js/payment.js:12-23 | Following the link shows the payment form iff the booking id is non-zero and the deposit is non-zero. |

## Left out

- Email delivery (`EmailService` and every send) is external I/O whose failures the source swallows; no operation's outcome depends on it.
- Persistence, transactions and the pessimistic lock are not modelled. The store is in memory and one operation runs at a time.
- The clock (`Instant.now()`, `new Date()`, `Date.now()`) and the cron triggers are not modelled; `now` is a parameter in milliseconds. Time zones in `ts` are not modelled: local date-times are taken as milliseconds. Each operation reads the clock once in the model: `BookingService.java:58` and `:60` read it twice (`new Date()`, then `Instant.now()`) and `PaymentService.java:98`, `:104` and `:105` three times, so the deadlines there fall a few milliseconds after the stored timestamp plus the window; `Escrow.DueAfterThreeDays` is exact only under that single `now`.
- RenterDashboard.CancelShown: a truthy non-string status (the model's `JNum`) is coerced with String and answered, where `renter-dashboard.js:254` calls `.toUpperCase()` on it, which throws and leaves the list at "Failed to load requests."; the server sends only enum names or null.
- Client.CardStatus: the same String coercion of a truthy non-string status, where `renter-dashboard.js:254` and `admin-dashboard.js:171` would throw.
- RenterDashboard.DecisionButtonsShown: a truthy non-string decision is coerced with String (through `RenterDashboard.CardDecision`), where `renter-dashboard.js:416` would throw; the server sends only enum names or null.
- AdminDashboard.BadgeClass: a truthy non-string status is coerced with String, where `admin-dashboard.js:141` would throw.
- AdminDashboard.DepositLinkFor: a truthy non-string status is coerced with String, where `admin-dashboard.js:171` would throw.
- Random code draws and captcha operands are parameters, and so is the password encoder (and its matcher).
- PaymentForm.PaymentPage.Init: the booking id and amount are integers, while `Number(...)` on the query string accepts fractions; every link into the page passes a `Math.round` result, so nothing the site produces is lost.
- Escrow.EscrowStore.PayEscrow: the `double` amount is a Dafny `real`, without rounding.
- AdminDashboard.Deposit: `Math.round(rent * 0.25)` is modelled for integer rent only; the renter and provider pages' deposit lines (the same expression) are not modelled.
- Client.MillisOf: Firestore `{seconds, nanoseconds}` objects are not modelled, and `Date.parse` is a parameter.
- Upper and lower case are ASCII only. `Truncate` counts characters, not UTF-16 code units.
- Sorting.SortBy: `List.sort` and `Array.prototype.sort` are modelled by a stable insertion sort on sequences. The in-place update of `items` is not modelled.
- The provider list's newest-first sort is not modelled: its comparator can return NaN.
- Null emails, codes and passwords in the account tables are not modelled; keys are strings.
- Accounts.AuthController.Register: an `id` in the request body is not modelled; the row always gets the next id, while `save` with the id of an existing row would overwrite that row.
- Accounts.AdminAccessController.RegisterAdmin: an `id` in the request body is not modelled, for the same reason.
- Accounts.AuthService.Register: an `id` in the argument is not modelled, for the same reason.
- Java `long` and `int` overflow is not modelled: ids and times are unbounded integers.
- DOM rendering, `fetch`, timers, `localStorage` and page reloads are not modelled. Rendering-only helpers are left out too: decision chips, window text, payout and status badges outside `badgeClass`, the method help, and the delete and reload buttons.
- The controllers that only forward to these services are not modelled, nor the other page scripts, the chatbot, captcha verification, room CRUD or support tickets.
