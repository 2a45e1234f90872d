# Investment platform ledger, profit scheduler and client rules — a Dafny model

The system is a small investment platform. Users register and wait for an
administrator's approval. After logging in, they deposit money by declaring a
payment, which an administrator approves or rejects. They buy investment plans
from their available balance and ask for withdrawals. A scheduler pays each
active investment one profit cycle every six hours and returns the principal on
the final cycle. A React client guards its routes by the signed-in user's role,
keeps the session token in the browser's storage, and shows the transaction
history with a type filter.

The project models:

- **Backend handlers** (`backend/server.py`). Each handler is a pure transition
  `Db -> Response(db', reply)` in modules `Access`, `Ledger` and `Listing`.
  Class `Backend.Server` holds the same collections as mutable fields. Its
  methods perform each handler's reads, checks and writes in the handler's own
  order. Each method's contract ties the new state and the reply to the pure
  transition, and the properties are proved about the transitions.
- **Profit tick** (`backend/scheduler.py`). `Scheduler.Tick` specifies one run
  of `distribute_profits`. `Backend.Server.DistributeProfits` is its loop,
  proved equal to `Tick`.
- **Route guard** (`frontend/src/App.js`). These are pure functions in module
  `Routes`.
- **Session** (`frontend/src/contexts/AuthContext.js`, with the 401 handler of
  `frontend/src/lib/api.js`). Class `Session.AuthProvider` has fields `user`,
  `loading`, `isAdmin`, a storage map and the browser location.
- **History page** (`frontend/src/pages/History.js`). Module `History` holds
  the filter, labels and colours as functions, and class `HistoryPage` holds the
  page state.

**Data model.**

- **Collections.** Every collection (users, plans, investments, transactions)
  is a `seq` of documents in insertion order. `find_one` and `update_one` act
  on the first document that matches (`Models.FirstMatch`).
- **Why not maps.** Lookups are by first match, and two documents can share an
  id. For example, profit transactions get the stamped id
  `txn_<user>_<seconds>`, and two payments in the same second collide. A map
  keyed by id would hide both facts.
- **Amounts** are `real`, so the profit formula `amount/200*40` is exact.
- **Time** is an integer number of hours. Python's `//` is modelled as floor
  division.
- **Status enum.** The transaction status has a fifth value, `Processing`. The
  withdrawal handlers store it, though the declared enumeration in
  `backend/models.py` lists only four values.
- **Values from outside.** Fresh ids (uuid4), the clock, password hashing and
  verification, token decoding and referral-code generation are parameters of
  the operations.

## Model

| member | source | states |
|---|---|---|
| Models.FirstMatch | backend/server.py:50 | the first matching index: it matches, nothing before it matches, and None exactly when nothing matches |
| Models.Keep | frontend/src/pages/History.js:49 | every kept element passes the test, and the result is no longer than the input |
| Models.KeepMembers | frontend/src/pages/History.js:49 | an element is kept iff it is in the input and passes the test |
| Models.KeepSubsequence | frontend/src/pages/History.js:49 | filtering keeps the input's order (the result is a subsequence) |
| Models.KeepIdempotent | frontend/src/pages/History.js:49 | filtering twice by the same test equals filtering once |
| Models.KeepConjunction | backend/server.py:654-658 | a query with two equality conditions equals applying one filter after the other |
| Models.FloorDiv | backend/server.py:286 | Python floor division: `q*b <= a < q*b + b` for b > 0 (and mirrored for b < 0) |
| Access.StripBearerKeeps | backend/server.py:44 | replacing "Bearer " leaves a string without occurrences unchanged |
| Access.BearerHeader | backend/server.py:44 | the header "Bearer t" yields t when t contains no "Bearer " |
| Access.StripBearer | backend/server.py:44 | `replace("Bearer ", "")`: the result is never longer than the header |
| Access.KeepFirst | backend/server.py:44 | a character that does not begin "Bearer " is kept, and the scan moves on one character |
| Access.DropPrefix | backend/server.py:44 | a leading "Bearer " is removed, and the scan resumes after it |
| Access.StripBearerNoRescan | backend/server.py:44 | the output is not rescanned: "Be" + "Bearer " + t becomes "Be" + t for any t without an occurrence |
| Access.NewOccurrenceStays | backend/server.py:44 | "BeBearer arer " becomes "Bearer ", an occurrence formed by the removal and kept |
| Access.CurrentUser | backend/server.py:39-56 | 401 "no token" iff the header is absent or empty; success iff the stripped token decodes and its user_id is a stored user's id, which is the user returned; every failure is a 401 |
| Access.AdminUser | backend/server.py:58-62 | success iff the caller is authenticated and has the admin flag, and then it is the same user as Access.CurrentUser's; otherwise the 403 or Access.CurrentUser's 401 |
| Access.UserEndpoint | backend/server.py:230 | `Depends(get_current_user)`: the handler runs for the token's user_id exactly when authentication succeeds; otherwise a 401 with nothing changed |
| Access.AdminEndpoint | backend/server.py:531 | `Depends(get_admin_user)`: the handler runs for the admin exactly when admin authentication succeeds; otherwise a 401 or 403 with nothing changed |
| Access.NonAdminRefused | backend/server.py:58-62 | any admin endpoint answers 403 to a signed-in non-admin and changes nothing |
| Access.UnauthenticatedRefused | backend/server.py:39-56 | without a usable token, user and admin endpoints answer 401 and change nothing |
| Access.Register | backend/server.py:67-112 | an error leaves the database unchanged; a success replies with the new id |
| Access.RegisterOutcome | backend/server.py:71-101 | a duplicate email wins over a duplicate username; a success appends one pending, non-admin user with all six balances 0 |
| Access.RegisterKeepsAccountsUnique | backend/server.py:71-78 | registration keeps emails and usernames unique |
| Access.Login | backend/server.py:115-147 | success iff the email is found, the password verifies and the status is active; the claims carry the user's id and email |
| Access.LoginStatusCodes | backend/server.py:118-129 | 401 exactly for an unknown email or a bad password; else 403 exactly for a pending, suspended or rejected account |
| Access.AdminLogin | backend/server.py:150-176 | success iff the password verifies and the admin flag is set; the status is not checked |
| Access.UpdateProfile | backend/server.py:230-248 | the 500 occurs iff the update is non-empty and its email or username clashes with another user under the unique index; a failure changes nothing |
| Access.UpdateProfileWrites | backend/server.py:234-243 | on success, every field given in the update is stored and returned, and every other field of the caller is as before |
| Access.UpdateProfileScope | backend/server.py:233-241 | only the caller's document changes; never its balances, admin flag or id; account uniqueness is kept |
| Access.ProfileCanReactivate | backend/server.py:233-239 | a caller can set its own status to active |
| Access.ApproveUser | backend/server.py:530-553 | 404 iff the id is unknown, with nothing changed; on success only that user changes: status active and approved_at = updated_at = now, every other field and collection as before |
| Access.RejectUser | backend/server.py:556-579 | 404 iff the id is unknown, with nothing changed; on success only that user changes: status rejected and rejected_at = updated_at = now, every other field and collection as before |
| Access.RegistrationLifecycle | backend/server.py:67-147 | a newly registered user gets 403 at login until approved, and logs in after approval |
| Access.RegisteredFound | backend/server.py:101 | the inserted user is last, and lookup by email and by id both reach it |
| Access.ApprovedFound | backend/server.py:536-545 | approval keeps the user reachable by email, with status active |
| Ledger.IncUser | backend/server.py:315-323 | `$inc` keeps the number of users |
| Ledger.IncUserKeepsIds | backend/server.py:315-323 | `$inc` keeps every id lookup |
| Ledger.IncUserAt | backend/server.py:315-323 | `$inc` changes the balances of the matched user only |
| Ledger.IncUserTwice | backend/scheduler.py:29-62 | two `$inc` updates of one user equal one `$inc` of their sum |
| Ledger.ProfitPerCycle | backend/server.py:285 | `amount/200*40` is amount/5 |
| Ledger.CreateInvestment | backend/server.py:265-344 | every error leaves the database unchanged |
| Ledger.CreateInvestmentErrors | backend/server.py:269-286 | checks run in order: unknown plan 404, amount out of range 400, insufficient available balance 400; success iff all pass and the interval is non-zero |
| Ledger.CreateInvestmentEffect | backend/server.py:312-323 | available drops by amount and total_invested rises by amount for the buyer only; the investment is appended |
| Ledger.CreateInvestmentOpens | backend/server.py:285-310 | the new investment is the buyer's and active with 0 cycles done; total_cycles = lock // interval; total_profit = amount/200*40 times total_cycles |
| Ledger.CreateInvestmentRecords | backend/server.py:326-336 | one completed "investment" transaction for the amount is appended; plans and settings are unchanged |
| Ledger.CreateInvestmentConserves | backend/server.py:315-323 | each user's available + invested total is unchanged |
| Ledger.CreateDeposit | backend/server.py:361-385 | exactly one pending deposit with the amount is appended, and no balance changes |
| Ledger.CreateWithdrawal | backend/server.py:388-452 | every error leaves the database unchanged |
| Ledger.CreateWithdrawalOutcome | backend/server.py:396-411 | checks run in order: below the minimum, over the available balance, then any active investment; success iff all pass |
| Ledger.CreateWithdrawalEffect | backend/server.py:413-439 | brl_balance and available drop by the amount for the caller only; one withdrawal in status processing is recorded |
| Ledger.ApproveTransaction | backend/server.py:668-712 | an error changes nothing; investments and plans never change |
| Ledger.ApproveTransactionOutcome | backend/server.py:671-705 | 404 for an unknown id; 400 iff the status is approved or completed; a deposit becomes approved and credits brl and available; other types become completed with no balance change |
| Ledger.RejectTransaction | backend/server.py:715-757 | an error changes nothing |
| Ledger.RejectTransactionOutcome | backend/server.py:718-750 | 400 iff the status is approved, rejected or completed; the status becomes rejected; notes become the reason or stay as they were; processed_by is the admin; a withdrawal refunds its amount to the owner's brl_balance and available; a non-withdrawal changes no balance |
| Ledger.SettableStatus | backend/server.py:767-772 | accepts exactly processing, pending and completed |
| Ledger.UpdateWithdrawalStatus | backend/server.py:760-790 | an error changes nothing |
| Ledger.UpdateWithdrawalStatusOutcome | backend/server.py:763-780 | 404 for an unknown id; 400 for a non-withdrawal; success iff a withdrawal and an allowed status, which is then stored |
| Ledger.AdjustBalance | backend/server.py:604-641 | an error changes nothing; investments never change |
| Ledger.AdjustBalanceOutcome | backend/server.py:607-635 | 404 for an unknown user, then 400 for an unknown type; "add", "subtract" and "set" change only the named field of that user; one completed admin_adjustment is recorded |
| Ledger.WithdrawThenRejectRestores | backend/server.py:413-439 | a withdrawal then its rejection restores every user's balances exactly |
| Ledger.DepositLifecycle | backend/server.py:361-385 | a deposit changes no balance until approval, which credits brl and available; a rejection changes no balance |
| Ledger.RejectedDepositCanBeApproved | backend/server.py:675-676 | a rejected deposit can still be approved, and is then credited |
| Ledger.SecondRefund | backend/server.py:767-780 | a rejected withdrawal can be set back to pending and rejected again, refunding twice |
| Ledger.AddThenSubtractRestores | backend/server.py:612-615 | "add" then "subtract" of one amount on one field restores the balances |
| Listing.Insert | backend/server.py:518 | the result is a permutation of the element plus the input |
| Listing.SortNewestFirst | backend/server.py:518 | the sort yields a permutation of its input |
| Listing.InsertKeepsOrder | backend/server.py:518 | insertion keeps newest-first order |
| Listing.SortOrders | backend/server.py:518 | the sorted result is newest first |
| Listing.ListUsers | backend/server.py:512-527 | the listing is a permutation of the users that match the status filter |
| Listing.ListUsersExact | backend/server.py:515-518 | a user is listed iff it is stored and matches the filter (any user when none is given); the list is newest first |
| Listing.ListAllUsers | backend/server.py:515-518 | with no status, or an empty one, every user is listed |
| Listing.UnknownStatusListsNobody | backend/server.py:516-518 | a status string that no status has lists nobody |
| Listing.ListTransactions | backend/server.py:645-665 | the listing is a permutation of the matching transactions |
| Listing.ListTransactionsExact | backend/server.py:654-659 | a transaction is listed iff it is stored and matches each filter that is given; the list is newest first |
| Listing.TransactionFiltersCompose | backend/server.py:654-658 | filtering by type and status equals filtering by type, then by status |
| Scheduler.Payout | backend/scheduler.py:27-62 | a payment's increment: profit_per_cycle to returns and equally to brl and available; on the final cycle the amount too, taken out of total_invested; otherwise invested is untouched |
| Scheduler.Paid | backend/scheduler.py:41-102 | the stored investment after a payment keeps id, owner, plan, amount, total_cycles and profit_per_cycle and gets last_profit_at = now; a final payment sets completed with cycles = total, any other adds one cycle below the total and moves next_profit_at 6 hours on |
| Scheduler.Due | backend/scheduler.py:13-16 | the due list is no longer than the stored investments |
| Scheduler.DueMembers | backend/scheduler.py:13-16 | an investment is processed iff it is active and its next_profit_at is not in the future |
| Scheduler.MarkPaid | backend/scheduler.py:41-50 | updating one investment keeps the collection's length |
| Scheduler.PayAll | backend/scheduler.py:20-62 | paying keeps the number of users |
| Scheduler.MarkAll | backend/scheduler.py:20-102 | marking keeps the number of investments |
| Scheduler.ProfitRecords | backend/scheduler.py:64-115 | one transaction per processed investment |
| Scheduler.Tick | backend/scheduler.py:7-117 | user and investment counts are kept; plans and settings are unchanged |
| Scheduler.PaymentCredits | backend/scheduler.py:27-89 | on a non-final cycle, brl, available and returns each rise by profit_per_cycle; on the final cycle, brl and available gain the amount too and invested loses it |
| Scheduler.PaymentAdvances | backend/scheduler.py:41-102 | a non-final cycle adds one cycle, moves next_profit_at 6 hours ahead and stays active; the final cycle sets completed and cycles = total |
| Scheduler.CreditedParts | backend/scheduler.py:29-89 | what a tick pays a user: profit to brl, available and returns; principal to brl and available, out of invested |
| Scheduler.PayAllPays | backend/scheduler.py:20-62 | paying a due list adds the user's summed payouts to that user |
| Scheduler.TickCredits | backend/scheduler.py:20-89 | a tick adds to each user the summed payouts of that user's due investments |
| Scheduler.NothingDueNothingCredited | backend/scheduler.py:13-20 | a user with no due investment is credited nothing |
| Scheduler.CreditedNone | backend/scheduler.py:13-62 | a user owning none of the due investments is credited nothing |
| Scheduler.TickSparesIdleUsers | backend/scheduler.py:13-20 | a user with no due investment keeps every balance |
| Scheduler.ProfitRecordsAt | backend/scheduler.py:64-115 | the j-th new transaction is the profit record of the j-th due investment |
| Scheduler.TickRecords | backend/scheduler.py:64-115 | the tick appends exactly one completed profit transaction per due investment, with profit_per_cycle as its amount |
| Scheduler.MarkAllKeepsIds | backend/scheduler.py:41-102 | marking keeps every investment's id, owner and total_cycles, and never makes an investment active |
| Scheduler.MarkAllSpares | backend/scheduler.py:13-20 | with distinct ids, an investment outside the due list is untouched |
| Scheduler.TickSparesIdleInvestments | backend/scheduler.py:13-20 | a tick leaves every investment that is not due unchanged |
| Scheduler.MarkPaidKeepsCycles | backend/scheduler.py:27-47 | completed_cycles never exceeds total_cycles after a payment |
| Scheduler.MarkAllKeepsCycles | backend/scheduler.py:27-97 | the same bound holds after a whole run of payments |
| Scheduler.TickKeepsCycles | backend/scheduler.py:27-97 | a tick keeps completed_cycles <= total_cycles for all investments |
| Scheduler.CreateInvestmentKeepsCycles | backend/server.py:286-304 | a purchase keeps the same bound |
| Scheduler.RunTicks | backend/scheduler.py:7-117 | repeated ticks keep the collection sizes |
| Scheduler.DueNone | backend/scheduler.py:13-16 | with no active investment nothing is due |
| Scheduler.TickSingle | backend/scheduler.py:20-115 | a tick with one due investment pays it alone |
| Scheduler.SolePayment | backend/scheduler.py:29-62 | that single payment credits its owner's balances with Payout |
| Scheduler.RemainingLast | backend/scheduler.py:27-62 | on the last cycle, the remaining payout is the final payment |
| Scheduler.RemainingStep | backend/scheduler.py:79-102 | a non-final payment plus the rest after it equals the remaining payout |
| Scheduler.RunToCompletion | backend/scheduler.py:20-115 | when it is the only active investment: total - completed spaced ticks credit the owner exactly the remaining profit and the principal, close the investment, and add one transaction each |
| Scheduler.LifecycleArithmetic | backend/server.py:315-323 | the purchase debit plus the maturity credit yield the matured balances |
| Scheduler.BuysSole | backend/server.py:265-336 | a purchase when no investment at all is active produces the single-investment state |
| Scheduler.CompletionCredits | backend/scheduler.py:20-62 | the owner's part of a run to completion |
| Scheduler.PurchaseMatures | backend/scheduler.py:20-62 | when the purchase is the only active investment: after total_cycles ticks the buyer has the matured balances |
| Scheduler.PurchaseCloses | backend/scheduler.py:41-75 | when the purchase is the only active investment: those ticks close it, with one transaction each |
| Scheduler.InvestmentLifecycle | backend/scheduler.py:27-62 | when no other investment is active: buy, then total_cycles ticks: returns and available rise by total_profit, brl rises by amount + total_profit, invested is back to its old value, the investment is completed, and exactly 1 + total_cycles transactions are added |
| Scheduler.IdCountZero | backend/scheduler.py:41-47 | an id counted zero times occurs nowhere in the list |
| Scheduler.FindUniqueInvestment | backend/scheduler.py:41-47 | with unique ids, the lookup by an investment's id finds that investment |
| Scheduler.MarkAllKeepsUnique | backend/scheduler.py:41-102 | marking keeps investment ids unique |
| Scheduler.MarkAllPaysOnce | backend/scheduler.py:41-102 | an investment listed once in the due list is paid once; one not listed is unchanged |
| Scheduler.IdCountAppend | backend/scheduler.py:13-16 | appending one investment adds one to its id's count and nothing to others |
| Scheduler.DueCountsNone | backend/scheduler.py:13-16 | an id absent from the collection is absent from the due list |
| Scheduler.DueCountsOnce | backend/scheduler.py:13-16 | with unique ids, a due investment appears exactly once in the due list |
| Scheduler.CreditedOnly | backend/scheduler.py:29-62 | a user whose only due investment is x is credited exactly Payout(x) |
| Scheduler.TickAmongOthers | backend/scheduler.py:20-115 | among any other investments: a tick pays the owner's only active investment once, credits the owner Payout, keeps ids unique and keeps it the owner's only active one |
| Scheduler.RunAmongOthers | backend/scheduler.py:20-115 | among any other investments: the remaining spaced ticks credit the owner exactly Remaining and close the owner's only active investment |
| Scheduler.BuysAmongOthers | backend/server.py:265-336 | a purchase by a user with no active investment, whatever other users hold, produces the state that RunAmongOthers starts from |
| Scheduler.MaturesAmongOthers | backend/scheduler.py:20-115 | after that purchase and total_cycles ticks, the buyer has the matured balances and the investment is completed |
| Scheduler.InvestmentLifecycleAmongOthers | backend/scheduler.py:27-62 | buy with no active investment of one's own, whatever other users hold, then total_cycles ticks: the buyer has the matured balances (brl + amount + total_profit, available and returns + total_profit, invested as before), the investment is completed, and at least 1 + total_cycles transactions are added |
| Scheduler.ZeroCyclePaysOnce | backend/scheduler.py:27-62 | an investment with total_cycles = 0 (so total_profit = 0) still credits one cycle of profit at its first payment, which closes it with completed_cycles = 0 |
| Backend.Server.constructor | backend/server.py:22-25 | the server starts from the given database |
| Backend.Server.Register | backend/server.py:67-112 | new state and reply are those of Access.Register |
| Backend.Server.UpdateProfile | backend/server.py:230-248 | new state and reply are those of Access.UpdateProfile |
| Backend.Server.ApproveUser | backend/server.py:530-553 | new state and reply are those of Access.ApproveUser |
| Backend.Server.RejectUser | backend/server.py:556-579 | new state and reply are those of Access.RejectUser |
| Backend.Server.CreateInvestment | backend/server.py:265-344 | new state and reply are those of Ledger.CreateInvestment |
| Backend.Server.CreateDeposit | backend/server.py:361-385 | new state and reply are those of Ledger.CreateDeposit |
| Backend.Server.CreateWithdrawal | backend/server.py:388-452 | new state and reply are those of Ledger.CreateWithdrawal |
| Backend.Server.ApproveTransaction | backend/server.py:668-712 | new state and reply are those of Ledger.ApproveTransaction |
| Backend.Server.RejectTransaction | backend/server.py:715-757 | new state and reply are those of Ledger.RejectTransaction |
| Backend.Server.UpdateWithdrawalStatus | backend/server.py:760-790 | new state and reply are those of Ledger.UpdateWithdrawalStatus |
| Backend.Server.AdjustBalance | backend/server.py:604-641 | new state and reply are those of Ledger.AdjustBalance |
| Backend.Server.Pay | backend/scheduler.py:21-115 | one loop pass: the owner is credited Payout, the investment is marked paid, and one profit record is appended |
| Backend.Server.DistributeProfits | backend/scheduler.py:7-117 | the loop's final state is Scheduler.Tick of the initial state |
| Backend.PaymentSteps | backend/scheduler.py:29-62 | the final cycle's two `$inc` updates equal one `$inc` of Payout |
| Backend.StepFolds | backend/scheduler.py:20 | one more loop pass extends each fold by one investment |
| Routes.ProtectedRoute | frontend/src/App.js:25-45 | while loading, the spinner; a shown page is the route's own page |
| Routes.GuardOutcomes | frontend/src/App.js:28-44 | spinner iff loading; /login iff loaded and signed out; / iff a signed-in non-admin on an admin-only route; the children otherwise |
| Routes.RouteOf | frontend/src/App.js:51-71 | the three public, seven user and four admin-only paths, compared after normalization |
| Routes.RouteTable | frontend/src/App.js:53-70 | the route table on a normalized path: exactly the three public paths are public, the seven user paths guarded, and the four admin paths guarded and adminOnly |
| Routes.LowerAll | frontend/src/App.js:51-71 | case folding keeps the length and lowers each ASCII letter |
| Routes.TrimSlashes | frontend/src/App.js:51-71 | trailing slashes are dropped, keeping a lone "/"; the result is a prefix of the path |
| Routes.PublicRoute | frontend/src/App.js:53-55 | signed out shows the form; signed in is a redirect; never the spinner |
| Routes.PublicRedirects | frontend/src/App.js:53-55 | a signed-in user at /login goes to /admin if admin, else to /; /register goes to /; /admin/login goes to /admin |
| Routes.Render | frontend/src/App.js:47-73 | nothing is rendered exactly for paths that match no route after normalization |
| Routes.CaseAndSlashIgnored | frontend/src/App.js:67 | "/Admin/" renders what "/admin" renders |
| Routes.RedirectTargets | frontend/src/App.js:53-55 | the redirect targets and public paths are already in normal form |
| Routes.AdminOnlyPaths | frontend/src/App.js:67-70 | a path is adminOnly iff its normal form is /admin, /admin/users, /admin/transactions or /admin/settings |
| Routes.AdminPagesNeedAdmin | frontend/src/App.js:40-42 | an admin page is shown only to a signed-in admin once loading is done |
| Routes.UserPagesForEveryone | frontend/src/App.js:44 | a signed-in user, admin or not, sees every non-admin guarded page |
| Routes.RedirectsSettle | frontend/src/App.js:36-55 | once loaded, every redirect reaches a shown page within two hops |
| Routes.AdminLoginBouncesTwice | frontend/src/App.js:55 | a signed-in non-admin at /admin/login is sent to /admin, then to / |
| Session.Cleared | frontend/src/contexts/AuthContext.js:47-48 | removes the token and user keys and keeps every other key |
| Session.Stored | frontend/src/contexts/AuthContext.js:35-36 | sets the token and user keys and keeps every other key |
| Session.ClearedTwice | frontend/src/contexts/AuthContext.js:23-24 | clearing is idempotent and leaves no token |
| Session.LoginThenLogout | frontend/src/contexts/AuthContext.js:35-48 | login then logout leaves the storage as logout alone would |
| Session.StoredToken | frontend/src/contexts/AuthContext.js:16-17 | after a login, checkAuth sends a request iff the token is non-empty |
| Session.AuthProvider.View | frontend/src/App.js:26 | the guard sees "signed in" iff user is set |
| Session.AuthProvider.constructor | frontend/src/contexts/AuthContext.js:7-9 | user null, loading true, isAdmin false |
| Session.AuthProvider.OnFailure | frontend/src/lib/api.js:24-35 | a 401 clears both keys and loads /login afresh: the session restarts signed out (user null, isAdmin false) and, with no token left, loading ends false; any other failure changes nothing |
| Session.SignedOutAtLogin | frontend/src/App.js:53 | the fresh, loaded, signed-out session at /login is shown the login form |
| Session.AuthProvider.CheckAuth | frontend/src/contexts/AuthContext.js:15-28 | it requests iff a token is stored; success sets user and isAdmin; failure clears both keys; a 401 also signs out and goes to /login through the interceptor's reload; any other failure keeps user and isAdmin; loading always ends false |
| Session.AuthProvider.Login | frontend/src/contexts/AuthContext.js:30-40 | uses the admin endpoint iff admin; success stores token and user and sets user and isAdmin = is_admin \|\| false; a failure goes through the interceptor, so a 401 ends signed out at /login with loading false, and any other failure keeps user, isAdmin and loading |
| Session.AuthProvider.Logout | frontend/src/contexts/AuthContext.js:46-52 | both keys are removed, user is null, isAdmin is false, location is /login |
| History.Filtered | frontend/src/pages/History.js:47-49 | the shown list is no longer than the loaded one, and "all" shows the loaded list itself |
| History.FilteredExact | frontend/src/pages/History.js:47-49 | under a type filter, a transaction is shown iff it is loaded and has that type |
| History.FilteredCounts | frontend/src/pages/History.js:47-49 | under a type filter, each transaction is shown as many times as it was loaded if it has that type, else not at all |
| Models.KeepCounts | frontend/src/pages/History.js:49 | filtering keeps each passing element's multiplicity and drops every other |
| History.FilteredSubsequence | frontend/src/pages/History.js:47-49 | the shown list is a subsequence of the loaded list |
| History.FilteredIdempotent | frontend/src/pages/History.js:47-49 | filtering is idempotent |
| History.AllIsNoType | frontend/src/pages/History.js:47 | "all" is not a type name |
| History.TypeLabelCases | frontend/src/pages/History.js:25-35 | specifies History.TypeLabel: the six types get their fixed labels; any other string is returned unchanged |
| History.LabelsDistinct | frontend/src/pages/History.js:26-33 | distinct types get distinct labels |
| History.LabelCollision | frontend/src/pages/History.js:34 | the unknown type "Saque" is shown exactly like a withdrawal |
| History.StatusColorCases | frontend/src/pages/History.js:37-45 | specifies History.StatusColor: four statuses have their own class; everything else, including processing, is gray |
| History.SignAgreesWithColor | frontend/src/pages/History.js:153-160 | relates History.AmountSign and History.AmountColor: "+" iff green; red iff withdrawal, and red amounts carry "-" |
| History.SignByType | frontend/src/pages/History.js:153-160 | specifies History.AmountSign and History.AmountColor per type: deposit, profit and referral_bonus are "+" and green; withdrawal is "-" and red; other types are "-" with no colour |
| History.Render | frontend/src/pages/History.js:51-160 | the spinner while loading; the empty-state text iff nothing is shown; otherwise one row per shown transaction, in order |
| History.HistoryPage.constructor | frontend/src/pages/History.js:6-8 | empty list, loading, filter "all" |
| History.HistoryPage.LoadTransactions | frontend/src/pages/History.js:14-23 | the reply replaces the list, a failure keeps it, and loading ends false |
| History.HistoryPage.SetFilter | frontend/src/pages/History.js:73-113 | only the filter changes |

## Left out

- **HTTP and database plumbing.** FastAPI routing, Mongo I/O, CORS, logging
  and startup are not modelled (backend/server.py:1-36, 872-896). The removal
  of `password` and `_id` from replies is response formatting.
- **The 500 path.** A handler's catch-all `except Exception` (a 500) is modelled
  only where the model can name the cause: a missing settings document, a plan
  with a zero profit interval, or a duplicate referral code or profile field
  under a unique index. Database failures are out of scope.
- **Helpers outside the source files.** `hash_password`, `verify_password`,
  `create_access_token`, `decode_token` and `generate_referral_code` are not
  part of this model. Their results are parameters.
- **Other endpoints.** The dashboards, plan list, the user's own investment and
  transaction lists, referrals, settings read and update, admin `update_user`,
  the admin investment list and `get_current_user_info` are not modelled. They
  only read data or copy fields.
- **Settings defaults.** The defaults of `settings.get(..., default)`
  (backend/server.py:393-397) are not modelled. The settings document is
  either absent or complete.
- **Clock.** `datetime.utcnow()` is one integer `now` per handler call, in
  hours. The second clock read that stamps a profit transaction's id
  (backend/scheduler.py:66, 106) uses the tick's `now`.
- **Scheduler jobs.** `start_scheduler` and its two overlapping jobs
  (backend/scheduler.py:123-150) are not modelled, nor is any interleaving of
  requests. One handler or one tick runs at a time.
- **Tick errors.** The tick's `except` (backend/scheduler.py:120) is not
  modelled. No step of the model can fail mid-loop.
- **Balance field names.** `BalanceAdjustment.balance_type` is one of the six
  balance fields. Any other field name would make Mongo create that field; the
  model does not represent that.
- **Final-cycle update.** Scheduler.Tick applies the final cycle's two `$inc`
  updates of the owner as one update of their sum; Ledger.IncUserTwice and
  Backend.PaymentSteps prove the two forms equal. The server loop performs the
  two updates separately, as the source does.
- **Listing order.** Listing.ListUsers and Listing.ListTransactions fix one
  order for documents with equal `created_at`: collection order. Mongo leaves
  ties unspecified. The contracts state only the newest-first order and the
  contents.
- **Floating point.** Floating-point rounding and all display formatting
  (`:.2f`, `toFixed`, `toLocaleString`) are not modelled.
- **JavaScript lookups.** History.TypeLabel and History.StatusColor look up
  plain maps, so keys inherited from JavaScript's `Object.prototype` (such as
  "constructor") are not modelled.
- **Client requests.** The client's API calls are parameters (a reply per
  request), and `JSON.stringify` is a function parameter. `register` in
  AuthContext only forwards a request and is not modelled.
- **The rest of the client.** Rendering and form state are out of scope. This
  covers the JSX pages and components other than the history table and the
  routes.
- **Backend.Server methods.** They take the caller's id as resolved by
  `Access.CurrentUser`/`Access.AdminUser`. The token check is modelled once, by
  Access.UserEndpoint/Access.AdminEndpoint, not in every method.
- Routes.Render: route matching (Routes.RouteOf) compares paths as the router
  does in two respects: ASCII letters without regard to case, and trailing slashes
  ignored. Percent-decoding, non-ASCII case folding, the basename and the
  router's other matching rules are not modelled.
- Scheduler.InvestmentLifecycle: proved only when no investment at all is
  active before the purchase. That makes the tick pay nobody else, so the
  transaction count is exact. Scheduler.InvestmentLifecycleAmongOthers
  proves the general case, where only the buyer must have no other active
  investment and ids are unique. There the count is a lower bound, because
  the other owners' payouts add transactions too.
- Scheduler.RunToCompletion, Scheduler.PurchaseMatures, Scheduler.PurchaseCloses
  and Scheduler.BuysSole: these are stated for the same sole-active case.
  Their general forms are Scheduler.RunAmongOthers,
  Scheduler.MaturesAmongOthers and Scheduler.BuysAmongOthers.
- Ledger.RejectTransactionOutcome: when there is no reason, the notes are kept
  as stored. The source's `get("notes", "")` would write "" for a document
  with no `notes` key. Every document the model creates has the key, so the
  case does not arise in the model.
- Session.AuthProvider.OnFailure, Session.AuthProvider.CheckAuth: the 401
  navigation is a full page load, modelled by its outcome. The state becomes
  that of a fresh AuthProvider whose checkAuth finds no token. The moment of
  the reload is not modelled, nor whatever the discarded page still runs
  before it unloads (the rest of checkAuth or of the calling page). Memory
  kept outside the provider is not part of this model either.
