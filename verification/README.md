# Confianza trade lifecycle, modelled in Dafny

Confianza is a peer-to-peer crypto/fiat marketplace. A buyer opens a
trade against a seller's offer. The trade then moves through the statuses
`pending → in_progress → payment_sent → completed`, with the side exits
`cancelled` and `disputed`. This project models that lifecycle in
Dafny and proves its properties:

- the state table of the six statuses (`trade-state.ts`);
- the server's status-update handler: its guard sequence, its transition graph and the record it writes (`route.ts`);
- the client's action panel, which decides which buttons a buyer or seller sees and what each click requests;
- the live trade view: realtime record merges, the optimistic status write, and the connection flag;
- the progress indicator;
- the check chain that creates a trade from an offer;
- the input validators, and the inline checks of the sign-up and log-in forms;
- the status badge lookup;
- the database's enums and trade row.

One module per source file:

| file | module | flavour |
|---|---|---|
| `wrappers.dfy` | `Wrappers` | the `Option` type |
| `database.dfy` | `Database` | enums, the trade row, the status vocabulary |
| `trade_state.dfy` | `TradeStateTable` | pure table and accessors |
| `update_status.dfy` | `UpdateStatus` | `Execute` (pure specification) and class `TradeStore` whose `Post` updates the store in place |
| `trade_actions.dfy` | `TradeActions` | pure presenter functions, and class `ActionsPanel` for the click handler's state |
| `live_trade.dfy` | `LiveTrade` | merge functions, and class `LiveTradeView` for the component's state |
| `progress_steps.dfy` | `ProgressSteps` | pure |
| `start_trade.dfy` | `StartTrade` | `Decide` (pure), and class `StartTradeForm` for the handler's state |
| `validations.dfy` | `Validations` | pure; the email regular expression is a backtracking search proved equal to its declarative reading |
| `signup_form.dfy`, `login_form.dfy` | `SignupForm`, `LoginForm` | pure check chains, and classes for the form state |
| `status_badge.dfy` | `StatusBadge` | pure |

The server and the client enforce different rules:

- The server does not check whose turn it is. `userRole` is only logged, and either participant may request any edge of the transition graph. A buyer moving a `pending` trade to `in_progress` is therefore accepted (`UpdateStatus.BuyerMayFundEscrow`). The action panel offers that step only to the seller (src/components/trade/TradeActions.tsx:117-118).
- The server accepts `pending → disputed`, although the state table says a pending trade cannot be disputed (src/lib/trade-state.ts:21; `UpdateStatus.PendingDisputeAccepted`).
- The action panel keeps to the turn order and the table. A request it issues is accepted when two conditions hold: the stored trade is still in the status the panel displays, and storage answers without error (`TradeActions.PresenterRequestsAccepted`). A panel showing a stale status can get a 400. The server accepts strictly more than the panel offers (`TradeActions.ServerAcceptsMoreThanOffered`).

Environment inputs are parameters:

- the session user (`None` when `getUser` fails or returns no user);
- the parsed request body (`None` when JSON parsing throws);
- what storage and the clock answer during one status update (`UpdateStatus.Env`): whether the row read reports an error, whether the update reports an error, and the two clock readings, one for `updated_at` and one for `completed_at`;
- the sign-in result;
- the escrow address, which the source draws at random;
- the id returned by the insert.

## Model

| member | source | states |
|---|---|---|
| Database.StatusName | src/types/database.ts:4 | every status has a non-empty wire name |
| Database.ParseStatus | src/types/database.ts:4 | a parsed string is exactly the name of the status it yields |
| Database.StatusNameRoundTrip | src/types/database.ts:4 | each name parses back to its own status, and only a status's name parses to it |
| Database.StatusNameInjective | src/types/database.ts:4 | distinct statuses have distinct names |
| Database.EnumsAreComplete | src/types/database.ts:3-6 | TradeStatus has exactly six distinct values; OfferStatus and TrustTier have four each |
| Database.RowTypeAllowsSelfTrade | src/types/database.ts:59-71 | the row type admits buyer = seller; nothing in the type keeps them apart |
| TradeStateTable.TableIsTotal | src/lib/trade-state.ts:14-72 | every status has a table entry |
| TradeStateTable.GetTradeState | src/lib/trade-state.ts:14-76 | the entry describes the status it is looked up by; canDispute holds exactly for in_progress and payment_sent; isComplete holds exactly for completed and cancelled; a next status exists exactly for the three non-final, non-disputed statuses; a complete trade cannot be disputed |
| TradeStateTable.GetAvailableActions | src/lib/trade-state.ts:78-81 | returns the buyer's list for the buyer and the seller's list for the seller; empty for cancelled, non-empty otherwise |
| TradeStateTable.CanUserDispute | src/lib/trade-state.ts:83-85 | true exactly for in_progress and payment_sent, and equal to the entry's canDispute |
| TradeStateTable.GetNextStatus | src/lib/trade-state.ts:87-89 | pending→in_progress→payment_sent→completed; None for completed, disputed and cancelled; a successor differs from its status and belongs to a non-complete status |
| TradeStateTable.HappyPathReachesCompleted | src/lib/trade-state.ts:23-43 | three successor steps from pending reach completed, which has no successor |
| UpdateStatus.ValidTransitions | src/app/api/trades/update-status/route.ts:52-59 | a target is listed exactly when it is an edge of the graph; there are no self-loops; the list is empty exactly for the three final statuses; no target is listed twice |
| UpdateStatus.AcceptsTransition | src/app/api/trades/update-status/route.ts:61-62 | the string is accepted exactly when it names a status that the current status has an edge to |
| UpdateStatus.BuildUpdate | src/app/api/trades/update-status/route.ts:75-83 | status and the first clock reading as update time are always written; the second clock reading is written as completion time exactly when the target is completed |
| UpdateStatus.ApplyUpdate | src/app/api/trades/update-status/route.ts:85-90 | the written fields replace the row's; id, parties, offer, amounts, fee, escrow and creation time are kept; completed_at is kept when it is not written |
| UpdateStatus.Execute | src/app/api/trades/update-status/route.ts:7-119 | no user gives 401; every rejection leaves the store unchanged and has code 400, 401, 403, 404 or 500; success happens exactly when every guard passes, the read finds the row without error and the write succeeds; on success only the requested row changes, to the requested status along an edge, with fixed fields kept, updated_at set to the first clock reading, and completed_at set to the second reading exactly when completing |
| UpdateStatus.TradeStore.Post | src/app/api/trades/update-status/route.ts:7-113 | the imperative handler's answer and new store are those of Execute on the old store |
| UpdateStatus.TradeStore.constructor | src/app/api/trades/update-status/route.ts:28-32 | the store starts as the given rows |
| UpdateStatus.MissingFieldsRejected | src/app/api/trades/update-status/route.ts:22-25 | a missing field gives 400 "Missing required fields" with the store unchanged |
| UpdateStatus.UnknownTradeRejected | src/app/api/trades/update-status/route.ts:34-37 | an unknown trade id gives 404 |
| UpdateStatus.ReadFailureRejected | src/app/api/trades/update-status/route.ts:28-37 | a read that reports an error gives 404 even for a stored trade, with the store unchanged |
| UpdateStatus.OutsiderRejected | src/app/api/trades/update-status/route.ts:39-49 | a non-participant gets 403, whatever transition is requested |
| UpdateStatus.InvalidTransitionRejected | src/app/api/trades/update-status/route.ts:61-72 | a participant requesting a non-edge gets 400 |
| UpdateStatus.WriteFailureRejected | src/app/api/trades/update-status/route.ts:92-99 | a failed write after validation gives 500 "Failed to update trade" with the store unchanged |
| UpdateStatus.SameStatusRejected | src/app/api/trades/update-status/route.ts:52-72 | requesting the current status is always rejected |
| UpdateStatus.TerminalStatusesRejectAll | src/app/api/trades/update-status/route.ts:56-58 | completed, disputed and cancelled trades reject every request and keep the store |
| UpdateStatus.CompletionTimeIsItsOwnReading | src/app/api/trades/update-status/route.ts:75-83 | completing a trade writes updated_at from the first clock reading and completed_at from the second |
| UpdateStatus.RoleIsOnlyLogged | src/app/api/trades/update-status/route.ts:101-107 | any two non-empty `userRole` values give the same outcome |
| UpdateStatus.EitherParticipantSameOutcome | src/app/api/trades/update-status/route.ts:40 | the buyer and the seller get the same outcome for the same request |
| UpdateStatus.BuyerMayFundEscrow | src/app/api/trades/update-status/route.ts:53 | the buyer's request pending→in_progress succeeds |
| UpdateStatus.PendingDisputeAccepted | src/app/api/trades/update-status/route.ts:53 | a pending trade can be disputed by the server although the table's canUserDispute(pending) is false |
| UpdateStatus.NextStatusIsAccepted | src/lib/trade-state.ts:87-89 | every happy-path successor is an edge the server accepts |
| UpdateStatus.DisputeEdges | src/app/api/trades/update-status/route.ts:53-55 | the server has a dispute edge exactly where the table allows a dispute, and also from pending |
| UpdateStatus.ExecutePreservesWellFormed | src/app/api/trades/update-status/route.ts:75-90 | one request keeps every row well formed (distinct parties; completed_at present exactly when completed), keeps the set of ids, and changes no other row |
| UpdateStatus.ReplayPreservesWellFormed | src/app/api/trades/update-status/route.ts:7-119 | any sequence of requests keeps the store well formed and keeps every row's fixed fields |
| UpdateStatus.CompletedIsFinal | src/app/api/trades/update-status/route.ts:56 | a completed trade is never changed again by any sequence of requests |
| TradeActions.RoleName | src/components/trade/TradeActions.tsx:49 | the role names sent are non-empty |
| TradeActions.RequestFor | src/components/trade/TradeActions.tsx:46-50 | the posted body names the trade, and its status string parses to the requested status; with a trade id it has every required field |
| TradeActions.CanTakeAction | src/components/trade/TradeActions.tsx:115-126 | the seller acts on pending, the buyer on in_progress, the seller on payment_sent; nobody acts on the other statuses; whoever acts has a next status to request |
| TradeActions.ActionText | src/components/trade/TradeActions.tsx:128-139 | every status and role has a non-empty text |
| TradeActions.GetActionButton | src/components/trade/TradeActions.tsx:91-161 | complete trades show the disabled "Trade Complete" (checked before disputed); disputed trades show the disabled "Awaiting Resolution"; a click handler exists exactly when the role may act, and then it sends the next status, is disabled only when loading or disabled, and reads "Processing..." while loading; every other button is disabled |
| TradeActions.DisputeButton | src/components/trade/TradeActions.tsx:173-181 | shown exactly when the table allows a dispute; it sends disputed |
| TradeActions.IssuableRequests | src/components/trade/TradeActions.tsx:81-89 | every status an enabled button can request is an edge of the server's graph; cancelled is never offered |
| TradeActions.NextStatusAccepted | src/components/trade/TradeActions.tsx:85-89 | the next step the panel requests is an edge of the server's graph |
| TradeActions.ExactlyOneRoleActs | src/components/trade/TradeActions.tsx:115-126 | on each status with a next step exactly one role may act; on the others neither may |
| TradeActions.PresenterRequestsAccepted | src/components/trade/TradeActions.tsx:81-89 | a participant's click on any enabled button, for a stored trade still in the displayed status and with storage answering without error, is accepted by the server, and the trade moves to the requested status |
| TradeActions.ServerAcceptsMoreThanOffered | src/app/api/trades/update-status/route.ts:53 | pending→cancelled and pending→disputed are edges the panel never offers |
| TradeActions.ActionsPanel.constructor | src/components/trade/TradeActions.tsx:23-24 | not loading, no error, nothing sent |
| TradeActions.ActionsPanel.HandleStatusUpdate | src/components/trade/TradeActions.tsx:29-79 | loading goes up and then down; one body is posted; a success passes its status on; a rejection sets the error, falling back to "Failed to update trade status" when the reply has none; a network error sets its message |
| TradeActions.ActionsPanel.HandleNextStep | src/components/trade/TradeActions.tsx:85-89 | when there is a next status: posts it, loading goes up and then down, and the reply sets the error or the notification as in HandleStatusUpdate; otherwise nothing changes |
| TradeActions.ActionsPanel.HandleDispute | src/components/trade/TradeActions.tsx:81-83 | posts disputed; loading goes up and then down; the reply sets the error or the notification as in HandleStatusUpdate |
| LiveTrade.Merge | src/components/trade/LiveTradeInterface.tsx:48-51 | the result's fields are those of both records; every field of the payload overwrites; every other field is kept |
| LiveTrade.WithStatus | src/components/trade/LiveTradeInterface.tsx:77-80 | only `status` changes |
| LiveTrade.ConfirmedOverridesOptimistic | src/components/trade/LiveTradeInterface.tsx:48-51 | a later notification carrying a status overrides the optimistic one |
| LiveTrade.RowRecord | src/components/trade/LiveTradeInterface.tsx:48-51 | a delivered row carries its status name, its parties, and a truthy completed_at exactly when it has a completion time |
| LiveTrade.NextConnected | src/components/trade/LiveTradeInterface.tsx:54-67 | SUBSCRIBED connects, CHANNEL_ERROR disconnects, and any other status leaves the flag |
| LiveTrade.ConnectedIffSubscribedSinceError | src/components/trade/LiveTradeInterface.tsx:26-67 | starting from false, the flag is set exactly when some SUBSCRIBED has been reported with no CHANNEL_ERROR after it |
| LiveTrade.ErrorDisconnects | src/components/trade/LiveTradeInterface.tsx:61-62 | after a CHANNEL_ERROR the view is disconnected, whatever came before |
| LiveTrade.ServerUpdateReconciles | src/components/trade/LiveTradeInterface.tsx:48-51 | after an accepted request, the delivered row makes the client's status the requested one, and shows the completed entry exactly when the trade is completed, whatever the client held before |
| LiveTrade.OtherUserKey | src/components/trade/LiveTradeInterface.tsx:84 | the partner is the seller for a buyer and the buyer for a seller |
| LiveTrade.ShowPaymentInstructions | src/components/trade/LiveTradeInterface.tsx:191 | shown only to the buyer, only for in_progress, and only when details exist |
| LiveTrade.ShowCompletedEntry | src/components/trade/LiveTradeInterface.tsx:216 | shown only when completed_at is present |
| LiveTrade.GuardsOnRow | src/components/trade/LiveTradeInterface.tsx:191-216 | for a delivered row: instructions appear exactly for in_progress, a buyer and existing details; the completed entry appears exactly when completed_at is set, which on a well-formed row means exactly when completed |
| LiveTrade.LiveTradeView.constructor | src/components/trade/LiveTradeInterface.tsx:25-26 | holds the initial trade, not connected |
| LiveTrade.LiveTradeView.OnRealtimeUpdate | src/components/trade/LiveTradeInterface.tsx:41-52 | the trade becomes the merge of the old one with the payload |
| LiveTrade.LiveTradeView.OnSubscriptionStatus | src/components/trade/LiveTradeInterface.tsx:54-68 | the flag follows NextConnected, stays equal to ConnectedAfter of every status seen, and the trade is untouched |
| LiveTrade.LiveTradeView.HandleStatusUpdate | src/components/trade/LiveTradeInterface.tsx:75-81 | the trade becomes the old one with only its status replaced |
| ProgressSteps.FindIndex | src/components/trade/TradeProgressSteps.tsx:21 | gives -1 exactly when no step has the key, and otherwise the first index whose key matches |
| ProgressSteps.CurrentStepIndex | src/components/trade/TradeProgressSteps.tsx:17-22 | -1 for disputed and cancelled; 0, 1, 2, 3 for pending, in_progress, payment_sent, completed |
| ProgressSteps.Flags | src/components/trade/TradeProgressSteps.tsx:68-70 | exactly one of completed, current or upcoming holds; current holds exactly at the current index |
| ProgressSteps.Render | src/components/trade/TradeProgressSteps.tsx:26-70 | disputed and cancelled get their own panels; otherwise one flag set per step, current exactly at the step whose key is the status |
| ProgressSteps.StepListIsOrdered | src/components/trade/TradeProgressSteps.tsx:67-70 | at most one step is current; every step before it is completed and every step after it upcoming |
| ProgressSteps.StepsFollowNextStatus | src/components/trade/TradeProgressSteps.tsx:9-14 | consecutive step keys follow the state table's next-status chain, which ends at the last step |
| StartTrade.Message | src/components/market/StartTradeButton.tsx:42-59 | the error text is empty exactly when there is no error |
| StartTrade.Decide | src/components/market/StartTradeButton.tsx:33-75 | redirect to login exactly without a user; a row is inserted exactly when every check passes; the row has the user as buyer and the offer's owner as seller (they differ), status pending, fee 0, fiat = amount, crypto × price = fiat, crypto ≤ available, and the given escrow address |
| StartTrade.FirstFailingCheckWins | src/components/market/StartTradeButton.tsx:41-61 | own offer, then invalid amount, then limits, then available crypto: the first failing check is the one reported |
| StartTrade.LimitsAreInclusive | src/components/market/StartTradeButton.tsx:52-55 | an amount equal to either limit is accepted |
| StartTrade.StartTradeForm.constructor | src/components/market/StartTradeButton.tsx:22-23 | not loading, no error, no redirect |
| StartTrade.StartTradeForm.HandleStartTrade | src/components/market/StartTradeButton.tsx:29-106 | loading goes up and then down; the decision's redirect, error or inserted row becomes the new state; a failed insert sets the insert error; a success redirects to the new trade |
| StartTrade.InsertedTradesAreSound | src/components/market/StartTradeButton.tsx:64-75 | an inserted row has distinct buyer and seller, status pending, and a positive fiat amount |
| Validations.Pass | src/lib/validations.ts:19 | a well-formed success |
| Validations.Fail | src/lib/validations.ts:12 | a well-formed failure carrying its message |
| Validations.JsLength | src/lib/validations.ts:28 | the UTF-16 length lies between the character count and twice it, and equals it for BMP text |
| Validations.DotFromMeaning | src/lib/validations.ts:15 | the search for the final `\.\S` succeeds exactly when such a position closes a non-space run |
| Validations.MatchesAtSignMeaning | src/lib/validations.ts:15 | the search from an `@` succeeds exactly when the pattern matches around that `@` |
| Validations.SearchFromMeaning | src/lib/validations.ts:15 | the scan succeeds exactly when some `@` at or after the start has a match |
| Validations.EmailTest | src/lib/validations.ts:15 | the regular-expression test equals the declarative pattern |
| Validations.ValidateEmail | src/lib/validations.ts:10-20 | empty gives "Email is required"; otherwise success exactly when the pattern matches, with the invalid-address message on failure |
| Validations.ValidatePassword | src/lib/validations.ts:23-33 | success exactly when the length is at least 6; the empty and the too-short messages |
| Validations.ValidateUsername | src/lib/validations.ts:36-54 | success exactly when the name has 3 to 20 characters, all letters, digits or underscores; the four failures are reported in source order |
| Validations.ValidateAmount | src/lib/validations.ts:57-65 | success exactly when the amount is a number greater than 0 |
| Validations.ValidatePrice | src/lib/validations.ts:68-76 | success exactly when the price is a number greater than 0 |
| Validations.ValidateTradeLimits | src/lib/validations.ts:79-89 | success exactly when 0 < min < max; the positivity failure is reported before the ordering failure |
| Validations.EmailExamples | src/lib/validations.ts:15 | "a@b.c" matches; "a@b c.d" does not |
| SignupForm.SignupCheck | src/components/auth/SignupForm.tsx:25-53 | any empty field gives "Please fill in all fields"; the form passes exactly when the email matches, the password has at least 6 characters, and the username has at least 3 characters, all in the class |
| SignupForm.SignupChecksInOrder | src/components/auth/SignupForm.tsx:31-47 | email, then password, then username length: the first failure is reported |
| SignupForm.SignupAgreesWithValidators | src/components/auth/SignupForm.tsx:25-53 | passing the form is passing validateEmail and validatePassword, plus the username checks without the upper bound |
| SignupForm.SignupHasNoUsernameCap | src/components/auth/SignupForm.tsx:43-53 | a valid-looking username longer than 20 characters passes the form but fails validateUsername |
| SignupForm.SignupForm.constructor | src/components/auth/SignupForm.tsx:12-13 | not loading, no error |
| SignupForm.SignupForm.HandleSubmit | src/components/auth/SignupForm.tsx:19-53 | it proceeds exactly when the checks pass; otherwise it sets the first failure's message and loading goes up and back down |
| LoginForm.LoginCheck | src/components/auth/LoginForm.tsx:25-35 | an empty field gives "Please fill in all fields", checked before the pattern; it passes exactly when the password is present and validateEmail succeeds |
| LoginForm.RedirectTarget | src/components/auth/LoginForm.tsx:46 | the redirectTo parameter when present and non-empty, otherwise /dashboard |
| LoginForm.LoginForm.constructor | src/components/auth/LoginForm.tsx:13-14 | not loading, no error, no redirect |
| LoginForm.LoginForm.HandleSubmit | src/components/auth/LoginForm.tsx:19-36 | it proceeds exactly when the checks pass; otherwise it sets the message and loading goes up and back down |
| LoginForm.LoginForm.FinishSignIn | src/components/auth/LoginForm.tsx:37-54 | a success redirects to RedirectTarget; an auth error or an exception sets its message; loading is lowered in every case |
| StatusBadge.BadgeAsWritten | src/components/ui/StatusBadge.tsx:21 | a status with an own table entry renders that entry |
| StatusBadge.InheritedNameSkipsFallback | src/components/ui/StatusBadge.tsx:8-21 | "toString" has no own entry, yet the as-written lookup renders neither class nor text, which differs from the fallback |
| StatusBadge.StatusConfig | src/components/ui/StatusBadge.tsx:8-21 | an own entry when there is one, otherwise class status-pending with the raw status as text; the lookup is total, and each class is one of the four badge styles |
| StatusBadge.AsWrittenAgreesOffInheritedNames | src/components/ui/StatusBadge.tsx:21 | off the inherited property names the source's lookup equals StatusConfig |
| StatusBadge.TradeStatusBadges | src/components/ui/StatusBadge.tsx:9-15 | every trade status has its own entry; disputed and cancelled are status-error, completed is status-completed, and the three active statuses are status-pending |

## Left out

- Supabase (authentication, queries, inserts, the realtime channel and its delivery), cookies and environment checks. They are I/O: their answers are parameters, as listed above.
- The gap between the row read and the update in the status handler: the two are not compared-and-swapped, so a concurrent update may be overwritten. A sequential model cannot show this.
- Logging (the logger and error reporting), including the role written to the log.
- UpdateStatus.Execute: it does not model the generic `catch` that turns an unexpected exception after the body is parsed into 500 "Internal server error". Only a body that fails to parse is modelled that way.
- UpdateStatus.StatusRequest: JSON fields that are not strings are not modelled. A missing or falsy field is the empty string.
- `parseFloat` on the amount text is not modelled. Amounts are exact reals, and a text that is not a number is `None` (NaN). IEEE rounding and overflow are not modelled.
- StartTrade.Message: the out-of-limits message omits the limits and currency, because number formatting is not modelled.
- StartTrade.StartTradeForm.HandleStartTrade: it does not model the generic `catch` ("An unexpected error occurred") when the user lookup itself throws.
- Validations.ValidateTradeLimits: its arguments are reals, so it does not model NaN limits. In the source a NaN limit passes both comparisons and is accepted.
- The sign-up form after its checks: the username-availability query, the sign-up call, the success message and the delayed redirect. They are network calls.
- The badge's optional extra `className` prop, merged by `cn`. It is presentation only.
- The channel's cleanup on unmount, and the text, layout and styling of every component beyond the strings modelled.

## Findings

| source | as written | input that shows it | evidently intended | confidence | as-written member | corrected member |
|---|---|---|---|---|---|---|
| src/components/ui/StatusBadge.tsx:21 | `statusConfig[status] \|\| fallback` on a plain object also finds properties inherited from `Object.prototype`. They are truthy, so the fallback is skipped, and the badge gets an undefined class and no text | status `"toString"` (likewise `"constructor"`, `"valueOf"`, `"__proto__"`) | an unknown status falls back to class `status-pending` labelled with the raw status | not executed | StatusBadge.BadgeAsWritten, StatusBadge.InheritedNameSkipsFallback | StatusBadge.StatusConfig, StatusBadge.AsWrittenAgreesOffInheritedNames |
