# deManage: verified model

deManage is a personal-finance ledger. This project models the parts of it where money, time and concurrency meet,
and proves what they keep. Money is integer cents, asset quantities are integer multiples of 1e-12, costs and
patrimony values are exact rationals, days are civil day numbers or day keys, ids are integers handed out in order.

| module | what it models |
|---|---|
| Paging, WeeklyOccurrences, FinancialOverview, MonthlyCashLaws | the paged monthly cash read against the plain calculation, and what that calculation means in the columns of each row |
| FinancialHistory | keyset pages under a snapshot and the browser loop that collects them |
| Sums, FinanceActions, ActionEffects, FinanceProtocol, UndoConditions, FinanceStore | MCP money actions and the rows they write, their preview, commit, retry and undo |
| Sessions, CredentialHistory, AccountHistory | sessions, recovery codes, consents and trusted devices as interleaved steps, and what each needs told from history alone |
| FinanceAccess | runs over an account and its ledger at once: which postings its consents let through |
| TrustedDevices, LoginHistory | single-use challenges and password budgets, and what a login presented |
| AssetAccounting, AssetLedger, AssetLaws | two-bucket cost accounting and the ledger rows asset transactions own |
| Schedule, Expenses, ExpenseEdits, Entries, EntryEdits | schedules, one-off cash records, receipts and their versions, and which requests take effect |
| Patrimony, PatrimonyLaws | the daily timeline with moving pointers, and what each kind of row does to it |
| CivilDate, DecimalInput, BtcQuantity, Money, SplitAllocation, Text | calendar, text and arithmetic foundations |

Three conventions run through the modules. A service that changes rows is a class whose methods write them in the
service's order; each method is tied to a function of the old state, and the laws are proved about that function and
about whole runs. A transaction under the user or device row lock is one atomic step; work split around a lock is
several steps, with what was read carried in between. A check computed by code outside the model, such as card limits
or invoice closing, is a boolean that may refuse.

Some results say where the code falls short of a rounder statement. A day key survives its day number exactly from year
100 on. Reading a decimal twice can change it. Undoing a deposit right after making it clears a completion mark that the
bank may already have had. The version history of a recurrence does not see a whole charge moved from card to cash at
the same amount. Nine wrong passwords, not five, fit in fifteen minutes across two windows. An accepted split can
refuse every later change of amount, because its percentages are rounded when stored. The allocation helper by itself
can make the last of four parts negative, or of three that add up to 100.01. Each comes with the input or the run that
shows it.

## Model
| member | source | states |
|---|---|---|
| Paging.EachPage | backend/src/mcp/financial-overview.ts:10-24 | the cursor loop over any id-ordered table ends having visited every row exactly once, in order, in pages within the row budget |
| Paging.PageAfterCursor | backend/src/mcp/financial-overview.ts:11-24 | skipping past the id of the last row seen lands exactly on the first row not seen |
| Paging.FoldChildren | backend/src/mcp/financial-overview.ts:198-269 | one paged pass over all children of a page of parents leaves, per parent, the fold of exactly that parent's children in id order |
| FinancialOverview.CalculateMonthlyCash | backend/src/mcp/financial-overview.ts:80-178 | the accumulating loops compute the plain per-row definition of the month: recorded events plus what is still expected |
| FinancialOverview.NormalizedEntryIsWorthTheSame | backend/src/mcp/financial-overview.ts:198-225 | replacing an entry's receipts and holds by the folded synthetic rows changes neither its recorded nor its expected income |
| FinancialOverview.NormalizedExpenseIsWorthTheSame | backend/src/mcp/financial-overview.ts:236-284 | replacing payments and splits by at most three synthetic rows changes neither the recorded nor the expected cash of an expense |
| FinancialOverview.GroupedSumsAreLinkedMovements | backend/src/mcp/financial-overview.ts:286-304 | the database's grouped sums over the month so far equal the cash effect of the linked piggy movements one by one |
| FinancialOverview.ReadMonthlyCash | backend/src/mcp/financial-overview.ts:181-309 | for every ledger, page size and day the nested paged read with per-parent folding equals the plain calculation on the whole unpaged ledger |
| WeeklyOccurrences.CountIsWholeWeeks | backend/src/lib/billing/charges.ts:128-140 | the count by weekday shift and division is the number of days of the range that are whole weeks after the anchor |
| MonthlyCashLaws.CashAddsUp | backend/src/mcp/financial-overview.ts:80-178 | two ledgers side by side have the cash of both, and the balance is income less expenses |
| MonthlyCashLaws.RecordedIncomeOnly | backend/src/mcp/financial-overview.ts:104-124 | archived, one-off and already settled income counts by its receipts of the month up to today alone |
| MonthlyCashLaws.WeeklyIncome | backend/src/mcp/financial-overview.ts:96-129 | a weekly income adds its amount for each week day of the month up to today, or up to an earlier end |
| MonthlyCashLaws.NumberStandsForDay | backend/src/lib/civil-date.ts:118-128 | the day numbers weeks are counted in stand for the civil days, from year 100 on |
| MonthlyCashLaws.MonthlyIncome | backend/src/mcp/financial-overview.ts:130-145 | a monthly income adds its amount from its clamped day on while it is in force |
| MonthlyCashLaws.SalaryIncome | backend/src/mcp/financial-overview.ts:130-145 | a salary marked received counts at once, one on hold not at all, any other like a monthly income |
| MonthlyCashLaws.RecordedOutflowOnly | backend/src/mcp/financial-overview.ts:147-165 | archived rows, invoices and what is already paid count by their payments of the month up to today alone |
| MonthlyCashLaws.OneOffOutflow | backend/src/mcp/financial-overview.ts:155-161 | an unpaid one-off adds its cash share on its own day of the month once today reaches it |
| MonthlyCashLaws.WeeklyOutflow | backend/src/mcp/financial-overview.ts:71-169 | a weekly expense adds its cash share for each week day so far: the amount, nothing on a card, or its PIX parts |
| MonthlyCashLaws.MonthlyOutflow | backend/src/mcp/financial-overview.ts:71-174 | a monthly expense in force adds its cash share from its clamped day on, or already when marked paid for the month |
| MonthlyCashLaws.PaymentReplacesExpectation | backend/src/mcp/financial-overview.ts:147-174 | recording this month's payment at the cash share changes nothing when the expense was due and adds the share when it was not |
| MonthlyCashLaws.ReceiptReplacesExpectation | backend/src/mcp/financial-overview.ts:104-145 | recording this month's receipt of a monthly income likewise |
| MonthlyCashLaws.MovementCounts | backend/src/mcp/financial-overview.ts:175-180 | a withdrawal is income and a deposit an expense from its day on within the month; interest is neither |
| MonthlyCashLaws.NewRowsCount | backend/src/mcp/financial-overview.ts:198-284 | one more stored row adds what it is worth alone, unless the system wrote it or it is voided |
| MonthlyCashLaws.NewPiggyRowCounts | backend/src/mcp/financial-overview.ts:286-304 | one more piggy row counts only with the cash row it is linked to |
| MonthlyCashLaws.NewChildrenReachTheirParent | backend/src/mcp/financial-overview.ts:198-269 | a stored receipt, payment or split changes its own parent and no other row |
| FinancialHistory.MatchingMeaning | backend/src/services/financial-history.ts:104-130 | a keyset query returns exactly the unvoided rows at or below the snapshot and strictly after the cursor, newest first |
| FinancialHistory.PageIsExact | backend/src/services/financial-history.ts:79-140 | which requests are answered; each ledger yields its newest rows still to come, at most the limit, and a next cursor exactly when some are left |
| FinancialHistory.WalkStep | backend/src/services/financial-history.ts:79-140 | one more page, read from a table that changed meanwhile, keeps the walk free of repeats and of gaps among surviving rows |
| FinancialHistory.CursorAdvances | backend/src/services/financial-history.ts:131-138 | a next cursor comes only with a full page, names its last row and lies strictly further on |
| FinancialHistory.RequestsAreAccepted | backend/src/services/financial-history.ts:84-103 | with the snapshot of its first answer no request of the client loop is refused |
| FinancialHistory.CollectPages | frontend/src/lib/financial-history-api.ts:14-57 | against a ledger growing and losing rows between pages the loop never fails to advance, never sees a cursor twice, returns no row twice and every row of the snapshot that survives; its only error is the page limit, which needs 200 000 rows |
| FinanceActions.PreviewIsExact | backend/src/mcp/finance-preview.ts:273-281 | an accepted action changes total cash and total savings by exactly the effects its preview announced |
| FinanceActions.PreviewPredictsSuccess | backend/src/mcp/finance-preview.ts:204-297 | with nothing in between a preview is ready if and only if the draft is clean and carrying out its normalized action succeeds |
| FinanceActions.ResultNamesNewRows | backend/src/services/finance-operation.ts:46-120 | an accepted action reports exactly the rows its kind writes, all under ids unused before |
| FinanceActions.IncomeMovesCash | backend/src/services/received-income.ts:6-70 | a received one-off income adds its amount to cash once, through its receipt |
| FinanceActions.DepositMovesCash | backend/src/lib/piggy/transactions.ts:22-142 | a deposit adds its amount to savings and takes it from cash exactly when deducting |
| ActionEffects.TagIsChosen | backend/src/services/finance-tags.ts:11-52 | a tag name stands for the first stored tag equal to it up to case, else a new one under an unused id; nothing else changes |
| ActionEffects.IncomeRows | backend/src/services/received-income.ts:6-70 | a received income is one entry named after its tag, and one receipt in the month of its day, for the amount asked for |
| ActionEffects.DepositRows | backend/src/lib/piggy/transactions.ts:22-142 | a deposit writes its movement, the expense when it comes from cash, and completes a goal it fills |
| ActionEffects.ActionIsAccepted | backend/src/services/finance-operation.ts:46-120 | an action is carried out if and only if amount, day and texts are good and the bank takes it: open, not in the future, not behind interest paid, within its goal |
| ActionEffects.PreviewIsReady | backend/src/mcp/finance-preview.ts:204-297 | a preview is ready if and only if the draft is clean and good in its own columns, and announces what each kind does to cash and savings |
| ActionEffects.NewRowsMoveCash | backend/src/mcp/finance-preview.ts:273-281 | manual rows hold cash in their receipts and payments, system rows in their amount while they are live |
| FinanceProtocol.RunKeepsInvariant | backend/src/services/finance-operation-store.ts:125-187 | in every interleaving operations have distinct keys and nonces per client, fit their action, own disjoint rows, and foreign keys hold |
| FinanceProtocol.PostsAtMostOnce | backend/src/services/finance-operation-store.ts:148-186 | in any run two postings of one client differ in key and in nonce |
| FinanceProtocol.RetryReturnsStoredResult | backend/src/services/finance-operation-store.ts:152-162 | an exact retry at any later moment returns the stored result and changes nothing, or is refused once undone; the status read agrees |
| FinanceProtocol.UndoneNeverPostsAgain | backend/src/services/finance-operation-store.ts:152-170 | after an undo every commit with the operation's key or nonce is refused without effect, for the rest of the run |
| FinanceProtocol.UndoIsExact | backend/src/services/finance-operation-store.ts:238-335 | whatever ran in between, an accepted undo moves cash and savings by exactly the negation of the announced effects |
| FinanceProtocol.UndoRemovesOnlyItsRows | backend/src/services/finance-operation-store.ts:319-330 | an undo deletes the rows its operation reported, keeps every other row and every tag, and shares no row with any other operation |
| UndoConditions.ChecksMeanUntouched | backend/src/services/finance-operation-store.ts:243-318 | the checks of an undo pass if and only if every row the action wrote still stands as posted, unstamped since, with nothing new hanging on it and an untouched bank |
| UndoConditions.LaterUndo | backend/src/services/finance-operation-store.ts:221-336 | at any later moment of a run an undo takes out the rows the operation reported, opens a completed bank again and leaves every other row, exactly under those conditions; otherwise it changes nothing, with an error unless it was undone before |
| UndoConditions.TouchedRowsSurvive | backend/src/services/finance-operation-store.ts:243-318 | a row edited since the commit, or newly depended on by a receipt, payment, split, movement or asset, keeps the undo from changing anything |
| UndoConditions.CommitPosts | backend/src/services/finance-operation-store.ts:125-187 | a commit posts if and only if identifiers and digest are legal, the fence holds, key and nonce are new to its client and the action can be carried out |
| UndoConditions.UndoTakesOut | backend/src/services/finance-operation-store.ts:221-336 | an undo takes rows out if and only if identifiers are legal, the fence holds, the operation is its client's, not undone and untouched, and the nonce is new |
| UndoConditions.StatusIsRead | backend/src/services/finance-operation-store.ts:105-123 | the status read finds exactly the client's operation under the key, and says whether it was undone |
| FinanceProtocol.UndoInvertsCommit | backend/src/services/finance-operation-store.ts:221-335 | an undo right after its commit is accepted if and only if the bank earns no interest, was not completed on another day and saw no movement since; it then restores every row, and the bank up to its completion mark |
| FinanceProtocol.UndoCanLoseTheMark | backend/src/services/finance-operation-store.ts:221-335 | a run from no rows at all, in which a bank is filled by one deposit and its goal raised, after which another deposit and its accepted undo lose the completion mark |
| FinanceProtocol.RunConservesMoney | backend/src/services/finance-operation-store.ts:125-335 | over any run cash and savings equal what other writers made them plus the announced effects of the operations posted and not undone, each once |
| FinanceStore.Store.BalanceOf | backend/src/lib/piggy/ledger.ts:21-29 | the loop over movements in any order gives the bank's balance |
| FinanceStore.Store.CreateReceivedOneTimeIncome | backend/src/services/received-income.ts:6-70 | writes the entry and its receipt of the specification, or nothing |
| FinanceStore.Store.DepositToPiggyBank | backend/src/lib/piggy/transactions.ts:22-142 | writes one deposit capped at the goal, its expense exactly when deducting, and marks completion |
| FinanceStore.Store.RunFinanceOperation | backend/src/services/finance-operation.ts:46-120 | the rows written step by step are those of the specification of the action |
| FinanceStore.Store.CommitFinanceOperation | backend/src/services/finance-operation-store.ts:125-187 | the locked transaction, with its rollback, is the commit step of the protocol |
| FinanceStore.Store.UndoFinanceOperation | backend/src/services/finance-operation-store.ts:221-336 | the locked transaction, with its rollback, is the undo step of the protocol |
| Sessions.SessionVersionOnlyGrows | backend/src/lib/auth.ts:49-72 | in every run the session version never decreases |
| Sessions.SessionVersionStep | backend/src/services/auth.ts:215-281 | only a successful recovery or logout moves the session version, by one |
| Sessions.RecoveryCodesWorkOnce | backend/src/services/auth.ts:128-163 | with reads and conditional updates freely interleaved, a code used or replaced never recovers the account again |
| CredentialHistory.CodesAreChecked | backend/src/services/auth.ts:218-225 | a recovery begins if and only if the code presented is the one last published by registration, rotation or recovery |
| CredentialHistory.RecoveriesPresentTheCode | backend/src/services/auth.ts:214-281 | every recovery commits a request that an earlier step began by presenting the very code it retires, last published then and still |
| CredentialHistory.RetiredCodesAreDenied | backend/src/services/auth.ts:218-225 | a used or replaced code is turned away wherever it is presented |
| CredentialHistory.PasswordsAreChecked | backend/src/services/auth.ts:56-163 | logins and rotations go ahead if and only if the password is that of registration or of the last recovery; device steps only then |
| CredentialHistory.RotationsPresentThePassword | backend/src/services/auth.ts:128-163 | every rotation commits a request begun with the password still in force and replaces the code last published |
| CredentialHistory.SessionsOpenAndEnd | backend/src/lib/auth.ts:49-72 | a session just opened is current; a recovery leaves its own session as the only one, a logout none |
| AccountHistory.CommitsExactly | backend/src/services/auth.ts:145-281 | with everything interleaved a recovery or rotation commits if and only if no recovery, rotation or logout came after it was begun |
| AccountHistory.DeviceLoginsExactly | backend/src/lib/trusted-device-login.ts:78-260 | a trusted device logs in if and only if the password is current and the device was neither revoked nor cut off by a recovery since its enrollment |
| AccountHistory.SessionStepsExactly | backend/src/lib/auth.ts:49-72 | enrolling, logging out and consenting go ahead if and only if the token's session was not ended by a logout or a recovery since, enrolling with the current password besides |
| AccountHistory.WritesExactly | backend/src/oauth/connection.ts:46-88 | a grant-checked write passes if and only if the client's last consent names its grant and both scopes, no disconnection or recovery came since, and the stored grant has not expired |
| Sessions.WritesFollowFreshConsent | backend/src/oauth/connection.ts:13-88 | every committed grant-checked write rests on a consent given after the last recovery, by a session authenticated since, and after the last time the user disconnected the client |
| Sessions.DeviceLoginsFollowFreshEnrollment | backend/src/lib/trusted-device-login.ts:78-135 | a trusted device that logs in was enrolled after the last recovery |
| Sessions.RecoveryCutsEverything | backend/src/services/auth.ts:230-276 | a recovery leaves no active grant, no artifact of a known grant and no usable device, and deletes nothing else; a logout keeps connections, artifacts and devices as they are |
| Sessions.Store.RecoverPassword | backend/src/services/auth.ts:230-281 | the conditional update and its revocations happen together or not at all; the returned session is the version it set |
| Sessions.Store.RotateRecoveryCode | backend/src/services/auth.ts:145-163 | a new code is published only against the snapshot that was authenticated |
| Sessions.Store.RevokeAuthToken | backend/src/lib/auth.ts:49-72 | a logout ends the session epoch of its own token and no other |
| Sessions.Store.PersistOAuthConsent | backend/src/oauth/connection.ts:13-44 | consent is stored only for the current session version, over any older consent of the client |
| Sessions.Store.RevokeClientGrant | backend/src/oauth/provider.ts:282-290 | disconnecting revokes the client and deletes the artifacts of its grant |
| FinanceAccess.NoMoneyMovesWithoutNewConsent | backend/src/services/finance-operation-store.ts:148-230 | in any interleaving of account steps, postings, undos and other writers, after a recovery or after the user disconnects a client no posting and no undo of that client is accepted before a new consent to its grant, given by a session authenticated since the recovery |
| FinanceAccess.ProtocolRun | backend/src/oauth/connection.ts:46-88 | with the fence answered from the account of the same moment, the ledger of a combined run is that of a run of the protocol |
| FinanceAccess.RunConservesMoney | backend/src/services/finance-operation-store.ts:125-335 | in combined runs too, cash and savings are what other writers made them plus the effects of live operations |
| TrustedDevices.TenFailuresSpanAWindow | backend/src/lib/trusted-device-login.ts:234-259 | ten wrong passwords in a row, with no right one between, span at least fifteen minutes |
| TrustedDevices.NinePerInterval | backend/src/lib/trusted-device-login.ts:234-259 | any half-open fifteen-minute interval holds at most nine wrong passwords between two right ones |
| TrustedDevices.FivePerWindow | backend/src/lib/trusted-device-login.ts:241-252 | one fixed window counts at most five |
| TrustedDevices.NineIsReached | backend/src/lib/trusted-device-login.ts:78-259 | from a fresh account there is a run of enrollment and login steps whose device evaluates nine wrong passwords within one millisecond, across the border of two windows |
| TrustedDevices.GuessesAreBounded | backend/src/lib/trusted-device-login.ts:214-260 | from registration on, in every run with a clock that never goes back, no device sees more than nine wrong passwords in a half-open window between two right ones |
| TrustedDevices.RunKeepsInvariant | backend/src/lib/trusted-device-login.ts:180-259 | every step of every run keeps the limits on live challenges and usable devices, fresh ids, and counters that summarize their own history |
| TrustedDevices.ReachableStatesAreSafe | backend/src/lib/trusted-device-login.ts:101-259 | after any run from registration each device has at most three live challenges, the account at most five usable devices, and each counter summarizes its own history |
| TrustedDevices.ChallengesBurnOnce | backend/src/lib/trusted-device-login.ts:226-232 | in no run from registration is a challenge claimed twice |
| LoginHistory.LoginsPresentEverything | backend/src/lib/trusted-device-login.ts:210-260 | every login presented the current password and e-mail, the secret its device was enrolled with, and burnt a challenge opened for that device and nonce less than three minutes before it started; the device is unrevoked and within its thirty days |
| LoginHistory.ConfirmationsNeedThePassword | backend/src/lib/trusted-device-login.ts:78-177 | with another password no device is enrolled or revoked |
| LoginHistory.RevokedDevicesStayOut | backend/src/lib/trusted-device-login.ts:148-177 | after its revocation or a recovery a device never logs in again |
| LoginHistory.OpeningIsExact | backend/src/lib/trusted-device-login.ts:180-208 | a challenge is opened if and only if the device could log in and has fewer than three waiting; its used and expired ones go, no other |
| LoginHistory.FinishIsExact | backend/src/lib/trusted-device-login.ts:234-260 | a claimed login ends in a session if and only if its device could still log in, its budget is open, and e-mail and password are right; it charges or clears that budget alone |
| LoginHistory.EnrollmentIsExact | backend/src/lib/trusted-device-login.ts:78-135 | a device is enrolled if and only if the session is current, the password right on an open budget, and fewer than five devices could log in; it lives for thirty days |
| LoginHistory.RevocationIsExact | backend/src/lib/trusted-device-login.ts:148-177 | a revocation takes the right password on an open budget and marks that one device; a wrong password is charged to the budget |
| LoginHistory.RecoveryStartsOver | backend/src/services/auth.ts:230-257 | a recovery raises both versions, opens the confirmation budget, and leaves no device that can log in and no earlier session that can enroll one |
| TrustedDevices.EnrollKeepsFewDevices | backend/src/lib/trusted-device-login.ts:101-130 | the limit of five holds although enrollment counts with the clock read before its lock |
| TrustedDevices.Store.BeginTrustedDeviceChallenge | backend/src/lib/trusted-device-login.ts:180-208 | sweeps, counts and creates under the device lock as specified |
| TrustedDevices.Store.ClaimChallenge | backend/src/lib/trusted-device-login.ts:226-232 | burns the challenge if and only if it is live at the captured time and matches |
| TrustedDevices.Store.FinishLogin | backend/src/lib/trusted-device-login.ts:234-259 | quota, password and counters of the locked end of a login |
| TrustedDevices.Store.EnrollTrustedDevice | backend/src/lib/trusted-device-login.ts:87-135 | enrollment under the user lock, with the confirmation budget |
| TrustedDevices.Store.RevokeTrustedDevice | backend/src/lib/trusted-device-login.ts:148-177 | revocation under the user lock, with the confirmation budget |
| AssetAccounting.SortIsAPermutation | backend/src/lib/asset-accounting.ts:18-28 | sorting orders the timeline by date, creation and id and keeps every transaction |
| AssetAccounting.IsAssetTimelineValid | backend/src/lib/asset-accounting.ts:30-48 | the loop accepts a timeline if and only if no sale and no adjustment leaves a negative balance |
| AssetAccounting.ValidNeverNegative | backend/src/lib/asset-accounting.ts:30-48 | a valid timeline never goes negative at any prefix |
| AssetAccounting.RemovalIsExact | backend/src/lib/asset-accounting.ts:185-246 | for any rounded candidate no bucket goes negative, exactly min(requested, held) leaves, cost is conserved and a full exit empties everything |
| AssetAccounting.BucketRemovalIsExact | backend/src/lib/asset-accounting.ts:185-246 | the same, full exit included, for the half-up candidate on the 1e-12 grid |
| AssetAccounting.RemovalKeepsAverageCost | backend/src/lib/asset-accounting.ts:185-246 | a partial exit keeps the average cost |
| AssetAccounting.ClampsNeverFire | backend/src/lib/asset-accounting.ts:185-246 | with exact half-up rounding the clamps never change the candidate |
| AssetAccounting.CalculateAssetAccounting | backend/src/lib/asset-accounting.ts:75-174 | the accumulating loop gives the accounts of the sorted timeline of the asset |
| AssetAccounting.BucketsNeverNegative | backend/src/lib/asset-accounting.ts:75-174 | the known and the unknown bucket stay non-negative on any timeline |
| AssetAccounting.CostNeverNegative | backend/src/lib/asset-accounting.ts:75-174 | when no cash is negative, as parsed input guarantees, invested and realized cost stay non-negative |
| AssetAccounting.CostIsConserved | backend/src/lib/asset-accounting.ts:75-174 | invested cost plus realized cost plus cost written off equals all known cost ever added |
| AssetAccounting.QuantityIsBalance | backend/src/lib/asset-accounting.ts:75-174 | on a valid timeline the accounts hold exactly the timeline balance |
| AssetAccounting.CompleteMeansAllKnown | backend/src/lib/asset-accounting.ts:75-174 | complete accounts never held quantity of unknown cost |
| AssetAccounting.RealizedIsProceedsLessCost | backend/src/lib/asset-accounting.ts:75-174 | on complete accounts realized profit is sale proceeds less the cost they used |
| AssetAccounting.TotalProfitIsExplained | backend/src/lib/asset-accounting.ts:248-274 | reported total profit is sale proceeds plus market value minus all known acquisition cost, up to cost written off |
| AssetAccounting.NothingDropped | backend/src/lib/asset-accounting.ts:75-174 | without negative adjustments nothing is written off |
| AssetLaws.TimelineOrder | backend/src/lib/asset-accounting.ts:18-28 | a timeline runs by date, then creation, then id |
| AssetLaws.AcquisitionFillsABucket | backend/src/lib/asset-accounting.ts:92-124 | quantity that comes in lands in the bucket of known cost with its cash, or in the other and makes the accounts incomplete |
| AssetLaws.SaleRealizesKnownPart | backend/src/lib/asset-accounting.ts:139-170 | a sale takes a half-up share from each bucket and realizes the cash paid for the known part less its proportional cost |
| AssetLaws.NegativeAdjustmentWritesOff | backend/src/lib/asset-accounting.ts:125-138 | a negative adjustment takes quantity and cost out the same way and realizes nothing |
| AssetLaws.FeesAddUp | backend/src/lib/asset-accounting.ts:86-90 | every fee counts |
| AssetLaws.StoredAsSent | backend/src/lib/asset-values.ts:129-200 | an accepted transaction is stored as sent, its cash rounded once to the nearest cent |
| AssetLaws.InputIsAccepted | backend/src/lib/asset-values.ts:119-200 | which quantities, amounts and days are accepted; BTC in whole satoshis |
| AssetLaws.QuotedReport | backend/src/lib/asset-accounting.ts:248-274 | a quote values all quantity held and the profit on the known part; total profit is given in percent of the cost realized and still held, when there is any |
| AssetLedger.AttachKeepsConsistency | backend/src/lib/assets.ts:63-127 | adding a transaction with its row under unused ids keeps every purchase with one expense, every sale with one entry, equal amounts and no orphan |
| AssetLedger.DetachKeepsConsistency | backend/src/lib/assets.ts:286-314 | removing a transaction with its rows keeps the others linked and leaves no orphan |
| AssetLedger.ReplaceKeepsConsistency | backend/src/lib/assets.ts:148-283 | an update that changes kind, amount or day keeps the links |
| AssetLedger.OtherRowsKeepLinks | backend/src/lib/assets.ts:63-314 | other services that touch only their own rows break no link |
| AssetLedger.AmountsEqualCash | backend/src/lib/asset-values.ts:123-152 | in a consistent ledger the expense of a purchase and the entry of a sale carry exactly the cash of the transaction |
| AssetLedger.AppendKeepsTimelines | backend/src/lib/assets.ts:63-127 | a new transaction touches only its own asset's timeline |
| AssetLedger.AccountsMatchTimeline | backend/src/lib/asset-accounting.ts:30-174 | in a consistent ledger of parsed transactions with valid timelines the accounts hold the timeline balance and neither a bucket nor the invested cost is negative |
| AssetLedger.AssetBook.CreateAssetTransaction | backend/src/lib/assets.ts:63-127 | stores exactly the specified rows if the resulting timeline is valid, and otherwise rolls everything back |
| AssetLedger.AssetBook.UpdateAssetTransaction | backend/src/lib/assets.ts:148-283 | replaces the transaction and its linked row if the resulting timeline is valid, and otherwise changes nothing |
| AssetLedger.AssetBook.DeleteAssetTransaction | backend/src/lib/assets.ts:286-314 | deletes the transaction and its linked row if what remains is valid, and otherwise changes nothing |
| AssetLedger.AssetBook.SyncLedgerRow | backend/src/lib/assets.ts:187-266 | drops the row of the old kind and writes the row of the new one, reusing it when the kind stays |
| AssetLedger.AssetBook.Run | backend/src/lib/assets.ts:63-314 | any sequence of requests, each on its own day, with writes of other services between them, leaves links, timelines and accounts in step and every linked amount equal to its transaction's cash |
| Expenses.CreatedIsSound | backend/src/services/expenses.ts:258-366 | a created expense has fitting splits, a well-formed schedule and, when one-off, its exact cash record |
| ExpenseEdits.CreatedAsAsked | backend/src/services/expenses.ts:258-366 | a created expense has the amount, frequency, schedule and parts asked for, and no payment but the cash of a one-off |
| ExpenseEdits.CreationIsAccepted | backend/src/services/expenses.ts:258-366 | with every outside check passing a request is accepted if and only if amount, schedule, day and parts are good |
| ExpenseEdits.EditTakesEffect | backend/src/services/expenses.ts:368-818 | an accepted edit stores the amount, frequency, schedule and parts sent, keeps those not sent, and every other field |
| ExpenseEdits.UnpaidRecurrenceIsEditable | backend/src/services/expenses.ts:368-700 | a recurrence without payments takes an edit if and only if it is good and does not move the start back |
| ExpenseEdits.PaidRecurrenceKeepsItsSchedule | backend/src/services/expenses.ts:470-560 | once paid a recurrence keeps its schedule, and once paid for this month or later its amount |
| ExpenseEdits.RecurrenceMovesForward | backend/src/services/expenses.ts:470-560 | a recurrence never starts earlier than it did and ends as a one-off only unpaid and without a card |
| ExpenseEdits.CashOneOffIsCorrectable | backend/src/services/expenses.ts:78-122 | a one-off paid in cash takes any positive amount and any day up to today, its payment with it |
| ExpenseEdits.CardOneOffIsEditable | backend/src/services/expenses.ts:368-700 | a one-off wholly on cards takes an edit if and only if it is good and its day is not in the future |
| ExpenseEdits.OutsideChecksRefuse | backend/src/services/expenses.ts:368-700 | which edits each check outside the model may refuse |
| ExpenseEdits.CashInColumns | backend/src/services/expenses.ts:80-140 | the cash share is all of an unsplit expense, nothing on a card, or its PIX part |
| ExpenseEdits.PaymentIsAccepted | backend/src/services/expenses.ts:933-985 | which payments are taken |
| ExpenseEdits.PaymentIsDated | backend/src/services/expenses.ts:985-1013 | a new payment is dated today or the day its month was marked paid |
| ExpenseEdits.ArchivingMarks | backend/src/services/expenses.ts:888-931 | which expenses are archived; nothing else of them changes |
| ExpenseEdits.AmountEditNeedsStoredParts | backend/src/services/expenses.ts:841-886 | a new amount for an unpaid split recurrence is accepted if and only if its percentages as stored come to between 99.99 and 100.01, none of them zero, with a card and no card twice |
| ExpenseEdits.AcceptedSplitCanBlockEdits | backend/src/lib/split-allocation.ts:106-124 | percentages are rounded when stored, so an accepted split of 33.335 and 66.675 refuses every later change of amount |
| Expenses.UpdateKeepsSound | backend/src/services/expenses.ts:368-818 | no accepted edit, through any of its branches, breaks the exact cash record of a one-off |
| Expenses.CorrectionIsExact | backend/src/services/expenses.ts:100-122 | a safe correction moves the one payment to the new amount, day and month |
| Expenses.PaidOneOffMovesOnlyByCorrection | backend/src/services/expenses.ts:78-98 | a paid one-off changes amount, day or terms only as the correction of a whole-PIX expense |
| Expenses.EndedRecurrenceIsExact | backend/src/services/expenses.ts:791-811 | a recurrence turned into a one-off starts with its exact cash record |
| Expenses.ComparableTellsCash | backend/src/services/expenses.ts:206-231 | terms that compare equal, legacy card rows included, have the same cash share |
| Expenses.LifeKeepsExactCash | backend/src/services/expenses.ts:80-140 | over any life of edits, payments and archival a one-off keeps exactly one payment equal to its cash share on its day, or none at zero, and never becomes recurring |
| Expenses.VersionedChangeMissesMovesToCash | backend/src/services/expenses.ts:454-456 | for recurrences a change of terms is seen if and only if it is not a move of the whole charge from card to cash at the same amount |
| Expenses.MoveToCashGoesUnseen | backend/src/services/expenses.ts:454-456 | such a move is accepted for every recurrence wholly on a card: its cash share goes from nothing to everything, unseen by the history |
| Expenses.PaymentIsOncePerMonth | backend/src/services/expenses.ts:933-1013 | an accepted payment leaves the month paid, at the cash share or, for invoices, the invoice amount; other months stay, invoices are paid in their own month only, and paying again changes nothing |
| Expenses.Store.CreateExpense | backend/src/services/expenses.ts:258-366 | stores the specified expense or nothing |
| Expenses.Store.UpdateExpense | backend/src/services/expenses.ts:703-811 | row, payment, splits and new cash are written in the order of the service and give the specified expense |
| Expenses.Store.PayExpense | backend/src/services/expenses.ts:933-1013 | the lookup, month check and upsert of the service give the specified payment, for manual expenses and for invoices |
| Expenses.Store.ArchiveExpense | backend/src/services/expenses.ts:888-931 | only an expense that never touched a card is voided, and nothing else changes |
| Schedule.ResolveSchedule | backend/src/services/schedule.ts:62-119 | succeeds exactly when the fields sent over those stored form a schedule, stores precisely those; a one-off ends with a date and nothing else, a recurrence with none |
| Entries.LifeKeepsSound | backend/src/services/entries.ts:242-561 | in every run, salary profile edits included, an entry with a receipt is a one-off or a monthly salary, a one-off has at most one receipt, dated in its month, and a salary at most one version a month |
| Entries.ReceiptFlipRaisesVersion | backend/src/services/entries.ts:541-555 | whatever the clock says, a one-off receipt appears or disappears only together with a strictly higher version |
| Entries.VersionsOnlyGrow | backend/src/services/entries.ts:344-364 | versions never fall over a life and rise whenever the entry changed |
| Entries.StaleRequestChangesNothing | backend/src/services/entries.ts:439-459 | a request carrying another version changes nothing and succeeds only when its effect is already there |
| Entries.OldVersionIsPowerless | backend/src/services/entries.ts:414-467 | after any change a request with the version seen before it has no effect, so a late retry cannot revive an undone receipt |
| Entries.ConfirmationTakesEffect | backend/src/services/entries.ts:505-526 | a confirmation with the current version leaves exactly the receipt asked for, or none, and repeating it changes nothing |
| Entries.StepKeepsSound | backend/src/services/entries.ts:276-286 | every accepted edit, archival or receipt change keeps the entry sound |
| Entries.BirthIsSound | backend/src/services/profile.ts:147-163 | entries created by request, from the salary profile or as received income start sound |
| EntryEdits.CreatedAsAsked | backend/src/services/entries.ts:242-273 | a request is accepted if and only if it is no salary, its tag fits and its schedule is good; it is stored as sent |
| EntryEdits.EditTakesEffect | backend/src/services/entries.ts:288-364 | an accepted edit stores what was sent, keeps what was not, and moves the version |
| EntryEdits.EditIsAccepted | backend/src/services/entries.ts:276-364 | which edits are accepted; a received one-off never becomes recurring |
| EntryEdits.ArchivingMarks | backend/src/services/entries.ts:366-385 | archiving marks and stamps a live manual entry outside the salary profile |
| EntryEdits.ReceiptIsAccepted | backend/src/services/entries.ts:388-467 | which receipt requests with the current version are accepted, for one-offs and salaries |
| EntryEdits.SalaryInForce | backend/src/services/entries.ts:470-504 | the salary of a month is the version of the latest month up to it |
| EntryEdits.SalaryReceiptRecords | backend/src/services/entries.ts:505-561 | a salary receipt records the salary of its month once, waiting or automatic takes it back, and other months stay |
| EntryEdits.SalaryReceiptIsAccepted | backend/src/services/entries.ts:470-504 | which salary receipts are accepted |
| EntryEdits.SalaryEditTakesEffect | backend/src/services/profile.ts:99-185 | a profile edit stores salary and day; zero ends the salary on the last day of the previous month |
| EntryEdits.SalaryProfileIsAccepted | backend/src/services/profile.ts:28-130 | a salary needs a day of the month, a zero salary does not |
| EntryEdits.FirstSalary | backend/src/services/profile.ts:147-163 | a first salary is a live monthly entry on its day with one version from its month on |
| EntryEdits.PastSalariesStay | backend/src/services/profile.ts:107-146 | an edit keeps the salary of every earlier month, seeding an entry without versions from its start or creation |
| Entries.SalaryEditKeepsThePast | backend/src/services/profile.ts:99-185 | a salary edit rules from the month it is made, if no version lies in the future; the salary of every earlier month and every receipt stay |
| Entries.ZeroedSalaryIsOver | backend/src/services/profile.ts:165-185 | after a salary is set to zero no receipt of that month or a later one can be set |
| Entries.Store.CreateEntry | backend/src/services/entries.ts:242-273 | stores the specified entry or nothing |
| Entries.Store.CreateSalary | backend/src/services/profile.ts:87-163 | a first salary profile stores the specified monthly entry with its version, or nothing |
| Entries.Store.Apply | backend/src/services/entries.ts:288-385 | an edit, archival or receipt change touches its own entry only |
| Entries.Store.SetOneOffReceipt | backend/src/services/entries.ts:414-555 | the row-by-row receipt code for one-offs gives the specified entry |
| Patrimony.RunningTotal.At | backend/src/lib/patrimony-calc.ts:149-165 | the moving pointer returns the sum of every step dated on or before the day |
| Patrimony.PointCursor.At | backend/src/lib/market/series.ts:138-149 | the moving pointer returns the latest point on or before the day |
| Patrimony.BuildCashFlows | backend/src/lib/patrimony-calc.ts:87-143 | pushes exactly the positive movements after the base day, row by row, external only when manual and not internal |
| Patrimony.BuildPatrimonyRows | backend/src/lib/patrimony-calc.ts:200-335 | fails exactly when a quote is missing on the base day, and otherwise returns one row per calendar day of the range, each equal to its direct definition |
| Patrimony.MoveBenchmarks | backend/src/lib/patrimony-calc.ts:297-310 | one day of the CDI and IPCA lines, with money from outside entering before the rate and after the index |
| Patrimony.CdiIsBaseGrown | backend/src/lib/patrimony-calc.ts:274-304 | with nothing from outside the CDI line is the base value times the product of the daily factors |
| Patrimony.IpcaIsBaseRescaled | backend/src/lib/patrimony-calc.ts:274-304 | with nothing from outside the IPCA line is the base value times latest index over base index |
| PatrimonyLaws.EmptyHistory | backend/src/lib/patrimony-calc.ts:254-335 | with no rows the patrimony is the opening cash and both lines start from it |
| PatrimonyLaws.TradeMovesItsAsset | backend/src/lib/patrimony-calc.ts:235-252 | one more purchase raises and one more sale lowers the value of its asset by quantity times the quote of each day, from its day on; nothing else but the patrimony moves |
| PatrimonyLaws.TradeLeavesBenchmarks | backend/src/lib/patrimony-calc.ts:252-310 | after the base day a trade leaves CDI and IPCA alone |
| PatrimonyLaws.SaleMovesValueToCash | backend/src/lib/patrimony-calc.ts:87-335 | a sale with its system entry at the quote of the day leaves that day's patrimony unchanged and later ones differ by what the quote moved |
| PatrimonyLaws.PurchaseMovesCashToValue | backend/src/lib/patrimony-calc.ts:87-335 | a purchase with its system expense likewise |
| PatrimonyLaws.WithdrawalLeavesRows | backend/src/lib/patrimony-calc.ts:87-335 | a piggy withdrawal with its system entry moves savings to cash and leaves patrimony, CDI and IPCA of every row unchanged |
| PatrimonyLaws.DepositLeavesRows | backend/src/lib/patrimony-calc.ts:87-335 | a piggy deposit with its system expense moves cash to savings likewise |
| PatrimonyLaws.SystemExpense | backend/src/lib/patrimony-calc.ts:101-112 | a live system expense takes its cash share on its own day: the amount, nothing on a card, or its PIX parts |
| PatrimonyLaws.ManualRowsMoveCash | backend/src/lib/patrimony-calc.ts:113-143 | manual rows move cash and patrimony by their positive receipts and payments after the stored base |
| PatrimonyLaws.OutsideMoneyEntersBenchmarks | backend/src/lib/patrimony-calc.ts:285-310 | an unlinked receipt enters the CDI line before the rate of its day and the IPCA line after a new index; a linked one enters neither |
| CivilDate.DayFromYearClosedForm | backend/src/lib/civil-date.ts:118-128 | adding up year lengths gives the closed form of section 21.4.1 of ECMA-262 |
| CivilDate.ComponentsOfDay | backend/src/lib/civil-date.ts:126-128 | the civil components of a day number are the only ones that make it |
| CivilDate.ParseOfFormat | backend/src/lib/civil-date.ts:23-49 | every real date prints to a key that reads back as it |
| CivilDate.FormatOfParse | backend/src/lib/civil-date.ts:37-49 | the parser accepts only the text the formatter writes |
| CivilDate.KeyRoundTrip | backend/src/lib/civil-date.ts:118-128 | a key survives the trip through its day number if and only if its year is 100 or later; earlier years come back in the twentieth century |
| CivilDate.NumberRoundTrip | backend/src/lib/civil-date.ts:118-128 | every day from year 100 to 9999 is the day number of its own key |
| CivilDate.KeyOrderIsDateOrder | backend/src/lib/civil-date.ts:113-115 | string order of keys is date order |
| CivilDate.AddDaysComposes | backend/src/lib/civil-date.ts:130-133 | adding days moves the day number by that many days, and composes |
| CivilDate.LastDayIsDayZeroOfNext | backend/src/lib/civil-date.ts:27-35 | the month length is the civil day of day zero of the next month |
| CivilDate.AddMonthsIsDate | backend/src/lib/civil-date.ts:172-183 | the clamped result is the anchor's day in the right month, or that month's last day |
| CivilDate.AddMonthsStrictlyIncreases | backend/src/lib/civil-date.ts:172-183 | from one anchor more months give a strictly later key |
| DecimalInput.NormalizedShape | frontend/src/lib/decimal-input.ts:17-64 | whatever is accepted is a canonical decimal: an integer part without leading zeros, a fraction only if digits follow, no minus zero |
| DecimalInput.ReadTextIsWritten | frontend/src/lib/decimal-input.ts:23-70 | whatever is accepted is, spaces aside, an optional sign and a body of the grammar: an integer, a comma or dot number, or one in groups of thousands |
| DecimalInput.WrittenTextIsRead | frontend/src/lib/decimal-input.ts:23-70 | every such text is accepted, as the number its body writes |
| DecimalInput.CommaTextReads | frontend/src/lib/decimal-input.ts:17-64 | comma text without thousands dots, its integer part free of leading zeros, is read as written |
| DecimalInput.GroupedTextReads | frontend/src/lib/decimal-input.ts:17-70 | any canonical integer of any size printed in dotted thousands groups, with or without a comma fraction, reads as its digits |
| DecimalInput.DotTextReads | frontend/src/lib/decimal-input.ts:17-70 | one-dot text is read as written if and only if it does not look like thousands |
| DecimalInput.ReadingAgain | frontend/src/lib/decimal-input.ts:17-70 | for every accepted text, reading the result again returns it if and only if its integer part and fraction do not look like thousands |
| DecimalInput.ReadingTwiceCanChangeTheNumber | frontend/src/lib/decimal-input.ts:17-70 | so reading is not idempotent: "1,500" is an input where it fails |
| BtcQuantity.SatsToBtcMeaning | frontend/src/lib/btc-quantity.ts:35-48 | the text denotes exactly n/10^8, for either sign |
| BtcQuantity.BtcToSatsMeaning | frontend/src/lib/btc-quantity.ts:18-33 | up to eight decimals become the satoshi count they denote |
| BtcQuantity.SatsAreNearest | frontend/src/lib/btc-quantity.ts:18-33 | longer fractions round to the nearest satoshi |
| BtcQuantity.SatsTextSurvivesBothSwitches | frontend/src/lib/btc-quantity.ts:50-88 | satoshis shown in BTC and switched back give the same text, through both printers and the parser, for every non-zero canonical safe integer |
| BtcQuantity.SatsTextIsDigits | frontend/src/lib/btc-quantity.ts:35-48 | satoshi text is accepted if and only if it is an optional minus and digits |
| BtcQuantity.BtcTextIsDecimal | frontend/src/lib/btc-quantity.ts:18-33 | BTC text is accepted if and only if it is an optional minus, digits and, after a dot, more digits, within the safe integers as satoshis |
| Money.RoundHalfUpIsNearest | backend/src/lib/money.ts:11-14 | rounding to cents is to the nearest, ties away from zero |
| Money.SumMoney | backend/src/lib/money.ts:16-24 | the running total is the sum |
| Money.AllocateByPercent | backend/src/lib/money.ts:27-42 | the loop gives rounded parts and a last part that takes the remainder |
| Money.PartsSumToTotal | backend/src/lib/money.ts:27-42 | the parts add up to the total to the cent for any percentages |
| Money.NonLastPartIsNear | backend/src/lib/money.ts:27-42 | each part but the last is within half a cent of exact |
| Money.LastPartIsNear | backend/src/lib/money.ts:27-42 | when the percentages add up to 100 the last of n parts is within (n-1)/2 cents |
| Money.LastPartNotNegative | backend/src/lib/money.ts:27-42 | so the last of n parts is not negative once its exact share exceeds (n-3)/2 cents |
| SplitAllocation.AcceptedShape | backend/src/lib/split-allocation.ts:106-156 | an accepted split is one card, two different cards, or a card and PIX |
| SplitAllocation.AcceptedPartsFit | backend/src/lib/split-allocation.ts:35-53 | its parts lie between nothing and the total and add up to it |
| SplitAllocation.ThreePartsNeverNegative | backend/src/lib/money.ts:27-42 | for every total, three positive percentages adding up to exactly 100 leave a last part that is not negative |
| SplitAllocation.FourPartsCanGoNegative | backend/src/lib/money.ts:27-42 | the helper alone makes the last of four equal parts negative, at an exact share of just (4-3)/2 cents; the split check admits two parts at most, so no caller sends four |
| SplitAllocation.ToleranceCanGoNegative | backend/src/lib/money.ts:27-42 | the helper alone makes the last of three parts negative when they add up to 100.01, which the tolerance admits and the limit of two parts excludes |

## Left out
- Routes, cookies, rate limits, React hooks, labels, formatting and logging: plumbing around the modelled services.
- HMAC, bcrypt, base64url and JSON: secrets and nonces stand for themselves, fresh values are unused ids, and digests are equal exactly when the actions are; the text encoding of history cursors is not part of this model.
- oidc-provider, client metadata URLs and token issuance: the provider may write any artifact at any time.
- PostgreSQL beyond atomic steps under row locks, atomic conditional updates, unique keys and foreign keys.
- decimal.js precision: values are exact, rounding happens only where the code rounds to cents or to 1e-12.
- The consent check made before the lock of a commit, which can only refuse sooner than the one inside it.
- Card billing, obligation versions, card limits and settled-history checks: guards that may refuse; their arithmetic is not part of this model.
- Piggy activation, automatic debits, interest catch-up and the monthly goal: other writers may make any change that respects foreign keys.
- Clocks: rows created after the first history page are stamped later; entries are edited under a later stamp than the version they replace; row stamps and the operation stamp of one commit are equal; noon UTC is the same civil day in Sao Paulo.
- Text checks on control characters, Unicode normalization and case folding: tag equality uses any folding function; names, notes and e-mail addresses are compared as given.
- Choosing a piggy bank by name in the preview, and the signed intent token.
- Fee percentages and digit-count limits when asset input is parsed.
- Quote lookups that add today's live price, percentage differences and the printing of decimals.
- Creating and editing piggy banks, tags, cards and profile fields other than the salary.
- A posting or undo without a grant id skips the consent fence; requests over HTTP carry the grant of their bearer token, and those are the ones modelled.
- Rows are compared by integer ids where the code compares id strings.
- CivilDate.KeyRoundTrip: years 0 to 99 are outside the round trip, because Date.UTC reads them as 1900 to 1999; the equivalence says so.
- BtcQuantity.SatsTextSurvivesBothSwitches: a result counts as zero when it has no non-zero digit, which differs from the numeric test only beyond about 323 decimal places.
- FinancialOverview.ReadMonthlyCash: every page of one read sees the same ledger, because one read is one consistent snapshot here.
- Patrimony.BuildPatrimonyRows: index values are taken as non-zero and quote series as strictly sorted by date, which the series loaders provide.
- Entries.SalaryEditKeepsThePast: the pay day stored with each salary version is left out, and a profile edit carries the salary and day it resolves to; versions in the future are excluded, which profile edits never write.
- Entries.VersionsOnlyGrow: assumes that edits carry a later stamp; receipts of one-offs need no such assumption.
- Expenses.LifeKeepsExactCash: speaks of manual expenses; invoice rows written by billing appear only in payments.
- TrustedDevices.GuessesAreBounded: counts evaluations between two right passwords; a right one resets the count.
