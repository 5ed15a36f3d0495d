# Protocols of the THTWAAT platform, modelled and proved in Dafny

The platform sells agent listings, meters AI requests in credits, runs background jobs from Redis lists, and manages
sessions, agents, knowledge bases and catalogs in PostgreSQL. This project models the parts whose correctness spans
several commits or several functions. Database tables and Redis lists are plain state; one commit (or one Redis push)
is one atomic step; any number of requests interleave; every claim below is about all runs or all inputs.

| files | what they model |
|---|---|
| `PurchaseProtocol`, `PurchaseInvariant`, `PurchaseTheorems`, `PurchaseAnswers`, `PurchaseHistory`, `PurchaseRevenue`, `PurchaseStore`, `RevenueSplit` | the paid install: order, signature check, row lock, marketplace install (whose commit drops the lock), completing commit, conflict fold-back, direct installs, revenue |
| `ListingModeration` | publisher and admin steps on a listing |
| `CreditPricing`, `CreditLedger`, `ProviderFallback`, `AiGateway` | reserve, call, settle or refund on one credit balance, with every failure point; provider fallback; rate limit |
| `JobWorker`, `JobOutcomes`, `TimeoutTexts`, `WorkerProcess` | the job queue: ready, delayed, dead, done |
| `Sessions`, `MfaLockout` | session cap, logout, failed-code window, recovery codes |
| `AgentLifecycle` | soft delete, late cleanup, restore, purge, API keys |
| `KnowledgeMerge` | the top k of several knowledge bases from the top k of each |
| `Wrappers` | the option type |
| `Slugs`, `Text` | slugify and the search for a free slug |
| `CatalogUpsert`, `SqlQuoting` | what the generated catalog SQL does to its tables, and its string literals |

Each protocol has a step function and theorems about its runs; code that updates rows in place is also given as a class
(`PurchaseStore.Store`, `ListingModeration.ListingRow`, `AiGateway.Account`, `WorkerProcess.Worker`,
`Sessions.TokenTable`, `MfaLockout.MfaUser`, `AgentLifecycle.Lifecycle`, `Slugs.Backfill`,
`CatalogUpsert.CatalogTables`) whose methods are proved to take exactly those steps.

## What is taken for granted

- HMAC signatures, password hashes and one-time codes are function parameters; nothing is assumed about them.
- Outcomes of the marketplace, LLM providers, Redis calls and job bodies are inputs of the steps: any of them may fail.
- Money in the store is integer cents. AI credits are exact reals; the column's rounding to four decimals is modelled,
  binary floating point and column overflow are not. Times are integers under a clock that does not go back, the same
  clock for application and database.
- Listing and marketplace template are one to one, so an installation slot belongs to a (company, listing) pair. The
  slot row survives an uninstall and keeps its id. Uninstalling is kept out of the window between an install commit and
  its completing commit; exactly-once depends on that.
- Order creation is two steps: the checks with the minting of the order, then the re-read and write of the pending row
  as one step. Two things are thereby excluded: two pending rows for one pair, and an order request whose read found the
  pending row, whose write then waited for the completing commit, and which overwrites the amount and metadata of the
  row that is completed by then (app/agent_store/service.py:1267-1276). `SoldAtMostOnce`, `CompletedIsFinal`,
  `ReplaysAgree` and `AnalyticsIsWhatWasBooked` rest on this step. The two `FOR UPDATE` queries of a verify call are
  one step.
- Soft delete, restore and cleanup of an agent each read and write in one step; publish, unpublish, pause and resume
  read first and write later.
- Rows of equal `created_at` or equal score of the delayed set are taken in list order.
- PostgreSQL reads string literals with standard conforming strings, its default.

## Where the code and its own words part

- The verify docstring says a failed install leaves the payment retryable. When the failure happens while connecting the
  new agent, the failed marketplace row stays and blocks every retry (`PurchaseTheorems.FailedConnectBlocksRetry`); the
  exact condition is `RetryCompletesIffVacant`.
- The amount that is booked is re-read after the install's commit. A second checkout in that window books the new price
  against the old payment (`PurchaseRevenue.RepricedInTheWindow`); what is booked is always the price of the last order
  committed in that window (`PurchaseHistory.BookedIsPaidIff`).
- "A paid listing is never installed without a verified payment" holds with "paid" read at the gate, not at the install
  (`PurchaseHistory.InstallsAreBacked`): it fails exactly when the listing is made paid between the two
  (`PurchaseHistory.UnpaidInstallExactly`, a run in `PurchaseTheorems.SeenFreeInstalledPaid`).
- A failure before the guarded block is never refunded, and one after the settlement is refunded on top of it
  (`CreditLedger.DeviationByFailurePoint`, `AiGateway.Account.Chat`).
- A negative `max_tokens` passes the request schema and lends credit (`AiGateway.LendsExactly`); with an ordinary request
  beside it, it overdraws an empty account (`AiGateway.NegativeMaxTokensOverdraws`). The account is safe exactly for
  reservations above minus half a unit of the column (`CreditLedger.NeverOverdrawnExactly`).
- "Five failed codes in fifteen minutes" is guaranteed only for windows shorter by the time between the start of a
  request's transaction, which stamps the failure, and the moment the limit is checked (`MfaLockout.GuaranteedExactly`).
  "Locked for 15 minutes" runs from the fifth last failure (`MfaLockout.LockedExactly`).
- The worker's own `TimeoutError` does not contain the word its handler looks for (`JobWorker.OwnTimeoutIsRetried`).
  A job whose dead-letter push fails is gone without a trace (`JobWorker.LostInSilence`), a JSON value that is no object
  ends the worker (`JobWorker.LossWithoutFaults`), and a worker that dies between the pop and the push takes its job along.
- A publish that began before a soft delete ends it in status PUBLISHED (`AgentLifecycle.LatePublishBreaks`, exact
  condition `AgentLifecycle.RunConsistentExactly`), and a purge with a retention below 30 days can remove a restored agent (`AgentLifecycle.PurgeIsSafeExactly`).
- The session cap holds for logins that do not overlap; n overlapping logins exceed it by up to n - 1
  (`Sessions.CapOverRuns`, `Sessions.OverlappingLoginsPassTheCap`).
- The slug backfill does not look at rows that were already complete (`Slugs.UntouchedRowsCollideExactly`).

## Model

| member | source | states |
|---|---|---|
| `PurchaseTheorems.SoldAtMostOnce` | app/agent_store/service.py:1301-1464 | in every interleaving from an empty purchase table no (listing, buyer) pair is sold twice, completed purchases and sales correspond, and each install count is the sales plus the direct installs |
| `PurchaseTheorems.ReplaysAgree` | app/agent_store/service.py:1345-1413 | any two successful answers for one pair carry the same payment and the same installation |
| `PurchaseTheorems.CompletedIsFinal` | app/agent_store/service.py:1301-1464 | a completed purchase never changes again: payment, amount, shares, installation |
| `PurchaseInvariant.StepInv` | app/agent_store/service.py:1168-1464 | one invariant of rows, sales, locks, callers, slots and counts is kept by every step of every caller, although the install commit drops the row lock early |
| `PurchaseInvariant.RunInv` | app/agent_store/service.py:1168-1464 | it holds after every run |
| `PurchaseHistory.InstallsAreBacked` | app/agent_store/service.py:780-839 | every install the store triggers in any run comes after an event that presented a valid signature over an order minted here for this listing and buyer, or its own gate saw the listing free and published; nobody installs their own listing |
| `PurchaseHistory.UnpaidInstallExactly` | app/agent_store/service.py:787-839 | a direct install of a listing that is paid at that moment goes without a payment exactly when its gate saw the listing free and the publisher made it paid in between |
| `PurchaseHistory.ClearedSawFree` | app/agent_store/service.py:787-819 | in every run whoever is cleared without a purchase passed, earlier in that run, a gate for this pair that saw the listing free and published |
| `PurchaseTheorems.GateNeedsFreeOrPurchase` | app/agent_store/service.py:787-819 | the direct-install gate opens exactly for published listings of others that are free or bought |
| `PurchaseTheorems.SeenFreeInstalledPaid` | app/agent_store/service.py:787-839 | a run in which a listing turns paid between gate and install and is installed without purchase |
| `PurchaseHistory.BookedIsPaidIff` | app/agent_store/service.py:1423-1435 | over runs: a sale books the price of the last order committed for its pair between the install and the completing commit, or of the paid order if there is none, and so the paid price exactly when the two prices agree |
| `PurchaseHistory.UndisturbedBooksWhatWasPaid` | app/agent_store/service.py:1371-1435 | without an order commit for the pair in that window what was paid is booked |
| `PurchaseRevenue.RepricedInTheWindow` | app/agent_store/service.py:1267-1276 | a run in which a second checkout changes the amount that is booked for the first payment |
| `PurchaseTheorems.RetryCompletesIffVacant` | app/agent_store/service.py:1371-1464 | an undisturbed verify of a paid pending purchase completes exactly when the marketplace slot is vacant, then with a completed row, one more install, a sale at the listing's rate and the slot's id as answer; otherwise it changes no purchase |
| `PurchaseTheorems.FailedConnectBlocksRetry` | app/marketplace/service.py:790-913 | after an install that failed while connecting, the retry meets a conflict |
| `PurchaseProtocol.VerifyLookup` | app/agent_store/service.py:1168-1202 | the row it takes is pending, unlocked, of the signed order, of a foreign listing, with no completed row beside it; it answers ready only from a completed row of the same payment |
| `PurchaseAnswers.ReplayIsAnswered` | app/agent_store/service.py:1345-1368 | in every run, whoever presents the payment of any sale again, validly signed, is answered ready with that sale's installation; another valid payment for the pair is told that the listing was bought |
| `PurchaseAnswers.FoldIsAnswered` | app/agent_store/service.py:1390-1413 | in every run, a caller that met a conflict is answered with the rival's installation once the rival completed with the same payment, and is told to retry before or if the payment was another |
| `PurchaseAnswers.VerifyTakesExactly` | app/agent_store/service.py:1301-1364 | a verify call takes a row exactly when the listing is on sale, the gateway configured, the signature valid, nothing bought, and the pending row free and of the signed order |
| `PurchaseAnswers.VerifyRefusalExactly` | app/agent_store/service.py:1301-1364 | each reason for refusing a verify call, exact for the checks before the row and with the row that gives cause after them |
| `PurchaseAnswers.OrderExactly` | app/agent_store/service.py:1204-1250 | an order is minted at the listing's price exactly for a foreign published paid listing that is not bought yet, with the gateway configured |
| `PurchaseAnswers.OrderRefusalExactly` | app/agent_store/service.py:1204-1250 | each reason for refusing an order, with its exact condition |
| `PurchaseAnswers.DirectRefusalExactly` | app/agent_store/service.py:787-819 | each reason for refusing a direct install, with its exact condition |
| `PurchaseAnswers.OrderIsRecorded` | app/agent_store/service.py:1267-1290 | committing an order leaves one pending row of the pair, with this order at the minted price, and touches no other row |
| `PurchaseAnswers.LockedRowsWait` | app/agent_store/service.py:1168-1202 | whoever needs a row that another caller holds waits and changes nothing |
| `PurchaseAnswers.RejectedIsRetryable` | app/agent_store/service.py:1371-1421 | after a rejected install the same payment can be verified again |
| `PurchaseAnswers.CrashedIsTakeable` | app/agent_store/service.py:1168-1202 | what a caller was verifying when it died can be taken by the next one |
| `PurchaseAnswers.DirectInstallExactly` | app/agent_store/service.py:838-857 | an undisturbed direct install goes live, counts once, and relinks the purchase exactly if the slot is vacant; otherwise nothing changes |
| `PurchaseAnswers.SlotsAreRevived` | app/marketplace/service.py:790-913 | an uninstalled slot is revived under its old id |
| `PurchaseAnswers.EditExactly` | app/agent_store/service.py:228-253 | an edit sets what it is given, keeps publisher and count, and touches nothing else |
| `PurchaseProtocol.FoldReply` | app/agent_store/service.py:1390-1413 | the fold-back answers ready only from a completed purchase of the same payment |
| `PurchaseRevenue.AnalyticsIsWhatWasBooked` | app/agent_store/service.py:383-408 | the publisher's three sums equal the sums over the completing commits, in every run |
| `PurchaseRevenue.AnalyticsAddUp` | app/agent_store/service.py:383-408 | gross is publisher plus platform revenue, and at a constant rate publisher revenue is within half a cent per sale of the exact share |
| `RevenueSplit.HalfEvenIsTheNearest` | app/agent_store/service.py:1425-1426 | the rounded share is the nearest cent with ties to even, and the only such |
| `RevenueSplit.SharesNonNegativeIffProperRate` | app/agent_store/service.py:1423-1426 | both shares are non-negative for all amounts exactly when the rate lies between 0 and 10000 |
| `RevenueSplit.SplitIsExact` | app/agent_store/service.py:1423-1426 | the shares sum to the amount and the publisher's is within half a cent |
| `PurchaseStore.Store.CreatePurchaseOrder` | app/agent_store/service.py:1204-1250 | refuses in the source's order, the unconfigured gateway included, or mints an order for this pair at this price; nothing else changes |
| `PurchaseStore.Store.RecordPendingPurchase` | app/agent_store/service.py:1267-1290 | reprices the pending row or opens one |
| `PurchaseStore.Store.LockRelevantPurchase` | app/agent_store/service.py:1168-1202 | takes the lock, answers, or waits, as the step does of which `ReplayIsAnswered`, `VerifyTakesExactly` and `VerifyRefusalExactly` speak |
| `PurchaseStore.Store.InstallForPurchase` | app/agent_store/service.py:1370-1421 | installs, conflicts or fails, as the step says |
| `PurchaseStore.Store.CompletePurchase` | app/agent_store/service.py:1423-1452 | writes shares, status, installation and count, as the step says |
| `PurchaseStore.Store.FoldBack` | app/agent_store/service.py:1390-1413 | answers from the completed purchase or asks for a retry |
| `PurchaseStore.Store.InstallGate` | app/agent_store/service.py:787-819 | denies or clears a direct install |
| `PurchaseStore.Store.FinishDirectInstall` | app/agent_store/service.py:838-857 | counts the install and links the purchase |
| `ListingModeration.ReachableExactly` | app/agent_store/service.py:255-308 | the reachable listings: published implies a publication date; the flag implies a date and no suspension; nothing more |
| `ListingModeration.PublisherStepsAlone` | app/agent_store/service.py:255-308 | publisher steps never publish, never leave a suspension, never raise the flag |
| `ListingModeration.PublisherReachesExactly` | app/agent_store/service.py:255-308 | what a publisher can make of a listing without an admin, exactly: nothing of one suspended or under review, of any other a draft, private, archived or submitted one with its first publication date, without the flag if it was published |
| `ListingModeration.FirstPublicationIsKept` | app/agent_store/service.py:976-1019 | the publication date never changes once set |
| `ListingModeration.FeaturedHasACause` | app/agent_store/service.py:976-1019 | a featured listing was featured by an admin while published and not taken down since |
| `ListingModeration.RejectionKeepsTheFlag` | app/agent_store/service.py:976-1019 | reject, submit, approve restores the very row, flag and date included |
| `ListingModeration.FeaturedShelf` | app/agent_store/service.py:663-665 | the shelf holds only published listings, at most twelve, and misses one only when full |
| `ListingModeration.FeaturedInOrder` | app/agent_store/service.py:663-665 | the shelf follows the order of the listings |
| `ListingModeration.ListingRow.SubmitListing` | app/agent_store/service.py:255-273 | submits exactly drafts, private and rejected listings, changing the status alone; a refusal changes nothing |
| `ListingModeration.ListingRow.SetListingStatus` | app/agent_store/service.py:276-308 | which status changes go through, exactly, and the row they leave: a published listing loses its flag; a refusal changes nothing |
| `ListingModeration.ListingRow.ModerateListing` | app/agent_store/service.py:976-1019 | status, flag and publication date after each admin action; featuring fails exactly on unpublished listings |
| `CreditLedger.Conservation` | app/ai/service.py:114-248 | at every commit of every interleaving balance plus net charges is the opening balance, up to half a unit of the column per write |
| `CreditLedger.ExactConservation` | app/ai/service.py:114-248 | exactly so for costs that fit the column |
| `CreditLedger.ConservationInsideProviderPhase` | app/ai/service.py:114-248 | if requests fail only inside the provider phase, the charges are outstanding reservations plus settled actual costs |
| `CreditLedger.DeviationByFailurePoint` | app/ai/service.py:114-248 | at every commit of every run the balance is the opening balance less the promised charges less exactly what each failure met so far has taken at its failure point |
| `CreditLedger.NeverOverdrawn` | app/ai/service.py:114-119 | with reservations above minus half a unit and settlements less than half a unit over, no interleaving makes the balance negative at any commit |
| `CreditLedger.NeverOverdrawnExactly` | app/ai/service.py:114-248 | no run ends negative exactly for these two bounds: beyond either there is a run that does |
| `CreditLedger.SettlementSafeIff` | app/ai/service.py:190-192 | a settlement is safe for every balance exactly when it exceeds its reservation by less than half a unit |
| `CreditLedger.RefundSafeIff` | app/ai/service.py:232-238 | a refund is safe for every balance exactly when its reservation is above minus half a unit |
| `CreditLedger.NegativeReservationOverdraws` | app/ai/service.py:110-119 | for every reservation of minus half a unit or less, a run from an empty account that ends negative |
| `AiGateway.LendsExactly` | app/ai/service.py:58-76 | which max_tokens give a lending quote: none for a free model, for others exactly those at or below a negative limit |
| `AiGateway.NegativeMaxTokensOverdraws` | app/ai/service.py:110-119 | for every priced model and prompt a max_tokens with which a chat request and an ordinary one overdraw an empty account |
| `CreditPricing.UpfrontCovers` | app/ai/service.py:58-76 | within its token allowances a model priced no higher never costs more than the reservation |
| `CreditPricing.CoverNeedsTheRates` | app/ai/service.py:58-76 | covering every request holds exactly when neither rate of the used model is higher |
| `CreditPricing.QuotesAQuarter` | app/ai/service.py:74-76 | a prompt is quoted at least a quarter of its characters as input tokens and at least ten: exactly the larger |
| `CreditPricing.PricesPerMillion` | app/ai/service.py:58-72 | dollars for i million input and o million output tokens of each family |
| `CreditPricing.FamiliesByName` | app/ai/service.py:62-66 | which model names are priced as flagship or premium, exactly |
| `CreditPricing.CheapFamiliesByName` | app/ai/service.py:67-71 | which of the others are priced as Gemini or as free |
| `AiGateway.PricedRequestsNeverOverdraw` | app/ai/service.py:58-119 | requests quoted and served by the price table never overdraw the account, whatever else fails |
| `AiGateway.AllFailedIsFree` | app/ai/service.py:182-248 | if all providers fail, the net charge is zero exactly when the guarded block was reached and the refund committed |
| `AiGateway.Account.Chat` | app/ai/service.py:78-248 | an answer is reported exactly when the balance sufficed, the request row and the report went through and some provider answered with only failing ones before it, and it is that provider's answer with the earlier errors; what is taken from the balance, to within three roundings, at every failure point |
| `AiGateway.Account.ReserveCredits` | app/ai/service.py:114-119 | deducts exactly when the balance suffices |
| `AiGateway.Account.RefundRequest` | app/ai/service.py:232-238 | gives back the upfront cost, settled or not |
| `AiGateway.AdmittedPerWindow` | app/ai/service.py:34-56 | any sliding minute admits at most twice the per-minute limit |
| `AiGateway.AdmittedExactly` | app/ai/service.py:34-56 | of every calendar minute exactly the smaller of its arrivals and the limit is let through |
| `ProviderFallback.FallbackOrderIsComplete` | app/ai/service.py:133-137 | the requested provider first, nobody twice, and with fallback exactly the allowed providers |
| `ProviderFallback.FallbackKeepsOrder` | app/ai/service.py:133-137 | behind the requested provider the others follow in the order in which they are allowed |
| `ProviderFallback.FirstAnswerWins` | app/ai/service.py:150-183 | the first provider that answers is used; failure means all failed |
| `ProviderFallback.AnsweredExactly` | app/ai/service.py:150-183 | the loop ends with an answer exactly when some provider is the first to answer; a construction error ends it there |
| `ProviderFallback.BuildFallbackOrder` | app/ai/service.py:133-137 | the loop builds that order |
| `ProviderFallback.AskProviders` | app/ai/service.py:150-183 | the loop's answer, with the error of each earlier provider recorded once, in order |
| `JobWorker.NoJobLost` | scripts/worker.py:366-452 | in a run without a losing step (no death between pop and push, no failing promotion push, no losing turn) every job stays in one of the four lists, and exactly as often as at the start if no ack raises after its push |
| `JobWorker.HandleAccounts` | scripts/worker.py:401-452 | a turn leaves one copy of the popped entry, except exactly where it loses or doubles it |
| `JobOutcomes.TurnLists` | scripts/worker.py:401-452 | a successful turn appends the popped entry to done alone; a given-up one goes to dead, a rescheduled one to delayed with its attempt raised, and what could not be read or handled to dead as it came |
| `JobOutcomes.OtherLists` | app/monitoring/queue.py:101-120 | nothing but a turn adds to done or dead; a promotion moves the earliest due entry to the end of the ready list |
| `JobOutcomes.ListsOverRuns` | scripts/worker.py:366-452 | over every run done grows by exactly the entries whose turn succeeded, and dead by exactly those given up or pushed raw, in order |
| `JobOutcomes.DomainDecision` | scripts/worker.py:110-149 | a domain job is given up exactly at its limit, the sixth attempt by default, and before retried after 2^attempt seconds, at most 300 |
| `JobOutcomes.StudioDecision` | scripts/worker.py:152-193 | a studio job likewise with 4 attempts and 120 seconds, and at once on an error text with the word timeout |
| `JobOutcomes.WebhookDecision` | scripts/worker.py:50-107 | a webhook is given up exactly at the configured limit or when its failure is final |
| `JobOutcomes.TimeoutIsGivenUp` | scripts/worker.py:165-167 | wherever the word stands and however it is capitalised |
| `JobOutcomes.FailingJobUsesItsRounds` | scripts/worker.py:110-149 | a domain job that keeps failing is processed exactly max_attempts - attempt + 1 times and then dead-lettered once: the bound of `ProcessedAtMost` is reached |
| `JobWorker.LossWithoutFaults` | scripts/worker.py:407-420 | with every call going through, only JSON values that are no objects are lost, and they stop the worker |
| `JobWorker.LostInSilence` | app/monitoring/queue.py:123-133 | a studio or domain job is lost with the worker running on exactly when it is given up and the dead-letter push fails |
| `JobWorker.QueueDrains` | scripts/worker.py:110-193 | without arrivals, jobs handed out plus rounds left never exceed the rounds at the start |
| `JobWorker.TurnsAreBounded` | scripts/worker.py:366-452 | turns taken plus entries still pending never exceed the rounds at the start, so the queue drains, whatever fails |
| `JobWorker.ProcessedAtMost` | scripts/worker.py:110-193 | a job starting at attempt a is processed at most max(1, max_attempts - a + 1) times |
| `JobWorker.TotalBackoff` | scripts/worker.py:110-193 | all delays of a studio or domain job together are at most min(2^max - 2^a, (max - a) * cap) |
| `JobWorker.OwnTimeoutIsRetried` | scripts/worker.py:165-317 | the worker's own timeout errors are dead-lettered only at the attempt limit |
| `WorkerProcess.Worker.FailWebhook` | scripts/worker.py:50-107 | the webhook handler pushes, acks or raises as the model says |
| `WorkerProcess.Worker.FailDomain` | scripts/worker.py:110-149 | the domain handler likewise |
| `WorkerProcess.Worker.FailStudio` | scripts/worker.py:152-193 | the studio handler likewise |
| `WorkerProcess.Worker.PromoteDue` | app/monitoring/queue.py:101-120 | promotes due entries, earliest first, and stops exactly at the limit, at a failing push, or when nothing is due |
| `WorkerProcess.Worker.MainLoop` | scripts/worker.py:366-452 | each round promotes a batch, pops one entry and processes it, as `TurnLists` and `OtherLists` say; it ends before its last round only by a crash |
| `Sessions.LoginKeepsTheNewest` | app/auth/service.py:76-129 | after any run, an uninterrupted login leaves exactly the max(1, cap) last active tokens, the new one at the end, and no token it ends was created after one it leaves |
| `Sessions.RunOrdered` | app/auth/service.py:98-107 | every run keeps the table in the order of created_at, whatever order the saves commit in |
| `Sessions.CapOverRuns` | app/auth/service.py:93-112 | after an eviction and any run, at most max(0, cap - 1) plus the tokens saved since are active |
| `Sessions.OverlappingLoginsPassTheCap` | app/auth/service.py:93-129 | n overlapping logins reach that bound; without a policy nothing is evicted |
| `Sessions.EvictKeepsTheNewest` | app/auth/service.py:97-112 | after any run, an eviction ends exactly the first active tokens, none created after one that stays, and at most max(0, cap - 1) stay |
| `Sessions.NeverActiveAgain` | app/auth/repository.py:36-64 | a revoked or expired token is never active again, in any run |
| `Sessions.LogoutEnds` | app/auth/repository.py:36-47 | a logout stamps the rows of its token that were not revoked, ends the session, and touches no other row |
| `Sessions.LogoutAllEnds` | app/auth/repository.py:49-64 | a logout from everywhere leaves no token active, at any time, and keeps earlier revocation times |
| `Sessions.LoggedOutForGood` | app/auth/repository.py:36-64 | from a logout on, of one token or all, a token issued before is never active again, in any run |
| `Sessions.SavedIsActiveExactly` | app/auth/repository.py:23-29 | a new token is active exactly until it expires, in every run that neither logs it out nor evicts |
| `Sessions.TokensAreUnique` | app/auth/repository.py:23-29 | in every run no two rows carry one token, no row is dropped, and only saves add rows |
| `Sessions.TokenTable.CreateRefreshToken` | app/auth/service.py:76-129 | evicts under a policy, then saves |
| `Sessions.TokenTable.RevokeRefreshToken` | app/auth/repository.py:36-47 | revokes the token and reports whether there was one to revoke |
| `Sessions.TokenTable.RevokeAllUserTokens` | app/auth/repository.py:49-64 | revokes every token that was not revoked, keeping earlier revocation times |
| `MfaLockout.GuaranteedExactly` | app/auth/service.py:745-793 | every run keeps every closed window at five recorded failures exactly for window lengths up to fifteen minutes less the longest stamp-to-check delay |
| `MfaLockout.LockedExactly` | app/auth/service.py:745-757 | after every run, locked exactly until fifteen minutes after the fifth last failure; meanwhile nothing is accepted or recorded |
| `MfaLockout.VerdictExactly` | app/auth/service.py:745-793 | after every run, outside the lock: a right authenticator code is accepted and changes nothing; otherwise the first matching recovery hash is used up; a failure is recorded exactly when neither is there |
| `MfaLockout.RecoveryCodesConserved` | app/auth/service.py:765-779 | over every run each stored hash is still stored or was consumed once |
| `MfaLockout.RecoveryWorksOnce` | app/auth/service.py:765-779 | a recovery code matching one hash works once |
| `MfaLockout.MfaUser.UseRecoveryCode` | app/auth/service.py:765-779 | the rebuilt list lacks exactly the first matching hash |
| `MfaLockout.MfaUser.VerifyMfa` | app/auth/service.py:745-793 | verdict and new state of one attempt |
| `AgentLifecycle.StepConsistent` | app/agent_platform/lifecycle.py:136-153 | DELETED exactly when deleted_at is set: kept for all agents by exactly the steps that are not a publish, unpublish, pause or resume writing after a delete it did not see |
| `AgentLifecycle.RunConsistentExactly` | app/agent_platform/publish/service.py:239-393 | a run is consistent at every commit exactly when none of its status writes is late |
| `AgentLifecycle.LatePublishBreaks` | app/agent_platform/publish/service.py:239-273 | a run from the empty database that leaves an agent published and deleted |
| `AgentLifecycle.ComplementaryExactly` | app/agent_platform/lifecycle.py:204-213 | at every instant a deleted agent is either restorable or purgeable exactly for the default retention |
| `AgentLifecycle.PurgeIsSafeExactly` | app/agent_platform/lifecycle.py:315-360 | no run purges an agent that is active at that moment exactly when the retention is at least 30 days |
| `AgentLifecycle.CleanupIdempotent` | app/agent_platform/lifecycle.py:250-311 | repeated cleanups have the effect of the first; a cleanup arriving after a restore does nothing |
| `AgentLifecycle.KeptExactly` | app/agent_platform/lifecycle.py:273-297 | a conversation or knowledge link survives a run, while its agent does, exactly when no cleanup met the agent deleted with the last successful delete asking not to keep it |
| `AgentLifecycle.WhileDeletedNoneAuthenticates` | app/agent_platform/dependencies.py:78-92 | from a successful delete on, until a restore, no key of the agent authenticates in any run, cleanup or not |
| `AgentLifecycle.DeadForGood` | app/agent_platform/lifecycle.py:363-383 | key revocation is final in every run, key deletions included |
| `AgentLifecycle.EndedForGood` | app/agent_platform/publish/repository.py:95-104 | revoking or deleting a key ends it in every run that follows, and no other key with it |
| `AgentLifecycle.IssuedKeyWorks` | app/agent_platform/dependencies.py:73-92 | after any run, a new key of an agent that is not deleted authenticates exactly until it expires, in every run that spares key and agent |
| `AgentLifecycle.NoKeySurvivesCleanup` | app/agent_platform/lifecycle.py:250-271 | no key issued to a deleted agent before its cleanup ever authenticates again, even after a restore |
| `AgentLifecycle.RestoreBeforeCleanup` | app/agent_platform/dependencies.py:78-92 | a restore before the cleanup gives back exactly the keys of an agent that was never published |
| `AgentLifecycle.DeletedUntilRestored` | app/agent_platform/lifecycle.py:98-246 | from a successful delete on, until a restore, the agent stays deleted as of that moment, unpublished unless a status write is late; a restore makes a draft of it exactly within thirty days |
| `AgentLifecycle.WriteExactly` | app/agent_platform/publish/service.py:239-395 | an undisturbed publish, unpublish, pause or resume: on which agents it goes through, and what it leaves |
| `AgentLifecycle.AddedIsKeptExactly` | app/agent_platform/lifecycle.py:273-297 | a conversation or link added at any time is there afterwards, exactly as long as KeptExactly says |
| `AgentLifecycle.PurgedExactly` | app/agent_platform/lifecycle.py:315-360 | an undisturbed purge removes an agent exactly when it was deleted longer ago than the retention, and no other |
| `AgentLifecycle.Lifecycle.SoftDeleteAgent` | app/agent_platform/lifecycle.py:98-183 | when it succeeds, and the agent it leaves |
| `AgentLifecycle.Lifecycle.RestoreAgent` | app/agent_platform/lifecycle.py:187-246 | succeeds exactly within the window |
| `AgentLifecycle.Lifecycle.RunCleanup` | app/agent_platform/lifecycle.py:250-311 | acts exactly on soft-deleted agents |
| `AgentLifecycle.Lifecycle.PurgeExpired` | app/agent_platform/lifecycle.py:315-360 | undisturbed, removes exactly the expired agents, each reported once |
| `AgentLifecycle.Lifecycle.RevokeAllKeys` | app/agent_platform/lifecycle.py:363-383 | revokes every key that was not revoked |
| `KnowledgeMerge.MergeIsTopK` | app/agent_platform/agent_runtime.py:411-449 | merging per-base top-k lists and cutting to k ranks a top k of everything the bases hold, a failed base counting as empty |
| `KnowledgeMerge.MergeScoresLikeOneSearch` | app/agent_platform/agent_runtime.py:411-449 | its scores are, place by place, those of one search over all bases |
| `KnowledgeMerge.SameScores` | app/agent_platform/agent_runtime.py:448-449 | any two top-k rankings of the same items have the same scores |
| `KnowledgeMerge.TiesKeepTheirOrder` | app/agent_platform/agent_runtime.py:448 | the sort keeps items of equal score in the order in which it got them |
| `KnowledgeMerge.TiesFollowTheAttachments` | app/agent_platform/agent_runtime.py:428-449 | of each score the answer has, in the order of the attachments, what they delivered; only of the lowest score answered the last ones may be cut |
| `KnowledgeMerge.SearchAgentKnowledge` | app/agent_platform/agent_runtime.py:411-449 | the loop computes that answer |
| `Slugs.BaseIsJoin` | alembic/versions/z0n1o2p3q4r5_agent_slug_provider_model.py:27-29 | slugify joins the name's maximal groups of letters and digits with hyphens |
| `Slugs.FixedExactlySlugs` | app/agent_platform/agent_runtime.py:359-362 | slugify leaves unchanged exactly the non-empty hyphen-separated groups |
| `Slugs.SlugifyGivesSlugs` | app/agent_platform/agent_runtime.py:359-362 | the result is such a slug and slugging it again changes nothing |
| `Slugs.SlugifyExactly` | alembic/versions/z0n1o2p3q4r5_agent_slug_provider_model.py:27-29 | the fallback is taken exactly for names without a letter or digit |
| `Text.LowerAscii` | alembic/versions/z0n1o2p3q4r5_agent_slug_provider_model.py:27-29 | lower-casing ASCII text moves each capital to the small letter of its place and changes nothing else |
| `Text.LowerToAscii` | alembic/versions/z0n1o2p3q4r5_agent_slug_provider_model.py:27-29 | the Kelvin sign and the dotted capital I lower-case to ASCII letters |
| `Text.DecimalReadsBack` | alembic/versions/z0n1o2p3q4r5_agent_slug_provider_model.py:64-64 | a suffix is the number in decimal digits without leading zeros |
| `Slugs.SearchEnds` | alembic/versions/z0n1o2p3q4r5_agent_slug_provider_model.py:60-64 | a set of n slugs cannot hold n + 1 candidates, so the search ends |
| `Slugs.Allocate` | alembic/versions/z0n1o2p3q4r5_agent_slug_provider_model.py:60-65 | the inner loop finds the first free candidate |
| `Slugs.CopySlug` | app/agent_store/service.py:312-320 | so does the loop for a duplicated listing, and its slug differs from the source's |
| `Slugs.Backfill.FillAll` | alembic/versions/z0n1o2p3q4r5_agent_slug_provider_model.py:53-83 | every row gets the first candidate of its name that is free in its company at its turn |
| `Slugs.AssignedDistinct` | alembic/versions/z0n1o2p3q4r5_agent_slug_provider_model.py:53-65 | slugs given out in one company are pairwise distinct |
| `Slugs.AssignedUnique` | alembic/versions/z0n1o2p3q4r5_agent_slug_provider_model.py:53-65 | the rule determines every slug |
| `Slugs.NthOfAName` | alembic/versions/z0n1o2p3q4r5_agent_slug_provider_model.py:53-65 | the first row of a name in a company gets the base, the second base-2, the third base-3, whatever rows of other companies come between |
| `Slugs.AssignedAreSlugs` | alembic/versions/z0n1o2p3q4r5_agent_slug_provider_model.py:53-65 | every slug given out is hyphen-separated non-empty groups |
| `Slugs.UntouchedRowsCollideExactly` | alembic/versions/z0n1o2p3q4r5_agent_slug_provider_model.py:46-51 | the slugs of rows that were not selected can be given out again exactly when one of them has slug shape |
| `CatalogUpsert.UpgradeSettles` | scripts/generate_marketplace_seed_sql.py:77-200 | the upgrade leaves each catalog template as its entry says, with exactly one latest version, the one its version column names |
| `CatalogUpsert.UpgradeTwice` | scripts/generate_marketplace_seed_sql.py:158-240 | a second run changes only updated_at |
| `CatalogUpsert.OthersUntouched` | scripts/generate_marketplace_seed_sql.py:158-240 | templates outside the catalog and their versions keep their rows |
| `CatalogUpsert.HistoryKept` | scripts/generate_marketplace_seed_sql.py:158-200 | no version row is lost, and older ones lose at most their flag |
| `CatalogUpsert.DocExactly` | scripts/generate_marketplace_seed_sql.py:77-200 | an entry goes through exactly when its slug and id are both taken or both free, and is settled exactly when they agree |
| `CatalogUpsert.DocFacts` | scripts/generate_marketplace_seed_sql.py:77-200 | what one entry does to every row of the tables; the first publication date, install count and creation date are kept |
| `CatalogUpsert.EntryHitsTwoRows` | scripts/generate_marketplace_seed_sql.py:77-200 | where slug and id belong to two rows, each gets a part of the entry |
| `CatalogUpsert.FileExactly` | scripts/generate_marketplace_seed_sql.py:202-240 | a file fails exactly when some entry at its turn meets a taken slug with a free id or the reverse, and then the tables are as they were |
| `CatalogUpsert.SeedLeavesOneLatestExactly` | scripts/generate_marketplace_seed_sql.py:158-200 | the seed file leaves one latest version exactly when no other version carried the flag |
| `CatalogUpsert.CatalogTables.RunFile` | scripts/generate_marketplace_seed_sql.py:202-240 | the file's statements in one transaction: all entries, or the tables as they were |
| `SqlQuoting.QuotingRoundTrip` | scripts/generate_marketplace_seed_sql.py:28-29 | any text, quoted, is read back as that text, and the statement goes on behind it |
| `SqlQuoting.ArrayRoundTrip` | scripts/generate_marketplace_seed_sql.py:36-39 | a list of tags is read back element by element |

## Left out

- PurchaseProtocol: the install count is raised by an atomic read and write; two commits that raise it at once are not modelled.
- PurchaseStore.Store.CreatePurchaseOrder: currency, buyer user, purchase metadata other than order and payment id; the request that reads before and writes after a completing commit (see above).
- ListingModeration.ListingRow.SubmitListing: moderation notes and notifications; listing creation and edits other than the status.
- AiGateway.Account.Chat: retry policy inside one provider call, retrieval context, request history rows; generate is the case of one provider without fallback.
- AiGateway.AdmittedPerWindow: the limiter lets everything through while Redis is down; the counter's 70 second expiry.
- JobWorker.QueueDrains: redriven webhooks and jobs put back by an operator count as arrivals.
- JobWorker.NoJobLost: two delayed jobs of identical bytes would be one member of the Redis set; they carry timestamps.
- JobWorker.TotalBackoff: says nothing about webhooks, whose backoff is a configured function.
- Sessions.LoginKeepsTheNewest: tokens themselves, their signatures and the choice of their lifetime; expiry is an input.
- MfaLockout.GuaranteedExactly: requests of one user are serialized; overlapping requests may each pass the check.
- MfaLockout.MfaUser.VerifyMfa: reuse of one authenticator code within its validity, account status checks.
- AgentLifecycle.PurgeIsSafeExactly: ids are never reused.
- AgentLifecycle.RestoreBeforeCleanup: embed tokens and company checks of a key.
- AgentLifecycle.Lifecycle.RunCleanup: messages, caches and audit rows; a conversation deleted by other services.
- KnowledgeMerge.SearchAgentKnowledge: embedding and vector search, which are taken to return each base's own top k or to fail.
- Slugs.Backfill.FillAll: the provider and model columns; a slug longer than the column would be refused by the database.
- CatalogUpsert.UpgradeSettles: the single columns behind body, the rollback file, and constraints other than slug, primary key, version key and foreign key.
- Ratings, password reset, tool calls and message windows, admin scripts and routers: single-step code without a property across steps.
