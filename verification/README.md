# Verification model of the market-data gateway, its supervisor and its maintenance scripts

This project models the stateful core of the trading platform in Dafny 4.11 and proves properties of it for
all inputs and all runs. `dafny verify dfyconfig.toml` checks everything.

Each component comes as a specification (pure functions on values, with the main theorems as lemmas about them) and,
where the program updates state in place, a class or an array method that is proved to refine it.

| component | files | what is proved |
|---|---|---|
| Subscription registry | `SubscriptionSpec`, `OperationMeaning`, `SubscriptionRegistry`, `Debounce` | the two nested dictionaries refine a flat relation from (symbol, reason, source) to mode; callbacks announce exactly the changes; when the debounce delay protects a client; whose timers can stop a stream |
| Bracket checker | `Brackets`, `JsLexer`, `BracketChecker`, `WordEquations`, `Opacity`, `OpacityExact` | the one-pass scanner decides the three-bracket Dyck language on the word of an independent lexer; each report is the only justified one; exactly where strings and comments are opaque |
| Failover manager | `FailoverSpec`, `FailoverManager` | four passes find the first usable spot, which is the least (tier, position) while statuses do not change; transitions form per-symbol chains; counters add up |
| Process supervisor | `SupervisorSpec`, `RestartPacing`, `Readiness`, `SupervisorRuns`, `ServiceSupervisor` | restart-rate bound; what readiness means; alternating announcements |
| Gateway quotes | `QuoteHistory`, `QuoteGateway`, `TopMovers`, `GatewayToken` | cache = latest tick per alias; ring of consecutive sequence numbers; fan-out; true top-k lists; exact sets of accepted and of raising tokens |
| Ledger reconciliation | `Reconciliation` | closed form of three bulk updates, conservation of counts, idempotence |

Beside the theorems that relate a model to a specification, each component has theorems in plain terms: they write out
the program's characters, names, numbers and fields instead of naming the model's own helper functions
(`WordEquations`, `OperationMeaning`, `GatewayToken.PlainVerdict`, `Reconciliation.FateOfRow`, `FailoverSpec.ChoiceByName`,
`SupervisorRuns.GivenUp` and others).

## What the proofs found

- **Unsubscribing with an unvalidated reason.** `subscribe` validates the reason, `unsubscribe` does not. A reason that
  spells another entry's key, such as `WATCHLIST::client_A`, removes that client's entry
  (`Debounce.UnsubscribeCanHitAnotherEntry`). The intended rule holds on every registry content exactly when the call
  does not spell another key (`Debounce.UnsubscribeRemovesNamed`); every valid reason is safe.
- **Reconnecting too late.** Cancelling a timer does nothing once its delay has passed and its callback waits for the
  lock. `Debounce.ReconnectProtects` gives the exact condition under which a reconnect protects a client's entries;
  `Debounce.LateReconnectLosesEntries` is a run in which even the new subscription is lost.
  When an expiring timer gets the lock at once, every reconnect is in time (`Debounce.PromptTimers`).
- **The dot form of gateway tokens.** The docstring allows `<payload>.<signature>`; the code reads the expiry of every
  token without two colons as `0`, so with a colon-free user that form is always expired
  (`GatewayToken.DotFormRejected`), and with any user it is never accepted (`GatewayToken.DotFormNeverAccepted`). The
  accepted tokens are exactly the sealed three-part ones (`GatewayToken.AcceptsExactlySealed`).
- **Signatures that are not ASCII.** Comparing them raises instead of answering; exactly the live tokens with such a
  signature do that (`GatewayToken.RaisesExactlyIncomparable`).
- **"Supervision halted for this service."** The message suggests an end. `SupervisorRuns.HaltIsNotFinal` is a run from
  startup in which a service that was given up is launched again, for each of the three services; a dead service is
  launched exactly when its last start is more than 30 s old or it has a restart left
  (`RestartPacing.LaunchedUnlessExhausted`).
- **"Alive and responsive."** Health flags are sticky. There are runs from startup in which trading stays ready although
  no core service answers any more (`SupervisorRuns.SilentServicesStayReady`), although a pass finds a service dead and
  gives it up (`SupervisorRuns.DeadServiceStaysReady`), and although the backend was relaunched in vain
  (`SupervisorRuns.FailedLaunchStaysReady`). What readiness really means is exact: `SupervisorRuns.ReadyAfterPass` for
  every pass, `SupervisorRuns.ReadyWhileAlive` for a pass that finds every process alive, `Readiness.ReadinessOverRuns`
  for every evaluation of every run.
- **Inserting a string or comment** can change the bracket checker's verdict, for instance after a lone slash
  (`Opacity.SlashIsNotCode`). Bracket words are kept after a text if and only if it ends in code
  (`OpacityExact.WordsKeptExactly`); reports are kept, up to line numbers, if and only if it ends in code or no
  continuation balances it (`OpacityExact.ReportsKeptExactly`).
- **A snapshot can hide a newer tick.** A backfill requested before the first tick and answered after it overwrites the
  cache without being sent, so the cache and the clients disagree (`QuoteHistory.SnapshotHidesTick`); they agree whenever
  the latest arrival is a tick (`QuoteHistory.PushAgreesWithCache`).

## Conventions

- Locks, threads and callbacks: every registry operation is one atomic step, as under its lock. Callbacks do not raise
  and do not re-enter the registry. A timer's expiry and the run of its callback are separate steps.
- Iteration over a Python dictionary or set is modelled by picking elements in an arbitrary order, so results do not
  depend on that order.
- The text functions `upper`, `lower` and `strip` are arbitrary functions, given from outside.
- Time is real-valued and the clock monotone; sleeps last at least as long as asked. Process deaths, probe answers,
  extra delays, adapter statuses, alias sets, HMAC values and float parsing are inputs.
- `hide` statements only narrow what the verifier sees; they add no assumption.

## Model

| member | source | states |
|---|---|---|
| SubscriptionSpec.Highest | market_data_gateway/subscription_registry.py:90-100 | the aggregated mode is "ltpc" for no entries, otherwise one of the entries' modes that no other outranks |
| SubscriptionSpec.HighestUnique | market_data_gateway/subscription_registry.py:47-52 | priorities are distinct, so only one mode of a set can be highest, whatever the visiting order |
| SubscriptionSpec.MakeKeyInjective | market_data_gateway/subscription_registry.py:102-103 | keys of colon-free reasons never collide, whatever the sources contain |
| SubscriptionSpec.HeadOfKey | market_data_gateway/subscription_registry.py:102-103 | a colon-free reason can be read back from its key |
| SubscriptionSpec.AlternatesMeaning | market_data_gateway/subscription_registry.py:133-148 | alternation of a symbol's callbacks, change by change: add first, add exactly after remove, no switch to the current mode |
| SubscriptionSpec.AnnouncingKeepsTracking | market_data_gateway/subscription_registry.py:63-77 | a listener that replays exact announcements keeps knowing which symbols stream and in which mode |
| SubscriptionSpec.SweepAnnounces | market_data_gateway/subscription_registry.py:214-246 | switches of surviving symbols followed by one removal of each emptied symbol announce exactly the difference of the two active-mode maps |
| SubscriptionSpec.LogTellsRun | market_data_gateway/subscription_registry.py:63-77 | if each operation says what it changes, the whole log says what the run of the state machine says, symbol by symbol |
| SubscriptionSpec.HeardConcat | market_data_gateway/subscription_registry.py:63-77 | what a run says is what its parts say |
| SubscriptionSpec.FiringRemovesOrphans | market_data_gateway/subscription_registry.py:214-246 | the callbacks of a firing timer report the removal of a symbol if and only if some removal callback is wired and only the timer's source has entries for it |
| OperationMeaning.ReasonsListed | market_data_gateway/subscription_registry.py:20-45 | the accepted reasons, by purpose |
| OperationMeaning.ActiveByName | market_data_gateway/subscription_registry.py:47-52 | a symbol streams while it has an entry: in full_d30 if any entry asks for it, else full, else option_greeks, else ltpc |
| OperationMeaning.SubscribeMeaning | market_data_gateway/subscription_registry.py:105-150 | the one entry a valid subscription makes and its mode by name; other entries stay; an invalid reason changes nothing, timers included |
| OperationMeaning.ClearReasonMeaning | market_data_gateway/subscription_registry.py:248-271 | afterwards exactly the entries with other reasons are left, in their modes |
| OperationMeaning.DisconnectMeaning | market_data_gateway/subscription_registry.py:184-208 | an immediate disconnect leaves exactly the entries of other sources; an anonymous or debounced one leaves all |
| OperationMeaning.FiringMeaning | market_data_gateway/subscription_registry.py:210-232 | a firing timer leaves exactly the entries of other sources |
| OperationMeaning.UnsubscribeMeaning | market_data_gateway/subscription_registry.py:152-167 | which entries an unsubscribe call removes, by their keys, reasons and sources |
| OperationMeaning.LossesReported | market_data_gateway/subscription_registry.py:235-271 | a removal is reported for exactly the symbols that lose all their entries |
| OperationMeaning.CallbacksExactly | market_data_gateway/subscription_registry.py:133-148 | exactly which add, mode-change and removal callbacks an operation fires, each depending on its own wire only |
| SubscriptionRegistry.ActiveOfFlatten | market_data_gateway/subscription_registry.py:79-82 | both dictionaries are functions of the flat relation: same symbols, stored mode is the highest of the symbol's entries |
| SubscriptionRegistry.FlattenInsert | market_data_gateway/subscription_registry.py:125-130 | filing an entry under its string key is an insertion into the flat relation |
| SubscriptionRegistry.FlattenPruned | market_data_gateway/subscription_registry.py:214-232 | popping entries and deleting emptied symbols removes the corresponding set from the flat relation |
| SubscriptionRegistry.UnsubscribedEntries | market_data_gateway/subscription_registry.py:159-167 | the key-or-reason rule on a symbol's dictionary agrees with the rule on the flat relation |
| SubscriptionRegistry.SubscriptionRegistry.constructor | market_data_gateway/subscription_registry.py:63-88 | a new registry is empty |
| SubscriptionRegistry.SubscriptionRegistry.CalculateHighestMode | market_data_gateway/subscription_registry.py:90-100 | the loop finds the highest mode in any visiting order |
| SubscriptionRegistry.SubscriptionRegistry.Subscribe | market_data_gateway/subscription_registry.py:105-150 | inserts the upper-cased triple and cancels the source's timer, or does nothing for an invalid reason; the stored mode is ltpc, option_greeks or full_d30 exactly for these lower-cased names and full for any other, and on a new symbol it is what is streamed; the callbacks say exactly what changed |
| SubscriptionRegistry.SubscriptionRegistry.Unsubscribe | market_data_gateway/subscription_registry.py:152-182 | removes the entries under the exact key, or those of the reason (and source); the callbacks say exactly what changed |
| SubscriptionRegistry.SubscriptionRegistry.UnsubscribeAllForSource | market_data_gateway/subscription_registry.py:184-208 | cancels the recorded timer and either records a fresh one, leaving entries and log alone, or removes exactly the source's entries now and reports exactly the symbols that had no other |
| SubscriptionRegistry.SubscriptionRegistry.ExecuteUnsubscribeAll | market_data_gateway/subscription_registry.py:210-246 | removes exactly the source's entries and its record; one batch callback at the end, or one callback per symbol, announces the removals |
| SubscriptionRegistry.SubscriptionRegistry.ClearReason | market_data_gateway/subscription_registry.py:248-271 | removes exactly the entries of a reason, whoever made them; a removal is reported for exactly the symbols all of whose entries had it; the callbacks say exactly what changed |
| SubscriptionRegistry.SubscriptionRegistry.TimerExpires | market_data_gateway/subscription_registry.py:203-206 | a waiting timer becomes expired, nothing else changes |
| SubscriptionRegistry.SubscriptionRegistry.TimerRuns | market_data_gateway/subscription_registry.py:200-201 | an expired timer's callback removes its source's entries and forgets whatever timer is recorded for the source; a removal is reported for exactly the symbols that no other source has an entry for |
| SubscriptionRegistry.SubscriptionRegistry.GetEffectiveMode | market_data_gateway/subscription_registry.py:282-284 | answers the highest mode of the symbol's entries, named from full_d30 down to ltpc |
| SubscriptionRegistry.SubscriptionRegistry.GetActiveSymbols | market_data_gateway/subscription_registry.py:273-280 | answers the symbols of the flat relation |
| Debounce.RunWellFormed | market_data_gateway/subscription_registry.py:108-110 | over every run, stored reasons are valid and live recorded timers belong to their sources |
| Debounce.UnsubscribeRemovesNamed | market_data_gateway/subscription_registry.py:152-167 | the intended unsubscribe rule holds on every content if and only if the call does not spell another entry's key; valid reasons never do |
| Debounce.NamedIfUnambiguous | market_data_gateway/subscription_registry.py:159-167 | a call that does not spell another entry's key removes the one entry named, or for an anonymous call without an anonymous entry every entry of the reason |
| Debounce.SpelledEntry | market_data_gateway/subscription_registry.py:159-162 | for every call that spells another entry's key there is a content on which the intended rule fails |
| Debounce.UnsubscribeCanHitAnotherEntry | market_data_gateway/subscription_registry.py:159-162 | a concrete call with an unvalidated reason removes another client's entry |
| Debounce.ReconnectProtects | market_data_gateway/subscription_registry.py:116-123 | after a valid reconnect, the source's entries survive every continuation that spares them if and only if its only live timer is the recorded, still waiting one |
| Debounce.WindowStaysOpen | market_data_gateway/subscription_registry.py:199-206 | until the timer expires, a disconnected source keeps its entries and can still reconnect in time |
| Debounce.DebounceKeepsEntries | market_data_gateway/subscription_registry.py:184-208 | disconnect, reconnect before the timer expires, and anything that spares the entry around it: the entry is kept |
| Debounce.StayingAwayRemoves | market_data_gateway/subscription_registry.py:184-216 | a client that disconnects and stays away has no entry left once its timer has fired |
| Debounce.LateReconnectLosesEntries | market_data_gateway/subscription_registry.py:116-123 | a run in which the reconnect comes after the expiry and all entries are lost |
| Debounce.PromptTimers | market_data_gateway/subscription_registry.py:193-206 | if expiring timers run at once, the table of timers and the waiting timers are inverse to each other and every reconnect is in time |
| Debounce.SubscriberKeepsStream | market_data_gateway/subscription_registry.py:116-150 | once a subscription no timer can still remove is made, its symbol stays streamed over every run that spares it, whichever timers fire, and no removal of it is reported |
| Debounce.FiringSparesOthers | market_data_gateway/subscription_registry.py:184-246 | disconnect, somebody subscribes the symbol, a timer fires later: the symbol is not orphaned, stays streamed, and the firing reports no removal of it |
| Brackets.ScanDecidesBalanced | find_js_syntax_error.py:69-87 | the bracket stack ends empty exactly on the words the three-kind Dyck grammar derives |
| Brackets.ScanDecidesExtendable | find_js_syntax_error.py:72-80 | the stack rejects exactly the words that no continuation balances |
| Brackets.ScanTop | find_js_syntax_error.py:76-77 | the top of the stack is the innermost open bracket, and the only one |
| Brackets.ScanGaps | find_js_syntax_error.py:70-71 | the text after the innermost open bracket is balanced |
| Brackets.BalancedUnfolds | find_js_syntax_error.py:69-87 | a word is balanced exactly when it is empty or starts with a round, curly or square pair around a balanced word, followed by a balanced word |
| Brackets.PairExactly | find_js_syntax_error.py:76-80 | around a balanced word, exactly the pairs (), {} and [] are balanced |
| BracketChecker.CheckJsSyntax | find_js_syntax_error.py:3-90 | the report is justified by lexer and grammar, and the text passes exactly when its bracket word is balanced |
| BracketChecker.JustifiedUnique | find_js_syntax_error.py:69-90 | a text justifies only one report: first offending token, innermost open bracket, and their lines |
| BracketChecker.JustifiedExists | find_js_syntax_error.py:69-90 | every text justifies a report |
| BracketChecker.OneFault | find_js_syntax_error.py:69-87 | the first offender and the innermost open bracket are unique, and an offender rules out any balanced continuation |
| BracketChecker.JustifiedVerdict | find_js_syntax_error.py:84-90 | passing means balanced, also for texts with an unclosed string or comment |
| BracketChecker.ReadLexeme | find_js_syntax_error.py:43-67 | which characters start and end comments and strings |
| WordEquations.WordOfPlain | find_js_syntax_error.py:69-72 | a character that starts no string and no comment contributes itself if it is one of the six brackets, nothing otherwise |
| WordEquations.WordOfLiteral | find_js_syntax_error.py:31-37 | strings in either quote or in backticks contribute nothing up to their closing quote; unclosed ones hide the rest |
| WordEquations.WordOfLine | find_js_syntax_error.py:22-24 | a line comment lasts to the line break or the end of the text |
| WordEquations.WordOfBlock | find_js_syntax_error.py:43-50 | a block comment lasts to the first star-slash or the end of the text |
| WordEquations.QuotesExactly | find_js_syntax_error.py:63-67 | exactly the two quotes and the backtick open and close strings |
| WordEquations.EscapesExactly | find_js_syntax_error.py:31-34 | inside a string exactly the backslash escapes a quote |
| WordEquations.CommentsExactly | find_js_syntax_error.py:52-60 | exactly slash-slash and slash-star open comments |
| WordEquations.CommentEndsExactly | find_js_syntax_error.py:22-50 | exactly a line break ends a line comment and star-slash a block comment |
| WordEquations.LinesCounted | find_js_syntax_error.py:22-24 | line numbers count the line breaks before a position, from one |
| WordEquations.MismatchNamesPartner | find_js_syntax_error.py:76-80 | a mismatch names an open bracket, its own partner and another character |
| Opacity.WordComposes | find_js_syntax_error.py:22-67 | the bracket word of a text that ends in code does not depend on what follows |
| Opacity.InertWord | find_js_syntax_error.py:31-67 | a closed string or comment contributes no bracket and ends in code |
| Opacity.InsertInert | find_js_syntax_error.py:22-67 | inserting a closed string or comment where the text is in code keeps the report up to line numbers |
| Opacity.NamesInserted | find_js_syntax_error.py:26-33 | the brackets of the text keep their order; the lines of those behind the insertion move by its line breaks, the others stay |
| Opacity.InsertInertLines | find_js_syntax_error.py:69-90 | every line in the report moves by the inserted line breaks if its bracket is behind the insertion and stays otherwise |
| Opacity.SameWordSameReport | find_js_syntax_error.py:69-90 | the bracket word determines the report up to line numbers |
| Opacity.SlashIsNotCode | find_js_syntax_error.py:52-60 | a concrete text: after a lone slash an inserted comment changes the bracket word |
| OpacityExact.Break | find_js_syntax_error.py:22-67 | after any text that does not end in code, some closed string or comment makes closing brackets behind it appear or disappear |
| OpacityExact.WordsKeptExactly | find_js_syntax_error.py:22-67 | every insertion of a closed string or comment after a text keeps the bracket word, whatever follows, if and only if the text ends in code |
| OpacityExact.ReportsKeptExactly | find_js_syntax_error.py:69-90 | every such insertion keeps the report up to line numbers if and only if the text ends in code or no continuation balances it |
| FailoverSpec.ChoiceIsFirst | market_data_gateway/failover_manager.py:230-270 | whatever the statuses do between polls, the choice is the first (pass, position) that finds an acceptable adapter, the only such, and there is none exactly when no pass finds any |
| FailoverSpec.SteadyChoice | market_data_gateway/failover_manager.py:201-207 | while statuses do not change, the choice is the one adapter least in (tier, position), and there is none exactly when every adapter is missing or blocked |
| FailoverSpec.ChoiceByName | market_data_gateway/failover_manager.py:230-267 | while statuses do not change, the first live or connected adapter, else the first delayed or market-closed one, else the first stale, connecting or reauthenticating one, else the first of another usable status |
| FailoverSpec.FailoversChained | market_data_gateway/failover_manager.py:300-307 | over every run, a symbol's transitions link end to start and the last one ends at the active provider |
| FailoverSpec.RetainedChained | market_data_gateway/failover_manager.py:343-345 | the transitions still held by the ring link in the same way |
| FailoverSpec.FailoverImproves | market_data_gateway/failover_manager.py:302-305 | a logged failover moves forward: every spot at which the request could have taken the previous provider comes later |
| FailoverSpec.SteadyFailoverImproves | market_data_gateway/failover_manager.py:302-305 | while statuses do not change, a logged failover moves to a provider strictly better in (tier, position) |
| FailoverSpec.UnchangedStatusesNeverSwitch | market_data_gateway/failover_manager.py:302-305 | a request that finds the chain and the statuses as the symbol's last successful request did logs no failover |
| FailoverSpec.ActiveIsLastSelected | market_data_gateway/failover_manager.py:306 | the active provider of a symbol is the last one selected for it |
| FailoverSpec.HitsAddUp | market_data_gateway/failover_manager.py:307 | hit counts are the numbers of selections, add up to all of them, and never exceed the requests |
| FailoverSpec.FailoversCount | market_data_gateway/failover_manager.py:304 | failovers never exceed selections |
| FailoverManager.PushKeepsNewest | market_data_gateway/failover_manager.py:343-345 | appending and dropping the oldest keeps the newest 500 of the whole log |
| FailoverManager.FailoverManager.FirstAccepted | market_data_gateway/failover_manager.py:231-238 | one pass finds the first position whose status it accepts |
| FailoverManager.FailoverManager.SearchChain | market_data_gateway/failover_manager.py:230-270 | the four passes, each polling the statuses afresh, find the first usable spot, or nothing when there is none |
| FailoverManager.FailoverManager.GetBestProvider | market_data_gateway/failover_manager.py:199-270 | returns the provider at the first usable spot; active providers, ring and counters stay functions of all requests so far |
| FailoverManager.FailoverManager.RecordSelection | market_data_gateway/failover_manager.py:300-307 | sets the active provider, counts the hit, and logs a transition exactly when the provider changes |
| FailoverManager.FailoverManager.LogTransition | market_data_gateway/failover_manager.py:335-345 | appends to the bounded ring |
| FailoverManager.FailoverManager.GetTransitions | market_data_gateway/failover_manager.py:322-323 | answers the newest transitions of the whole run, up to limit and ring size; zero and negative limits as slicing has them |
| RestartPacing.LaunchedUnlessExhausted | scripts/dev_orchestrator.py:775-782 | a dead service is launched if and only if its last start is more than 30 s old or it has a restart left |
| RestartPacing.VisitPaces | scripts/dev_orchestrator.py:763-794 | one visit keeps the spacing of a service's restarts |
| RestartPacing.RunPaced | scripts/dev_orchestrator.py:757-808 | over every run, restarts are spaced by back-off and loop sleep or by a stable run |
| RestartPacing.SixRestarts | scripts/dev_orchestrator.py:68-70 | six consecutive restarts contain a reset and span more than 47 s |
| RestartPacing.RestartsAreBounded | scripts/dev_orchestrator.py:757-808 | in every run from startup, any two restarts of a service are more than 47 s apart for every five restarts from one to the other |
| Readiness.PassedSinceLaunchMeaning | scripts/dev_orchestrator.py:391-394 | "passed since its last launch" in terms of positions in the log |
| Readiness.AwaitSound | scripts/dev_orchestrator.py:810-822 | waiting for readiness keeps the health flags equal to what the log says |
| Readiness.EvaluateSound | scripts/dev_orchestrator.py:824-851 | an evaluation is truthful and announces exactly the changes of readiness |
| Readiness.RunSound | scripts/dev_orchestrator.py:757-808 | over every run, all evaluations are truthful and announcements alternate |
| Readiness.ReadinessOverRuns | scripts/dev_orchestrator.py:824-851 | ready is evaluated exactly when backend and gateway have each passed a probe since their own last launch; announcements alternate, operational first |
| Readiness.LosingReadinessTakesALaunch | scripts/dev_orchestrator.py:825-827 | between a ready and a not-ready evaluation, backend or gateway was launched |
| SupervisorRuns.ReadyAfterPass | scripts/dev_orchestrator.py:757-808 | in every reachable state, a pass that no exception ends leaves trading ready exactly when backend and gateway have passed a probe since their launches; one that an exception ends leaves it as it was |
| SupervisorRuns.ReadyWhileAlive | scripts/dev_orchestrator.py:824-834 | in every reachable state, a pass that finds all processes alive leaves trading ready exactly when each core service has passed a probe since its launch or passes one now |
| SupervisorRuns.CrashPass | scripts/dev_orchestrator.py:759-796 | the exact state and log after a pass that finds one service of a healthy system dead |
| SupervisorRuns.GoodStart | scripts/dev_orchestrator.py:705-717 | a startup in which all answer: gateway, backend, frontend are launched and awaited in this order |
| SupervisorRuns.GivenUp | scripts/dev_orchestrator.py:68-70 | a run with five restarts of one service, at 1, 4, 9, 18 and 34 s: back-offs of 1, 2, 4, 8 and 15 s and a second of loop sleep |
| SupervisorRuns.RestartsInOrder | scripts/dev_orchestrator.py:762-794 | a pass that finds all services dead restarts gateway, backend, frontend in this order |
| SupervisorRuns.RaisingPass | scripts/dev_orchestrator.py:804-808 | an exception ends the pass: later services are not visited, readiness is not evaluated |
| SupervisorRuns.EvaluateLogs | scripts/dev_orchestrator.py:824-851 | which services an evaluation probes, in which order, and what it announces |
| SupervisorRuns.AwaitEnds | scripts/dev_orchestrator.py:810-822 | waiting ends with the retries, the exit of the process or the first answer |
| SupervisorRuns.RestartPatience | scripts/dev_orchestrator.py:794 | a restarted service that never answers is probed 20 times, for ten seconds |
| SupervisorRuns.BootPatience | scripts/dev_orchestrator.py:711 | at startup 60 times, for half a minute |
| SupervisorRuns.HaltIsNotFinal | scripts/dev_orchestrator.py:775-782 | a run in which a service is halted and launched again later |
| SupervisorRuns.DeadServiceStaysReady | scripts/dev_orchestrator.py:780-782 | a run in which a pass finds a service dead, gives it up, and evaluates trading as ready |
| SupervisorRuns.SilentServicesStayReady | scripts/dev_orchestrator.py:824-834 | a run in which no core service answers any more and trading stays ready |
| SupervisorRuns.FailedLaunchStaysReady | scripts/dev_orchestrator.py:804-808 | a run in which a launch raises, the evaluation is skipped, and trading stays ready without a probe passed since |
| ServiceSupervisor.ServiceSupervisor.constructor | scripts/dev_orchestrator.py:512-521 | a new supervisor has three stopped services and is not ready |
| ServiceSupervisor.ServiceSupervisor.Start | scripts/dev_orchestrator.py:391-395 | a start clears the health flag and stamps the start time |
| ServiceSupervisor.ServiceSupervisor.CheckHealth | scripts/dev_orchestrator.py:496-504 | the health flag becomes the probe's answer |
| ServiceSupervisor.ServiceSupervisor.AwaitReadiness | scripts/dev_orchestrator.py:810-822 | the loop refines the recursive waiting step |
| ServiceSupervisor.ServiceSupervisor.EvaluateSystemReadiness | scripts/dev_orchestrator.py:824-851 | refines the evaluation step, probing only services not known healthy |
| ServiceSupervisor.ServiceSupervisor.Supervise | scripts/dev_orchestrator.py:763-794 | refines the visit of one service, including an exception that ends the pass |
| ServiceSupervisor.ServiceSupervisor.SupervisionPass | scripts/dev_orchestrator.py:759-808 | one iteration of the loop refines one pass of the state machine |
| ServiceSupervisor.ServiceSupervisor.RunSupervisionLoop | scripts/dev_orchestrator.py:757-808 | the loop refines the run of the state machine |
| ServiceSupervisor.ServiceSupervisor.Boot | scripts/dev_orchestrator.py:707-711 | starting and awaiting one service refines its startup step |
| ServiceSupervisor.ServiceSupervisor.Startup | scripts/dev_orchestrator.py:705-717 | the ordered startup and first evaluation refine the startup of the state machine |
| ServiceSupervisor.ServiceSupervisor.StartAndSupervise | scripts/dev_orchestrator.py:1027-1029 | startup and loop together stay within the reachable states: restart rates bounded, evaluations truthful, announcements alternating, readiness as last announced |
| QuoteHistory.LatestMeaning | market_data_gateway/gateway.py:409-411 | "latest" in terms of positions: an arrival under the alias with none later |
| QuoteHistory.RingIsConsecutive | market_data_gateway/gateway.py:352-361 | the ring carries consecutive sequence numbers that end at the counter |
| QuoteHistory.PushAgreesWithCache | market_data_gateway/gateway.py:553-563 | a client that follows a symbol learns from what it is sent the tick that the cache answers, if the latest arrival about it is a tick or there is none; the cache answers the snapshot otherwise |
| QuoteHistory.SingleFollower | market_data_gateway/gateway.py:553-563 | for a client that follows one symbol, the latest tick about it is the last one sent |
| QuoteHistory.SnapshotHidesTick | market_data_gateway/gateway.py:893-909 | a history in which a late snapshot makes the cache answer another quote than the last one sent |
| QuoteGateway.MarketDataGateway.OnQuote | market_data_gateway/gateway.py:358-414 | numbers the quote, appends it to the ring of 2000 and files it under exactly the aliases; every alias answers its latest arrival |
| QuoteGateway.MarketDataGateway.OnDhanTick | market_data_gateway/gateway.py:419-473 | the same for a positive price, nothing otherwise |
| QuoteGateway.MarketDataGateway.BackfillKey | market_data_gateway/gateway.py:899-911 | a snapshot quote is filed under one key and touches neither ring nor counter |
| QuoteGateway.MarketDataGateway.Append | market_data_gateway/gateway.py:352 | the ring keeps the newest 2000 events |
| QuoteGateway.MarketDataGateway.FileUnder | market_data_gateway/gateway.py:409-411 | the loop writes exactly the aliases |
| QuoteGateway.MarketDataGateway.BroadcastQuote | market_data_gateway/gateway.py:553-567 | every client subscribed to "*" or to one of the aliases is sent the quote once; exactly the recipients whose send fails are dropped |
| TopMovers.DedupedSymbols | market_data_gateway/gateway.py:224-230 | deduplication keeps every symbol exactly once |
| TopMovers.DedupedAreFirsts | market_data_gateway/gateway.py:224-230 | each symbol is represented by its first quote |
| TopMovers.RankedInOrder | market_data_gateway/gateway.py:232-234 | the stable sort is a permutation ordered by score, ties by listing position |
| TopMovers.RankedTop | market_data_gateway/gateway.py:232-234 | cutting the sorted list gives the true top: no quote left out beats one included |
| TopMovers.Selected | market_data_gateway/gateway.py:232-233 | the sign filters keep exactly the quotes of that sign, with distinct symbols |
| TopMovers.ListingsMeaning | market_data_gateway/gateway.py:215-222 | exactly the quotes cached under a key without a colon at a positive price are listed |
| TopMovers.TopsPlain | market_data_gateway/gateway.py:232-234 | gainers do not fall and descend, losers fall and ascend by change, leaders descend by volume |
| TopMovers.TopsComplete | market_data_gateway/gateway.py:224-234 | with room for everything every listed symbol leads, and every leader is among gainers or losers by the sign of its change |
| TopMovers.ComputeTopMovers | market_data_gateway/gateway.py:213-241 | gainers, losers and volume leaders are the true tops of the rising, falling and all deduplicated listed quotes, for any limit, in order and complete as their figures say |
| GatewayToken.ParsePrinted | market_data_gateway/gateway.py:83-87 | splitting undoes printing, even for a user with colons |
| GatewayToken.ParseThree | market_data_gateway/gateway.py:84-87 | a three-part split comes from the printed form with colon-free expiry and signature |
| GatewayToken.OtherFormsExpireAtZero | market_data_gateway/gateway.py:88-98 | every other form gets the expiry "0" or no fields at all |
| GatewayToken.AcceptsExactlySealed | market_data_gateway/gateway.py:67-122 | a token is accepted for a user if and only if it is, stripped, the unexpired three-part form with a matching signature |
| GatewayToken.RaisesExactlyIncomparable | market_data_gateway/gateway.py:119-120 | verification raises if and only if the token is live and one of the signatures is not ASCII |
| GatewayToken.PrintedTokenAccepted | market_data_gateway/gateway.py:67-122 | round trip: a printed, live, signed token gives its user back |
| GatewayToken.PlainVerdict | market_data_gateway/gateway.py:100-122 | every verdict on a three-part token, from its fields, the clock and the two signatures |
| GatewayToken.TokensExpire | market_data_gateway/gateway.py:109-110 | past a finite expiry a token is rejected as expired whatever its signature; until then a signed one is accepted |
| GatewayToken.AcceptedMeaning | market_data_gateway/gateway.py:67-122 | an accepted token has an expiry that is finite and not past, infinite or not a number, and the signature of its own user and expiry |
| GatewayToken.FormlessRejected | market_data_gateway/gateway.py:73-101 | missing exactly for an empty token or secret; a text without colon and dot has no token format |
| GatewayToken.DotFormRejected | market_data_gateway/gateway.py:70-71 | the documented dot form with a colon-free user is always rejected as expired |
| GatewayToken.DotFormNeverAccepted | market_data_gateway/gateway.py:70-71 | with any user the documented dot form is never accepted |
| Reconciliation.OpenAfterwards | scripts/reconcile_trades_log.py:48-59 | exactly the open, non-SELL, unexpired rows with no later such row of their bot and symbol stay open, unchanged |
| Reconciliation.FateOfRow | scripts/reconcile_trades_log.py:16-59 | every field of every row afterwards, in terms of the statuses, side, symbol and ids before |
| Reconciliation.MarkersAreDays | scripts/reconcile_trades_log.py:32-41 | the markers are exactly 13 to 22 October 2026 in the two notations |
| Reconciliation.OneOpenPerGroup | scripts/reconcile_trades_log.py:48-59 | no two rows of one bot and symbol stay open |
| Reconciliation.GroupKeepsOne | scripts/reconcile_trades_log.py:48-59 | every bot and symbol with a surviving row keeps an open one |
| Reconciliation.SecondRunChangesNothing | scripts/reconcile_trades_log.py:16-66 | a second reconciliation changes no row |
| Reconciliation.UpdateLowersOpen | scripts/reconcile_trades_log.py:17-22 | an update that closes open rows lowers the open count by its row count |
| Reconciliation.Update | scripts/reconcile_trades_log.py:17-22 | a bulk update changes exactly the hit rows and counts them |
| Reconciliation.CountOpen | scripts/reconcile_trades_log.py:12-13 | counts the open rows |
| Reconciliation.LatestIds | scripts/reconcile_trades_log.py:54-57 | the greatest open id of each bot and symbol |
| Reconciliation.LatestUnsuperseded | scripts/reconcile_trades_log.py:48-59 | an id is among the greatest exactly when no later surviving row of its group exists |
| Reconciliation.Reconcile | scripts/reconcile_trades_log.py:4-67 | the three updates produce the closed form; a row stays open exactly when it is open, no sale, on no expired contract, and no such row of its bot and symbol has a greater id; each count is the number of rows of its kind, and open rows before equal open rows after plus the three counts |

## Left out

- Subscription getters `get_reasons_for` and `dump`: they copy the dictionaries.
- `batch_add_callback` is stored by the registry and never fired.
- `get_quote` of the failover manager: a first-match lookup that ignores prefix overrides and tiers.
- Provider chains: the asset-class tables, prefix overrides and environment switches are inputs of a request; a chain may even repeat a provider. Chain entries are assumed nonempty only where transitions are linked (`FailoverSpec.FailoversChained`).
- Time stamps, reasons and log lines of transitions and events.
- Alias sets of quotes are inputs; the literal alias groups are not modelled.
- Quotes are values: sharing of one quote object between cache entries, and staleness marks written through it, are not captured.
- Order-flow, data-quality and provider telemetry, the canonical cache, heartbeat and HTTP handlers.
- TopMovers.ComputeTopMovers: scores are exact reals, without NaN.
- GatewayToken.AcceptsExactlySealed: the clock is past the epoch and "0" parses as zero; text that cannot be encoded is not modelled.
- Reconciliation.Reconcile: ids are distinct, as the primary key makes them; the pausing of bots, transactions and printing are not modelled.
- Supervisor start-up checks, the single-instance lock, process and pipe handling, provider probes, the keep-alive thread and shutdown.
- ServiceSupervisor.ServiceSupervisor.RunSupervisionLoop: runs a finite sequence of passes, so it speaks of every finite prefix of the endless loop; the exceptions modelled are those raised before anything changes and those raised by a launch or between it and the wait that follows.
- File reading of the bracket checker, including its line-break translation.
