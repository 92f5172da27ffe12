# Verification of the forwarding relayer

A Dafny model of the Celestia forwarding relayer, with proofs. It covers the event-driven path from
a committed deposit to a submitted `MsgForward`: the block scanner, the bounded forward queue, the
dispatcher and its concurrent workers, retry backoff, maintenance, the balance poll, the durable
store, crash and restart. Around it stand the algorithms the path rests on: sticky failover, the
forwarding-address preimage, the backend's registry, and the endpoint and URL strings.
`dafny verify dfyconfig.toml` checks the whole project.

## How it is built

- `Forwarding`, `Dispatcher`, `DispatcherRuns`: the consumer loop, channel, semaphore, in-flight map
  and spawned workers as a transition system with arbitrary capacity and concurrency.
- `Protocol`: the whole relayer as one transition system. A step is one access to shared state, so
  every interleaving of scanner, ticks, poll and workers is a run, with failing writes and crashes
  anywhere. Two steps read more than one thing: the plan of a tick reads the clock, the activity map
  and the live list, and a failure reads the clock with the backoff entry.
  `Obligations`, `Coverage`, `BootGap`, `ProtocolProgress` and `Mirror` prove its properties;
  `Counterexamples` holds complete runs for what does not hold.
- `RetryTables`, `RelayerTasks`: the store and the relayer's state as classes. A forward and a tick
  run alone are proved to have the effect of their steps in `Protocol` (`SoloTick` for the tick).
- `Evidence`, `ScannerLog`, `Scanner`, `Deposits`: the scanner as a class with its loops, its skip
  policy, and a ghost log of what was read, sent, scanned and skipped, over any number of processes
  that end anywhere.
- Lemmas over sequences switch automatic induction off: each induction is written out.
- `Failover`, `Derivation`, `Registry`, `Balances`, `EndpointSpecs`, `Urls`, `Text`, `Backoff`,
  `Wrappers`.

## Environment assumptions

Balance queries answer the current chain state; a successful submission empties the address, and one
reported as failed may still have landed (`src/client.rs:349-354`); anyone else may empty an address
at any time. Time does not go backwards. A fetched committed height returns that height's events.
The cursor a scanner starts from is not beyond the tip. Endpoint answers, fetched lists, write
failures and durations are arbitrary parameters.

## Where the code and its comments differ

- A scanner that starts from the bare tip can miss a deposit made after the first tick joined its
  address: `Counterexamples.FreshTipCanMissDeposit` is such a run. `BootGap.NoGapFromBoot` says
  exactly which boots leave no gap, `BootGap.EarlyBootLeavesNoGap` that booting before the first swap
  is enough, and `ProtocolProgress.SweepRecoversEveryDeposit` that the next balance poll closes it.
- `src/relayer.rs:808-810` says an address is not retired while it holds funds. The tick looks at
  recorded activity only: `Counterexamples.FundedAddressCanBeRetired` is a run in which a funded
  address is dropped, `ProtocolProgress.SwapKeepsExactly` the exact condition.
- The stored cursor is never ahead of the one in memory, except after one kind of boot:
  `Coverage.StoredNeverAhead` states it as an equivalence over runs, and
  `Counterexamples.StoredCursorCanGetAhead` is a run with such a boot.
- Memory and store can differ for an address that is removed and registered again, although no write
  fails: `Counterexamples.ReturningCanBeUnmirrored` is a run, `Mirror.ReturningExactly` the exact
  condition.
- With a configured fallback hook, a row without a hook yields a message for another address:
  `Registry.MessageRederives` states exactly when it does not.
- `balances_equal` depends on the order of equal denoms (`Balances.EqualExactlyPerDenom`,
  `Balances.RepeatedDenomOrderMatters`).
- A retention limit of 2^63 or more is read as negative and retires at once
  (`Backoff.RetirementExactly`); a stored height of 2^63 or more loads as 0
  (`RetryTables.HeightRoundTrip`).

## Model

| member | source | states |
|---|---|---|
| DispatcherRuns.ConcurrencyLimits | src/relayer.rs:700-733 | in every reachable state one forward per address at most, permits within the configured number, in-flight keys exactly the claimed and unfinished addresses and at most one more than permits, queue within capacity |
| DispatcherRuns.NoTriggerLost | src/relayer.rs:708-736 | in every run an address whose latest trigger is newer than every start of a forward for it is queued, received, claimed, starting, dirty or waiting to be re-sent |
| DispatcherRuns.ReceivedInOrder | src/relayer.rs:706-708 | first in, first out, whatever producers do: the trigger at place i of the queue is what the consumer gets from its (i+1)-th receive |
| DispatcherRuns.NoDeadlock | src/relayer.rs:717-735 | for any capacity and concurrency, unless all is quiet some step of the dispatcher or a worker is enabled, with a full channel and all permits taken too |
| DispatcherRuns.MeasureFalls | src/relayer.rs:708-736 | every step that is not a producer's send lowers an explicit measure |
| DispatcherRuns.DrainEnds | src/relayer.rs:700-737 | once producers stop, a run is no longer than the measure, starts no more forwards than there were trigger tokens, and can only stop when everything is quiet |
| Dispatcher.InvKept | src/relayer.rs:706-737 | every step keeps permit count, exclusion and the meaning of the in-flight keys |
| Protocol.RefinesDispatcher | src/relayer.rs:687-737 | every step of the whole system other than a crash is a step of the dispatcher or leaves it alone |
| Obligations.NoFundedAddressForgotten | src/relayer.rs:743-891 | in every state of every run, crash and restart included, a live address not being removed that holds an announced deposit has an obligation: a trigger under way, a probe, a forward that will see it, or a backoff entry |
| Obligations.ScannedIsAnnounced | src/scanner.rs:676-710 | every deposit at a scanned height is announced for whoever is live |
| Obligations.InvKept | src/relayer.rs:1000-1113 | each step of scanner, queue, workers, tick, poll, environment and crash keeps the inductive invariant behind it |
| Obligations.NeedsBefore | src/relayer.rs:1047-1097 | a new need arises only for a newcomer of the swap, which will be probed, or an address a producer sends right now |
| Obligations.UnderwayKept | src/relayer.rs:743-891 | a forward that has not recorded its outcome goes on looking, leaves a backoff entry, or has emptied the address |
| Coverage.EveryDepositAccounted | src/scanner.rs:401-498 | every deposit of a live, not removed address has an obligation, lies ahead of the cursor, in a recorded skip, or in the gap below the cursor the process started from |
| BootGap.NoGapFromBoot | src/scanner.rs:417-438 | a boot is followed by states without a gap, through every crash and up to the next boot that does not reload, if and only if its cursor is not above the tip at which any live address joined or was last sent |
| BootGap.EarlyBootLeavesNoGap | src/scanner.rs:425-435 | a scanner that boots before the first live-list swap of its process leaves no gap, whatever it starts from, at the very first start too |
| BootGap.NothingOutOfSight | src/scanner.rs:401-498 | after such a boot every deposit of a live, not removed address has an obligation, lies ahead of the cursor, or in a recorded skip |
| BootGap.ReloadLeavesNoGap | src/scanner.rs:417-438 | after a restart whose scanner reloads its cursor there is no gap, in every interleaving |
| Coverage.StoredNeverAhead | src/scanner.rs:422-438 | over whole runs the stored cursor never gets ahead of the one in memory if and only if no boot fails to read it, hears a lower tip and fails to write that |
| Coverage.BootsAt | src/scanner.rs:417-438 | a boot starts at the stored cursor, so that a configured start is the first height scanned, or at the reported tip |
| Coverage.CursorCounts | src/scanner.rs:676-710 | within a process the cursor never goes back, and without skips it advances by exactly the blocks finished |
| Coverage.StoredExactly | src/scanner.rs:600-606 | the cursor is stored by exactly the steps that move it, when their write succeeds |
| Coverage.RestartsLeaveNoHole | src/scanner.rs:600-710 | from the very first boot on, with crashes anywhere: if restarts reload the stored cursor, every height between the first cursor and the current one was scanned or is in a recorded skip |
| Coverage.RangeLasts | src/scanner.rs:401-498 | from any boot on, every height up to the cursor and up to the stored cursor stays accounted for, in all states, if and only if no later fresh boot starts beyond one that is not |
| Counterexamples.FreshTipCanMissDeposit | src/scanner.rs:425-435 | a complete run from the start after which a funded live address has no obligation, its deposit lying in the boot gap |
| Counterexamples.StoredCursorCanGetAhead | src/scanner.rs:425-438 | a complete run after which the stored cursor is ahead of the one in memory |
| Counterexamples.FundedAddressCanBeRetired | src/relayer.rs:1014-1061 | a complete run in which a live address that holds a deposit is retired, and the trigger queued for it comes to nothing |
| Counterexamples.ReturningCanBeUnmirrored | src/relayer.rs:477-503 | a complete run without a failing write after which an address that was removed and registered again has a backoff entry in memory and none in the store |
| ProtocolProgress.NoConcurrentDoubleSubmit | src/relayer.rs:692-733 | in every state of every run no address is being submitted twice, and submissions are within the permits |
| ProtocolProgress.NoTriggerLost | src/relayer.rs:687-736 | the same no-lost-trigger guarantee for triggers from scanner, tick and poll in the whole system, until a crash |
| ProtocolProgress.SentIsTakenInTurn | src/relayer.rs:706-708 | until a crash a trigger sent behind n others is what the consumer takes at its (n+1)-th turn, whatever scanner, ticks, poll and workers send meanwhile |
| ProtocolProgress.EverySendHasACause | src/scanner.rs:684-705 | in every run an address is sent only because the scanner fetched a block naming it while it was watched, a sweep found it live, or a tick has it to send |
| ProtocolProgress.GoneMeansForwarded | src/relayer.rs:834-870 | in every run a deposit that is no longer there was forwarded or swept by somebody else |
| ProtocolProgress.LiveUntilSwap | src/relayer.rs:1003-1012 | between swaps and crashes the live list stays the same, through failed fetches too |
| ProtocolProgress.SentStaysAnnounced | src/relayer.rs:974-998 | what a producer has sent stays announced in every later state, across removals, crashes and restarts |
| ProtocolProgress.SweepRecoversEveryDeposit | src/relayer.rs:965-998 | once an address has been sent, every deposit committed by then is covered for good, at skipped and unscanned heights too |
| ProtocolProgress.PollSends | src/relayer.rs:980-997 | a sweep sends every address of its snapshot before the next snapshot |
| ProtocolProgress.TickSends | src/relayer.rs:1093-1110 | what a tick has set out to send is sent before the tick is over |
| ProtocolProgress.ExactlyDueIsSent | src/relayer.rs:1099-1110 | in every run, up to a crash, between the end of its probes and its own end a tick sends exactly the addresses whose backoff was over when the probes ended |
| ProtocolProgress.ExactlyNewcomersAreProbed | src/relayer.rs:1047-1097 | between its swap and the end of its probes a tick sends exactly the addresses that the swap put on the live list |
| ProtocolProgress.TickSendsOnce | src/relayer.rs:1093-1110 | a tick sends no address twice while it probes, and none twice while it re-sends |
| ProtocolProgress.SweepSendsOnce | src/relayer.rs:980-997 | a sweep sends no address twice |
| ProtocolProgress.BlockSendsOnce | src/scanner.rs:684-705 | the scanner sends no address twice for one fetched block |
| ProtocolProgress.SwapKeepsExactly | src/relayer.rs:1014-1091 | whatever happens between fetch and swap, a tick leaves on the live list exactly the fetched addresses that were not past their activity or age limit when it planned, whatever they hold |
| ProtocolProgress.NeverStuck | src/relayer.rs:708-737 | whatever queries, fees, submissions and writes answer, forwarding work can always go on |
| ProtocolProgress.ForwardingDrains | src/relayer.rs:700-737 | with producers silent, forwarding takes boundedly many steps and starts whatever environment and ticks do |
| Mirror.StoreMirrorsMemory | src/relayer.rs:431-503 | from the start of the process, a restart, or the joining of an address on: between the updates of its forwards an address that no tick drops has the same entries in store and memory, so a restart reproduces failures, next attempt and activity |
| Mirror.AgreementExactly | src/relayer.rs:434-503 | each interleaved step, exactly: what agrees goes on agreeing, and what does not is mended only by the next update of it or by a restart |
| Mirror.ReturningExactly | src/relayer.rs:1075-1089 | after the prune of a removed address's rows it is mirrored, live again or not, if and only if for each table nothing was left in memory and no forward was about to put something there, or an update or a restart has come since |
| Mirror.WaitsAddUp | src/relayer.rs:477-503 | while an address fails without a clear, an attempt after n recorded failures starts no earlier than the sum of n delays after the first, restarts included; 30, 90 and 390 seconds, then 2190+3600(n-4) |
| Mirror.NobodyWaitsLonger | src/relayer.rs:477-503 | in every state of every run no backoff entry holds attempts back for longer than the delay of its failures, hence never for more than an hour |
| Mirror.AttemptsExactly | src/relayer.rs:753-771 | a forward attempts exactly when no backoff entry holds it back at that time, an entry whose time has come does not |
| Mirror.FirstAttemptIsFirst | src/relayer.rs:753-771 | the first attempt that bound refers to is the run's first one to pass the backoff check |
| Mirror.NewcomersStartFresh | src/relayer.rs:1047-1091 | an address that has not been live yet meets the bound's starting condition |
| Backoff.TotalDelayClosed | src/relayer.rs:19-31 | the closed form of the summed schedule for every number of failures |
| Backoff.DelaysGrow | src/relayer.rs:22-31 | delays never decrease, start at 30 seconds and never exceed an hour |
| Backoff.RetirementExactly | src/relayer.rs:1161-1183 | exactly when an address is retired, limits read as signed 64-bit |
| RetryTables.HeightRoundTrip | src/relayer.rs:98-118 | a stored cursor loads back unchanged exactly below 2^63, and never higher |
| RetryTables.RetryStore.Retain | src/relayer.rs:220-240 | on success both tables are restricted to the active addresses, on failure midway no active row is gone |
| RelayerTasks.RelayerState.NoteFailure | src/relayer.rs:477-503 | one more failure than recorded and the wait that goes with it, in store and memory |
| RelayerTasks.RelayerState.ForwardAddress | src/relayer.rs:743-891 | its effect is the solo run of the system's worker steps; each exit clears the backoff, schedules it, or changes nothing because the address is unwatched or waiting |
| RelayerTasks.RelayerState.MaintenanceTick | src/relayer.rs:1000-1113 | a failed fetch changes and sends nothing; otherwise each live entry is a fetched row under its own address, state is pruned to them, exactly the newcomers are probed and exactly the due entries sent again |
| RelayerTasks.KeptRow | src/relayer.rs:1041-1045 | an address is kept with the row registered under it, the last one if there are more |
| RelayerTasks.LiveAddressForwards | src/relayer.rs:256-266 | from registration to message: what a tick puts on the live list under an address is the row registered under it, and with no fallback hook the message built from it derives to that address |
| RelayerTasks.TickIsSoloRun | src/relayer.rs:1000-1113 | the live list, tables, probes and due entries that `MaintenanceTick` promises are those of the interleaved system's tick steps run without interruption |
| RelayerTasks.TickKeepsPlan | src/relayer.rs:1016-1045 | the addresses the tick keeps are those the interleaved system's plan keeps |
| Evidence.GatherHeightEvidence | src/scanner.rs:285-319 | one testimony per answering endpoint, with a probe exactly of those that retain the height and whose tip is `depth` past it |
| Evidence.VerdictMeans | src/scanner.rs:353-374 | what each verdict says about the endpoints' horizons, tips and answers, in both directions |
| Evidence.ServedExactly | src/scanner.rs:305-316 | being served or failing to be served, in terms of the answers' own fields |
| Evidence.SkipsExactlyOnEvidence | src/scanner.rs:519-595 | the cursor moves exactly when no endpoint serves the height and either all that answered pruned it (all answering, or timeout) or a holder fails to serve it (timeout) |
| Evidence.SkipCoversOnlyLostHeights | src/scanner.rs:500-518 | a pruned jump covers only heights below every answering horizon and lands before a retained one; any other skip moves one height |
| ScannerLog.ScannedHeightSendsRecipients | src/scanner.rs:684-705 | exactly the watched recipients of the block's bank events have been sent when the cursor passes it |
| ScannerLog.NobodySentTwice | src/scanner.rs:684-705 | a block sends no address twice |
| ScannerLog.EveryHeightAccounted | src/scanner.rs:384-400 | every height of the covered range was scanned, or lies in a justified skip; one that had to wait stood still for the whole timeout with no session ending cleanly |
| ScannerLog.TimeoutsAppend | src/scanner.rs:527-581 | a gated skip is preceded by a full timeout at that height |
| ScannerLog.CursorWithinTips | src/scanner.rs:305-316 | in every history in which no endpoint claims a retention horizon beyond its own tip, the cursor is at most the larger of its start and a tip that some endpoint reported |
| ScannerLog.ProbesLogged | src/scanner.rs:305-316 | a probe is logged for exactly the endpoints that retain the height and are far enough past it |
| Scanner.Scanner.Boot | src/scanner.rs:417-438 | the starting cursor: stored, else configured, else the first reported tip; a reloaded one continues the covered range |
| Scanner.Scanner.ScanBlock | src/scanner.rs:684-709 | recipients are sent, then the cursor moves and is persisted, all history properties kept |
| Scanner.Scanner.ScanTo | src/scanner.rs:668-712 | scans one height per fetched block, in order, sending exactly their watched recipients, and stops at the tip minus the depth or at the first height that cannot be fetched |
| Scanner.Scanner.ScanSession | src/scanner.rs:608-664 | a session fails only at a height that cannot be fetched, by not opening or by an unclean end; a clean one has caught up with every reported block minus the depth and sent the watched recipients of each block |
| Scanner.Scanner.RecoverPruned | src/scanner.rs:519-596 | cursor and stuck clock after a recovery, as the testimony and the elapsed time decide |
| Scanner.Scanner.AfterSession | src/scanner.rs:462-495 | a failed session rotates the endpoint and leaves cursor and clock as the recovery decides, a clean one stops the clock |
| Scanner.Scanner.Turnaround | src/scanner.rs:450-497 | one turn: what its session scans and sends, what a failed one's recovery does at that point in time, and the time that passes |
| Scanner.Scanner.Run | src/scanner.rs:450-497 | over any number of turns the cursor never goes back nor passes the larger of its start and the highest reported tip, and coverage, sends, skips, timeouts and lag hold |
| Scanner.Scanner.End | src/scanner.rs:684-709 | a process may end between turns, with a block's recipients partly sent, between a move of the cursor and its write, or during a recovery; everything above still holds |
| Scanner.Scanner.Lifetimes | src/scanner.rs:401-498 | over any number of processes that end anywhere and reload the cursor, the covered range continues without a gap and the cursor stays within the reported tips |
| Scanner.Scanner.Deployment | src/scanner.rs:401-498 | from the very first start on, every height between the first cursor and the current one is covered if that cursor was written and restarts reload |
| Deposits.DepositsFromEvents | src/scanner.rs:94-128 | computes one deposit per recipient in first-seen order |
| Deposits.ListsExactlyRecipients | src/scanner.rs:98-125 | a recipient is listed exactly when a bank event names it |
| Deposits.RecipientExactly | src/scanner.rs:94-116 | an event names a recipient exactly when it is of one of the two bank kinds and its last attribute with that kind's key has it |
| Deposits.ParseCoinExactly | src/scanner.rs:130-147 | a coin parses exactly when, trimmed, it is some digits followed by a denom |
| Deposits.CoinsRoundTrip | src/scanner.rs:130-147 | coins written with commas between them parse to themselves |
| Deposits.FirstSeenOrder | src/scanner.rs:107-123 | deposits are in the order in which their recipients are first named |
| Deposits.RecipientsDistinct | src/scanner.rs:117-123 | no recipient twice |
| Deposits.StemsFromFirstEvent | src/scanner.rs:107-123 | each deposit stems from the first event of its recipient and carries its coins |
| Deposits.DepositsForRecipients | src/scanner.rs:98-125 | the deposits are for exactly the named recipients, each once, in first-seen order |
| Failover.CelestiaClient.WithFailover | src/client.rs:192-220 | tries endpoints in rotation order, each once, succeeds exactly when one would, prefers the first success, keeps the preference on total failure |
| Failover.CelestiaClient.SubmitForward | src/client.rs:355-385 | one attempt on the preferred endpoint, a failure prefers the next |
| Failover.CelestiaClient.FailEverywhere | src/client.rs:373-385 | as many failed submissions as endpoints visit all of them |
| Failover.AlwaysInRange | src/client.rs:197-206 | the shared index stays in range over every interleaving of calls |
| Failover.StepMeans | src/client.rs:197-214 | what each interleaved call does to the shared preference, place by place |
| Failover.RotateOnto | src/client.rs:200-202 | every endpoint has a place in the rotation |
| Derivation.FeedHasher | src/lib.rs:221-233 | the bytes fed to the hasher are the preimage |
| Derivation.PreimageDetermines | src/lib.rs:172-233 | equal preimages agree on domain, recipient and the rest; the normal forms are equal exactly when the token ids have equal length |
| Derivation.PreimageLayout | src/lib.rs:214-233 | the preimage byte by byte: padding, domain, recipient, token, and in a bound one 32 bytes of hook and the metadata |
| Derivation.AddressIsModuleAccount | src/lib.rs:236-266 | the address is the "forwarding" module's account under the version 1 salt of the call digest |
| Derivation.AddressCommits | src/lib.rs:221-266 | for equal-length token ids two accepted inputs derive the same address exactly when their normal forms are equal, or their preimages collide on the way |
| Derivation.LongTokenCollides | src/lib.rs:184-233 | without equal lengths every bound tuple has an accepted unbound one with the same preimage |
| Derivation.SpellRoundTrip | src/lib.rs:172-215 | every canonical tuple is the normal form of an accepted input |
| Derivation.AcceptedExactly | src/lib.rs:172-215 | exactly which inputs are accepted |
| Derivation.PrefixesIgnored | src/lib.rs:172-210 | any field may be written with 0x in front |
| Derivation.DefaultHooks | src/lib.rs:188-206 | absent, empty and all-zero hooks are the default hook |
| Derivation.HexRoundTrip | src/lib.rs:172-186 | decoding undoes encoding, and stripping leaves an encoding alone |
| Derivation.NormaliseCanonical | src/lib.rs:188-215 | accepted inputs have 32-byte recipients and hooks, no zero hook, no empty metadata |
| Registry.BackendStorage.Handle | src/backend.rs:486-586 | table and response after a handler call |
| Registry.BackendStorage.CreateRequest | src/backend.rs:99-168 | first writer wins, the stored row is returned |
| Registry.BackendStorage.Serve | src/backend.rs:486-586 | any sequence of handler calls has the effect that the table's properties below are about |
| Registry.BackendStorage.ListRequests | src/backend.rs:191-221 | every row once, by creation time |
| Registry.RowsAreDerivations | src/backend.rs:490-523 | after any calls each row's address is the derivation of its own fields |
| Registry.RowHasFirstWriter | src/backend.rs:107-122 | a row stems from the accepted POST that found the address free, with no deletion since |
| Registry.RowStaysUntilDeleted | src/backend.rs:257-291 | a row changes only by being deleted |
| Registry.RegisteredExactly | src/backend.rs:486-586 | an address is registered exactly when an accepted POST for it has not been followed by its deletion |
| Registry.AnswerExactly | src/backend.rs:490-586 | each response, in both what it says of the call and what became of the table |
| Registry.MessageRederives | src/relayer.rs:256-266 | the message's normal form is the row's with the fallback hook where the row has none; it is the row's own, and derives to its address, exactly when the fallback does not interfere |
| Registry.RegisteredAddressForwards | src/client.rs:335-347 | end to end, with no fallback hook, the message of any registered row derives to its address |
| Registry.FallbackChangesPreimage | src/relayer.rs:258-266 | a non-default fallback hook changes the preimage of every row without a hook |
| Balances.EqualExactlyPerDenom | src/relayer.rs:244-253 | for all lists, equal exactly when each denom's balances agree in order |
| Balances.EqualImpliesSameBag | src/relayer.rs:244-253 | comparing equal implies equality as multisets |
| Balances.EqualExactlySameBag | src/relayer.rs:243-253 | with distinct denoms the comparison is multiset equality |
| Balances.RepeatedDenomOrderMatters | src/relayer.rs:248-252 | two orders of the same coins that compare unequal |
| EndpointSpecs.RedactedListParses | src/auth.rs:14-60 | the redacted list parses to the non-empty URLs in order without tokens, hence to all URLs exactly when none is empty |
| EndpointSpecs.RedactionJoinsParsedUrls | src/auth.rs:31-60 | when the list parses, its redacted form is the join of the parsed URLs |
| EndpointSpecs.RedactionIgnoresTokens | src/auth.rs:53-60 | the redacted form depends on URL parts only and contains no bar |
| EndpointSpecs.ParsesWhatIsRendered | src/auth.rs:14-51 | the round trip: endpoints written with their tokens parse to themselves, in order |
| EndpointSpecs.ParseFailsExactly | src/auth.rs:31-51 | parsing fails exactly when an entry's token is not one, and names the first such endpoint's URL |
| Urls.TokenNeverShows | src/scanner.rs:152-197 | for every URL with a scheme and every accepted token the redacted WebSocket URL is one and the same string, with host and tail kept |
| Urls.WsOfSplit | src/scanner.rs:152-162 | the WebSocket form translates the scheme and nothing else |
| Urls.WsUrlExactly | src/scanner.rs:152-162 | the WebSocket URL: scheme translated, trailing slashes dropped, /websocket appended |
| Urls.SchemesTranslated | src/scanner.rs:152-162 | https becomes wss, http becomes ws, any other scheme stays |
| Urls.RedactExactly | src/scanner.rs:164-180 | credentials are replaced and nothing else, whatever the tail contains |
| Urls.RedactLeavesPlain | src/scanner.rs:164-180 | a URL without credentials is left as it is |

## Left out

- HTTP, gRPC, WebSocket and SQLite mechanics: endpoints are arbitrary answers, tables are maps.
- SHA-256 and bech32: arbitrary functions; statements about addresses are statements about preimages.
- Fees: resolving a fee succeeds or fails arbitrarily; the float product, the fee cache and its key are not modelled.
- Metrics, tracing, the command line and signer-balance refresh: they touch no modelled state.
- Private keys and mnemonics: library code.
- Fairness and wall-clock liveness: progress is enabledness and a falling measure.
- Timestamp text: times are integers in seconds; an unparseable creation time is `None`.
- The failure counter's 32-bit width: it would take thousands of years of hourly failures to matter.
- Maintenance's backend DELETE: it changes only what later fetches return, which is arbitrary here.
- Dispatcher.InvKept: interleaved code is modelled as steps on values, so the in-flight map and queue are not heap objects there.
- Protocol.RefinesDispatcher: which skips the scanner may take is left open in the interleaved system and proved in `Evidence` and `Scanner`.
- Scanner.Scanner.Run: the endless loop is cut after any number of turns, and a live list that changes during a session is a parameter of each fetch.
- ScannerLog.CursorWithinTips: endpoints that claim a retention horizon beyond their own tip raise the bound to that horizon (`ScannerLog.WithinHeard`).
