# Verification of the wash-machine controller

A Dafny model of the parts of the firmware where steps of several functions, or of several tasks, have to
agree, with proofs for all inputs, all runs and all interleavings. `dafny verify dfyconfig.toml` checks it.

| file | models | main results |
|---|---|---|
| `Mailbox.dfy`, `MailboxRing.dfy` | the event mailbox shared by all tasks | the 32-slot ring is an abstract queue; each event has exactly one fate per receiver; order; an event is owed to exactly those it lists and reaches whoever receives often enough; the polling gap below which nothing older than 1100 ms is ever delivered |
| `Fsm.dfy`, `Controller.dfy` | the program state machine and its money, as functions and as objects updated in place | the objects compute exactly the functions |
| `FsmTable.dfy`, `FsmPurse.dfy` | | the whole next context of every step, in two flat tables the layered handlers are proved to follow |
| `FsmSafety.dfy`, `FsmLedger.dfy`, `FsmVend.dfy`, `HiddenCredit.dfy` | | over every run no cent is lost or created, the cap holds, a vend that the reader was told succeeded always starts and is paid exactly, the rollback branches are dead; money moves only where it should; the amount asked of the card reader, the amount reported to it and the coins charged are one; what becomes of credit hidden by a card removal |
| `FsmTicks.dfy`, `FsmTimers.dfy`, `ProgramSwitch.dfy` | | the choice timeout fires exactly when its limit is reached; pauses keep the time run; ticks are sure to end a program exactly when no timer can step over its limit; a program renews exactly C div p times; a program switch keeps the value of the remaining time exactly when none of its three operations overflows |
| `CctalkFrame.dfy`, `CctalkCommand.dfy` | ccTalk framing and command/response matching | frames printed in a row are received as the same frames; what is received was on the wire; the command returns the device's first answer |
| `CoinEvents.dfy` | coins out of a 5-entry window and an 8-bit counter | no coin twice, none missed exactly when every reading is at most five events behind |
| `HandOff.dfy` | the heap record shared by requester and handler | no use after free, no double free, freed exactly once, whole replies, no deadlock, when a notification is left behind and when one from outside does harm |
| `Eeprom.dfy` | page-split EEPROM writes and block-split reads | no roll-over, exactly a written prefix on failure, read-back |
| `I18nSplit.dfy`, `I18nRecords.dfy` | splitting texts into 31-byte sections and loading them back | both splitters are the same function and use the fewest sections; records load back in any order |
| `Barcode.dfy` | barcode extraction | the latest of the longest digit runs; exactly which texts are refused |

Code that updates state in place is a class or a method with loops, proved equal to a function; the laws are
lemmas about the functions. `Values.dfy` holds two shared types.

## What the proofs showed

- Credit can be held and not shown. When a card is taken away during a program only the totals are cleared
  (main/tasks.c:2748-2754, whose log message says the remaining VCD was zeroed), not the buckets. The totals
  stay balanced exactly when there was nothing to hide (`TagRemovalUnbalancesIff`), and it happens
  (`CreditCanBeHidden`). The hidden coins stay through every run that moves no money, and the next payment
  accepted shows them again (`HiddenCardCreditComesBack`, `HiddenCreditReturns`). No payment is accepted while the
  program is active (`NoPaymentDuringProgram`), and a choice timeout in between writes them off
  (`HiddenCreditCanBeLost`).
- The ccTalk checksum takes its length as 8 bits (components/cctalk/cctalk.c:595), so with 252 to 255 data bytes
  it covers only zero to three bytes. Sender and receiver agree, so frames still arrive, but damage beyond
  those bytes goes unnoticed (`SingleByteDamage`).
- Ages are 32 bits wide, so an event 2^32 ms old looks new. Receives at most g ms apart rule stale deliveries
  out if and only if g + 1100 < 2^32 (`PollingGapIff`).
- So are the program timers. Ticks of at most d ms are sure to end an active program if and only if its target
  and, during a pause, its pause limit are at most 2^32 - d (`EndsIff`). A choice timeout of 2^32 - 5000 ms or more
  never fires, because the ceiling of the idle time wraps below it (`ChoiceEndsIff`).
- No session is ever in the mode VIRTUAL_LOCKED (`MoneyIsConserved`), so the tests for it never hold.
- A request leaves a notification behind exactly when it timed out, found its reply complete and discarded
  notifications before the handler gave its own (`NoteIsLeftIff`, `LateWake`). One that is pending when the next
  request starts is harmless, because that discards it (`PendingNotesAreHarmless`). But a request can return before
  its handler has notified (`ReturnsBeforeNotified`), and if that notification comes after the next request has
  discarded, the requester takes it for its own: memory stays safe unless this happens (`SafeUnlessMisled`), and
  it can end in a touch of freed memory exactly when the reply is not complete and the handler is still to write
  it (`WakeFaultsIff`, `LateNoteFaults`).
- `[RESET]` counts only among the first 63 printable characters (`RefusedIff`); behind them it is not noticed
  (`LateResetPasses`).
- A program switch wraps in three places: a 64-bit product, a 32-bit remainder and the 32-bit sum with the elapsed
  time (main/fsm.c:1445-1450). It keeps the value of the remaining time if and only if none of them does
  (`SwitchEvent`); the first two alone are not enough (`SwitchWrapsTarget`). Prices up to 655 coins and durations
  up to 6553.6 s are always safe (`SwitchBoundsFit`).
- A switch that names no price, as to a free program (components/web_ui/web_ui_programs.c:502 accepts price 0), is
  scaled as if the price were 1 but goes on at the old price (`SwitchWithoutPrice`, `FreeSwitchDoubles`).

## Model

| member | source | states |
|---|---|---|
| `Mailbox.ListedAgents` | main/fsm.c:476-482 | the mask holds exactly the agents listed before the first NONE among the first ten entries |
| `Mailbox.PublishedFor` | main/fsm.c:1683-1728 | an accepted publish adds one entry, at the end, owed to exactly the agents listed or, when none is, to the state machine |
| `Mailbox.RunKeeps` | main/fsm.c:1683-1857 | every interleaving of publishes and receives keeps the mailbox invariant, at any clock readings |
| `Mailbox.EveryDeliveryAccountedFor` | main/fsm.c:1812-1857 | in every run each addressed receiver of each event is in exactly one of delivered, pending, expired; delivered means handed over, once, in publish order per receiver; the head slot is never a hole |
| `Mailbox.DeliveredMeansHandedOver` | main/fsm.c:1818-1830 | whoever is recorded as having an event was handed it |
| `Mailbox.AgeIsTrueAge` | main/fsm.c:125 | the 32-bit subtraction gives the true age modulo 2^32, and the true age exactly while that is from 0 to 2^32 - 1 |
| `Mailbox.SweepDropsStalePrefix` | main/fsm.c:116-146 | one sweep removes exactly the stale prefix, consumed holes included, then the holes now at the head |
| `Mailbox.ExpiresOnlyStale` | main/fsm.c:125-139 | a receiver is given up only for an event over 1100 ms old |
| `Mailbox.HandedIsOldestDeliverable` | main/fsm.c:1812-1857 | a receive hands over the oldest event owed to the receiver and not over 1100 ms old, and nothing exactly when there is none |
| `Mailbox.RunStaysFresh` | main/fsm.c:1683-1857 | with a monotone clock and queued ages below 2^32 ms the queue stays in time order and holds nothing over 1100 ms older than the last sweep |
| `Mailbox.NothingStaleIsDelivered` | main/fsm.c:1814-1848 | under the same two conditions no receiver is handed an event older than 1100 ms; a refusal means 31 slots all published at most 1100 ms before the last sweep |
| `Mailbox.PollingGapIff` | main/fsm.c:1814-1848 | receives at most g ms apart rule out stale deliveries in every run if and only if g + 1100 < 2^32 |
| `Mailbox.RefusedPublishLeavesNoTrace` | main/fsm.c:1698-1715 | after a refused publish every queue, fate and delivery of every continuation is as if it had not been attempted |
| `Mailbox.HandedIsFirstThatLooks` | main/fsm.c:116-146 | at any clock reading a receive hands over the first entry owed to the receiver whose 32-bit age is at most 1100 ms, and nothing exactly when there is none |
| `Mailbox.HandedAgeIsBounded` | main/fsm.c:125-126 | at any clock reading the age modulo 2^32 of what is handed over is at most 1100 ms |
| `Mailbox.HandedInTime` | main/fsm.c:1683-1857 | an accepted event is handed to everyone it lists (to the state machine when it lists nobody) who receives, within 1100 ms, once for every entry then owed to it, whatever others publish and receive in between |
| `MailboxRing.ToMask` | main/fsm.c:470-488 | the recipient loop computes the set of listed agents, or the state machine when none is listed |
| `MailboxRing.Ring.Publish` | main/fsm.c:1683-1728 | the ring after a publish represents the abstract queue after it, and refuses exactly when that does |
| `MailboxRing.Ring.DropExpired` | main/fsm.c:116-146 | the in-place sweep of the ring is the abstract sweep |
| `MailboxRing.Ring.Consume` | main/fsm.c:1826-1834 | clearing a bit and advancing the head over holes is the abstract removal |
| `MailboxRing.Ring.Receive` | main/fsm.c:1783-1857 | the ring after a receive represents the abstract queue after it, and hands over the same event |
| `FsmTable.StepFollowsTable` | main/fsm.c:662-1586 | every step leaves the state, session, program, pending vend, idle time and settings, and gives the reader requests and the result, of one flat table by state and event |
| `FsmPurse.StepFollowsPurse` | main/fsm.c:878-1586 | every step leaves the purse of a second flat table: which payment into which bucket, what is charged, written off or shown |
| `FsmPurse.PaymentFillsBucket` | main/fsm.c:166-218 | a payment changes its own bucket only, by its amount less what the cap leaves no room for |
| `FsmPurse.TimeoutLeaves` | main/fsm.c:707-730 | a choice timeout leaves whole coins and nothing else |
| `FsmPurse.EndLeaves` | main/fsm.c:1394-1419 | the end of credit leaves nothing, or the coins bucket as it was when only the card's credit ends |
| `FsmSafety.FactorySettings` | main/fsm.c:601-651 | what a machine starts with |
| `FsmSafety.ChargeExact` | main/fsm.c:320-376 | charging succeeds exactly when 0 < cost <= credit, takes exactly the cost, coins before card before QR, and otherwise changes nothing |
| `FsmSafety.PaymentForfeitsOnlyAtCap` | main/fsm.c:166-218 | a payment loses cents only when the 99-coin cap leaves no room, and then exactly what does not fit |
| `FsmSafety.TimeoutForfeitsExactly` | main/fsm.c:707-730 | the choice timeout keeps every whole coin and writes off exactly card and QR credit and residual cents |
| `FsmSafety.EndedForfeitsExactly` | main/fsm.c:1384-1420 | the end of credit keeps the books balanced, and leaves coins alone when only virtual credit ends |
| `FsmSafety.HandleEventPurse` | main/fsm.c:662-867 | the event handler itself moves money only on a timeout in CREDIT |
| `FsmSafety.OnSelectKeeps` | main/fsm.c:1090-1230 | a selection keeps the invariant and never takes the refund branch |
| `FsmSafety.OnVendApprovedKeeps` | main/fsm.c:1232-1343 | an approval keeps the invariant and never takes a recovery branch after the success was queued |
| `FsmSafety.StepKeeps` | main/fsm.c:878-1586 | every input event, tick and direct write of the main task keeps bucket ranges, cap, balance, handshake and the meaning of program_running |
| `FsmSafety.RunKeeps` | main/fsm.c:878-1586 | so does every run |
| `FsmSafety.MoneyIsConserved` | main/fsm.c:601-651 | in every run from the start: cents accepted = 100 x (coins held + coins charged) + residual cents + cents written off; the cap holds; program_running exactly in RUNNING |
| `FsmSafety.TagRemovalUnbalancesIff` | main/tasks.c:2744-2757 | a card removal leaves the totals balanced exactly when it hides no card or QR credit |
| `FsmSafety.RunKeepsTotals` | main/fsm.c:105-114 | balanced totals stay balanced over every run in which no card removal hides credit |
| `FsmSafety.TotalsAgree` | main/fsm.c:105-114 | as long as only fsm.c writes the context, the shown totals are the sums of the buckets |
| `FsmSafety.ApprovalAtomic` | main/fsm.c:1232-1343 | an approval either reports success, charges exactly the pending price and starts, or charges nothing and starts nothing |
| `FsmSafety.AcceptedVendAlwaysStarts` | main/fsm.c:1058-1076 | the same in every reachable state |
| `FsmSafety.RollbacksAreUnreachable` | main/fsm.c:1129-1176 | in every reachable state the rollback branches of both ways to start are dead |
| `FsmLedger.PaymentKindLedger` | main/fsm.c:985-1088 | payments never charge, accept exactly the amount received, lose money only at the cap |
| `FsmLedger.InputLedger` | main/fsm.c:878-1474 | which input events may accept, charge or write off money, and how much |
| `FsmLedger.TickLedger` | main/fsm.c:1487-1586 | a tick moves money only for a renewal at the running price or when the idle time reaches the choice timeout |
| `FsmLedger.MoneyMovesOnlyHere` | main/fsm.c:417-458 | every charge is a paid selection, a paid card vend or a renewal, for exactly the price the program then runs at; every write-off is at the cap, at a timeout or at the end of credit |
| `HiddenCredit.RemovalLeavesNoTrace` | main/tasks.c:2748-2754 | a credit update after a card removal gives the buckets and totals it would have given without it |
| `HiddenCredit.NoPaymentDuringProgram` | main/fsm.c:918-927 | a typed payment event changes nothing while a program is running or paused |
| `HiddenCredit.StepCoins` | main/fsm.c:878-1586 | every step that leaves the ledger alone leaves every coin and cent in its bucket, and every accepted payment shows all that is held |
| `HiddenCredit.HiddenCardCreditComesBack` | main/tasks.c:2744-2757 | after a card removal, through every run that moves no money, the buckets stay as they were, and the next payment accepted shows everything |
| `HiddenCredit.CreditCanBeHidden` | main/tasks.c:2744-2757 | a run from the start after which three coins are held and none are shown |
| `HiddenCredit.HiddenCreditReturns` | main/tasks.c:2744-2757 | a coin paid after that program shows four |
| `HiddenCredit.HiddenCreditCanBeLost` | main/fsm.c:707-730 | after the same removal, the end of the program, a touch, the choice timeout and a coin, three coins are written off and one shows |
| `FsmVend.AsksIff` | main/fsm.c:1129-1170 | a step asks the reader exactly for a selection in CREDIT in a card session with no vend pending and a covered price of up to 655 coins, and for 100 cents a coin |
| `FsmVend.PendingMeansAsked` | main/fsm.c:1129-1170 | a vend becomes pending exactly when its price in cents is asked for and the request is taken |
| `FsmVend.SuccessIsForPending` | main/fsm.c:1232-1343 | success is reported only for a pending vend and its price in cents |
| `FsmVend.OneAmount` | main/fsm.c:1129-1343 | in every run the amount a success is reported for is the amount last asked for and, when taken, 100 times the coins charged |
| `FsmTimers.TickInCredit` | main/fsm.c:1497-1503 | a tick leaves CREDIT exactly when the idle time reaches the choice timeout, and otherwise only counts |
| `FsmTimers.BelowTheLimit` | main/fsm.c:1497-1582 | any ticks that sum to less than the timeout move no money and end nothing |
| `FsmTimers.ChoiceEndsIff` | main/fsm.c:1497-1582 | the tick that reaches the timeout ends the choice exactly unless a 32-bit sum wraps |
| `FsmTimers.StepGoesOn` | main/fsm.c:746-851 | whatever happens while a program goes on, its elapsed time grows by exactly the ticks taken in RUNNING; target, price and pause limit stay |
| `FsmTimers.ElapsedIsRunTime` | main/fsm.c:746-851 | over every run with any number of pauses the elapsed time is what it was plus the time spent in RUNNING, modulo 2^32 |
| `FsmTimers.PauseAndResume` | main/fsm.c:1375-1382 | pausing and resuming at once gives the program back |
| `FsmTimers.StartsAsAsked` | main/fsm.c:1090-1343 | a program starts at zero with the target, pause limit and price of the selection, or of the vend request |
| `FsmTimers.StopLeaves` | main/fsm.c:753-851 | a plain stop leaves a running or paused program, for CREDIT exactly while credit or the card is there |
| `FsmTicks.TickMakesProgress` | main/fsm.c:1487-1586 | every tick of an active program whose timers cannot step over their limits leaves it or lowers a measure of coins, pause and time left |
| `FsmTicks.TicksEndProgram` | main/fsm.c:1487-1586 | ticks alone end every such program, within that measure |
| `FsmTicks.RenewalsSpend` | main/fsm.c:417-458 | renewals account for all credit a program spends while it runs |
| `FsmTicks.RenewsExactlyWhatCreditAllows` | main/fsm.c:1538-1566 | for every program that ends, with price p and C coins left outside card sessions: exactly C div p renewals, then CREDIT with C mod p coins or rest with none |
| `FsmTicks.OthersNeverRenew` | main/fsm.c:417-458 | a card session, a requested stop or a free program never renews, and no money moves |
| `FsmTicks.EndNoticedIff` | main/fsm.c:1505-1540 | the tick that reaches the target ends the cycle if and only if the elapsed time does not wrap in it |
| `FsmTicks.EndsIff` | main/fsm.c:1505-1540 | ticks of at most d ms are sure to end an active program, running or paused, if and only if its target and, during a pause, its pause limit are at most 2^32 - d |
| `ProgramSwitch.SwitchEvent` | main/fsm.c:1422-1466 | every switch of an active program with a target and a new duration: ends in RUNNING, moves no money, and keeps the value of what remains if and only if product, remainder and new target all fit |
| `ProgramSwitch.SwitchBoundsFit` | main/fsm.c:1434-1450 | for prices up to 655 coins and durations up to 6553.6 s they fit, whatever has elapsed and whatever the new price |
| `ProgramSwitch.SwitchWrapsTarget` | main/fsm.c:1450-1450 | an input whose product and remainder fit and whose new target still lies before the elapsed time |
| `ProgramSwitch.SwitchWithoutPrice` | main/fsm.c:1438-1451 | without a new price the value at the price kept is preserved exactly when that is 1 or remaining time x new duration x price is below the old target |
| `ProgramSwitch.FreeSwitchDoubles` | main/fsm.c:1438-1451 | from one minute at 2 coins to a free minute: two minutes are left, still at 2 coins |
| `ProgramSwitch.UnscaledSwitch` | main/fsm.c:1441-1450 | without a target or a duration the new duration is taken as it is, exactly while the sum fits |
| `ProgramSwitch.SwitchKeepsValueIff` | main/fsm.c:1441-1444 | the scaled remainder by itself is the exact floor if and only if the 64-bit product and the 32-bit remainder fit |
| `ProgramSwitch.SwitchBounds` | main/fsm.c:1441-1444 | explicit bounds under which it is |
| `ProgramSwitch.SwitchToSameRate` | main/fsm.c:1441-1444 | same duration and price: nothing changes, exactly when the 64-bit product fits |
| `Controller.Wallet.AddCreditCents` | main/fsm.c:166-248 | the in-place credit update is the credit function |
| `Controller.Wallet.TryCharge` | main/fsm.c:320-376 | the in-place charge is the charge function |
| `Controller.Machine.Configured` | main/tasks.c:2534-2553 | the machine the main task starts with satisfies the invariant |
| `Controller.Machine.TryAutoRenew` | main/fsm.c:417-458 | the in-place renewal is the renewal function |
| `Controller.Machine.Handle` | main/fsm.c:662-867 | the in-place event handler is the event function, with its reader requests |
| `Controller.Machine.HandleInputEvent` | main/fsm.c:878-1474 | the in-place input handler gives the context, result, message and reader requests of the input function, and keeps the invariant of money, flags and handshake |
| `Controller.Machine.Tick` | main/fsm.c:1487-1586 | the in-place tick is the tick function, and keeps the invariant |
| `Controller.Machine.TagTaken` | main/tasks.c:2744-2770 | the direct writes of the main task, which keep the invariant |
| `CctalkFrame.WireLayout` | components/cctalk/cctalk.c:196-205 | destination, length, source, header, data and checksum in this order |
| `CctalkFrame.SimplePoll` | components/cctalk/cctalk.c:184-222 | the simple poll of device 2 by master 1 is 2, 0, 1, 254, 255 |
| `CctalkFrame.ComputeChecksum` | components/cctalk/cctalk.c:595-602 | the 16-bit accumulator gives the negated byte sum |
| `CctalkFrame.BuildPacket` | components/cctalk/cctalk.c:184-222 | the packet filled in place is the printed frame |
| `CctalkFrame.PrintedSum` | components/cctalk/cctalk.c:210-213 | a printed frame sums to what its checksum leaves uncovered |
| `CctalkFrame.ShortPrintedSum` | components/cctalk/cctalk.c:210-213 | up to 251 data bytes the whole frame sums to 0 modulo 256 |
| `CctalkFrame.PrintIsAccepted` | components/cctalk/cctalk.c:262-290 | every printed frame is accepted and read back |
| `CctalkFrame.AcceptedIsPrinted` | components/cctalk/cctalk.c:262-290 | every accepted byte string is the printing of the frame it is read as |
| `CctalkFrame.SingleByteDamage` | components/cctalk/cctalk.c:262-290 | a changed byte is noticed exactly when the checksum covers it or it is the checksum |
| `CctalkFrame.Receive` | components/cctalk/cctalk.c:234-295 | the byte-at-a-time parser finds the next accepted block, and its index never leaves the 260-byte buffer |
| `CctalkFrame.StreamOfBlocks` | components/cctalk/cctalk.c:234-295 | damaged blocks are dropped whole and the frames around them are received |
| `CctalkFrame.PrintThenReceive` | components/cctalk/cctalk.c:184-295 | frames printed in a row are received as the same list, for 0 to 255 data bytes each |
| `CctalkFrame.ReceivedWasPrinted` | components/cctalk/cctalk.c:234-295 | a received frame was on the wire, as its own printing, right before the position reached |
| `CctalkCommand.AwaitReply` | components/cctalk/cctalk.c:490-526 | the loop returns the first frame that is the device's answer |
| `CctalkCommand.CommandFindsReply` | components/cctalk/cctalk.c:472-530 | with distinct addresses: the device's first frame to the master, past the echo and any foreign frames |
| `CctalkCommand.ReplyExists` | components/cctalk/cctalk.c:507-513 | there is an answer exactly when some frame goes from the device to the master |
| `CctalkCommand.OwnAddressNeverAnswers` | components/cctalk/cctalk.c:507-509 | with equal addresses every answer is taken for the echo |
| `CoinEvents.ReadBuffer` | components/cctalk/cctalk.c:901-921 | counter and five pairs at their positions, refused exactly for short answers |
| `CoinEvents.Poller.Handle` | components/cctalk/cctalk_driver.c:434-562 | the first reading is a baseline, later ones hand over the new entries, at most five |
| `CoinEvents.RealKeeps` | components/cctalk/cctalk_driver.c:516-516 | what is skipped is exactly the entries with both bytes 0 |
| `CoinEvents.BatchIsNewest` | components/cctalk/cctalk_driver.c:205-208 | one reading hands over, newest first, all new events if at most five are new, exactly the five newest for 6 to 255 |
| `CoinEvents.PromptReadingsMissNothing` | components/cctalk/cctalk_driver.c:434-562 | over unbounded runs with counter wraps, readings at most five events apart hand over all events reading by reading, newest first within one |
| `CoinEvents.NewestFirstIsAll` | components/cctalk/cctalk_driver.c:434-562 | and that is every event after the baseline exactly once |
| `CoinEvents.PromptReadingsCount` | components/cctalk/cctalk_driver.c:434-562 | for prompt readings every coin and every error is handed over exactly as often as it happened after the baseline |
| `CoinEvents.HandedOnceAndAllIff` | components/cctalk/cctalk_driver.c:434-562 | no event is handed over twice, and none is missed if and only if every gap is at most five |
| `CoinEvents.HandledIsPicked` | components/cctalk/cctalk_driver.c:434-562 | what is handed over is exactly the events at those positions, whatever the gaps |
| `CoinEvents.PollRun` | components/cctalk/cctalk_driver.c:434-562 | the driver object, polled over a whole run, hands over what the run function says; for prompt readings every coin and error as often as it happened |
| `HandOff.Record.CompleteLocked` | main/tasks.c:836-842 | the handler's locked section is the step of the protocol |
| `HandOff.Record.AbandonLocked` | main/tasks.c:935-941 | the requester's locked section is the step of the protocol |
| `HandOff.RunKeeps` | main/tasks.c:757-962 | every interleaving keeps the ownership invariant |
| `HandOff.MemoryIsSafe` | main/tasks.c:827-849 | the record is never touched when not allocated and freed at most once |
| `HandOff.FreedExactlyOnce` | main/tasks.c:896-961 | at the end it is freed exactly once, unless it was never allocated or an abandoned request's event was never handled |
| `HandOff.ReplyIsWhole` | main/tasks.c:946-961 | a returned reply is the one the handler produced, not torn although written outside the lock |
| `HandOff.GivenUpIff` | main/tasks.c:932-945 | a timed-out request is abandoned exactly when the handler had not completed |
| `HandOff.Progress` | main/tasks.c:757-962 | every turn that changes anything brings the end nearer, and only a finished state is stuck |
| `HandOff.MovesAreBounded` | main/tasks.c:757-962 | no run has more effective turns than its start allows |
| `HandOff.NotesLeftBehind` | main/tasks.c:836-845 | a request leaves at most one notification behind |
| `HandOff.NoteIsLeftIff` | main/tasks.c:836-845 | and exactly when it discards notifications at a moment when the handler has completed but not yet notified; only a request that returns a reply can |
| `HandOff.LateWake` | main/tasks.c:836-845 | for every reply there is such a run |
| `HandOff.PendingNotesAreHarmless` | main/tasks.c:923-932 | whatever was pending at the start, a waiting requester finds a notification only when its reply is complete |
| `HandOff.ReturnsBeforeNotified` | main/tasks.c:836-845 | a request can return its reply while its handler has yet to notify |
| `HandOff.SafeUnlessMisled` | main/tasks.c:757-962 | with notifications from outside at any time, the ownership invariant holds as long as none is taken before the reply is complete |
| `HandOff.WakeFaultsIff` | main/tasks.c:932-961 | taking a notification can end in a touch of freed memory exactly when the reply is not complete and the handler is still to write it |
| `HandOff.LateNoteFaults` | main/tasks.c:923-961 | a run in which a notification from outside, given after publication, does |
| `Eeprom.AtBlock` | components/eeprom_24lc16/eeprom_24lc16.c:34-57 | block and internal address together are the address |
| `Eeprom.NoRollOver` | components/eeprom_24lc16/eeprom_24lc16.c:284-292 | a page write inside its page is a plain write |
| `Eeprom.RollOverLosesTheTail` | components/eeprom_24lc16/eeprom_24lc16.c:284-292 | a page write that does not fit is not, so the split is needed |
| `Eeprom.Driver.Write` | components/eeprom_24lc16/eeprom_24lc16.c:265-315 | after any course of the bus the memory is the old one with exactly a prefix of the data at the address; all of it when it succeeds |
| `Eeprom.Driver.Read` | components/eeprom_24lc16/eeprom_24lc16.c:226-262 | the buffer holds exactly the memory read so far; all of it when it succeeds |
| `Eeprom.SucceedsIff` | components/eeprom_24lc16/eeprom_24lc16.c:271-313 | a transfer succeeds exactly when every block touched has a handle and every page or block chunk is acknowledged |
| `Eeprom.StopsAt` | components/eeprom_24lc16/eeprom_24lc16.c:271-313 | a transfer that fails stops at the first chunk not acknowledged or before the first block without a handle, and says which |
| `Eeprom.WriteThenRead` | components/eeprom_24lc16/eeprom_24lc16.c:226-315 | a successful write and read give the data back across pages and blocks, the rest of the memory is unchanged |
| `I18nSplit.EncodingDecodes` | scripts/generate_i18n_json_from_header.py:74-74 | the character widths are those of UTF-8, whose encoding is reversible |
| `I18nSplit.SplitCounting` | scripts/generate_i18n_json_from_header.py:65-94 | the byte-counting splitter is the greedy split |
| `I18nSplit.SplitReencoding` | scripts/convert_i18n_compact.py:9-31 | the re-encoding splitter is the same greedy split |
| `I18nSplit.Rejoins` | scripts/generate_i18n_json_from_header.py:65-94 | the sections join to the text |
| `I18nSplit.SectionsFit` | scripts/generate_i18n_json_from_header.py:65-94 | every section is within the limit or one over-wide character, and none is empty unless the text is |
| `I18nSplit.FewestSections` | scripts/generate_i18n_json_from_header.py:65-94 | no cut into sections within the limit has fewer |
| `I18nRecords.BuildRecords` | scripts/generate_i18n_json_from_header.py:231-247 | the nested loop writes the numbered sections of the sorted entries |
| `I18nRecords.RowsAreOrderly` | scripts/generate_i18n_json_from_header.py:231-247 | rows come in order of scope, key and section, with at most 31 bytes of text, and only for entries that are there |
| `I18nRecords.FewestRows` | scripts/generate_i18n_json_from_header.py:65-94 | an entry takes no more rows than any cut of its text into sections of at most 31 bytes |
| `I18nRecords.LoadRecords` | scripts/generate_language_models.py:220-243 | the dictionary filled row by row holds, per key with positive parts, the texts sorted by section and joined |
| `I18nRecords.SortRestores` | scripts/generate_language_models.py:239-241 | sorting any permutation of numbered sections restores their order |
| `I18nRecords.SortIsStable` | scripts/generate_language_models.py:239-241 | rows with the same section keep their order |
| `I18nRecords.WriteThenLoad` | scripts/generate_language_models.py:220-243 | distinct positive identifiers: any permutation of the written rows loads as exactly the original texts |
| `Barcode.ReadPrintable` | main/tasks.c:3404-3413 | the filter keeps the first 63 printable characters before the terminator |
| `Barcode.FilterKeeps` | main/tasks.c:3404-3413 | exactly the characters from space to tilde, each as often as it is there |
| `Barcode.FrameIff` | main/tasks.c:3441-3446 | a scanner frame is told by one of five names, or a hash and a semicolon |
| `Barcode.LongestRun` | main/tasks.c:3456-3482 | the loop finds the longest maximal digit run, the latest on ties |
| `Barcode.Extract` | main/tasks.c:3396-3492 | the result and the refusals, stated over all digit runs of the trimmed text |
| `Barcode.AnswerIsUnique` | main/tasks.c:3396-3492 | that statement determines the result |
| `Barcode.BestIsLongest` | main/tasks.c:3456-3482 | no stretch of digits is longer than the run chosen |
| `Barcode.FrameAnswer` | main/tasks.c:3484-3491 | scanner frames are accepted exactly when six digits stand in a row, and answered with digits as long as any stretch, up to the buffer |
| `Barcode.ResetNeverPasses` | main/tasks.c:3435-3439 | text read with `[RESET]` in it is refused, and no answer contains it |
| `Barcode.RefusedIff` | main/tasks.c:3396-3492 | a text is refused exactly for want of room or characters, for `[RESET]` among its first 63 printable characters, or as a frame without six digits in a row |
| `Barcode.LateResetPasses` | main/tasks.c:3404-3413 | behind any 63 printable characters `[RESET]` is not noticed and what is before it comes out |

## Left out

- Bit masks are sets of agents 0 to 31; `1u << id` for larger identifiers is undefined in C and not modelled.
- Mutex and semaphore timeouts, the mailbox signal, wait slices and the pending-message texts: a locked section is one atomic step, and a lock that is not obtained is no step.
- Tick-to-millisecond conversion: the mailbox clock is a true time read modulo 2^32.
- Texts, customer codes, logging, audio, LEDs, screens, HTTP, Modbus, the MDB driver, NVS and file access.
- The autorenew payment event (main/fsm.c:378-415): publishing it changes neither state nor money.
- 32-bit overflow of cent sums and of the used counters, undefined in C: amounts near 2^31 cents do not occur.
- `Controller.Machine` groups the fields of `fsm_ctx_t` into records and keeps the money in a wallet object; the ledger is added history. The two refund branches are in the functions, not in the methods, which prove them dead.
- Two program switches in a row: the new target is elapsed plus remainder, so value is claimed for one switch only.
- Whether a pending card vend is eventually cleared: a touch changes the session, after which approval and denial are both refused (main/fsm.c:300, 1246-1251, 1347).
- TicksEndProgram: requires that no timer in use can step over its limit, which `EndsIff` shows to be exactly when ticks are sure to end a program.
- NothingStaleIsDelivered: requires a clock that never goes back and queued ages below 2^32 ms, because the stored time is 32 bits wide; `HandedIsFirstThatLooks` says what happens without either.
- ccTalk timing: a receiver sees the bytes that arrive before the deadline; restarts of the receive call within the deadline and the guards against a full buffer, which cannot apply, are not modelled.
- Coin labels, values and sorter paths of the acceptor, its error texts, and the counter rule of the standard that 1 follows 255 (the source counts modulo 256).
- Events lost while the acceptor is stopped: stopping and starting makes the next reading a new baseline.
- `HandOff` covers one request; of the requests before it only a notification that still comes is modelled.
- `Eeprom.Driver.Write`: address plus length does not wrap, as it would for lengths near 2^32; NULL buffers and write-cycle delays are left out; a failed transfer is taken to store a prefix of its chunk.
- Lone surrogates, which cannot be encoded, a missing text in the re-encoding splitter, and JSON rows with missing fields (they read as 0 or the empty text).
- The order of keys in the loaded dictionary.
- Unescaping of texts, conflict checks and file output of the scripts.
- Duplicate suppression and cooldown of the scanner callback.
