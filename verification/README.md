# Ambot converter ledger — a Dafny model

Ambot is a Telegram bot. It sells media conversions for a virtual coin balance.
A user picks a title, a type (audio or video) and a quality tier. The bot prices the request.
It then checks a per-day conversion limit and a cooldown, and debits the balance.
After that it logs a conversion record and queues the job on that user's own queue.
The finaliser is meant to refund a file that could not be produced or sent.
It credits the balance back, decrements the kind counter and marks the record.
As written the finaliser never gets scheduled (see "Left out"). `Settlement` models what it would do.
There is also a once-per-day reward and a one-time registration bonus.

`bot.py` and `ambot_aiosqlite.py` carry near-identical copies of this logic. It is modelled once.
The table cites whichever copy shows a step best.

The model is functional. The SQLite store is a value `Store(users, log)`:
- `users` is a map from user id to an immutable `Account`.
- `log` is a sequence of `Conversion` records. The record with id `k` is `log[k-1]`.
Every operation is a pure function from one store to the next.
Outcomes the bot cannot control are parameters:
- "today" (a day number in the fixed UTC+8 zone)
- "now" (UTC seconds)
- whether a file was produced, whether sending it succeeded
- which step of a refund raised an exception
- whether the cooldown notice or the queued-status message raised when sent

Modules:
- `Costs` (costs.dfy): the price tables and the lookup with fallback to the table's maximum.
- `Ledger` (ledger.dfy): accounts, conversion records, and the per-row updates (`deduct_coins`, `add_coins`, the counters, rate-limit bookkeeping, record status).
- `Admission` (admission.dfy): the quality-button branch of `callback_router`. Daily limit, then cooldown, then debit, then bookkeeping.
- `Settlement` (settlement.dfy): the branches of `async_finalize_and_update` after its polling loop. Also a "worth" invariant: balance plus the cost of conversions still standing as done.
- `Rewards` (rewards.dfy): `give_daily` and the "register" text.
- `JobQueue` (jobqueue.dfy): the per-user queues and worker registry of `enqueue_user_conversion` / `user_queue_worker`.
- `Progress` (progress.dfy): `progress_bar`, the `m:ss` duration, and the de-duplicating status-edit loop.
- `TextCommands` (commands.dfy): the dispatch in `handle_start_text` and the `history n` count.
- `StartText` (handler.dfy): `handle_start_text` on the ledger. Every text upserts the sender's row before it is dispatched.
- `Decimal` (decimal.dfy) and `Wrappers` (wrappers.dfy): decimal rendering and parsing, `Option`/`Result`.

Behaviour of the code that the model makes explicit:
- A failed download marks the record `failed` before the refund runs. If the refund then raises, the record is `failed` and the coins stay debited (`Settlement.DoubleFaultLosesPrice`).
- A failed send whose decrement or mark raises has already credited the coins. The record still reads `done`, so the price counts twice in the user's worth: once in hand and once as held (`Settlement.PartialRefundCreditsTwice`).
- If the "refunded" message itself fails to send after a complete refund, the "refund failed" message goes out instead (`Settlement.RefundAfterSendFailure`, fault `NoticeRaises`).
- If the cooldown notice raises when sent, the handler swallows the error and the request goes on to the debit (`Admission.Admit`, `Admission.CooldownScenario`).
- If the queued-status message raises, the debit, the counters and the `done` record stand, but the job never reaches the queue (`Settlement.StatusFailureStrandsPrice`).
- Any text message creates the sender's row, so an unregistered user who has only chatted receives the daily reward (`StartText.AnyTextEarnsDaily`).
- A refund gives back coins and the kind counter only. The daily count and the cooldown stamp keep their admission values (`Settlement.RefundRestoresAdmission`).

Record statuses as the code writes them:
- Records are created with status `done`, not a queued/running state.
- There are only three statuses: `done`, `refunded` and `failed`.
- A failed download is marked `failed` whether or not the refund then succeeds.
- A failed send whose refund raises leaves the record `done`.

## Model

| member | source | states |
|---|---|---|
| Costs.MaxCost | bot.py:398-400 | the fallback price is one of the table's prices and no price in the table exceeds it |
| Costs.Find | bot.py:398 | `dict.get`: a tier's stored price when the tier is in the table, nothing exactly when it is absent |
| Costs.LookupOrMax | ambot_aiosqlite.py:394-396 | a known tier costs its table price; an unknown tier costs the table maximum |
| Costs.CostFor | bot.py:397-401 | exactly "audio" is priced from the audio table and every other session type from the video table: a listed tier costs its table price, an unknown tier that table's maximum |
| Costs.CostIsConfigured | bot.py:55-56 | every price charged is a configured entry of the session's table, so at least 20 coins |
| Costs.AudioPrices | ambot_aiosqlite.py:48 | audio 128→20, 320→40, and an unknown 256 costs the top price 40 |
| Costs.VideoPrices | ambot_aiosqlite.py:49 | video 720→80, and an unknown 999 costs the top price 120 |
| Costs.CaseSensitivePrice | bot.py:397 | only the exact string "audio" selects the audio table: "Audio" at 128 costs the video maximum 120 |
| Decimal.NatToString | ambot_aiosqlite.py:592 | `str(n)` yields a non-empty all-digit string, one digit exactly for n < 10, with no leading zero except for 0 itself |
| Decimal.TwoDigits | ambot_aiosqlite.py:592 | `{s:02d}` yields exactly two digits that read back as s |
| Decimal.ValueOfNatToString | ambot_aiosqlite.py:326-327 | `int(str(n)) == n`: reading back a rendered number gives the number |
| Decimal.ValueLeadingZero | ambot_aiosqlite.py:326-327 | leading zeros do not change the value `int()` reads: "history 007" asks for 7 rows |
| Decimal.IntToString | bot.py:561 | `str(m)` starts with '-' exactly for a negative m, has only digits after that, it is exactly "0" for 0 and otherwise has no leading zero, and `int()` reads it back as m |
| Ledger.EnsureUser | bot.py:148-155 | `INSERT OR IGNORE`: a missing user gets a fresh all-default row, an existing row is left untouched |
| Ledger.AddCoins | bot.py:165-168 | credits exactly `amount`, possibly negative, to that user only; a missing user changes nothing |
| Ledger.Deduct | bot.py:175-187 | succeeds iff the row exists and balance ≥ amount; on failure nothing changes; on success exactly `amount` is subtracted, other users untouched, and the balance stays non-negative |
| Ledger.IncrementCounter | bot.py:192-198 | adds one to `music_count` for "audio" and to `video_count` otherwise, touching no other field |
| Ledger.Saturating | bot.py:203 | the SQL CASE: one less for a positive count, zero otherwise, never negative |
| Ledger.DecrementCounter | bot.py:200-206 | subtracts one from the counter of that kind, saturating at 0, touching no other field |
| Ledger.RateInfo | bot.py:254-262 | a missing row reads exactly like the fresh row that inserting it would create: count 0, no count date, no stamp |
| Ledger.CountToday | bot.py:404-407 | the count the limit check sees: the stored count when it is dated today, 0 for a missing row or a count dated another day |
| Ledger.BumpDailyCount | bot.py:264-280 | a count dated another day restarts at 1 under today's date, today's count goes up by one, so the count becomes the day's effective count plus one; a missing row is inserted first |
| Ledger.SetLastConversion | bot.py:282-286 | stamps the cooldown clock of that user with "now" and changes nothing else |
| Ledger.LogConversion | bot.py:208-215 | appends one record with status done and refunded clear; its id is the new log length and earlier records are kept |
| Ledger.MarkRefunded | bot.py:217-220 | the record gets status refunded with its flag set, every other field and record kept; an unknown id changes nothing |
| Ledger.MarkFailed | bot.py:222-225 | the record gets status failed with its refunded flag as it was; an unknown id changes nothing |
| Ledger.RefundUndoesDebit | bot.py:189-190 | crediting back what a successful debit took restores the users map exactly |
| Ledger.DecrementUndoesIncrement | bot.py:192-206 | a decrement after an increment of the same kind restores a non-negative counter and the whole map |
| Ledger.StatusLifecycle | ambot_aiosqlite.py:115-116 | a new record is done and unrefunded; marking it refunded sets both fields; marking it failed leaves the flag clear |
| Admission.Admit | ambot_aiosqlite.py:392-445 | rejects with the daily limit iff the day's effective count reaches it; with the cooldown, and wait = cooldown − elapsed, iff the limit passes, a parseable stamp is younger than the cooldown and the notice goes out (a raising notice falls through to the debit); for lack of coins iff the debit is reached and fails, and that refusal names the price asked; any rejection leaves the store unchanged; success debits exactly the price, sets the daily count and date, stamps "now", adds one to the kind counter and appends a done record whose id the job carries; the job is queued iff admitted and the status message went out |
| Admission.NoDoubleSpend | bot.py:424-428 | once an admission has spent the whole balance, any later request by the same user is rejected |
| Admission.CooldownScenario | ambot_aiosqlite.py:408-419 | balance 100, audio 128: the first request is admitted and queued leaving 80; a second one 10 s later must wait 50 s and the balance stays 80, unless the wait notice raises, in which case it is debited to 60 |
| Admission.DailyLimitScenario | ambot_aiosqlite.py:400-407 | ten conversions today reject an eleventh whatever the balance; on the next day the same account is admitted and its count restarts at 1 |
| Settlement.RefundAfterSendFailure | ambot_aiosqlite.py:623-637 | refund, then decrement, then mark refunded, then notify; the first raising step stops the rest; the record is marked refunded only when refund and decrement went through; the "refunded" notice is sent only when nothing raised, the "refund failed" notice otherwise; no user other than the job's owner is touched |
| Settlement.RefundAfterProductionFailure | bot.py:607-614 | the record is marked failed before the refund, whether or not the refund succeeds; a raising refund is swallowed and leaves the account unchanged; a raising mark stops everything; only the job owner's balance and kind counters and only the job's own record can change, and no other user is touched |
| Settlement.Finalize | ambot_aiosqlite.py:602-656 | a delivered file leaves the store untouched; otherwise the matching refund branch runs; only the job owner's balance and kind counters and only the job's own record can change, no other user is touched, so the daily count and cooldown stamp are never rolled back |
| Settlement.RefundRestoresAdmission | bot.py:589-614 | after admission and a failed send or download with no fault, balance and kind counter equal their pre-admission values, while the daily count and cooldown stamp keep their admission values; the record ends refunded (send) or failed (download) |
| Settlement.HeldAppend | bot.py:208-215 | logging a record adds exactly its cost to its owner's coins held by standing conversions |
| Settlement.HeldUpdate | bot.py:217-225 | re-marking one record changes its owner's held coins by exactly that record's share |
| Settlement.AdmissionKeepsWorth | bot.py:424-434 | admission moves the price from balance to a standing record: every user's balance plus held coins is unchanged |
| Settlement.StatusFailureStrandsPrice | ambot_aiosqlite.py:430-443 | when the queued-status message raises, the job is not queued, yet the balance is debited by the price and the record stands as done, holding it |
| Settlement.FinalizeKeepsWorth | ambot_aiosqlite.py:616-651 | with no fault in the refund, finalisation keeps every user's balance plus held coins: delivered moves nothing, a refund returns exactly the price the record stops holding |
| Settlement.DoubleFaultLosesPrice | ambot_aiosqlite.py:643-651 | a failed download whose refund raises leaves the user short by exactly the price |
| Settlement.PartialRefundCreditsTwice | ambot_aiosqlite.py:623-637 | a failed send whose decrement or mark raises credits the price once while the record still stands as done, so the user's worth rises by the price; the user is told the refund failed |
| Rewards.RewardOne | ambot_aiosqlite.py:762-767 | afterwards the row is stamped today and only its balance and stamp can differ; the balance rises by the reward unless the row was already stamped today |
| Rewards.GiveDaily | ambot_aiosqlite.py:756-773 | every user ends stamped with today; those stamped before are unchanged, the rest gain exactly the reward and nothing else |
| Rewards.GiveDailyIdempotent | bot.py:719-736 | a second run on the same day changes nothing |
| Rewards.OneRewardPerDay | bot.py:725-730 | over two runs on one day an uncredited user gains exactly one reward |
| Rewards.Register | ambot_aiosqlite.py:297-308 | the row is created if missing; the bonus is credited and the registration stamped iff none was stamped; otherwise nothing changes |
| Rewards.RegisterIdempotent | ambot_aiosqlite.py:300-302 | registering a second time pays nothing and changes nothing |
| Rewards.NewUserGetsBonus | ambot_aiosqlite.py:51-52 | a new user who registers holds exactly the 500-coin bonus |
| JobQueue.Enqueue | ambot_aiosqlite.py:448-453 | the job goes to the back of the user's queue, created if needed; a worker is started exactly when none is registered or the registered one is done; afterwards a running worker owns the queue; other users untouched |
| JobQueue.Take | ambot_aiosqlite.py:455-491 | a worker turn takes the front job and leaves the rest; on an empty queue it removes both the queue and its own registry entry |
| JobQueue.Crash | ambot_aiosqlite.py:452 | a worker that dies stays registered as done and its pending jobs stay queued |
| JobQueue.Drain | ambot_aiosqlite.py:455-491 | a worker left alone takes exactly the pending jobs in arrival order and leaves no queue or registry entry for the user |
| JobQueue.FirstJobStartsWorker | ambot_aiosqlite.py:448-458 | the start-up registry of lines 81-82 (no queues, no workers) is consistent; a user's first job creates their queue and starts a worker, which takes exactly that job |
| JobQueue.EnqueueThenDrain | ambot_aiosqlite.py:448-458 | first in, first out: earlier jobs, then the new one |
| JobQueue.EnqueueKeepsFront | ambot_aiosqlite.py:451-458 | appending behind a non-empty queue does not change the next job taken |
| JobQueue.EnqueueAfterCrashRestarts | ambot_aiosqlite.py:452-453 | an enqueue after a worker died starts a fresh worker, and no earlier job is lost |
| Progress.Row | ambot_aiosqlite.py:281 | cell i is full exactly when i < filled |
| Progress.RowCount | ambot_aiosqlite.py:281 | a row of n cells has exactly `filled` clamped to [0, n] full cells and no spaces |
| Progress.Join | ambot_aiosqlite.py:281 | `" ".join` puts cell i at position 2i and a single space between neighbours |
| Progress.ProgressBar | ambot_aiosqlite.py:279-281 | always nine characters: five cells joined by single spaces, the first ⌊p/20⌋ of them full |
| Progress.BarCount | ambot_aiosqlite.py:279-281 | the bar shows ⌊p/20⌋ full cells clamped to five: none below 20%, all five from 100% |
| Progress.FormatDuration | ambot_aiosqlite.py:588-592 | the "—:—" placeholder is shown exactly for an absent or zero duration |
| Progress.DurationRoundTrip | ambot_aiosqlite.py:588-592 | reading back the `m:ss` rendering gives the seconds; zero and an absent duration both show as "—:—" |
| Progress.CollapseFacts | ambot_aiosqlite.py:594-599 | de-duplication keeps the first and last text, every distinct text, and never two equal texts in a row |
| Progress.CollapseSnoc | ambot_aiosqlite.py:594 | one more poll is pushed exactly when it differs from the last pushed text |
| Progress.PushEdits | ambot_aiosqlite.py:586-600 | the pushed edits are the polled texts with consecutive repeats removed: never two equal pushes in a row, no text lost, no more pushes than polls |
| TextCommands.SkipSpaces | ambot_aiosqlite.py:292 | the scan stops at the first non-whitespace character and passes only whitespace |
| TextCommands.BackSpaces | ambot_aiosqlite.py:292 | the backward scan stops after the last non-whitespace character and passes only whitespace |
| TextCommands.TrimStart | ambot_aiosqlite.py:292 | drops exactly the leading whitespace |
| TextCommands.TrimEnd | ambot_aiosqlite.py:292 | drops exactly the trailing whitespace |
| TextCommands.Strip | ambot_aiosqlite.py:292 | the stripped text is the infix between leading and trailing whitespace, and neither starts nor ends with whitespace |
| TextCommands.Lower | ambot_aiosqlite.py:297 | same length; no ASCII capital remains, each becomes its small letter, and every other character is kept |
| TextCommands.WordLength | ambot_aiosqlite.py:324 | the front word runs up to the first whitespace |
| TextCommands.Tokens | ambot_aiosqlite.py:324 | `split()` yields only non-empty tokens free of whitespace, and no token exactly when the text is all whitespace |
| TextCommands.TokensSkipSpace | ambot_aiosqlite.py:324 | leading whitespace yields no token |
| TextCommands.TokensSplit | ambot_aiosqlite.py:324 | a word ended by whitespace is the first token, and splitting resumes after it |
| TextCommands.TokensFront | ambot_aiosqlite.py:324 | a word followed by nothing or by whitespace is the first token |
| TextCommands.TokensSkipSpaces | ambot_aiosqlite.py:324 | a whitespace run of any length yields no token |
| TextCommands.TokensSecond | ambot_aiosqlite.py:324 | a word, then any non-empty run of whitespace, is the first token, and splitting resumes after the run |
| TextCommands.HistoryCountSecondWord | ambot_aiosqlite.py:324-327 | after a first word and any run of whitespace, a second word that is all digits sets the count to its value; any other second word leaves the default 10 |
| TextCommands.HistoryCountOneWord | ambot_aiosqlite.py:324-327 | a lone word, whatever whitespace follows it, asks for the default 10 |
| TextCommands.Classify | ambot_aiosqlite.py:289-350 | "register" and "check" match the stripped, lower-cased text exactly; "history" is a prefix with its count; a text containing youtube.com or youtu.be is refused; empty text is ignored; anything else starts the title flow with the stripped text |
| TextCommands.Contains | ambot_aiosqlite.py:339 | `sub in s` holds exactly when some position of s starts a copy of sub |
| TextCommands.TokensOfWord | ambot_aiosqlite.py:324 | a whitespace-free word splits into itself |
| TextCommands.WholeWord | ambot_aiosqlite.py:324 | a whitespace-free word is one word to its end |
| TextCommands.WordLengthAt | ambot_aiosqlite.py:324 | the front word ends at the first whitespace |
| TextCommands.HistoryCountRoundTrip | ambot_aiosqlite.py:323-327 | "history n" asks for exactly n rows |
| TextCommands.LowerHistory | ambot_aiosqlite.py:323 | a text starting with "history" passes the prefix test and is neither exact command |
| TextCommands.StripHistory | ambot_aiosqlite.py:292 | "history n" is unchanged by stripping |
| TextCommands.DispatchExample | ambot_aiosqlite.py:297 | " REGISTER " is the register command |
| StartText.HandleText | ambot_aiosqlite.py:289-297 | the text is dispatched as `Classify` reads it; the sender has a row afterwards whatever the text; only "register" changes more, exactly as registering does |
| StartText.AnyTextEarnsDaily | ambot_aiosqlite.py:295 | a new user whose first text is not "register" gets a row and, though unregistered, the next daily run credits them the reward |

## Left out

- SQL plumbing is not modelled: schema creation, migrations, connections, the `ORDER BY ... LIMIT` history query, the admin listing and the CSV export. The store is an in-memory value, and a column that could be NULL is an `Option` only where the code tests it for falsiness.
- Telegram calls are not modelled: sending, editing and deleting messages, sending the document, the inline keyboards, and the `type:` button step. Four of their outcomes enter the model: whether the file was sent, whether the refund notice raised, whether the cooldown notice raised, and whether the queued-status message raised. Other sends that raise end their handler before any ledger write, or after the last one.
- yt-dlp is not modelled: search, options, temporary directories, file-name derivation and the progress hook. The download is reduced to "a file was produced or not". The polled status texts are an input to `Progress.PushEdits`.
- The global semaphore, `run_in_executor`, and the hand-off from the worker thread back to the event loop are not modelled. The model is sequential. It claims no bound on concurrent jobs and no per-user serialisation of the balance check.
- `deduct_coins` reads the balance and writes the debit on separate awaits with no per-user lock. `Ledger.Deduct` is atomic, so `Admission.NoDoubleSpend` holds only for requests handled one after the other.
- Clocks are parameters: the UTC+8 calendar day is an integer day number and `utcnow` is integer seconds. An ISO stamp that `fromisoformat` rejects is `Stamp.Unparseable`. With whole seconds, `int(COOLDOWN_SECONDS - elapsed)` is exact.
- Progress percentages are integers, the floor of the float. `⌊p/20⌋ = ⌊⌊p⌋/20⌋`, so the bar is unchanged. The `{p:.1f}` text is not rendered.
- The duration is whole seconds. The `int()` truncation of a float duration is not modelled.
- Text handling is ASCII only: whitespace, lower-casing and `isdigit` on non-ASCII characters are not modelled.
- The APScheduler cron wiring is not modelled. Only the per-user reward rule is. A per-user exception inside `give_daily` is swallowed in the source and not modelled.
- `is_admin`, `/addcoins`, `/history` (the command form), `/admin_status` and `/export_logs` are argument parsing and I/O. `/addcoins` can make a balance negative, so no global non-negative-balance invariant is claimed.
- The branch at ambot_aiosqlite.py:465-475 is dead: it dereferences `app` exactly when `app` is None. It is not modelled.
- The session type is a string. At admission a session whose type was never chosen (None) is priced and counted like any string other than "audio". In the worker such a session raises `KeyError` instead, which ends the worker like any other crash (`JobQueue.Crash`). Where it raises depends on the session. One started by a title (ambot_aiosqlite.py:351) holds `title` and `chat_id`, so it raises at `state["type"]` (ambot_aiosqlite.py:502). One emptied by a refusal's pop (ambot_aiosqlite.py:406, 415, 425) comes back as `{}` at ambot_aiosqlite.py:364, so it raises earlier, at `state["chat_id"]` (ambot_aiosqlite.py:500).
- Admission.Job / Settlement.Finalize: the model's job is a snapshot of type, quality, price and record id taken at admission. In the source the queued payload `{"state": state}` is the very dict stored as `user_state[user_id]` (ambot_aiosqlite.py:364, 440-443), and the worker and the finaliser read `type`, `quality`, `cost` and `conversion_id` from it only when they run (ambot_aiosqlite.py:501-505, 577-580). A later button press for the same user writes into that dict before any rate check (ambot_aiosqlite.py:374-375, 387-397), even when the press is then refused. It can change the quality that gets downloaded, the price a failure refunds (120 back for an 80 debit), the counter that gets decremented, and, after a second admission, the record that gets marked. The model does not share the dict, so `RefundRestoresAdmission` and `FinalizeKeepsWorth` hold only when no such press comes between admission and settlement.
- Settlement.Finalize models `async_finalize_and_update` as if the hand-off from the worker thread worked. As written, `blocking_download_and_process` runs in the executor thread and calls `asyncio.get_event_loop()` there (ambot_aiosqlite.py:566, bot.py:541). No event loop is set in that thread, so the call raises. The finaliser is therefore never scheduled, no refund or mark ever runs, and the worker dies with the error (the `JobQueue.Crash` case) while the job's price stays held by its `done` record. A second fact points the same way. The download goes into a `tempfile.TemporaryDirectory()` held only by a local of `blocking_download_and_process` (ambot_aiosqlite.py:522). That directory is removed when the function returns. So even a finaliser that did get scheduled would almost never find the file at ambot_aiosqlite.py:603, and `produced` would in effect be false. Both facts come from reading the code.
- Even if it were scheduled, `async_finalize_and_update` would start only after the download has set `done`, so its polling loop would never iterate. `Progress.PushEdits` models the loop over an arbitrary sequence of polls.
