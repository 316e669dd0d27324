# Batch-dispatch scheduler of the Telegram forwarding bot, in Dafny

The bot (`bot.py`) collects media messages that users send it and forwards
them, in batches, to one channel. Its core is a small state machine over
four globals: the pending queue `pendientes`, the interval `wait_minutes`,
the flag `scheduler_running` and the fire time `next_fire_at`. A handler
enqueues each qualifying message and starts the background `scheduler`
task if none runs. A button press changes the interval. The scheduler loops:

1. stop if the queue is empty;
2. sleep until the fire time;
3. stop if the queue is now empty;
4. cut the newest `min(BATCH_SIZE, len)` items off the tail;
5. copy each item to the channel, deleting the original only after a successful copy;
6. re-arm with the interval in force at that moment.

The status command shows the time left, clamped at zero and split into
minutes and seconds.

The model has these modules:

- `Messages`: the message, its origin and the rule for which messages carry qualifying media.
- `PendingQueue`: the tail-first cut, as a specification function. It also
  holds the cut exactly as written, for any batch size (see Findings).
- `IntervalPolicy`: the interval after a button press.
- `Dispatcher`: the dispatch loop over a batch. Copy and delete results
  are per-item inputs.
- `StatusReporter`: the ETA arithmetic.
- `BatchScheduler`: class `Bot`. Its fields are the four globals plus
  `task`, the position of the single scheduler coroutine in its loop
  together with the locals it carries (`fire_at`, `lote`). Each method is
  one `async with lock:` region, or the unlocked dispatch between two of
  them. Any interleaving of handlers and the scheduler is a sequence of
  these calls. `Valid()` is the invariant every call preserves:
  - the flag, the fire time and the live task come and go together, so at
    most one scheduler task exists;
  - a non-empty queue implies a running scheduler;
  - a sleeping scheduler always has items waiting.
- `Scenarios`: concrete runs, each built from the model's own steps.

Time is integer seconds supplied by the caller. The interval is in
minutes, so arming at `now` sets `now + 60 * waitMinutes`.

Under `Valid()` the fallback in `next_fire_at or (now + wait)` (bot.py:118)
is never taken: `CheckQueue` proves that the sleep always targets the fire
time that was armed. The model keeps that branch as written. `Valid()` also
holds that a sleeping task always has items waiting, because only the
scheduler removes items. So the second empty-queue check (bot.py:126-130)
can never stop the scheduler. `Wake` proves this: its stop branch is shown
unreachable, and its contract states that the queue is non-empty on waking.

Only the three presets 30, 60 and 90 minutes can be selected. Any other
callback data keeps the interval. `handle_set_tiempo` writes the interval
without taking the lock. The dispatch loop keeps no success counts. What
happened to each item is returned as a log of attempts.

## Model

| member | source | states |
|---|---|---|
| `Messages.Qualifies` | bot.py:67 | a message qualifies when it carries a document, photo, video, audio, animation or sticker; a qualifying message has a non-empty attachment set |
| `Messages.AnyMediaQualifies` | bot.py:67 | conversely, a message with any attachment of those kinds qualifies |
| `PendingQueue.TakeCount` | bot.py:133 | the number taken is at most the cap and at most the queue length, and equals one of them |
| `PendingQueue.SplitTail` | bot.py:133-138 | remaining ++ batch == old queue; the batch has exactly min(cap, len) items, taken from the tail in arrival order; it is non-empty when the cap is positive and the queue is not empty |
| `PendingQueue.SplitTailDisjoint` | bot.py:133-138 | for a queue without repeated messages, no message in the batch is still queued |
| `PendingQueue.PrefixSuffixDisjoint` | bot.py:135-138 | in a queue without repeated messages, the part kept (before the cut point) shares no message with the part cut off |
| `PendingQueue.SplitTailPreservesItems` | bot.py:133-138 | the cut neither loses nor duplicates an item (multiset of remaining + batch == multiset of old queue) |
| `PendingQueue.PySuffix` | bot.py:135 | Python's `xs[-k:]`: always a suffix; the last `k` items (all when fewer) for positive `k`, the whole list for zero, all but the first `-k` for negative `k` |
| `PendingQueue.AsWrittenCut` | bot.py:133-138 | the cut as written for any integer BATCH_SIZE (Python slice `[-take:]`, `take` pops only when positive); the queue never grows |
| `PendingQueue.AsWrittenCutAgrees` | bot.py:133-138 | for every batch size of at least one, the cut as written equals the tail-first cut |
| `PendingQueue.ZeroBatchSizeResendsQueue` | bot.py:133-138 | with BATCH_SIZE 0 and a non-empty queue, the batch is the whole queue and the queue keeps every item, so remaining ++ batch is not the old queue |
| `IntervalPolicy.IntervalAfter` | bot.py:51-56 | the new interval is 30, 60 or 90 exactly for the matching button (or when it already was that value), and unchanged for any other callback data |
| `IntervalPolicy.IntervalAfterIdempotent` | bot.py:51-56 | pressing the same button twice gives the same interval as pressing it once |
| `StatusReporter.SecondsUntil` | bot.py:89-90 | the remaining time is never negative; it is zero exactly when the fire time has passed, and otherwise lands exactly on the fire time |
| `StatusReporter.Eta` | bot.py:88-94 | an ETA exists iff the scheduler runs with a fire time; then minutes*60 + seconds equals the clamped remaining time and seconds < 60 |
| `StatusReporter.EtaUnique` | bot.py:91 | any minutes/seconds pair with seconds < 60 adding up to the remaining time is the ETA (divmod is the unique split) |
| `Dispatcher.AttemptOf` | bot.py:142-150 | one item's attempt is about that item; it is a forward iff the copy succeeded, and records the delete result only after a successful copy |
| `Dispatcher.DispatchLog` | bot.py:141-150 | one attempt per batch item, in batch order; an item counts as forwarded iff its copy succeeded, and its original is deleted only after a successful copy whose delete succeeded |
| `Dispatcher.Posted` | bot.py:143 | a message reaches the channel iff the log records a successful copy of it |
| `Dispatcher.FailureDoesNotAbort` | bot.py:141-150 | a failed copy is recorded as a warning for that item, and every later item is attempted exactly as if the batch had started after it |
| `Dispatcher.AllCopiedPostsBatch` | bot.py:141-146 | when every copy succeeds, the channel receives the whole batch in order, whatever the deletes did |
| `Dispatcher.SendBatch` | bot.py:141-150 | the `for m in lote` loop produces exactly the reference log `DispatchLog` |
| `BatchScheduler.FireTime` | bot.py:75 | seen from the moment of arming, the wait until the fire time is exactly the interval in seconds (none for a non-positive interval) |
| `BatchScheduler.Bot.Valid` | bot.py:73-75 | the invariant: flag, fire time and live task come and go together (a fire time is set iff a task lives); a non-empty queue implies the scheduler runs and has a fire time; a sleeping task has items waiting |
| `BatchScheduler.Bot.constructor` | bot.py:19-23 | start-up state: empty queue, configured interval, not running, no fire time, no task; requires a batch size of at least one |
| `BatchScheduler.Bot.Receive` | bot.py:61-76 | a qualifying message is appended at the tail with earlier contents unchanged; a missing or non-media message changes nothing; a task is started, with fire time now + interval, iff none was running, and otherwise the flag, fire time and task are untouched; preserves `Valid()` |
| `BatchScheduler.Bot.SetInterval` | bot.py:46-58 | only the interval changes (to `IntervalAfter`); the queue, flag, fire time and the sleeping task's fire time are untouched |
| `BatchScheduler.Bot.CheckQueue` | bot.py:112-122 | an empty queue stops the scheduler (flag false, no fire time, no task, no sleep); otherwise the task sleeps max(0, fireAt - now), with fireAt the armed fire time |
| `BatchScheduler.Bot.Wake` | bot.py:125-138 | on waking the queue is never empty, so the stop path of the second check is unreachable; the pop loop leaves exactly `SplitTail(old queue)`: remaining ++ batch == old queue, with a non-empty batch; the flag and fire time are untouched |
| `BatchScheduler.Bot.Deliver` | bot.py:140-150 | dispatches the cut batch, giving `DispatchLog` of it, and touches no shared state; failed items are not re-queued |
| `BatchScheduler.Bot.Rearm` | bot.py:152-154 | the next fire time is now + the interval current at re-arm time, and the task loops back |
| `BatchScheduler.Bot.Status` | bot.py:82-94 | the snapshot reports queue length, cap and interval; an ETA exists iff the scheduler runs, and then matches the clamped remaining time; a non-empty queue always has an ETA |
| `BatchScheduler.Bot.Cycle` | bot.py:111-154 | one uninterrupted loop pass: an empty queue stops the task; otherwise the queue and batch are exactly the tail-first cut `SplitTail(old queue)` (at most the cap, non-empty), and the next fire time is the wake-up time (the later of the armed fire time and now) plus the interval |
| `BatchScheduler.Bot.Run` | bot.py:105-154 | the loop with no handler interleaved dispatches every queued item exactly once (multiset), and with more cycles than items it drains the queue and stops (flag false, no fire time) |
| `Scenarios.TailFirstCycle` | bot.py:124-138 | cap 2, items A, B, C: only the first arrival starts a task; the cycle sends B then C, keeps A, re-arms at 120; a failed delete still counts as posted |
| `Scenarios.IntervalChangeMidCycle` | bot.py:152-154 | switching from 30 to 90 minutes while armed keeps the wake-up at 1800 s and re-arms with 90 minutes |
| `Scenarios.IdleBot` | bot.py:82-94 | a non-media message starts nothing; an idle bot reports 0 pending and no ETA |

## Left out

- Telegram API calls are not modelled: `reply_text`, `edit_message_text`, `q.answer`, `Application`, handler registration and `run_polling` (bot.py:34-44, bot.py:156-169). `m.copy` and `m.delete` appear only as per-item success/failure `Outcome`s.
- The start and interval commands (`start`, `show_tiempo`), the inline keyboard `kb_tiempo` and all message wording are presentation only. They are not modelled.
- Environment variables are not read. `BATCH_SIZE` and `WAIT_MINUTES` are constructor parameters. `TOKEN` and `CHANNEL_ID` have no effect on the state machine.
- asyncio is not modelled. Each `async with lock:` region is one atomic method. `asyncio.sleep` is the returned sleep duration plus the caller's clock. `create_task` is the `task` field becoming `AtLoopTop`.
- Wall-clock `datetime`, sub-second precision and the `int(...)` truncation of `total_seconds()` are replaced by integer seconds. Python's floor `divmod` equals Dafny's `/` and `%` because the operand is never negative.
- The `print` warning on a failed copy is the `CopyFailed` entry of the dispatch log.
- Bot.Run: it does not interleave handlers between cycles, and it treats dispatch as taking no time (re-arm happens at the wake-up time). Interleavings are covered by the individual step methods, which any caller may sequence.
- Bot.Receive: it does not check that a message is not already queued. The source relies on the transport delivering each message once, so `SplitTailDisjoint` takes distinctness as a hypothesis.

## Findings

| source | as written | input that shows it | evidently intended | confidence | as-written member | corrected member |
|---|---|---|---|---|---|---|
| bot.py:133-138 | `take = min(BATCH_SIZE, len)`, then `lote = list(pendientes)[-take:]` and `take` pops; for `take == 0`, `[-0:]` is the whole queue while nothing is popped | `BATCH_SIZE=0` in the environment, queue `[A]`: every cycle re-attempts A and the queue never drains | the batch is the last `take` items and is removed from the queue (remaining ++ batch == old queue), with a positive batch size | not executed; reachable only through a zero or negative `BATCH_SIZE` setting | `PendingQueue.ZeroBatchSizeResendsQueue` | `PendingQueue.SplitTail` |
