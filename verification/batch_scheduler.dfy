/**
 * The bot's shared state and the steps that change it. Each method is one
 * `async with lock:` region (or the unlocked dispatch between two of them),
 * run atomically; any interleaving of handlers and scheduler steps is a
 * sequence of these calls. The one background scheduler task is `task`,
 * which records where that coroutine stands in its loop.
 */
module BatchScheduler {
  import opened Options
  import opened Messages
  import opened PendingQueue
  import opened IntervalPolicy
  import opened Dispatcher
  import opened StatusReporter

  /** Where the scheduler coroutine is, with the locals it carries between lock regions. */
  datatype Task =
    | NoTask                              // no scheduler task exists
    | AtLoopTop                           // about to take the lock at the top of `while True`
    | Sleeping(fireAt: int)               // sleeping until `fire_at`
    | Dispatching(batch: seq<Message>)    // holding the cut batch `lote`, lock released
    | AtRearm                             // batch sent, about to re-arm

  /**
   * The fire time armed at `now`: the interval is in minutes, time in
   * seconds. Seen from the moment of arming, the wait is exactly the
   * interval (none at all for an interval that is not positive).
   */
  function FireTime(now: int, waitMinutes: int): (fireAt: int)
    ensures SecondsUntil(fireAt, now) == if waitMinutes > 0 then 60 * waitMinutes else 0
  {
    now + 60 * waitMinutes
  }

  /** What the status command reports. */
  datatype Snapshot = Snapshot(pending: nat, batchSize: nat, waitMinutes: int, eta: Option<Countdown>)

  class Bot {
    const batchSize: nat
    var pending: seq<Message>
    var waitMinutes: int
    var running: bool
    var nextFireAt: Option<int>
    var task: Task

    /**
     * The scheduler's invariant: the running flag, the fire time and the
     * live task come and go together (so at most one task ever exists),
     * nothing sits in the queue unless a scheduler will come for it, and a
     * sleeping task always has work waiting (only the task itself removes
     * items).
     */
    ghost predicate Valid()
      reads this
      ensures Valid() ==> (nextFireAt.Some? <==> !task.NoTask?)
      ensures Valid() && pending != [] ==> nextFireAt.Some?
    {
      batchSize >= 1 &&
      (running <==> nextFireAt.Some?) &&
      (running <==> !task.NoTask?) &&
      (pending != [] ==> running) &&
      (task.Sleeping? ==> pending != [])
    }

    /** Start-up: empty queue, the configured interval, no scheduler. */
    constructor (batchSize: nat, defaultWaitMinutes: int)
      requires batchSize >= 1
      ensures Valid()
      ensures this.batchSize == batchSize && waitMinutes == defaultWaitMinutes
      ensures pending == [] && !running && nextFireAt == None && task == NoTask
    {
      this.batchSize := batchSize;
      pending := [];
      waitMinutes := defaultWaitMinutes;
      running := false;
      nextFireAt := None;
      task := NoTask;
    }

    /**
     * An incoming update. A missing message or one without qualifying media
     * changes nothing. Otherwise the message joins the tail of the queue, and
     * if no scheduler runs one is started, armed for now plus the interval.
     */
    method Receive(msg: Option<Message>, now: int) returns (startedTask: bool)
      requires Valid()
      modifies this
      ensures Valid()
      ensures startedTask <==> msg.Some? && Qualifies(msg.value) && !old(running)
      ensures pending == if msg.Some? && Qualifies(msg.value) then old(pending) + [msg.value] else old(pending)
      ensures startedTask ==> running && nextFireAt == Some(FireTime(now, waitMinutes)) && task == AtLoopTop
      ensures !startedTask ==> running == old(running) && nextFireAt == old(nextFireAt) && task == old(task)
      ensures waitMinutes == old(waitMinutes)
    {
      startedTask := false;
      if msg.None? {
        return;
      }
      var m := msg.value;
      if Qualifies(m) {
        pending := pending + [m];
        if !running {
          running := true;
          nextFireAt := Some(FireTime(now, waitMinutes));
          task := AtLoopTop;   // the one `create_task(scheduler(...))`
          startedTask := true;
        }
      }
    }

    /** A keyboard button press: only the interval changes, never the armed fire time. */
    method SetInterval(data: string)
      requires Valid()
      modifies this`waitMinutes
      ensures Valid()
      ensures waitMinutes == IntervalAfter(data, old(waitMinutes))
    {
      if data == Set30 {
        waitMinutes := 30;
      } else if data == Set60 {
        waitMinutes := 60;
      } else if data == Set90 {
        waitMinutes := 90;
      }
    }

    /**
     * The first lock region of a cycle and the sleep that follows it. An
     * empty queue stops the scheduler; otherwise the task goes to sleep for
     * the time left until the armed fire time, which is the one set when the
     * task was started or last re-armed.
     */
    method CheckQueue(now: int) returns (sleep: Option<nat>)
      requires Valid() && task == AtLoopTop
      modifies this`running, this`nextFireAt, this`task
      ensures Valid()
      ensures old(pending) == [] ==> !running && nextFireAt == None && task == NoTask && sleep == None
      ensures old(pending) != [] ==>
        running && nextFireAt == old(nextFireAt) && task == Sleeping(old(nextFireAt).value) &&
        sleep == Some(SecondsUntil(old(nextFireAt).value, now))
    {
      if pending == [] {
        running := false;
        nextFireAt := None;
        task := NoTask;
        return None;
      }
      var fireAt := nextFireAt.GetOr(FireTime(now, waitMinutes));
      task := Sleeping(fireAt);
      sleep := Some(SecondsUntil(fireAt, now));
    }

    /**
     * The second lock region, after waking. The source checks again for an
     * empty queue and would stop there, but that check never fires: nothing
     * but this task removes items, and it only sleeps with work waiting
     * (`Valid()`). The last `min(batchSize, |pending|)` items are popped off
     * the tail one by one and kept, in arrival order, as the batch.
     */
    method Wake() returns (batch: seq<Message>)
      requires Valid() && task.Sleeping?
      modifies this`pending, this`running, this`nextFireAt, this`task
      ensures Valid()
      ensures old(pending) != []
      ensures SplitTail(old(pending), batchSize) == Cut(pending, batch)
      ensures batch != [] && task == Dispatching(batch)
      ensures running && nextFireAt == old(nextFireAt)
    {
      if pending == [] {
        // the stop path of the second check: unreachable under Valid()
        assert false;
      }
      var take := TakeCount(batchSize, |pending|);
      batch := pending[|pending| - take..];
      ghost var before := pending;
      for i := 0 to take
        invariant pending == before[..|before| - i]
        modifies this`pending
      {
        pending := pending[..|pending| - 1];
      }
      task := Dispatching(batch);
    }

    /** The unlocked dispatch of the cut batch; the shared state is untouched. */
    method Deliver(outcomes: seq<Outcome>) returns (log: seq<Attempt>)
      requires Valid() && task.Dispatching? && |outcomes| == |task.batch|
      modifies this`task
      ensures Valid()
      ensures log == DispatchLog(old(task).batch, outcomes)
      ensures task == AtRearm
    {
      log := SendBatch(task.batch, outcomes);
      task := AtRearm;
    }

    /** The last lock region: re-arm with the interval in force now, whatever it was at the last arm. */
    method Rearm(now: int)
      requires Valid() && task == AtRearm
      modifies this`nextFireAt, this`task
      ensures Valid()
      ensures nextFireAt == Some(FireTime(now, waitMinutes)) && task == AtLoopTop
    {
      nextFireAt := Some(FireTime(now, waitMinutes));
      task := AtLoopTop;
    }

    /** The status command: a read-only snapshot; the ETA exists exactly while a scheduler runs. */
    method Status(now: int) returns (s: Snapshot)
      requires Valid()
      ensures s.pending == |pending| && s.batchSize == batchSize && s.waitMinutes == waitMinutes
      ensures s.eta.Some? <==> running
      ensures s.eta.Some? ==> s.eta.value.minutes * 60 + s.eta.value.seconds == SecondsUntil(nextFireAt.value, now)
      ensures pending != [] ==> s.eta.Some?
    {
      s := Snapshot(|pending|, batchSize, waitMinutes, Eta(running, nextFireAt, now));
    }

    /**
     * One pass through the scheduler loop with no handler interleaved:
     * check, sleep until the fire time, cut, dispatch, re-arm. Either the
     * queue was empty and the task stops, or the tail-first cut of the queue
     * is dispatched and the task is re-armed from the moment it woke.
     */
    method Cycle(now: int, transport: Message -> Outcome) returns (batch: seq<Message>)
      requires Valid() && task == AtLoopTop
      modifies this
      ensures Valid()
      ensures old(pending) == [] ==> task == NoTask && batch == [] && pending == []
      ensures old(pending) != [] ==> task == AtLoopTop && batch != [] && |batch| <= batchSize
      ensures old(pending) != [] ==> Cut(pending, batch) == SplitTail(old(pending), batchSize)
      ensures old(pending) != [] ==>
        var wokeAt := if old(nextFireAt).value > now then old(nextFireAt).value else now;
        running && nextFireAt == Some(FireTime(wokeAt, waitMinutes))
      ensures pending + batch == old(pending)
      ensures waitMinutes == old(waitMinutes)
    {
      var sleep := CheckQueue(now);
      if sleep.None? {
        return [];
      }
      batch := Wake();
      var outcomes := seq(|batch|, k requires 0 <= k < |batch| => transport(batch[k]));
      var log := Deliver(outcomes);
      Rearm(now + sleep.value);
    }

    /**
     * The `while True` loop of the scheduler task, run with no handler
     * interleaved: one cycle per entry of `clock` (the time at the top of that
     * cycle), `transport` answering each copy and delete. Every item the
     * queue held is dispatched exactly once, and since each cycle takes at
     * least one item, a queue of n items is drained and the task has stopped
     * within n + 1 cycles.
     */
    method Run(clock: seq<int>, transport: Message -> Outcome) returns (dispatched: seq<Message>)
      requires Valid() && task == AtLoopTop
      modifies this
      ensures Valid()
      ensures task == AtLoopTop || task == NoTask
      ensures task == NoTask ==> pending == [] && !running && nextFireAt == None
      ensures multiset(pending) + multiset(dispatched) == multiset(old(pending))
      ensures |clock| > |old(pending)| ==> task == NoTask
      ensures waitMinutes == old(waitMinutes)
    {
      dispatched := [];
      var i := 0;
      while i < |clock| && task != NoTask
        invariant 0 <= i <= |clock|
        invariant Valid()
        invariant task == AtLoopTop || task == NoTask
        invariant task == NoTask ==> pending == []
        invariant multiset(pending) + multiset(dispatched) == multiset(old(pending))
        invariant task == AtLoopTop ==> |pending| + i <= |old(pending)|
        invariant waitMinutes == old(waitMinutes)
      {
        ghost var before := pending;
        var batch := Cycle(clock[i], transport);
        assert multiset(before) == multiset(pending) + multiset(batch) by {
          assert before == pending + batch;
        }
        dispatched := dispatched + batch;
        i := i + 1;
      }
    }
  }
}
