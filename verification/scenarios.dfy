/** Concrete runs of the bot, each step one call of the model. */
module Scenarios {
  import opened Options
  import opened Messages
  import opened Dispatcher
  import opened StatusReporter
  import opened BatchScheduler

  const A := Message(1, 10, {Document})
  const B := Message(1, 11, {Photo})
  const C := Message(2, 12, {Video})

  /**
   * Batch cap 2, interval 1 minute; A, B, C arrive at t = 0. Only the first
   * arrival starts a task. At t = 60 the cycle takes the two newest, B then
   * C, leaves A queued, and re-arms for t = 120. C's copy succeeds but its
   * delete fails: it still reaches the channel and is not queued again.
   */
  method TailFirstCycle() returns (started: seq<bool>, batch: seq<Message>, remaining: seq<Message>,
                                   posted: seq<Message>, fire: Option<int>)
    ensures started == [true, false, false]
    ensures batch == [B, C] && remaining == [A]
    ensures posted == [B, C]
    ensures fire == Some(120)
  {
    var bot := new Bot(2, 1);
    var s1 := bot.Receive(Some(A), 0);
    var s2 := bot.Receive(Some(B), 0);
    var s3 := bot.Receive(Some(C), 0);
    started := [s1, s2, s3];
    var sleep := bot.CheckQueue(0);
    assert sleep == Some(60);
    batch := bot.Wake();
    remaining := bot.pending;
    var outcomes := [Outcome(true, true), Outcome(true, false)];
    var log := bot.Deliver(outcomes);
    AllCopiedPostsBatch(batch, outcomes);
    posted := Posted(log);
    bot.Rearm(60);
    fire := bot.nextFireAt;
  }

  /**
   * Interval 30 minutes; A arrives at t = 0, so the fire time is 1800. At
   * t = 100 the 90-minute button is pressed: the task still wakes at 1800,
   * and only the re-arm after that batch uses 90 minutes.
   */
  method IntervalChangeMidCycle() returns (sleep: Option<nat>, fire: Option<int>)
    ensures sleep == Some(1700)
    ensures fire == Some(1800 + 90 * 60)
  {
    var bot := new Bot(100, 30);
    var started := bot.Receive(Some(A), 0);
    bot.SetInterval("set_wait_90");
    sleep := bot.CheckQueue(100);
    var batch := bot.Wake();
    var log := bot.Deliver([Outcome(false, false)]);
    bot.Rearm(1800);
    fire := bot.nextFireAt;
  }

  /**
   * A message without qualifying media starts nothing; with an empty queue
   * the status shows no items and no ETA.
   */
  method IdleBot() returns (started: bool, status: Snapshot)
    ensures !started
    ensures status.pending == 0 && status.eta == None
  {
    var bot := new Bot(100, 30);
    started := bot.Receive(Some(Message(1, 13, {})), 0);
    status := bot.Status(5);
  }
}
