/** The time-to-next-batch shown by the status command. */
module StatusReporter {
  import opened Options

  /** Seconds from `now` until `fireAt`, never negative: zero once the fire time has passed. */
  function SecondsUntil(fireAt: int, now: int): (secs: nat)
    ensures secs == 0 <==> fireAt <= now
    ensures secs > 0 ==> now + secs == fireAt
  {
    if fireAt - now < 0 then 0 else fireAt - now
  }

  /** A remaining time split into whole minutes and leftover seconds. */
  datatype Countdown = Countdown(minutes: nat, seconds: nat)

  /**
   * The ETA: available only while the scheduler runs with a fire time set,
   * and then the clamped remaining time as minutes and seconds; `None` is
   * the dash shown otherwise.
   */
  function Eta(running: bool, nextFireAt: Option<int>, now: int): (eta: Option<Countdown>)
    ensures eta.Some? <==> running && nextFireAt.Some?
    ensures eta.Some? ==> eta.value.seconds < 60
    ensures eta.Some? ==> eta.value.minutes * 60 + eta.value.seconds == SecondsUntil(nextFireAt.value, now)
  {
    if running && nextFireAt.Some? then
      var secs := SecondsUntil(nextFireAt.value, now);
      Some(Countdown(secs / 60, secs % 60))
    else
      None
  }

  /** The split is unique: any minutes/seconds pair that adds up and keeps seconds below 60 is the ETA. */
  lemma EtaUnique(nextFireAt: int, now: int, minutes: nat, seconds: nat)
    requires seconds < 60
    requires minutes * 60 + seconds == SecondsUntil(nextFireAt, now)
    ensures Eta(true, Some(nextFireAt), now) == Some(Countdown(minutes, seconds))
  {
  }
}
