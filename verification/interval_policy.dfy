/** The wait between batches, as chosen from the inline keyboard. */
module IntervalPolicy {

  /** The callback data of the three preset buttons. */
  const Set30: string := "set_wait_30"
  const Set60: string := "set_wait_60"
  const Set90: string := "set_wait_90"

  /**
   * The interval, in minutes, after a button press carrying `data`: a preset
   * button selects its value and any other data keeps the current one.
   */
  function IntervalAfter(data: string, current: int): (minutes: int)
    ensures minutes == current || minutes == 30 || minutes == 60 || minutes == 90
    ensures minutes == 30 <==> data == Set30 || (current == 30 && data != Set60 && data != Set90)
    ensures minutes == 60 <==> data == Set60 || (current == 60 && data != Set30 && data != Set90)
    ensures minutes == 90 <==> data == Set90 || (current == 90 && data != Set30 && data != Set60)
    ensures data != Set30 && data != Set60 && data != Set90 ==> minutes == current
  {
    if data == Set30 then 30
    else if data == Set60 then 60
    else if data == Set90 then 90
    else current
  }

  /** Pressing the same button twice leaves the interval where the first press put it. */
  lemma IntervalAfterIdempotent(data: string, current: int)
    ensures IntervalAfter(data, IntervalAfter(data, current)) == IntervalAfter(data, current)
  {
  }
}
