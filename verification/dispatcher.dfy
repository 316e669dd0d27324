/**
 * Forwarding one batch to the destination channel. The transport's answers
 * to "copy this message" and "delete the original" are inputs: one
 * `Outcome` per batch item.
 */
module Dispatcher {
  import opened Messages

  /** What the transport answered for one item: did the copy succeed, and would the delete. */
  datatype Outcome = Outcome(copied: bool, deleted: bool)

  /**
   * What happened to one item. `Forwarded` records whether the original was
   * also deleted (a failed delete is swallowed); `CopyFailed` is the logged
   * warning, after which no delete is attempted.
   */
  datatype Attempt = Forwarded(msg: Message, originalDeleted: bool) | CopyFailed(msg: Message)

  /** The attempt for one item: delete only after a successful copy. */
  function AttemptOf(m: Message, o: Outcome): (a: Attempt)
    ensures a.msg == m
    ensures a.Forwarded? <==> o.copied
    ensures a.Forwarded? ==> a.originalDeleted == o.deleted
  {
    if o.copied then Forwarded(m, o.deleted) else CopyFailed(m)
  }

  /**
   * The reference account of a batch: one attempt per item, in batch order,
   * each decided by that item's own outcome alone.
   */
  function DispatchLog(batch: seq<Message>, outcomes: seq<Outcome>): (log: seq<Attempt>)
    requires |outcomes| == |batch|
    ensures |log| == |batch|
    ensures forall i :: 0 <= i < |batch| ==> log[i].msg == batch[i]
    ensures forall i :: 0 <= i < |batch| ==> (log[i].Forwarded? <==> outcomes[i].copied)
    ensures forall i :: 0 <= i < |batch| && log[i].Forwarded? ==> log[i].originalDeleted == outcomes[i].deleted
  {
    if batch == [] then []
    else [AttemptOf(batch[0], outcomes[0])] + DispatchLog(batch[1..], outcomes[1..])
  }

  /** The messages that reached the destination, in the order they were posted. */
  function Posted(log: seq<Attempt>): (posted: seq<Message>)
    ensures |posted| <= |log|
    ensures forall m :: m in posted <==> exists i :: 0 <= i < |log| && log[i].Forwarded? && log[i].msg == m
  {
    if log == [] then []
    else (if log[0].Forwarded? then [log[0].msg] else []) + Posted(log[1..])
  }

  /**
   * A failed copy does not stop the batch: every later item is still
   * attempted, with the result its own outcome dictates.
   */
  lemma FailureDoesNotAbort(batch: seq<Message>, outcomes: seq<Outcome>, k: nat)
    requires |outcomes| == |batch|
    requires k < |batch| && !outcomes[k].copied
    ensures DispatchLog(batch, outcomes)[k] == CopyFailed(batch[k])
    ensures DispatchLog(batch, outcomes)[k + 1..] == DispatchLog(batch[k + 1..], outcomes[k + 1..])
  {
  }

  /** When every copy succeeds, the destination receives the whole batch in batch order. */
  lemma {:induction false} AllCopiedPostsBatch(batch: seq<Message>, outcomes: seq<Outcome>)
    requires |outcomes| == |batch|
    requires forall i :: 0 <= i < |outcomes| ==> outcomes[i].copied
    ensures Posted(DispatchLog(batch, outcomes)) == batch
  {
    if batch != [] {
      AllCopiedPostsBatch(batch[1..], outcomes[1..]);
    }
  }

  /**
   * The `for m in lote` loop: every item is copied, and its original deleted
   * only after a successful copy; no failure leaves the loop early.
   */
  method SendBatch(batch: seq<Message>, outcomes: seq<Outcome>) returns (log: seq<Attempt>)
    requires |outcomes| == |batch|
    ensures log == DispatchLog(batch, outcomes)
  {
    log := [];
    for i := 0 to |batch|
      invariant |log| == i
      invariant forall k :: 0 <= k < i ==> log[k] == AttemptOf(batch[k], outcomes[k])
    {
      var m, o := batch[i], outcomes[i];
      if o.copied {
        // the copy reached the channel; a failed delete changes nothing else
        log := log + [Forwarded(m, o.deleted)];
      } else {
        // the copy raised: only a warning is logged, and the original stays
        log := log + [CopyFailed(m)];
      }
    }
    ghost var spec := DispatchLog(batch, outcomes);
    assert forall k :: 0 <= k < |batch| ==> log[k] == spec[k];
  }
}
