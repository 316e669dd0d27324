/**
 * The pending queue's drain policy: each cycle cuts the most recent items,
 * up to the batch cap, off the tail of the queue and publishes them oldest
 * first.
 */
module PendingQueue {
  import opened Messages

  /** How many items one cycle takes: the cap, or the whole queue when it is shorter. */
  function TakeCount(batchSize: nat, len: nat): (take: nat)
    ensures take <= batchSize && take <= len
    ensures take == batchSize || take == len
  {
    if batchSize < len then batchSize else len
  }

  /** The result of one cut: what stays queued, and the batch to dispatch. */
  datatype Cut = Cut(remaining: seq<Message>, batch: seq<Message>)

  /**
   * The tail-first cut: the batch is the last `TakeCount` items in arrival
   * order, and the queue keeps everything before them.
   */
  function SplitTail(q: seq<Message>, batchSize: nat): (c: Cut)
    ensures c.remaining + c.batch == q
    ensures |c.batch| == TakeCount(batchSize, |q|)
    ensures batchSize >= 1 && q != [] ==> c.batch != []
  {
    var take := TakeCount(batchSize, |q|);
    Cut(q[..|q| - take], q[|q| - take..])
  }

  /** In a queue without repeats, nothing before position `k` occurs again from `k` on. */
  lemma PrefixSuffixDisjoint(q: seq<Message>, k: nat)
    requires Distinct(q) && k <= |q|
    ensures forall m :: m in q[k..] ==> m !in q[..k]
  {
    forall m | m in q[k..]
      ensures m !in q[..k]
    {
      var i :| 0 <= i < |q| - k && q[k..][i] == m;
      forall j | 0 <= j < k
        ensures q[..k][j] != m
      {
        assert q[..k][j] == q[j] && q[k..][i] == q[k + i];
      }
    }
  }

  /** No queued message is also in the batch cut from it. */
  lemma SplitTailDisjoint(q: seq<Message>, batchSize: nat)
    requires Distinct(q)
    ensures forall m :: m in SplitTail(q, batchSize).batch ==> m !in SplitTail(q, batchSize).remaining
  {
    PrefixSuffixDisjoint(q, |q| - TakeCount(batchSize, |q|));
  }

  /** Cutting never loses or invents an item: the two parts hold exactly the old queue's items. */
  lemma SplitTailPreservesItems(q: seq<Message>, batchSize: nat)
    ensures multiset(SplitTail(q, batchSize).remaining) + multiset(SplitTail(q, batchSize).batch) == multiset(q)
  {
    var c := SplitTail(q, batchSize);
    calc {
      multiset(q);
      multiset(c.remaining + c.batch);
      multiset(c.remaining) + multiset(c.batch);
    }
  }

  // ----- The cut exactly as written, for any configured batch size -----

  /**
   * Python's `xs[-k:]` for an arbitrary integer `k`: always a suffix; for a
   * positive `k` the last `k` items (all of them when there are fewer), for
   * zero the whole list, and for a negative `k` all but the first `-k`.
   */
  function PySuffix(q: seq<Message>, k: int): (r: seq<Message>)
    ensures |r| <= |q| && r == q[|q| - |r|..]
    ensures k > 0 ==> |r| == (if k < |q| then k else |q|)
    ensures k <= 0 ==> |r| == (if -k < |q| then |q| + k else 0)
  {
    var start :=
      if k > 0 then (if |q| - k < 0 then 0 else |q| - k)
      else (if -k > |q| then |q| else -k);
    q[start..]
  }

  /**
   * The cut with a batch size read from the environment and never checked:
   * `take = min(BATCH_SIZE, len)`, the batch is `list(q)[-take:]`, and the
   * queue loses `take` items when `take` is positive (`range(take)` is empty
   * otherwise).
   */
  function AsWrittenCut(q: seq<Message>, batchSize: int): (c: Cut)
    ensures |c.remaining| <= |q|
  {
    var take := if batchSize < |q| then batchSize else |q|;
    var popped := if take < 0 then 0 else take;
    Cut(q[..|q| - popped], PySuffix(q, take))
  }

  /** For any positive batch size the code as written agrees with the tail-first cut. */
  lemma AsWrittenCutAgrees(q: seq<Message>, batchSize: nat)
    requires batchSize >= 1
    ensures AsWrittenCut(q, batchSize) == SplitTail(q, batchSize)
  {
  }

  /**
   * With a batch size of zero, every item is both dispatched and kept queued:
   * the batch is the whole queue and nothing is popped, so the next cycle
   * sends it all again.
   */
  lemma ZeroBatchSizeResendsQueue(q: seq<Message>)
    requires q != []
    ensures AsWrittenCut(q, 0).batch == q
    ensures AsWrittenCut(q, 0).remaining == q
    ensures AsWrittenCut(q, 0).remaining + AsWrittenCut(q, 0).batch != q
  {
    assert PySuffix(q, 0) == q[0..] == q;
    var c := AsWrittenCut(q, 0);
    assert c == Cut(q[..|q|], q);
    assert |c.remaining + c.batch| == 2 * |q|;
  }
}
