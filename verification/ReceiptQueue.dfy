/** The queue of receipts as it is stored: two counters and a mapping. It behaves as a sequence, first in, first out. */
module ReceiptQueue {
  import opened Wrappers
  import opened Numeric

  type Address = nat

  datatype Receipt = Receipt(receivedMessageNonce: nat, relayerRewardAddress: Address)

  datatype Queue = Queue(first: nat, last: nat, data: map<nat, Receipt>)

  datatype QueueError = EmptyQueue | IndexOutOfBounds

  const MAXIMUM_RECEIPT_COUNT := 5
  const EMPTY := Queue(0, 0, map[])
  const NO_RECEIPT := Receipt(0, 0)

  /** The entries of the mapping are those from `first` up to but not including `last`. */
  ghost predicate Valid(q: Queue) {
    q.first <= q.last && forall i :: i in q.data <==> q.first <= i < q.last
  }

  /** The entries from index `i` up to but not including `n`. */
  function Entries(data: map<nat, Receipt>, i: nat, n: nat): (s: seq<Receipt>)
    ensures |s| == if i <= n then n - i else 0
    decreases n - i
  {
    if i >= n then [] else [GetOr(data, i, NO_RECEIPT)] + Entries(data, i + 1, n)
  }

  /** The receipts in the queue, oldest first. */
  function Contents(q: Queue): seq<Receipt> {
    Entries(q.data, q.first, q.last)
  }

  function Size(q: Queue): nat
    requires q.first <= q.last
  {
    q.last - q.first
  }

  function Enqueue(q: Queue, receipt: Receipt): Queue {
    q.(data := q.data[q.last := receipt], last := q.last + 1)
  }

  function Dequeue(q: Queue): Result<(Receipt, Queue), QueueError> {
    var _ :- Require(q.last != q.first, EmptyQueue);
    Ok((GetOr(q.data, q.first, NO_RECEIPT), q.(data := q.data - {q.first}, first := q.first + 1)))
  }

  function ReceiptAtIndex(q: Queue, index: nat): Result<Receipt, QueueError>
    requires q.first <= q.last
  {
    var _ :- Require(index < Size(q), IndexOutOfBounds);
    Ok(GetOr(q.data, q.first + index, NO_RECEIPT))
  }

  /** Taking out the oldest `n` receipts. */
  function TakeOut(q: Queue, n: nat): (seq<Receipt>, Queue) {
    if n == 0 then ([], q)
    else
      var (receipts, rest) := TakeOut(q, n - 1);
      match Dequeue(rest)
      case Ok((receipt, rest')) => (receipts + [receipt], rest')
      case Revert(_) => (receipts, rest)
  }

  /** How many receipts go with the next message: at most five. */
  function BatchSize(q: Queue): nat {
    if q.last < q.first then 0 else Min(MAXIMUM_RECEIPT_COUNT, q.last - q.first)
  }

  /** The receipts that go with the next message, the oldest ones, and the queue without them. */
  function OutstandingReceipts(q: Queue): (seq<Receipt>, Queue) {
    TakeOut(q, BatchSize(q))
  }

  lemma {:induction false} EntriesAgree(data: map<nat, Receipt>, data': map<nat, Receipt>, i: nat, n: nat)
    requires forall k: nat :: i <= k < n ==> GetOr(data, k, NO_RECEIPT) == GetOr(data', k, NO_RECEIPT)
    ensures Entries(data, i, n) == Entries(data', i, n)
    decreases n - i
  {
    if i < n {
      EntriesAgree(data, data', i + 1, n);
    }
  }

  lemma {:induction false} EntriesAppend(data: map<nat, Receipt>, i: nat, n: nat)
    requires i <= n
    ensures Entries(data, i, n + 1) == Entries(data, i, n) + [GetOr(data, n, NO_RECEIPT)]
    decreases n - i
  {
    if i < n {
      EntriesAppend(data, i + 1, n);
      var head, last := [GetOr(data, i, NO_RECEIPT)], [GetOr(data, n, NO_RECEIPT)];
      assert Entries(data, i, n + 1) == head + Entries(data, i + 1, n + 1);
      assert Entries(data, i, n) == head + Entries(data, i + 1, n);
      assert head + (Entries(data, i + 1, n) + last) == head + Entries(data, i + 1, n) + last;
    } else {
      assert Entries(data, n, n + 1) == [GetOr(data, n, NO_RECEIPT)] + Entries(data, n + 1, n + 1);
    }
  }

  lemma {:induction false} EntryAt(data: map<nat, Receipt>, i: nat, n: nat, k: nat)
    requires i + k < n
    ensures Entries(data, i, n)[k] == GetOr(data, i + k, NO_RECEIPT)
    decreases k
  {
    if k > 0 {
      EntryAt(data, i + 1, n, k - 1);
    }
  }

  lemma EnqueueAppends(q: Queue, receipt: Receipt)
    requires Valid(q)
    ensures Valid(Enqueue(q, receipt)) && Contents(Enqueue(q, receipt)) == Contents(q) + [receipt]
  {
    var data := q.data[q.last := receipt];
    EntriesAppend(data, q.first, q.last);
    EntriesAgree(q.data, data, q.first, q.last);
  }

  lemma DequeueTakesOldest(q: Queue)
    requires Valid(q)
    ensures Dequeue(q).Ok? <==> Contents(q) != []
    ensures Dequeue(q).Ok? ==>
              var (receipt, rest) := Dequeue(q).value;
              Valid(rest) && Contents(q) == [receipt] + Contents(rest)
  {
    EntriesAgree(q.data, q.data - {q.first}, q.first + 1, q.last);
  }

  lemma IndexAgrees(q: Queue, index: nat)
    requires Valid(q)
    ensures ReceiptAtIndex(q, index)
            == if index < |Contents(q)| then Ok(Contents(q)[index]) else Revert(IndexOutOfBounds)
  {
    if index < Size(q) {
      EntryAt(q.data, q.first, q.last, index);
    }
  }

  lemma {:induction false} TakeOutTakesOldest(q: Queue, n: nat)
    requires Valid(q) && n <= |Contents(q)|
    ensures var (receipts, rest) := TakeOut(q, n);
            Valid(rest) && |receipts| == n && Contents(q) == receipts + Contents(rest)
  {
    if n > 0 {
      TakeOutTakesOldest(q, n - 1);
      var (receipts, rest) := TakeOut(q, n - 1);
      DequeueTakesOldest(rest);
      var (receipt, rest') := Dequeue(rest).value;
      assert receipts + ([receipt] + Contents(rest')) == receipts + [receipt] + Contents(rest');
    }
  }

  /** A batch is the oldest receipts, five of them or all, and the queue keeps the rest. */
  lemma BatchIsOldest(q: Queue)
    requires Valid(q)
    ensures var (batch, rest) := OutstandingReceipts(q);
            && Valid(rest) && Contents(q) == batch + Contents(rest)
            && |batch| == Min(MAXIMUM_RECEIPT_COUNT, |Contents(q)|)
  {
    TakeOutTakesOldest(q, BatchSize(q));
  }
}
