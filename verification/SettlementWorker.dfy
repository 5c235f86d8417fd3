/** The worker's two loops as they run: dispatching a batch of outbox rows, and processing one
    message until it is acknowledged or given up. */
module SettlementWorker {
  import opened Sorting
  import opened Delivery
  import D = Decimal

  // ----- processing one message -----

  datatype SettleError = EventNotFound | EventUnresolved | OutcomeNotOption | OrderWalletNotFound | Other

  predicate IsPermanent(e: SettleError) {
    !e.Other?
  }

  /** What a call of `SettleEvent` answers: nothing, or its error. */
  type Answer = D.Option<SettleError>

  const RETRY_INITIAL: nat := 1
  const RETRY_MAX_DELAY: nat := 30

  /** The effects of processing: settlement calls made, seconds waited, and how it ended. */
  datatype Processed = Processed(calls: nat, waits: seq<nat>, deadLettered: bool, acknowledged: bool)

  /** `answers` are the replies of successive settlement calls, `patience` is the number of waits
      after which the context is cancelled. Every call before the last failed for a reason that
      may pass; a success is acknowledged; the last call's failure is dead-lettered, and then
      acknowledged, when it is one of the four lasting ones or the fifth call's; otherwise the
      context was cancelled and nothing is acknowledged. The waits double. */
  method ProcessUntilAcknowledged(message: Message, answers: seq<Answer>, patience: nat, publishOk: bool, ackOk: bool)
    returns (r: Processed)
    requires |answers| >= RETRY_ATTEMPTS
    ensures message.Malformed? ==> r == Processed(0, [], publishOk, publishOk && ackOk)
    ensures !message.Malformed? ==>
              && 1 <= r.calls <= 5 && r.calls <= patience + 1
              && r.waits == [1, 2, 4, 8][..r.calls - 1]
              && (forall k | 0 <= k < r.calls - 1 :: answers[k] == D.Some(Other))
              && match answers[r.calls - 1]
                 case None => !r.deadLettered && r.acknowledged == ackOk
                 case Some(EventNotFound) => r.deadLettered == publishOk && r.acknowledged == (publishOk && ackOk)
                 case Some(EventUnresolved) => r.deadLettered == publishOk && r.acknowledged == (publishOk && ackOk)
                 case Some(OutcomeNotOption) => r.deadLettered == publishOk && r.acknowledged == (publishOk && ackOk)
                 case Some(OrderWalletNotFound) => r.deadLettered == publishOk && r.acknowledged == (publishOk && ackOk)
                 case Some(Other) =>
                   if r.calls == 5 then r.deadLettered == publishOk && r.acknowledged == (publishOk && ackOk)
                   else r.calls == patience + 1 && !r.deadLettered && !r.acknowledged
  {
    if message.Malformed? {
      return Processed(0, [], publishOk, publishOk && ackOk);
    }
    var delay := RETRY_INITIAL;
    var waits: seq<nat> := [];
    var attempt := 1;
    while attempt <= RETRY_ATTEMPTS
      invariant 1 <= attempt <= RETRY_ATTEMPTS
      invariant forall k | 0 <= k < attempt - 1 :: answers[k] == D.Some(Other)
      invariant attempt - 1 <= patience
      invariant waits == [1, 2, 4, 8][..attempt - 1] && delay == [1, 2, 4, 8, 16][attempt - 1]
      decreases RETRY_ATTEMPTS - attempt
    {
      var err := answers[attempt - 1];
      if err.None? {
        return Processed(attempt, waits, false, ackOk);
      }
      var permanent := IsPermanent(err.value);
      var lastAttempt := attempt == RETRY_ATTEMPTS;
      if permanent || lastAttempt {
        return Processed(attempt, waits, publishOk, publishOk && ackOk);
      }
      if |waits| == patience {
        return Processed(attempt, waits, false, false);
      }
      waits := waits + [delay];
      delay := if delay * 2 <= RETRY_MAX_DELAY then delay * 2 else RETRY_MAX_DELAY;
      attempt := attempt + 1;
    }
    assert false;
  }

  // ----- dispatching -----

  function Unpublished(rows: seq<OutboxRow>): set<nat> {
    set i: nat | i < |rows| && !rows[i].published
  }

  /** Oldest first; rows of one moment by identifier. */
  function OldestFirst(rows: seq<OutboxRow>): (nat, nat) -> bool {
    (a: nat, b: nat) => a < |rows| && b < |rows|
      && (if rows[a].createdAt == rows[b].createdAt then a < b else rows[a].createdAt < rows[b].createdAt)
  }

  lemma OldestTotal(rows: seq<OutboxRow>)
    ensures StrictTotal(Unpublished(rows), OldestFirst(rows))
  {
    assert forall i | i in Unpublished(rows) :: i < |rows|;
  }

  /** The rows one dispatch locks. */
  ghost function PendingBatch(rows: seq<OutboxRow>, limit: nat): (batch: seq<nat>)
    ensures forall i | 0 <= i < |batch| :: batch[i] < |rows| && !rows[batch[i]].published
  {
    OldestTotal(rows);
    var all := Sort(Unpublished(rows), OldestFirst(rows));
    SortedDistinct(all, Unpublished(rows), OldestFirst(rows));
    if |all| <= limit then all else all[..limit]
  }

  /** They are unpublished and in order of creation, and every unpublished row left out is younger
      than all of them; one is left out only when the limit is reached. */
  lemma BatchIsOldest(rows: seq<OutboxRow>, limit: nat)
    ensures var batch := PendingBatch(rows, limit);
            && |batch| <= limit
            && (forall i, j | 0 <= i < j < |batch| ::
                  || rows[batch[i]].createdAt < rows[batch[j]].createdAt
                  || (rows[batch[i]].createdAt == rows[batch[j]].createdAt && batch[i] < batch[j]))
            && (forall x: nat | x < |rows| && !rows[x].published && x !in batch ::
                  |batch| == limit && forall i | 0 <= i < |batch| ::
                    || rows[batch[i]].createdAt < rows[x].createdAt
                    || (rows[batch[i]].createdAt == rows[x].createdAt && batch[i] < x))
  {
    OldestTotal(rows);
    var less, all, batch := OldestFirst(rows), Sort(Unpublished(rows), OldestFirst(rows)), PendingBatch(rows, limit);
    assert batch <= all && (|all| <= limit ==> batch == all);
    assert forall i, j | 0 <= i < j < |all| :: less(all[i], all[j]);
    forall x: nat | x < |rows| && !rows[x].published && x !in batch
      ensures |batch| == limit && forall i | 0 <= i < |batch| :: less(batch[i], x)
    {
      assert x in Elements(all);
      var k :| 0 <= k < |all| && all[k] == x;
      assert k >= |batch|;
    }
  }

  function Messages(rows: seq<OutboxRow>, batch: seq<nat>): seq<Message>
    requires forall i | 0 <= i < |batch| :: batch[i] < |rows|
  {
    seq(|batch|, i requires 0 <= i < |batch| => rows[batch[i]].message)
  }

  /** Publishes the rows of a batch in turn, marking each in the transaction. */
  method PublishBatch(rows: seq<OutboxRow>, stream: seq<Message>, batch: seq<nat>, published: nat)
    returns (ok: bool, marked: seq<OutboxRow>, sent: seq<Message>)
    requires forall i | 0 <= i < |batch| :: batch[i] < |rows|
    ensures ok <==> published >= |batch|
    ensures ok ==> marked == Marked(rows, batch) && sent == stream + Messages(rows, batch)
    ensures !ok ==> sent == stream + Messages(rows, batch[..published])
  {
    hide Marked, Messages;
    marked, sent := rows, stream;
    MarkedNone(rows, stream, batch);
    var i := 0;
    while i < |batch|
      invariant 0 <= i <= |batch| && i <= published
      invariant marked == Marked(rows, batch[..i]) && |marked| == |rows|
      invariant sent == stream + Messages(rows, batch[..i])
    {
      if i == published {
        return false, marked, sent;
      }
      MarkedMore(rows, batch, i);
      assert stream + Messages(rows, batch[..i]) + [rows[batch[i]].message] == stream + (Messages(rows, batch[..i]) + [rows[batch[i]].message]);
      sent := sent + [rows[batch[i]].message];
      marked := marked[batch[i] := marked[batch[i]].(published := true)];
      i := i + 1;
    }
    assert batch[..i] == batch;
    ok := true;
  }

  class OutboxTable {
    var rows: seq<OutboxRow>
    var stream: seq<Message>

    /** Publishes each locked row, then commits their marks. `published` calls of the publisher
        succeed; whatever was published stays on the stream even when the dispatch fails. */
    method Dispatch(limit: nat, published: nat, commitOk: bool) returns (count: D.Option<nat>)
      modifies this
      ensures var batch := PendingBatch(old(rows), limit);
              count == (if published >= |batch| && commitOk then D.Some(|batch|) else D.None)
      ensures rows == if count.Some? then Marked(old(rows), PendingBatch(old(rows), limit)) else old(rows)
      ensures var batch := PendingBatch(old(rows), limit);
              stream == old(stream) + Messages(old(rows), if published < |batch| then batch[..published] else batch)
      ensures |rows| == |old(rows)| && forall i | 0 <= i < |rows| ::
                rows[i] == old(rows)[i].(published := old(rows)[i].published || (count.Some? && i in PendingBatch(old(rows), limit)))
    {
      OldestTotal(rows);
      var batch := SortSet(Unpublished(rows), OldestFirst(rows));
      if |batch| > limit {
        batch := batch[..limit];
      }
      assert batch == PendingBatch(rows, limit);
      hide PendingBatch, Marked, Messages;
      var ok, marked, sent := PublishBatch(rows, stream, batch, published);
      stream := sent;
      if !ok || !commitOk {
        return D.None;
      }
      rows := marked;
      return D.Some(|batch|);
    }
  }

  lemma MarkedNone(rows: seq<OutboxRow>, stream: seq<Message>, batch: seq<nat>)
    ensures Marked(rows, batch[..0]) == rows && stream + Messages(rows, batch[..0]) == stream
  {
  }

  lemma MarkedMore(rows: seq<OutboxRow>, batch: seq<nat>, i: nat)
    requires i < |batch| && forall j | 0 <= j < |batch| :: batch[j] < |rows|
    ensures var m := Marked(rows, batch[..i]);
            |m| == |rows| && Marked(rows, batch[..i + 1]) == m[batch[i] := m[batch[i]].(published := true)]
    ensures Messages(rows, batch[..i + 1]) == Messages(rows, batch[..i]) + [rows[batch[i]].message]
  {
    assert batch[..i + 1] == batch[..i] + [batch[i]];
  }

  // ----- a dispatch that nothing interrupts is a run of the protocol's steps -----

  function PublishTimes(w: World, d: nat, n: nat): World
    decreases n
  {
    if n == 0 || d !in w.dispatchers then w else PublishTimes(PublishNext(w, d, w.dispatchers[d]), d, n - 1)
  }

  lemma FirstPublished(w: World, d: nat, n: nat)
    requires n > 0 && d in w.dispatchers && w.dispatchers[d].sent + n <= |w.dispatchers[d].rows|
    requires forall i | 0 <= i < |w.dispatchers[d].rows| :: w.dispatchers[d].rows[i] < |w.outbox|
    ensures var b := w.dispatchers[d];
            var next := Dispatcher(w.(stream := w.stream + [w.outbox[b.rows[b.sent]].message]), d, b.(sent := b.sent + 1));
            PublishNext(w, d, b) == next && PublishTimes(w, d, n) == PublishTimes(next, d, n - 1)
  {
  }

  lemma {:induction false} PublishingRuns(w: World, d: nat, n: nat)
    requires d in w.dispatchers && w.dispatchers[d].sent + n <= |w.dispatchers[d].rows|
    requires forall i | 0 <= i < |w.dispatchers[d].rows| :: w.dispatchers[d].rows[i] < |w.outbox|
    ensures var b := w.dispatchers[d];
            PublishTimes(w, d, n)
            == Dispatcher(w.(stream := w.stream + Messages(w.outbox, b.rows[b.sent..b.sent + n])), d, b.(sent := b.sent + n))
    decreases n
  {
    var b := w.dispatchers[d];
    if n == 0 {
      NothingPublished(w, d, b);
    } else {
      var message := w.outbox[b.rows[b.sent]].message;
      var next := Dispatcher(w.(stream := w.stream + [message]), d, b.(sent := b.sent + 1));
      assert PublishNext(w, d, b) == next && PublishTimes(w, d, n) == PublishTimes(next, d, n - 1) by { FirstPublished(w, d, n); }
      hide PublishNext, PublishTimes, Messages;
      PublishingRuns(next, d, n - 1);
      MessagesMore(w.outbox, b.rows, b.sent, n);
      hide Dispatcher;
      OneMessage(w, d, b.(sent := b.sent + 1), b.(sent := b.sent + n), message, Messages(w.outbox, b.rows[b.sent + 1..b.sent + n]));
    }
  }

  /** Beginning, publishing every row and committing is what `Dispatch` does in one call. */
  lemma DispatchIsARun(w: World, d: nat, limit: nat)
    requires d !in w.dispatchers
    ensures var batch := PendingBatch(w.outbox, limit);
            var published := PublishTimes(Dispatcher(w, d, Batch(batch, 0)), d, |batch|);
            && Unsent(w, batch) && d in published.dispatchers
            && CommitBatch(published, d, published.dispatchers[d])
               == w.(outbox := Marked(w.outbox, batch), stream := w.stream + Messages(w.outbox, batch))
  {
    var batch := PendingBatch(w.outbox, limit);
    var begun := Dispatcher(w, d, Batch(batch, 0));
    PublishingRuns(begun, d, |batch|);
    assert batch[0..|batch|] == batch;
    var published := PublishTimes(begun, d, |batch|);
    assert published.dispatchers - {d} == w.dispatchers;
  }

  lemma NothingPublished(w: World, d: nat, b: Batch)
    requires d in w.dispatchers && w.dispatchers[d] == b && b.sent <= |b.rows|
    ensures Dispatcher(w.(stream := w.stream + Messages(w.outbox, b.rows[b.sent..b.sent])), d, b) == w
  {
    assert b.rows[b.sent..b.sent] == [];
    assert w.dispatchers[d := b] == w.dispatchers && w.stream + [] == w.stream;
  }

  lemma OneMessage(w: World, d: nat, b: Batch, c: Batch, message: Message, rest: seq<Message>)
    ensures var next := Dispatcher(w.(stream := w.stream + [message]), d, b);
            Dispatcher(next.(stream := next.stream + rest), d, c) == Dispatcher(w.(stream := w.stream + ([message] + rest)), d, c)
  {
    assert w.dispatchers[d := b][d := c] == w.dispatchers[d := c];
    assert w.stream + [message] + rest == w.stream + ([message] + rest);
  }

  lemma MessagesMore(outbox: seq<OutboxRow>, rows: seq<nat>, from: nat, n: nat)
    requires n > 0 && from + n <= |rows| && forall i | 0 <= i < |rows| :: rows[i] < |outbox|
    ensures Messages(outbox, rows[from..from + n]) == [outbox[rows[from]].message] + Messages(outbox, rows[from + 1..from + n])
  {
    assert rows[from..from + n] == [rows[from]] + rows[from + 1..from + n];
  }
}
