/** The transaction queue consumer: in-order processing, deletion with one retry, redelivery of what stays. */
module TxQueue {
  import opened Options
  import opened Sequences

  const MAX_MESSAGES: nat := 10

  /** Processing stops at the first message that throws: the result is the stretch before it. */
  method ProcessMessages(messages: seq<string>, throws: string -> bool) returns (processed: seq<string>)
    ensures processed <= messages && forall m | m in processed :: !throws(m)
    ensures processed == messages || throws(messages[|processed|])
  {
    processed := [];
    for i := 0 to |messages|
      invariant processed == messages[..i] && forall m | m in processed :: !throws(m)
    {
      if throws(messages[i]) {
        return;
      }
      processed := processed + [messages[i]];
    }
  }

  /** How a batch-delete call ends: rejected, whether or not the service deleted something first, or answered with the
      ids deleted and the ids that failed; a list without entries may be absent. */
  datatype Reply = Rejected(gone: seq<string>) | Reply(successful: Option<seq<string>>, failed: Option<seq<string>>)

  function Deleted(r: Reply): seq<string> {
    match r
    case Rejected(gone) => gone
    case Reply(successful, _) => if successful.Some? then successful.value else []
  }

  /** The service deletes only what was asked, each entry once, and everything if it answers without a failure. */
  predicate ReplyFits(entries: seq<string>, r: Reply) {
    && NoRepeats(Deleted(r)) && Members(Deleted(r)) <= Members(entries)
    && (r.Reply? && r.failed.None? ==> Members(Deleted(r)) == Members(entries))
  }

  function Without(entries: seq<string>, gone: set<string>): seq<string> {
    if entries == [] then [] else
      Without(entries[..|entries| - 1], gone) +
      (if entries[|entries| - 1] in gone then [] else [entries[|entries| - 1]])
  }

  lemma {:induction false} WithoutIsFilter(entries: seq<string>, gone: set<string>)
    ensures forall id :: id in Without(entries, gone) <==> id in entries && id !in gone
  {
    if entries != [] {
      WithoutIsFilter(entries[..|entries| - 1], gone);
      assert entries == entries[..|entries| - 1] + [entries[|entries| - 1]];
    }
  }

  /** A second attempt is made after an answer with failures and a list of successes. */
  predicate Retried(first: Reply) {
    first.Reply? && first.failed.Some? && first.successful.Some?
  }

  /** The ids deleted over both attempts. */
  function AllDeleted(entries: seq<string>, first: Reply, second: seq<string> -> Reply): set<string> {
    Members(Deleted(first)) +
    (if Retried(first) then Members(Deleted(second(Without(entries, Members(Deleted(first)))))) else {})
  }

  /** deleteMessages: counts every deleted entry once over both attempts. It throws, and loses the count of what was
      deleted, exactly when the first call is rejected, when its answer has failures and no list of successes at all, or
      when the second call is made and rejected. */
  method DeleteMessages(messages: seq<string>, first: Reply, second: seq<string> -> Reply)
    returns (numDeleted: Option<nat>)
    requires ReplyFits(messages, first)
    requires ReplyFits(Without(messages, Members(Deleted(first))), second(Without(messages, Members(Deleted(first)))))
    ensures numDeleted.None? <==>
            || first.Rejected?
            || (first.failed.Some? && (first.successful.None? ||
                                       second(Without(messages, Members(Deleted(first)))).Rejected?))
    ensures numDeleted.Some? ==> numDeleted.value == |AllDeleted(messages, first, second)|
    ensures numDeleted.Some? ==>
              var again := second(Without(messages, Members(Deleted(first))));
              numDeleted.value == (if first.successful.Some? then |first.successful.value| else 0) +
                                  (if first.failed.Some? && again.successful.Some? then |again.successful.value| else 0)
    ensures AllDeleted(messages, first, second) <= Members(messages)
  {
    var entries := messages;
    var count: nat := 0;
    var attempt := 1;
    ghost var gone := Members(Deleted(first));
    WithoutIsFilter(messages, gone);
    MembersCount(Deleted(first));
    while attempt <= 2
      invariant 1 <= attempt <= 3
      invariant attempt == 1 ==> entries == messages && count == 0
      invariant attempt == 2 ==> entries == Without(messages, gone) && count == |gone| && Retried(first)
      invariant attempt == 3 ==> count == |AllDeleted(messages, first, second)| && Retried(first) &&
                                 second(Without(messages, gone)).Reply? &&
                                 count == |first.successful.value| + |Deleted(second(Without(messages, gone)))|
    {
      var result := if attempt == 1 then first else second(entries);
      if result.Rejected? {
        return None;
      }
      count := count + |Deleted(result)|;
      if attempt == 2 {
        MembersCount(Deleted(result));
        assert gone !! Members(Deleted(result));
        assert |gone + Members(Deleted(result))| == |gone| + |Members(Deleted(result))|;
      }
      if result.failed.None? {
        return Some(count);
      }
      if attempt == 1 {
        if result.successful.None? {
          return None;
        }
        entries := FilterEntries(entries, Members(result.successful.value));
      }
      attempt := attempt + 1;
    }
    numDeleted := Some(count);
  }

  method FilterEntries(entries: seq<string>, deletedMessages: set<string>) returns (left: seq<string>)
    ensures left == Without(entries, deletedMessages)
  {
    left := [];
    for i := 0 to |entries|
      invariant left == Without(entries[..i], deletedMessages)
    {
      assert entries[..i + 1][..i] == entries[..i];
      if entries[i] !in deletedMessages {
        left := left + [entries[i]];
      }
    }
    assert entries[..|entries|] == entries;
  }

  // ---- The queue over many polls ----

  /** `total` is everything ever enqueued, in order; `done` the messages in the order they first went through. */
  datatype World = World(total: seq<string>, deleted: set<string>, done: seq<string>)

  /** What the queue still holds: the undeleted messages, in order. */
  function Queue(w: World): seq<string> {
    Without(w.total, w.deleted)
  }

  function Fresh(ids: seq<string>, done: seq<string>): seq<string> {
    Without(ids, Members(done))
  }

  /** Somebody enqueues, or a poll receives the first messages, gets through some of them, and deletes some of those. */
  datatype Op = Enqueue(id: string) | Poll(received: nat, processed: nat, deleted: set<string>)

  predicate Allowed(w: World, op: Op) {
    match op
    case Enqueue(id) => id !in w.total
    case Poll(received, processed, deleted) =>
      && received <= MAX_MESSAGES && processed <= received <= |Queue(w)|
      && deleted <= Members(Queue(w)[..processed])
  }

  function Step(w: World, op: Op): World
    requires Allowed(w, op)
  {
    match op
    case Enqueue(id) => w.(total := w.total + [id])
    case Poll(_, processed, deleted) =>
      w.(deleted := w.deleted + deleted, done := w.done + Fresh(Queue(w)[..processed], w.done))
  }

  predicate FitsAt(replies: seq<string> -> Reply, entries: seq<string>) {
    ReplyFits(entries, replies(entries))
  }

  ghost predicate FitsAlways(replies: seq<string> -> Reply) {
    forall entries :: FitsAt(replies, entries)
  }

  /** processQueue, one poll: what is received, how much goes through, and what the service then deletes is an allowed
      step of the queue, whichever messages throw and whichever deletions fail. */
  method ProcessQueue(w: World, count: nat, throws: string -> bool, first: seq<string> -> Reply,
                      second: seq<string> -> Reply)
    returns (op: Op)
    requires count <= MAX_MESSAGES && count <= |Queue(w)|
    requires FitsAlways(first) && FitsAlways(second)
    ensures op.Poll? && Allowed(w, op) && op.received == count
    ensures op.processed == count || throws(Queue(w)[op.processed])
    ensures forall i | 0 <= i < op.processed :: !throws(Queue(w)[i])
    ensures var processed := Queue(w)[..op.processed];
            op.deleted == if processed == [] then {} else AllDeleted(processed, first(processed), second)
  {
    var messages := Queue(w)[..count];
    var processed := ProcessMessages(messages, throws);
    assert processed == Queue(w)[..|processed|];
    assert forall i | 0 <= i < |processed| :: Queue(w)[i] == processed[i] && processed[i] in processed;
    if |processed| == 0 {
      return Poll(count, 0, {});
    }
    assert FitsAt(first, processed) && FitsAt(second, Without(processed, Members(Deleted(first(processed)))));
    var _ := DeleteMessages(processed, first(processed), second);
    op := Poll(count, |processed|, AllDeleted(processed, first(processed), second));
  }

  /** Messages first go through in queue order, and only messages that went through are deleted. */
  predicate InOrder(w: World) {
    NoRepeats(w.total) && w.done <= w.total && w.deleted <= Members(w.done)
  }

  lemma {:induction false} WithoutConcat(a: seq<string>, b: seq<string>, gone: set<string>)
    ensures Without(a + b, gone) == Without(a, gone) + Without(b, gone)
  {
    if b == [] {
      assert a + b == a;
    } else {
      assert (a + b)[..|a + b| - 1] == a + b[..|b| - 1];
      WithoutConcat(a, b[..|b| - 1], gone);
    }
  }

  lemma {:induction false} WithoutNone(a: seq<string>, gone: set<string>)
    requires forall id | id in a :: id !in gone
    ensures Without(a, gone) == a
  {
    if a != [] {
      WithoutNone(a[..|a| - 1], gone);
    }
  }

  lemma {:induction false} WithoutAll(a: seq<string>, gone: set<string>)
    requires forall id | id in a :: id in gone
    ensures Without(a, gone) == []
  {
    if a != [] {
      WithoutAll(a[..|a| - 1], gone);
    }
  }

  lemma RestIsNew(ids: seq<string>, p: nat)
    requires NoRepeats(ids) && p <= |ids|
    ensures forall id | id in ids[p..] :: id !in ids[..p]
  {
    forall id | id in ids[p..] ensures id !in ids[..p] {
      var j :| p <= j < |ids| && ids[j] == id;
      assert forall i | 0 <= i < p :: ids[i] != ids[j];
    }
  }

  /** The queue is what is left of the processed stretch, followed by everything not yet processed. */
  lemma QueueSplits(w: World)
    requires InOrder(w)
    ensures Queue(w) == Without(w.done, w.deleted) + w.total[|w.done|..]
    ensures forall id | id in w.total[|w.done|..] :: id !in Members(w.done)
  {
    var p := |w.done|;
    assert w.done == w.total[..p];
    assert w.total == w.done + w.total[p..];
    RestIsNew(w.total, p);
    WithoutConcat(w.done, w.total[p..], w.deleted);
    WithoutNone(w.total[p..], w.deleted);
  }

  /** Of the first `n` messages of a queue, the fresh ones come after those that went through before. */
  lemma FreshOfPrefix(again: seq<string>, next: seq<string>, n: nat, gone: set<string>)
    requires (forall id | id in again :: id in gone) && (forall id | id in next :: id !in gone)
    requires n <= |again| + |next|
    ensures Without((again + next)[..n], gone) == next[..if n <= |again| then 0 else n - |again|]
  {
    if n <= |again| {
      assert (again + next)[..n] == again[..n];
      WithoutAll(again[..n], gone);
    } else {
      assert (again + next)[..n] == again + next[..n - |again|];
      WithoutConcat(again, next[..n - |again|], gone);
      WithoutAll(again, gone);
      WithoutNone(next[..n - |again|], gone);
    }
  }

  /** The fresh part of any prefix of the queue is the next stretch of the total order. */
  lemma FreshIsNext(w: World, processed: nat)
    requires InOrder(w) && processed <= |Queue(w)|
    ensures w.done + Fresh(Queue(w)[..processed], w.done) <= w.total
  {
    var again, next := Without(w.done, w.deleted), w.total[|w.done|..];
    QueueSplits(w);
    WithoutIsFilter(w.done, w.deleted);
    FreshOfPrefix(again, next, processed, Members(w.done));
    assert w.total == w.done + next;
  }

  lemma StepKeepsOrder(w: World, op: Op)
    requires InOrder(w) && Allowed(w, op)
    ensures InOrder(Step(w, op)) && w.done <= Step(w, op).done
  {
    if op.Poll? {
      FreshIsNext(w, op.processed);
      WithoutIsFilter(Queue(w)[..op.processed], Members(w.done));
      var new_ := Fresh(Queue(w)[..op.processed], w.done);
      forall id | id in op.deleted ensures id in w.done + new_ {
        assert id in Queue(w)[..op.processed];
      }
    }
  }

  /** After a poll what it got through has gone through, and exactly what it deleted has left the queue, the rest in its
      order; enqueueing adds one message at the end. */
  lemma StepEffect(w: World, op: Op)
    requires InOrder(w) && Allowed(w, op)
    ensures var end := Step(w, op);
            match op
            case Enqueue(id) => Queue(end) == Queue(w) + [id] && end.done == w.done
            case Poll(_, processed, deleted) =>
              && Queue(end) == Without(Queue(w), deleted)
              && (forall id :: id in end.done <==> id in w.done || id in Queue(w)[..processed])
  {
    match op
    case Enqueue(id) =>
      StepKeepsOrder(w, op);
      WithoutConcat(w.total, [id], w.deleted);
      assert id !in w.deleted;
    case Poll(_, processed, deleted) =>
      WithoutTwice(w.total, w.deleted, deleted);
      WithoutIsFilter(Queue(w)[..processed], Members(w.done));
  }

  lemma {:induction false} WithoutTwice(ids: seq<string>, gone: set<string>, more: set<string>)
    ensures Without(ids, gone + more) == Without(Without(ids, gone), more)
  {
    if ids != [] {
      var front, last := ids[..|ids| - 1], ids[|ids| - 1];
      WithoutTwice(front, gone, more);
      WithoutConcat(Without(front, gone), if last in gone then [] else [last], more);
      assert Without([last], more) == if last in more then [] else [last];
    }
  }

  predicate AllowedRun(w: World, ops: seq<Op>)
    decreases |ops|
  {
    ops == [] || (Allowed(w, ops[0]) && AllowedRun(Step(w, ops[0]), ops[1..]))
  }

  function Steps(w: World, ops: seq<Op>): World
    requires AllowedRun(w, ops)
    decreases |ops|
  {
    if ops == [] then w else Steps(Step(w, ops[0]), ops[1..])
  }

  /** Whatever polls, partial batches and failed deletions follow: messages first go through in queue order, none is
      deleted before it and everything queued before it went through, and what went through stays recorded. */
  lemma {:induction false} FirstProcessedInOrder(w: World, ops: seq<Op>)
    requires InOrder(w) && AllowedRun(w, ops)
    ensures InOrder(Steps(w, ops)) && w.done <= Steps(w, ops).done
    decreases |ops|
  {
    if ops != [] {
      StepKeepsOrder(w, ops[0]);
      FirstProcessedInOrder(Step(w, ops[0]), ops[1..]);
    }
  }
}
