/** Batch get: a private copy of the key list is used as a first-in
    first-out queue. Each round sends up to 100 keys from its front, gathers
    the records the store returns, and puts the keys the store reports as
    unprocessed at its back; the operation ends when the queue is empty. */
module Reads {
  import opened Common
  import opened Config

  /** The store accepts at most this many keys per batch read. */
  const READ_LIMIT: nat := 100

  /** One batch-read call: its keys, all looked up in `table`. */
  datatype GetCall = GetCall(table: string, keys: seq<Key>)

  /** The store's answer to one call: the records it resolved and the keys it
      left unprocessed (empty when it reports none), or a rejected call. */
  datatype GetReply = Got(resolved: seq<Item>, unprocessed: seq<Key>) | GetFault(reason: string)

  /** The keys the next round sends: the first min(100, |queue|) of the queue. */
  function Front(queue: seq<Key>): seq<Key> {
    queue[..Min(READ_LIMIT, |queue|)]
  }

  /** The queue after a round: the keys not sent, then the unprocessed ones. */
  function Requeue(queue: seq<Key>, unprocessed: seq<Key>): seq<Key> {
    queue[|Front(queue)|..] + unprocessed
  }

  /** The queue after the given replies were answered one round each. */
  function QueueAfter(queue: seq<Key>, rs: seq<GetReply>): seq<Key>
    requires forall i :: 0 <= i < |rs| ==> rs[i].Got?
    decreases |rs|
  {
    if |rs| == 0 then queue else QueueAfter(Requeue(queue, rs[0].unprocessed), rs[1..])
  }

  /** The resolved records of the given replies, in reply order. */
  function Resolved(rs: seq<GetReply>): seq<Item>
    requires forall i :: 0 <= i < |rs| ==> rs[i].Got?
  {
    if |rs| == 0 then [] else rs[0].resolved + Resolved(rs[1..])
  }

  /** The while loop from a pending `queue` with `acc` gathered so far;
      reply j answers call j. */
  function GetLoop(table: string, queue: seq<Key>, acc: seq<Item>, replies: seq<GetReply>)
    : (r: Run<GetCall, seq<Item>>)
    ensures |r.calls| <= |replies|
    ensures forall i :: 0 <= i < |r.calls| ==> r.calls[i].table == table && 0 < |r.calls[i].keys| <= READ_LIMIT
    ensures forall i :: 0 <= i < |r.calls| - 1 ==> replies[i].Got?
    ensures r.outcome.Failed? <==> |r.calls| > 0 && replies[|r.calls| - 1].GetFault?
    ensures r.outcome.Failed? ==> r.outcome.error == BackendFailure(replies[|r.calls| - 1].reason)
    ensures r.outcome.Pending? ==> |r.calls| == |replies| && |queue| > 0
    ensures |queue| == 0 ==> r == Run([], Done(acc))
    decreases |replies|
  {
    if |queue| == 0 then Run([], Done(acc))
    else
      var call := GetCall(table, Front(queue));
      if |replies| == 0 then Run([], Pending)
      else match replies[0]
        case GetFault(reason) => Run([call], Failed(BackendFailure(reason)))
        case Got(resolved, unprocessed) =>
          var rest := GetLoop(table, Requeue(queue, unprocessed), acc + resolved, replies[1..]);
          Run([call] + rest.calls, rest.outcome)
  }

  /** batchGet: the configuration is checked before any call is made, and
      the caller's key list is only read. */
  function BatchGet(tableName: string, keys: seq<Key>, env: Environment, replies: seq<GetReply>)
    : (r: Run<GetCall, seq<Item>>)
    ensures !EndpointSet(env) ==> r == Run([], Failed(ConfigMissing))
    ensures EndpointSet(env) && |keys| == 0 ==> r == Run([], Done([]))
    ensures EndpointSet(env) ==>
              forall i :: 0 <= i < |r.calls| ==>
                r.calls[i].table == tableName + Suffix(env) && 0 < |r.calls[i].keys| <= READ_LIMIT
    ensures |r.calls| > 0 ==> r.calls[0].keys == keys[..Min(READ_LIMIT, |keys|)]
  {
    match PhysicalTableName(tableName, env)
    case Err(e) => Run([], Failed(e))
    case Ok(table) => GetLoop(table, keys, [], replies)
  }

  lemma QueueAfterFirst(queue: seq<Key>, rs: seq<GetReply>, i: nat)
    requires 0 < i <= |rs|
    requires forall j :: 0 <= j < i ==> rs[j].Got?
    ensures QueueAfter(queue, rs[..i]) == QueueAfter(Requeue(queue, rs[0].unprocessed), rs[1..][..i - 1])
  {
    assert rs[..i][1..] == rs[1..][..i - 1];
  }

  /** One round of the loop, unfolded: a Got reply to the front of a
      non-empty queue makes one call and continues from the requeued queue. */
  lemma GetLoopStep(table: string, queue: seq<Key>, acc: seq<Item>, replies: seq<GetReply>)
    requires |queue| > 0 && |replies| > 0 && replies[0].Got?
    ensures var r := GetLoop(table, queue, acc, replies);
            var rest := GetLoop(table, Requeue(queue, replies[0].unprocessed), acc + replies[0].resolved, replies[1..]);
            r.calls == [GetCall(table, Front(queue))] + rest.calls && r.outcome == rest.outcome
  {
  }

  /** Round i sends the front of the queue as it stands after rounds 0 .. i-1,
      and that queue is not empty; a finished read has emptied the queue. */
  lemma {:induction false} GetLoopTakesFromFront(table: string, queue: seq<Key>, acc: seq<Item>, replies: seq<GetReply>)
    ensures var r := GetLoop(table, queue, acc, replies);
            forall i :: 0 <= i < |r.calls| ==>
              |QueueAfter(queue, replies[..i])| > 0 && r.calls[i].keys == Front(QueueAfter(queue, replies[..i]))
    ensures var r := GetLoop(table, queue, acc, replies);
            r.outcome.Done? ==> QueueAfter(queue, replies[..|r.calls|]) == []
    decreases |replies|
  {
    var r := GetLoop(table, queue, acc, replies);
    assert replies[..0] == [];
    if |queue| > 0 && |replies| > 0 && replies[0].Got? {
      var q' := Requeue(queue, replies[0].unprocessed);
      var rest := GetLoop(table, q', acc + replies[0].resolved, replies[1..]);
      GetLoopTakesFromFront(table, q', acc + replies[0].resolved, replies[1..]);
      GetLoopStep(table, queue, acc, replies);
      forall i | 1 <= i < |r.calls|
        ensures |QueueAfter(queue, replies[..i])| > 0 && r.calls[i].keys == Front(QueueAfter(queue, replies[..i]))
      {
        FrontStep(queue, replies, r.calls, rest.calls, i);
      }
      if r.outcome.Done? {
        QueueAfterFirst(queue, replies, |r.calls|);
      }
    }
  }

  /** One round of `GetLoopTakesFromFront` at call i, stated without the loop. */
  lemma {:induction false} FrontStep(queue: seq<Key>, replies: seq<GetReply>, calls: seq<GetCall>, later: seq<GetCall>, i: nat)
    requires |replies| > 0 && replies[0].Got?
    requires 0 < i < |calls| <= |replies| && calls[1..] == later
    requires forall j :: 0 <= j < i ==> replies[j].Got?
    requires var q' := Requeue(queue, replies[0].unprocessed);
             |QueueAfter(q', replies[1..][..i - 1])| > 0 && later[i - 1].keys == Front(QueueAfter(q', replies[1..][..i - 1]))
    ensures |QueueAfter(queue, replies[..i])| > 0 && calls[i].keys == Front(QueueAfter(queue, replies[..i]))
  {
    QueueAfterFirst(queue, replies, i);
    assert calls[i] == later[i - 1];
  }

  lemma ResolvedFirst(rs: seq<GetReply>, i: nat)
    requires 0 < i <= |rs|
    requires forall j :: 0 <= j < i ==> rs[j].Got?
    ensures Resolved(rs[..i]) == rs[0].resolved + Resolved(rs[1..][..i - 1])
  {
    assert rs[..i][1..] == rs[1..][..i - 1];
  }

  /** A finished read returns the resolved records of every reply, in call order. */
  lemma {:induction false} GetLoopCollectsInOrder(table: string, queue: seq<Key>, acc: seq<Item>, replies: seq<GetReply>)
    ensures var r := GetLoop(table, queue, acc, replies);
            r.outcome.Done? ==> r.outcome.value == acc + Resolved(replies[..|r.calls|])
    decreases |replies|
  {
    if |queue| == 0 {
      assert replies[..0] == [];
    } else if |replies| > 0 && replies[0].Got? {
      var acc' := acc + replies[0].resolved;
      var q' := Requeue(queue, replies[0].unprocessed);
      var rest := GetLoop(table, q', acc', replies[1..]);
      GetLoopCollectsInOrder(table, q', acc', replies[1..]);
      GetLoopStep(table, queue, acc, replies);
      if rest.outcome.Done? {
        DoneAllGot(table, q', acc', replies[1..]);
        ResolvedStep(replies, acc, |rest.calls|);
      }
    }
  }

  /** Gathering the first reply, then the next m replies, is gathering m + 1 replies. */
  lemma ResolvedStep(replies: seq<GetReply>, acc: seq<Item>, m: nat)
    requires m < |replies| && replies[0].Got?
    requires forall j :: 0 <= j < m ==> replies[1..][j].Got?
    ensures acc + replies[0].resolved + Resolved(replies[1..][..m]) == acc + Resolved(replies[..m + 1])
  {
    assert forall j :: 0 <= j < m + 1 ==> replies[j].Got? by {
      forall j | 0 < j < m + 1 ensures replies[j].Got? {
        assert replies[j] == replies[1..][j - 1];
      }
    }
    ResolvedFirst(replies, m + 1);
  }

  /** Every key waiting in the queue is sent in some round before a read finishes. */
  lemma {:induction false} GetLoopSendsQueuedKeys(table: string, queue: seq<Key>, acc: seq<Item>, replies: seq<GetReply>)
    ensures var r := GetLoop(table, queue, acc, replies);
            r.outcome.Done? ==> forall k :: k in queue ==> exists j :: 0 <= j < |r.calls| && k in r.calls[j].keys
    decreases |replies|
  {
    var r := GetLoop(table, queue, acc, replies);
    if |queue| > 0 && |replies| > 0 && replies[0].Got? && r.outcome.Done? {
      var q' := Requeue(queue, replies[0].unprocessed);
      var rest := GetLoop(table, q', acc + replies[0].resolved, replies[1..]);
      GetLoopSendsQueuedKeys(table, q', acc + replies[0].resolved, replies[1..]);
      GetLoopStep(table, queue, acc, replies);
      forall k | k in queue
        ensures exists j :: 0 <= j < |r.calls| && k in r.calls[j].keys
      {
        var n := |Front(queue)|;
        assert queue == queue[..n] + queue[n..];
        if k in queue[..n] {
          assert k in r.calls[0].keys;
        } else {
          assert k in q';
          var j :| 0 <= j < |rest.calls| && k in rest.calls[j].keys;
          assert r.calls[j + 1] == rest.calls[j];
        }
      }
    }
  }

  /** Every key a reply reports unprocessed is sent again in a later round
      before a read finishes. */
  lemma {:induction false} GetLoopResubmits(table: string, queue: seq<Key>, acc: seq<Item>, replies: seq<GetReply>)
    ensures var r := GetLoop(table, queue, acc, replies);
            r.outcome.Done? ==>
              forall i, k :: 0 <= i < |r.calls| && k in replies[i].unprocessed ==>
                exists j :: i < j < |r.calls| && k in r.calls[j].keys
    decreases |replies|
  {
    var r := GetLoop(table, queue, acc, replies);
    if |queue| > 0 && |replies| > 0 && replies[0].Got? && r.outcome.Done? {
      var q' := Requeue(queue, replies[0].unprocessed);
      var rest := GetLoop(table, q', acc + replies[0].resolved, replies[1..]);
      GetLoopResubmits(table, q', acc + replies[0].resolved, replies[1..]);
      GetLoopSendsQueuedKeys(table, q', acc + replies[0].resolved, replies[1..]);
      GetLoopStep(table, queue, acc, replies);
      forall i, k | 0 <= i < |r.calls| && k in replies[i].unprocessed
        ensures exists j :: i < j < |r.calls| && k in r.calls[j].keys
      {
        if i == 0 {
          assert k in q';
          var j :| 0 <= j < |rest.calls| && k in rest.calls[j].keys;
          assert r.calls[j + 1] == rest.calls[j];
        } else {
          assert replies[1..][i - 1] == replies[i];
          var j :| i - 1 < j < |rest.calls| && k in rest.calls[j].keys;
          assert r.calls[j + 1] == rest.calls[j];
        }
      }
    }
  }

  /** The keys the given calls sent, batch after batch. */
  function SentKeys(calls: seq<GetCall>): seq<Key> {
    if |calls| == 0 then [] else calls[0].keys + SentKeys(calls[1..])
  }

  /** The keys the given replies report as unprocessed, reply after reply. */
  function RequeuedKeys(rs: seq<GetReply>): seq<Key>
    requires forall i :: 0 <= i < |rs| ==> rs[i].Got?
  {
    if |rs| == 0 then [] else rs[0].unprocessed + RequeuedKeys(rs[1..])
  }

  /** A round takes its batch off the front and puts the unprocessed keys at
      the back: the queue followed by the unprocessed keys is the batch
      followed by the new queue. */
  lemma RequeueConserves(queue: seq<Key>, u: seq<Key>)
    ensures queue + u == Front(queue) + Requeue(queue, u)
  {
    var n := |Front(queue)|;
    assert queue == queue[..n] + queue[n..];
  }

  lemma RequeuedFirst(rs: seq<GetReply>, i: nat)
    requires 0 < i <= |rs|
    requires forall j :: 0 <= j < i ==> rs[j].Got?
    ensures RequeuedKeys(rs[..i]) == rs[0].unprocessed + RequeuedKeys(rs[1..][..i - 1])
  {
    assert rs[..i][1..] == rs[1..][..i - 1];
  }

  /** A finished read met no rejected call. */
  lemma {:induction false} DoneAllGot(table: string, queue: seq<Key>, acc: seq<Item>, replies: seq<GetReply>)
    ensures var r := GetLoop(table, queue, acc, replies);
            r.outcome.Done? ==> forall j :: 0 <= j < |r.calls| ==> replies[j].Got?
  {
    var r := GetLoop(table, queue, acc, replies);
    if r.outcome.Done? && |r.calls| > 0 {
      assert !replies[|r.calls| - 1].GetFault?;
    }
  }

  /** One round of the first-in first-out law, stated without the loop. */
  lemma {:induction false} KeepStep(queue: seq<Key>, replies: seq<GetReply>, calls: seq<GetCall>)
    requires 0 < |calls| <= |replies|
    requires forall j :: 0 <= j < |calls| ==> replies[j].Got?
    requires calls[0].keys == Front(queue)
    requires SentKeys(calls[1..]) == Requeue(queue, replies[0].unprocessed) + RequeuedKeys(replies[1..][..|calls| - 1])
    ensures SentKeys(calls) == queue + RequeuedKeys(replies[..|calls|])
  {
    var u := replies[0].unprocessed;
    var later := RequeuedKeys(replies[1..][..|calls| - 1]);
    RequeuedFirst(replies, |calls|);
    RequeueConserves(queue, u);
    calc {
      SentKeys(calls);
      Front(queue) + (Requeue(queue, u) + later);
      (Front(queue) + Requeue(queue, u)) + later;
      (queue + u) + later;
      queue + (u + later);
    }
  }

  /** The keys leave the queue in exactly the order they entered it: a
      finished read sent, batch after batch, the key list followed by every
      reply's unprocessed keys in reply order. So no key is dropped, none is
      invented and none is overtaken. */
  lemma {:induction false} GetLoopKeepsEveryKey(table: string, queue: seq<Key>, acc: seq<Item>, replies: seq<GetReply>)
    ensures var r := GetLoop(table, queue, acc, replies);
            r.outcome.Done? ==> SentKeys(r.calls) == queue + RequeuedKeys(replies[..|r.calls|])
    decreases |replies|
  {
    var r := GetLoop(table, queue, acc, replies);
    if |queue| == 0 {
      assert replies[..0] == [];
    } else if |replies| > 0 && replies[0].Got? && r.outcome.Done? {
      var q' := Requeue(queue, replies[0].unprocessed);
      var rest := GetLoop(table, q', acc + replies[0].resolved, replies[1..]);
      GetLoopStep(table, queue, acc, replies);
      GetLoopKeepsEveryKey(table, q', acc + replies[0].resolved, replies[1..]);
      assert r.calls[1..] == rest.calls;
      DoneAllGot(table, queue, acc, replies);
      KeepStep(queue, replies, r.calls);
    }
  }

  /** Counted with multiplicity, a finished batch get sent exactly the keys
      of the list plus every key a reply reported unprocessed. */
  lemma BatchGetKeepsEveryKey(tableName: string, keys: seq<Key>, env: Environment, replies: seq<GetReply>)
    ensures var r := BatchGet(tableName, keys, env, replies);
            r.outcome.Done? ==> multiset(SentKeys(r.calls)) == multiset(keys) + multiset(RequeuedKeys(replies[..|r.calls|]))
  {
    var r := BatchGet(tableName, keys, env, replies);
    if r.outcome.Done? && EndpointSet(env) {
      var table := PhysicalTableName(tableName, env).value;
      GetLoopKeepsEveryKey(table, keys, [], replies);
    }
  }

  /** Every round the store reports fewer unprocessed keys than it was sent.
      This means it resolved at least one key only if the reported keys come
      from the batch, which the model does not require. */
  predicate ProgressingReplies(calls: seq<GetCall>, replies: seq<GetReply>) {
    forall i :: 0 <= i < |calls| && i < |replies| ==>
      replies[i].Got? && |replies[i].unprocessed| < |calls[i].keys|
  }

  lemma {:induction false} GetLoopBounded(table: string, queue: seq<Key>, acc: seq<Item>, replies: seq<GetReply>)
    requires ProgressingReplies(GetLoop(table, queue, acc, replies).calls, replies)
    ensures var r := GetLoop(table, queue, acc, replies);
            && |r.calls| <= |queue|
            && (r.outcome.Pending? ==> |r.calls| < |queue|)
    decreases |replies|
  {
    var r := GetLoop(table, queue, acc, replies);
    if |queue| > 0 && |replies| > 0 && replies[0].Got? {
      var q' := Requeue(queue, replies[0].unprocessed);
      var rest := GetLoop(table, q', acc + replies[0].resolved, replies[1..]);
      GetLoopStep(table, queue, acc, replies);
      assert ProgressingReplies(rest.calls, replies[1..]) by {
        forall i | 0 <= i < |rest.calls| && i < |replies[1..]|
          ensures replies[1..][i].Got? && |replies[1..][i].unprocessed| < |rest.calls[i].keys|
        {
          assert r.calls[i + 1] == rest.calls[i];
        }
      }
      GetLoopBounded(table, q', acc + replies[0].resolved, replies[1..]);
      assert |replies[0].unprocessed| < |Front(queue)|;
    }
  }

  /** If every round reports fewer unprocessed keys than it was sent and no
      call is rejected, a read of n keys finishes within n rounds, so n replies suffice. */
  lemma BatchGetFinishes(tableName: string, keys: seq<Key>, env: Environment, replies: seq<GetReply>)
    requires EndpointSet(env)
    requires |replies| >= |keys|
    requires ProgressingReplies(BatchGet(tableName, keys, env, replies).calls, replies)
    ensures BatchGet(tableName, keys, env, replies).outcome.Done?
    ensures |BatchGet(tableName, keys, env, replies).calls| <= |keys|
  {
    GetLoopBounded(PhysicalTableName(tableName, env).value, keys, [], replies);
  }

  /** 120 keys; the first 100 are all resolved, 10 of the next 20 come back
      unprocessed and are resolved in a third round: three calls, and the
      records of all three replies are returned. */
  lemma BatchGetRequeuesUnprocessed(tableName: string, keys: seq<Key>, env: Environment,
                                    r1: seq<Item>, r2: seq<Item>, r3: seq<Item>)
    requires EndpointSet(env) && |keys| == 120
    requires |r1| == 100 && |r2| == 10 && |r3| == 10
    ensures var r := BatchGet(tableName, keys, env, [Got(r1, []), Got(r2, keys[110..]), Got(r3, [])]);
            && |r.calls| == 3
            && r.calls[0].keys == keys[..100]
            && r.calls[1].keys == keys[100..]
            && r.calls[2].keys == keys[110..]
            && r.outcome == Done(r1 + r2 + r3)
            && |r.outcome.value| == 120
  {
    var table := PhysicalTableName(tableName, env).value;
    var replies := [Got(r1, []), Got(r2, keys[110..]), Got(r3, [])];
    var q1 := Requeue(keys, []);
    assert q1 == keys[100..];
    var q2 := Requeue(q1, keys[110..]);
    assert Front(q1) == keys[100..];
    assert q2 == keys[110..];
    var q3 := Requeue(q2, []);
    assert q3 == [];
    GetLoopStep(table, keys, [], replies);
    GetLoopStep(table, q1, [] + r1, replies[1..]);
    GetLoopStep(table, q2, [] + r1 + r2, replies[1..][1..]);
    assert [] + r1 + r2 + r3 == r1 + r2 + r3;
  }
}
