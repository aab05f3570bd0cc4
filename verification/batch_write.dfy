/** Batch write: the items are cut into consecutive groups of at most 25
    put-requests and written one group per call, in order, to the physical
    table of the current deployment. */
module Writes {
  import opened Common
  import opened Config
  import opened Chunking

  /** The store accepts at most this many put-requests per batch write. */
  const WRITE_LIMIT: nat := 25

  datatype PutRequest = PutRequest(item: Item)

  /** One batch-write call: its put-requests, all addressed to `table`. */
  datatype WriteCall = WriteCall(table: string, puts: seq<PutRequest>)

  /** Whether the store accepted one batch-write call. */
  datatype WriteReply = Written | WriteFault(reason: string)

  function Wrap(items: seq<Item>): (puts: seq<PutRequest>)
    ensures |puts| == |items|
    ensures forall i :: 0 <= i < |items| ==> puts[i].item == items[i]
  {
    if |items| == 0 then [] else [PutRequest(items[0])] + Wrap(items[1..])
  }

  function Unwrap(puts: seq<PutRequest>): seq<Item> {
    if |puts| == 0 then [] else [puts[0].item] + Unwrap(puts[1..])
  }

  /** The items carried by a sequence of calls, in call order. */
  function WrittenItems(calls: seq<WriteCall>): seq<Item> {
    if |calls| == 0 then [] else Unwrap(calls[0].puts) + WrittenItems(calls[1..])
  }

  /** The outer loop from position i = |items before `items`| on: take up to
      25 items, issue one call for them, continue after it; reply j answers call j. */
  function WriteLoop(table: string, items: seq<Item>, replies: seq<WriteReply>): (r: Run<WriteCall, ()>)
    ensures |r.calls| <= |replies|
    ensures forall i :: 0 <= i < |r.calls| ==> r.calls[i].table == table && 0 < |r.calls[i].puts| <= WRITE_LIMIT
    ensures forall i :: 0 <= i < |r.calls| - 1 ==> replies[i].Written?
    ensures r.outcome.Failed? <==> |r.calls| > 0 && replies[|r.calls| - 1].WriteFault?
    ensures r.outcome.Failed? ==> r.outcome.error == BackendFailure(replies[|r.calls| - 1].reason)
    ensures r.outcome.Pending? ==> |r.calls| == |replies| && |items| > 0
    ensures |items| == 0 ==> r == Run([], Done(()))
    decreases |items|
  {
    if |items| == 0 then Run([], Done(()))
    else
      var n := Min(WRITE_LIMIT, |items|);
      var call := WriteCall(table, Wrap(items[..n]));
      if |replies| == 0 then Run([], Pending)
      else if replies[0].WriteFault? then Run([call], Failed(BackendFailure(replies[0].reason)))
      else
        var rest := WriteLoop(table, items[n..], replies[1..]);
        Run([call] + rest.calls, rest.outcome)
  }

  /** batchWrite: the configuration is checked before any call is made. */
  function BatchWrite(tableName: string, items: seq<Item>, env: Environment, replies: seq<WriteReply>)
    : (r: Run<WriteCall, ()>)
    ensures !EndpointSet(env) ==> r == Run([], Failed(ConfigMissing))
    ensures EndpointSet(env) && |items| == 0 ==> r == Run([], Done(()))
    ensures EndpointSet(env) ==>
              forall i :: 0 <= i < |r.calls| ==>
                r.calls[i].table == tableName + Suffix(env) && 0 < |r.calls[i].puts| <= WRITE_LIMIT
  {
    match PhysicalTableName(tableName, env)
    case Err(e) => Run([], Failed(e))
    case Ok(table) => WriteLoop(table, items, replies)
  }

  lemma {:induction false} UnwrapWrap(items: seq<Item>)
    ensures Unwrap(Wrap(items)) == items
  {
    if |items| > 0 {
      UnwrapWrap(items[1..]);
      assert Wrap(items)[1..] == Wrap(items[1..]);
    }
  }

  /** Call i carries exactly the i-th group of 25 items, each unchanged;
      a finished write made one call per group. */
  lemma {:induction false} WriteLoopFollowsChunks(table: string, items: seq<Item>, replies: seq<WriteReply>)
    ensures var r := WriteLoop(table, items, replies);
            && |r.calls| <= |Chunks(items, WRITE_LIMIT)|
            && (forall i :: 0 <= i < |r.calls| ==> Unwrap(r.calls[i].puts) == Chunks(items, WRITE_LIMIT)[i])
            && (r.outcome.Done? ==> |r.calls| == |Chunks(items, WRITE_LIMIT)|)
    decreases |items|
  {
    if |items| > 0 && |replies| > 0 {
      var n := Min(WRITE_LIMIT, |items|);
      UnwrapWrap(items[..n]);
      if replies[0].Written? {
        var r := WriteLoop(table, items, replies);
        var rest := WriteLoop(table, items[n..], replies[1..]);
        WriteLoopFollowsChunks(table, items[n..], replies[1..]);
        assert r.calls == [WriteCall(table, Wrap(items[..n]))] + rest.calls;
        if |items| <= WRITE_LIMIT {
          assert items[..n] == items;
        } else {
          assert Chunks(items, WRITE_LIMIT) == [items[..n]] + Chunks(items[n..], WRITE_LIMIT);
        }
      }
    }
  }

  lemma {:induction false} WrittenItemsOfChunks(calls: seq<WriteCall>, chunks: seq<seq<Item>>)
    requires |calls| == |chunks|
    requires forall i :: 0 <= i < |calls| ==> Unwrap(calls[i].puts) == chunks[i]
    ensures WrittenItems(calls) == Flatten(chunks)
  {
    if |calls| > 0 {
      WrittenItemsOfChunks(calls[1..], chunks[1..]);
    }
  }

  /** A finished batch write has sent every item in exactly one put-request,
      in the original order, using ceil(n / 25) calls; an empty list makes no
      call. The reply is only accepted or rejected: items the store might
      leave unprocessed are not represented, and the source ignores them. */
  lemma BatchWriteWritesEveryItem(tableName: string, items: seq<Item>, env: Environment, replies: seq<WriteReply>)
    ensures var r := BatchWrite(tableName, items, env, replies);
            r.outcome.Done? ==>
              && WrittenItems(r.calls) == items
              && |r.calls| == (|items| + WRITE_LIMIT - 1) / WRITE_LIMIT
  {
    var r := BatchWrite(tableName, items, env, replies);
    if r.outcome.Done? {
      var table := PhysicalTableName(tableName, env).value;
      WriteLoopFollowsChunks(table, items, replies);
      WrittenItemsOfChunks(r.calls, Chunks(items, WRITE_LIMIT));
      FlattenChunks(items, WRITE_LIMIT);
      ChunksCount(items, WRITE_LIMIT);
    }
  }

  lemma {:induction false} WriteLoopCompletes(table: string, items: seq<Item>, replies: seq<WriteReply>)
    requires |replies| >= |Chunks(items, WRITE_LIMIT)|
    requires forall i :: 0 <= i < |replies| ==> replies[i].Written?
    ensures WriteLoop(table, items, replies).outcome.Done?
    decreases |items|
  {
    if |items| > 0 {
      var n := Min(WRITE_LIMIT, |items|);
      if |items| > WRITE_LIMIT {
        assert Chunks(items, WRITE_LIMIT) == [items[..n]] + Chunks(items[n..], WRITE_LIMIT);
      }
      WriteLoopCompletes(table, items[n..], replies[1..]);
    }
  }

  /** With the endpoint configured and every call accepted, ceil(n / 25)
      replies are enough for the batch write to finish. */
  lemma BatchWriteCompletes(tableName: string, items: seq<Item>, env: Environment, replies: seq<WriteReply>)
    requires EndpointSet(env)
    requires |replies| >= (|items| + WRITE_LIMIT - 1) / WRITE_LIMIT
    requires forall i :: 0 <= i < |replies| ==> replies[i].Written?
    ensures BatchWrite(tableName, items, env, replies).outcome.Done?
  {
    ChunksCount(items, WRITE_LIMIT);
    WriteLoopCompletes(PhysicalTableName(tableName, env).value, items, replies);
  }

  /** Thirty items are written in two calls: twenty-five, then five. */
  lemma BatchWriteThirtyItems(tableName: string, items: seq<Item>, env: Environment)
    requires EndpointSet(env) && |items| == 30
    ensures var r := BatchWrite(tableName, items, env, [Written, Written]);
            && r.outcome.Done?
            && |r.calls| == 2
            && |r.calls[0].puts| == 25 && |r.calls[1].puts| == 5
  {
    BatchWriteCompletes(tableName, items, env, [Written, Written]);
    BatchWriteWritesEveryItem(tableName, items, env, [Written, Written]);
    var table := PhysicalTableName(tableName, env).value;
    WriteLoopFollowsChunks(table, items, [Written, Written]);
    assert Chunks(items, WRITE_LIMIT) == [items[..25]] + Chunks(items[25..], WRITE_LIMIT);
    assert Chunks(items[25..], WRITE_LIMIT) == [items[25..]];
    var r := BatchWrite(tableName, items, env, [Written, Written]);
    UnwrapLength(r.calls[0].puts);
    UnwrapLength(r.calls[1].puts);
  }

  lemma {:induction false} UnwrapLength(puts: seq<PutRequest>)
    ensures |Unwrap(puts)| == |puts|
  {
    if |puts| > 0 {
      UnwrapLength(puts[1..]);
    }
  }
}
