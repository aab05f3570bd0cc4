/** The paginated scan: one logical query issued again and again, each time
    with the continuation token of the page before, until a page comes back
    with a null token; the items of every page are gathered into the last
    response. */
module Pagination {
  import opened Common

  /** Page size used when the caller gives none. */
  const SCAN_LIMIT_COUNT: int := 1000

  type Vars = map<string, Value>

  /** What the caller hands to the scan: a query document and its own variables. */
  datatype Query = Query(document: string, variables: Vars)

  /** One backend query as issued. */
  datatype Call = Call(document: string, variables: Vars)

  /** The payload of a list query's root field; `other` holds its remaining fields. */
  datatype Page = Page(items: seq<Item>, nextToken: Option<string>, other: Fields)

  datatype RootField = RootField(name: string, page: Page)

  /** A query response: its root fields in key order, and the response's other fields. */
  datatype Response = Response(data: seq<RootField>, other: Fields)

  /** What the backend returns for one call: a response, or a rejected call. */
  datatype Reply = Answer(response: Response) | Fault(reason: string)

  /** `pageLimit ?? SCAN_LIMIT_COUNT`: only a null or absent limit is replaced. */
  function EffectiveLimit(pageLimit: Option<int>): int {
    match pageLimit
    case Some(n) => n
    case None => SCAN_LIMIT_COUNT
  }

  function TokenValue(token: Option<string>): Value {
    match token
    case Some(t) => Str(t)
    case None => Null
  }

  /** The variables of one call: the caller's variables with `limit` and
      `nextToken` set, overriding any caller entries of the same name. */
  function CallVariables(vars: Vars, limit: int, token: Option<string>): (r: Vars)
    ensures r.Keys == vars.Keys + {"limit", "nextToken"}
    ensures r["limit"] == Num(limit) && r["nextToken"] == TokenValue(token)
    ensures forall k :: k in vars && k != "limit" && k != "nextToken" ==> r[k] == vars[k]
  {
    vars["limit" := Num(limit)]["nextToken" := TokenValue(token)]
  }

  function CallFor(q: Query, limit: int, token: Option<string>): Call {
    Call(q.document, CallVariables(q.variables, limit, token))
  }

  /** The reply is a response with at least one root field. */
  predicate Answered(r: Reply) {
    r.Answer? && |r.response.data| > 0
  }

  /** The page in the first root field of an answered reply. */
  function RootPage(r: Reply): Page
    requires Answered(r)
  {
    r.response.data[0].page
  }

  /** The reply carries a continuation token: the loop goes on. */
  predicate Continues(r: Reply) {
    Answered(r) && RootPage(r).nextToken.Some?
  }

  /** The reply's token is null: the loop stops after it. */
  predicate Terminal(r: Reply) {
    Answered(r) && RootPage(r).nextToken.None?
  }

  /** The error a reply that is not a page turns into. */
  function FailureOf(r: Reply): Error
    requires !Answered(r)
  {
    match r
    case Fault(reason) => BackendFailure(reason)
    case Answer(_) => MalformedResponse
  }

  /** `resp` with only the items of its first root field replaced. */
  function WithItems(resp: Response, items: seq<Item>): (r: Response)
    requires |resp.data| > 0
    ensures |r.data| == |resp.data| && r.other == resp.other
    ensures r.data[0].name == resp.data[0].name
    ensures r.data[0].page.items == items
    ensures r.data[0].page.nextToken == resp.data[0].page.nextToken
    ensures r.data[0].page.other == resp.data[0].page.other
    ensures forall i :: 0 < i < |r.data| ==> r.data[i] == resp.data[i]
  {
    var root := resp.data[0];
    resp.(data := [root.(page := root.page.(items := items))] + resp.data[1..])
  }

  /** The items of the first root field of every reply, concatenated in order. */
  function ItemsOf(rs: seq<Reply>): seq<Item>
    requires forall i :: 0 <= i < |rs| ==> Answered(rs[i])
  {
    if |rs| == 0 then [] else RootPage(rs[0]).items + ItemsOf(rs[1..])
  }

  /** The do-while loop from the point where `token` is about to be sent and
      `acc` holds the items gathered so far; reply i answers call i. */
  function ScanLoop(q: Query, limit: int, token: Option<string>, acc: seq<Item>, replies: seq<Reply>)
    : (r: Run<Call, Response>)
    ensures |r.calls| <= |replies|
    ensures |replies| > 0 ==> |r.calls| > 0
    ensures forall i :: 0 <= i < |r.calls| - 1 ==> Continues(replies[i])
    ensures r.outcome.Done? <==> |r.calls| > 0 && Terminal(replies[|r.calls| - 1])
    ensures r.outcome.Failed? <==> |r.calls| > 0 && !Answered(replies[|r.calls| - 1])
    ensures r.outcome.Failed? ==> r.outcome.error == FailureOf(replies[|r.calls| - 1])
    ensures r.outcome.Pending? <==> |r.calls| == |replies| && (|replies| == 0 || Continues(replies[|replies| - 1]))
    decreases |replies|
  {
    var call := CallFor(q, limit, token);
    if |replies| == 0 then Run([], Pending)
    else if !Answered(replies[0]) then Run([call], Failed(FailureOf(replies[0])))
    else
      var page := RootPage(replies[0]);
      if page.nextToken.None? then Run([call], Done(WithItems(replies[0].response, acc + page.items)))
      else
        var rest := ScanLoop(q, limit, page.nextToken, acc + page.items, replies[1..]);
        Run([call] + rest.calls, rest.outcome)
  }

  /** The scan as the caller sees it: the first call sends a null token and
      every call uses the effective page limit. */
  function Scan(q: Query, pageLimit: Option<int>, replies: seq<Reply>): (r: Run<Call, Response>)
    ensures |r.calls| <= |replies|
    ensures |replies| > 0 ==> |r.calls| > 0
    ensures forall i :: 0 <= i < |r.calls| ==>
              && r.calls[i].document == q.document
              && r.calls[i].variables.Keys == q.variables.Keys + {"limit", "nextToken"}
              && r.calls[i].variables["limit"] == Num(if pageLimit.None? then SCAN_LIMIT_COUNT else pageLimit.value)
    ensures |r.calls| > 0 ==> r.calls[0].variables["nextToken"] == Null
    ensures forall i :: 0 < i < |r.calls| ==>
              Continues(replies[i - 1]) && r.calls[i].variables["nextToken"] == Str(RootPage(replies[i - 1]).nextToken.value)
    ensures forall i, k :: 0 <= i < |r.calls| && k in q.variables && k != "limit" && k != "nextToken" ==>
              r.calls[i].variables[k] == q.variables[k]
  {
    LoopCalls(q, EffectiveLimit(pageLimit), None, [], replies);
    ScanLoop(q, EffectiveLimit(pageLimit), None, [], replies)
  }

  /** Call i sends the token of reply i - 1; the first sends `token`. */
  lemma {:induction false} LoopCalls(q: Query, limit: int, token: Option<string>, acc: seq<Item>, replies: seq<Reply>)
    ensures var r := ScanLoop(q, limit, token, acc, replies);
            && (|r.calls| > 0 ==> r.calls[0] == CallFor(q, limit, token))
            && (forall i :: 0 < i < |r.calls| ==>
                  Continues(replies[i - 1]) && r.calls[i] == CallFor(q, limit, RootPage(replies[i - 1]).nextToken))
    decreases |replies|
  {
    if |replies| > 0 && Continues(replies[0]) {
      var page := RootPage(replies[0]);
      var rest := ScanLoop(q, limit, page.nextToken, acc + page.items, replies[1..]);
      LoopCalls(q, limit, page.nextToken, acc + page.items, replies[1..]);
      var r := ScanLoop(q, limit, token, acc, replies);
      forall i | 0 < i < |r.calls|
        ensures Continues(replies[i - 1]) && r.calls[i] == CallFor(q, limit, RootPage(replies[i - 1]).nextToken)
      {
        CallsStep(q, limit, replies, r.calls, rest.calls, i);
      }
    }
  }

  /** One round of `LoopCalls` at call i, stated without the loop: a first
      call in front of the calls answered by the later replies. */
  lemma {:induction false} CallsStep(q: Query, limit: int, replies: seq<Reply>, calls: seq<Call>, later: seq<Call>, i: nat)
    requires |replies| > 0 && Continues(replies[0])
    requires |calls| > 0 && calls[1..] == later && |later| <= |replies| - 1
    requires |later| > 0 ==> later[0] == CallFor(q, limit, RootPage(replies[0]).nextToken)
    requires forall j :: 0 < j < |later| ==>
               Continues(replies[1..][j - 1]) && later[j] == CallFor(q, limit, RootPage(replies[1..][j - 1]).nextToken)
    requires 0 < i < |calls|
    ensures Continues(replies[i - 1]) && calls[i] == CallFor(q, limit, RootPage(replies[i - 1]).nextToken)
  {
    assert calls[i] == later[i - 1];
    if i > 1 {
      assert replies[i - 1] == replies[1..][i - 2];
    }
  }

  lemma ItemsOfFirst(rs: seq<Reply>, n: nat)
    requires 0 < n <= |rs|
    requires forall i :: 0 <= i < n ==> Answered(rs[i])
    ensures ItemsOf(rs[..n]) == RootPage(rs[0]).items + ItemsOf(rs[1..][..n - 1])
  {
    assert rs[..n][1..] == rs[1..][..n - 1];
  }

  lemma LastPageItems(rs: seq<Reply>)
    requires |rs| > 0 && Answered(rs[0])
    ensures ItemsOf(rs[..1]) == RootPage(rs[0]).items
  {
    ItemsOfFirst(rs, 1);
    assert ItemsOf(rs[1..][..0]) == [];
  }

  /** Every reply a finished loop used is a page. */
  lemma {:induction false} DoneAllAnswered(q: Query, limit: int, token: Option<string>, acc: seq<Item>, replies: seq<Reply>)
    ensures var r := ScanLoop(q, limit, token, acc, replies);
            r.outcome.Done? ==> forall i :: 0 <= i < |r.calls| ==> Answered(replies[i])
  {
  }

  lemma {:induction false} LoopReturnsAllItems(q: Query, limit: int, token: Option<string>, acc: seq<Item>, replies: seq<Reply>)
    ensures var r := ScanLoop(q, limit, token, acc, replies);
            r.outcome.Done? ==>
              r.outcome.value == WithItems(replies[|r.calls| - 1].response, acc + ItemsOf(replies[..|r.calls|]))
    decreases |replies|
  {
    if |replies| > 0 && Answered(replies[0]) {
      var page := RootPage(replies[0]);
      if page.nextToken.None? {
        LastPageItems(replies);
      } else {
        var acc' := acc + page.items;
        var rest := ScanLoop(q, limit, page.nextToken, acc', replies[1..]);
        LoopReturnsAllItems(q, limit, page.nextToken, acc', replies[1..]);
        if rest.outcome.Done? {
          var m := |rest.calls|;
          DoneAllAnswered(q, limit, page.nextToken, acc', replies[1..]);
          ItemsStep(replies, acc, m);
        }
      }
    }
  }

  /** Gathering the first page, then the next m pages, is gathering m + 1 pages. */
  lemma ItemsStep(replies: seq<Reply>, acc: seq<Item>, m: nat)
    requires 0 < m < |replies| && Answered(replies[0])
    requires forall i :: 0 <= i < m ==> Answered(replies[1..][i])
    ensures replies[m] == replies[1..][m - 1]
    ensures acc + RootPage(replies[0]).items + ItemsOf(replies[1..][..m]) == acc + ItemsOf(replies[..m + 1])
  {
    assert forall i :: 0 <= i < m + 1 ==> Answered(replies[i]) by {
      forall i | 0 < i < m + 1 ensures Answered(replies[i]) {
        assert replies[i] == replies[1..][i - 1];
      }
    }
    ItemsOfFirst(replies, m + 1);
  }

  /** A finished scan returns the last page's response whose root items are
      every page's items in page order, with the last page's null token and
      all its other fields kept. */
  lemma ScanReturnsAllItems(q: Query, pageLimit: Option<int>, replies: seq<Reply>)
    ensures var r := Scan(q, pageLimit, replies);
            r.outcome.Done? ==>
              && r.outcome.value == WithItems(replies[|r.calls| - 1].response, ItemsOf(replies[..|r.calls|]))
              && r.outcome.value.data[0].page.items == ItemsOf(replies[..|r.calls|])
              && r.outcome.value.data[0].page.nextToken == None
  {
    LoopReturnsAllItems(q, EffectiveLimit(pageLimit), None, [], replies);
    var r := Scan(q, pageLimit, replies);
    if r.outcome.Done? {
      assert [] + ItemsOf(replies[..|r.calls|]) == ItemsOf(replies[..|r.calls|]);
    }
  }

  /** The scan stops exactly at the first page whose token is null: one call
      per page up to and including that page, and none after it. */
  lemma ScanStopsAtFirstNullToken(q: Query, pageLimit: Option<int>, replies: seq<Reply>, k: nat)
    requires k < |replies| && Terminal(replies[k])
    requires forall j :: 0 <= j < k ==> Continues(replies[j])
    ensures Scan(q, pageLimit, replies).outcome.Done?
    ensures |Scan(q, pageLimit, replies).calls| == k + 1
  {
  }

  lemma {:induction false} LoopIgnoresLaterReplies(q: Query, limit: int, token: Option<string>, acc: seq<Item>,
                                                   replies: seq<Reply>, more: seq<Reply>)
    requires !ScanLoop(q, limit, token, acc, replies).outcome.Pending?
    ensures ScanLoop(q, limit, token, acc, replies + more) == ScanLoop(q, limit, token, acc, replies)
    decreases |replies|
  {
    assert (replies + more)[0] == replies[0];
    if Answered(replies[0]) && RootPage(replies[0]).nextToken.Some? {
      var page := RootPage(replies[0]);
      assert (replies + more)[1..] == replies[1..] + more;
      LoopIgnoresLaterReplies(q, limit, page.nextToken, acc + page.items, replies[1..], more);
    }
  }

  /** Once a scan has finished or failed, replies the backend might give
      later are never requested. */
  lemma ScanIgnoresLaterReplies(q: Query, pageLimit: Option<int>, replies: seq<Reply>, more: seq<Reply>)
    requires !Scan(q, pageLimit, replies).outcome.Pending?
    ensures Scan(q, pageLimit, replies + more) == Scan(q, pageLimit, replies)
  {
    LoopIgnoresLaterReplies(q, EffectiveLimit(pageLimit), None, [], replies, more);
  }

  /** Two pages (three items then token "T1", two items then null) with a
      page limit of 3: two calls, the second sending "T1", five items returned. */
  lemma ScanTwoPages(q: Query, a: seq<Item>, b: seq<Item>)
    requires |a| == 3 && |b| == 2
    ensures var p1 := Answer(Response([RootField("listSamples", Page(a, Some("T1"), map[]))], map[]));
            var p2 := Answer(Response([RootField("listSamples", Page(b, None, map[]))], map[]));
            var r := Scan(q, Some(3), [p1, p2]);
            && |r.calls| == 2
            && r.calls[1].variables["nextToken"] == Str("T1")
            && r.calls[1].variables["limit"] == Num(3)
            && r.outcome.Done?
            && |r.outcome.value.data| == 1
            && |r.outcome.value.data[0].page.items| == 5
  {
    var p1 := Answer(Response([RootField("listSamples", Page(a, Some("T1"), map[]))], map[]));
    var p2 := Answer(Response([RootField("listSamples", Page(b, None, map[]))], map[]));
    ScanStopsAtFirstNullToken(q, Some(3), [p1, p2], 1);
    ScanReturnsAllItems(q, Some(3), [p1, p2]);
    assert [p1, p2][..2] == [p1, p2];
    assert ItemsOf([p1, p2]) == a + ItemsOf([p2]);
    assert ItemsOf([p2]) == b + ItemsOf([]);
  }
}
