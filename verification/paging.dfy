/** Paged listing of the tasks: the service's page size and token, and the store's own limit. */
module Paging {
  import opened Wrappers
  import opened TaskTables

  datatype Filter = Filter(gateway: string, node: string, status: Option<Status>, kind: string)

  /** A token is empty, a decimal number, or something else. */
  datatype Token = NoToken | Offset(value: int) | Unreadable

  datatype Page = Page(rows: seq<TaskId>, next: Token, total: nat)

  /** An empty filter field selects everything; an absent column matches no value. */
  predicate Matches(row: TaskRow, f: Filter) {
    && (f.gateway != "" ==> row.targetGateway == Some(f.gateway))
    && (f.node != "" ==> row.targetNode == Some(f.node))
    && (f.status.Some? ==> row.status == f.status.value)
    && (f.kind != "" ==> row.kind == f.kind)
  }

  /** The matching tasks, newest first; the theorems take the order among equally old ones as fixed. */
  ghost predicate IsTaskListing(order: seq<TaskId>, tasks: map<TaskId, TaskRow>, f: Filter) {
    && Distinct(order)
    && (forall id :: id in order <==> id in tasks && Matches(tasks[id], f))
    && (forall i, j :: 0 <= i < j < |order| ==> tasks[order[i]].createdAt >= tasks[order[j]].createdAt)
  }

  function PageSize(requested: int): (size: int)
    ensures size > 0
  {
    if requested > 0 then requested else 20
  }

  /** The store's limit replaces a page size it finds too large, and does not tell the service. */
  function StoreLimit(size: int): (limit: int)
    ensures 1 <= limit <= 100
  {
    if size <= 0 || size > 100 then 20 else size
  }

  function Skipped(token: Token): int {
    if token.Offset? then token.value else 0
  }

  /** The store's reading of the rows. */
  method ListTasks(order: seq<TaskId>, limit: int, offset: int, fault: bool)
    returns (r: Result<(seq<TaskId>, nat), Failure>)
    ensures r.Ok? <==> !fault && offset >= 0
    ensures r.Ok? ==> r.value == (Window(order, StoreLimit(limit), offset), |order|)
    ensures r.Ok? ==>
              var rows := if limit <= 0 || limit > 100 then 20 else limit;
              && r.value.1 == |order|
              && (offset >= |order| ==> r.value.0 == [])
              && (offset < |order| <= offset + rows ==> r.value.0 == order[offset..])
              && (offset + rows < |order| ==> r.value.0 == order[offset..offset + rows])
  {
    if fault || offset < 0 {
      return Err(Internal);
    }
    var result: seq<TaskId> := [];
    var i := offset;
    while i < |order| && i < offset + StoreLimit(limit)
      invariant offset <= i
      invariant i <= offset + StoreLimit(limit)
      invariant offset <= |order| ==> i <= |order| && result == order[offset..i]
      invariant offset > |order| ==> i == offset && result == []
    {
      result := result + [order[i]];
      i := i + 1;
    }
    assert offset <= |order| ==> order[offset..|order|] == order[offset..];
    return Ok((result, |order|));
  }

  /** Rows `offset` to `offset + limit`, as far as there are any. */
  function Window(order: seq<TaskId>, limit: nat, offset: nat): seq<TaskId> {
    if offset >= |order| then []
    else if offset + limit >= |order| then order[offset..]
    else order[offset..offset + limit]
  }

  function ListPage(order: seq<TaskId>, requested: int, token: Token): Result<Page, Failure> {
    if Skipped(token) < 0 then Err(Internal)
    else
      var size := PageSize(requested);
      var next := Skipped(token) + size;
      var after := if next < |order| then Offset(next) else NoToken;
      Ok(Page(Window(order, StoreLimit(size), Skipped(token)), after, |order|))
  }

  method ListTasksPage(order: seq<TaskId>, requested: int, token: Token, fault: bool) returns (r: Result<Page, Failure>)
    ensures r.Ok? <==> !fault && ListPage(order, requested, token).Ok?
    ensures r.Ok? ==> r == ListPage(order, requested, token)
    ensures r.Err? ==> r.error == Internal
    ensures var offset := if token.Offset? then token.value else 0;
            var size := if requested > 0 then requested else 20;
            var rows := if size > 100 then 20 else size;
            && (r.Ok? <==> !fault && offset >= 0)
            && (r.Ok? ==>
                  && r.value.total == |order|
                  && r.value.next == (if offset + size < |order| then Offset(offset + size) else NoToken)
                  && (offset >= |order| ==> r.value.rows == [])
                  && (offset < |order| <= offset + rows ==> r.value.rows == order[offset..])
                  && (offset + rows < |order| ==> r.value.rows == order[offset..offset + rows]))
  {
    var pageSize := 20;
    if requested > 0 {
      pageSize := requested;
    }
    var offset := if token.Offset? then token.value else 0;
    var listed := ListTasks(order, pageSize, offset, fault);
    if listed.Err? {
      return Err(Internal);
    }
    var next := NoToken;
    if offset + pageSize < listed.value.1 {
      next := Offset(offset + pageSize);
    }
    return Ok(Page(listed.value.0, next, listed.value.1));
  }

  /** Everything a client sees that follows the tokens from `token` on, until one is empty. */
  function Walk(order: seq<TaskId>, requested: int, token: Token): seq<TaskId>
    requires Skipped(token) >= 0
    decreases |order| - Skipped(token)
  {
    var page := ListPage(order, requested, token).value;
    if page.next == NoToken then page.rows else page.rows + Walk(order, requested, page.next)
  }

  /** Page sizes the store honours leave no gap. */
  lemma {:induction false} WalkCovers(order: seq<TaskId>, requested: int, token: Token)
    requires requested <= 100 && 0 <= Skipped(token) <= |order|
    ensures Walk(order, requested, token) == order[Skipped(token)..]
    decreases |order| - Skipped(token)
  {
    var page := ListPage(order, requested, token).value;
    if page.next != NoToken {
      WalkCovers(order, requested, page.next);
      assert order[Skipped(token)..] == order[Skipped(token)..Skipped(page.next)] + order[Skipped(page.next)..];
    }
  }

  /** A larger one skips the rest of every page. */
  lemma {:induction false} WalkSkips(order: seq<TaskId>, requested: int, token: Token)
    requires requested > 100 && 0 <= Skipped(token) <= |order|
    ensures |Walk(order, requested, token)| <= |order| - Skipped(token)
    ensures |order| - Skipped(token) > 20 ==> |Walk(order, requested, token)| < |order| - Skipped(token)
    decreases |order| - Skipped(token)
  {
    var page := ListPage(order, requested, token).value;
    if page.next != NoToken {
      WalkSkips(order, requested, page.next);
    }
  }

  /**
   Following the tokens from the first page shows exactly the listing, if and only if the requested page size is
   at most 100 or everything fits on the 20 rows the store falls back to.
   */
  lemma PagingIsComplete(order: seq<TaskId>, requested: int)
    ensures Walk(order, requested, NoToken) == order <==> requested <= 100 || |order| <= 20
  {
    if requested <= 100 {
      WalkCovers(order, requested, NoToken);
      assert order[0..] == order;
    } else {
      WalkSkips(order, requested, NoToken);
    }
  }

  /** So every matching task is shown, none twice, newest first. */
  lemma EveryMatchOnce(order: seq<TaskId>, tasks: map<TaskId, TaskRow>, f: Filter, requested: int)
    requires IsTaskListing(order, tasks, f) && requested <= 100
    ensures IsTaskListing(Walk(order, requested, NoToken), tasks, f)
    ensures var shown := Walk(order, requested, NoToken);
            && (forall i, j :: 0 <= i < j < |shown| ==> shown[i] != shown[j])
            && (forall id :: id in shown <==>
                  && id in tasks
                  && (f.gateway == "" || tasks[id].targetGateway == Some(f.gateway))
                  && (f.node == "" || tasks[id].targetNode == Some(f.node))
                  && (f.status == None || tasks[id].status == f.status.value)
                  && (f.kind == "" || tasks[id].kind == f.kind))
  {
    PagingIsComplete(order, requested);
  }
}
