/** The page contract of control-plane lists, and the client loop that collects a whole list page by page. */
module Paging {

  /** A response's data and its `pagination`. */
  datatype Page<T> = Page(rows: seq<T>, page: int, limit: int, total: int, totalPages: int)

  /** `Whole` is a response without `pagination`. */
  datatype Answer<T> = Listed(page: Page<T>) | Whole(rows: seq<T>) | Refused

  datatype Collected<T> = Collected(records: seq<T>) | Changed | Unavailable | Loading

  function TotalPages(total: nat, limit: int): int
    requires 1 <= limit
  {
    var pages := (total + limit - 1) / limit;
    if pages < 1 then 1 else pages
  }

  /** `controlListResponse`: refuses bad parameters, clamps the page number, slices the list. */
  method ListResponse<T>(data: seq<T>, limit: int, requested: int) returns (r: Answer<T>)
    ensures r == Refused || r.Listed?
    ensures r.Refused? <==> limit < 1 || limit > 100 || requested < 1
    ensures r.Listed? ==> r.page.limit == limit && r.page.total == |data| && r.page.totalPages == TotalPages(|data|, limit)
    ensures r.Listed? ==> r.page.page == (if requested > r.page.totalPages then r.page.totalPages else requested)
    ensures r.Listed? ==> r.page.rows == RowsOf(data, limit, r.page.page)
  {
    if limit < 1 || limit > 100 { return Refused; }
    if requested < 1 { return Refused; }
    var pageNumber := requested;
    var totalPages := TotalPages(|data|, limit);
    if pageNumber > totalPages { pageNumber := totalPages; }
    var start := (pageNumber - 1) * limit;
    OffsetIs(pageNumber, limit);
    PageBounds(|data|, limit, pageNumber);
    var end := if start + limit < |data| then start + limit else |data|;
    if start > |data| { start := |data|; }
    return Listed(Page(data[start..end], pageNumber, limit, |data|, totalPages));
  }

  /** At most `count` rows from position `from` on. */
  function Slice<T>(data: seq<T>, from: nat, count: nat): seq<T> {
    if from >= |data| then [] else if |data| <= from + count then data[from..] else data[from..from + count]
  }

  /** The position at which page `page` starts. */
  function Offset(page: int, limit: int): nat
    requires 1 <= limit && 1 <= page
    decreases page
  {
    if page == 1 then 0 else Offset(page - 1, limit) + limit
  }

  lemma {:induction false} OffsetIs(page: int, limit: int)
    requires 1 <= limit && 1 <= page
    ensures Offset(page, limit) == (page - 1) * limit
    decreases page
  {
    if page == 1 {
      assert 0 * limit == 0;
    } else {
      OffsetIs(page - 1, limit);
      Distribute(page - 1, limit);
    }
  }

  /** The rows of page `page` by position: those from (page - 1) * limit on, at most `limit` of them. */
  function RowsOf<T>(data: seq<T>, limit: int, page: int): seq<T>
    requires 1 <= limit && 1 <= page
  {
    Slice(data, Offset(page, limit), limit)
  }

  /** The pages before the last one are full, and the last one reaches the end. */
  lemma PageBounds(total: nat, limit: int, page: int)
    requires 1 <= limit && 1 <= page <= TotalPages(total, limit)
    ensures page * limit == (page - 1) * limit + limit
    ensures 0 <= (page - 1) * limit <= total
    ensures 0 < total ==> (page - 1) * limit < total
    ensures page < TotalPages(total, limit) ==> page * limit < total
    ensures total <= TotalPages(total, limit) * limit
  {
    var pages := (total + limit - 1) / limit;
    Ceiling(total, limit);
    Distribute(page, limit);
    Distribute(pages, limit);
    if page < pages { Monotone(page, pages - 1, limit); }
    if 1 <= pages { Monotone(page - 1, pages - 1, limit); }
    Monotone(0, page - 1, limit);
  }

  lemma Ceiling(total: nat, limit: int)
    requires 1 <= limit
    ensures var pages := (total + limit - 1) / limit; pages * limit <= total + limit - 1 < pages * limit + limit
  {}

  lemma Distribute(n: int, limit: int)
    ensures n * limit == (n - 1) * limit + limit
  {}

  lemma Monotone(a: int, b: int, limit: int)
    requires a <= b && 1 <= limit
    ensures a * limit <= b * limit
  {}

  function Pages<T>(data: seq<T>, limit: int, n: nat): seq<T>
    requires 1 <= limit
  {
    if n == 0 then [] else Pages(data, limit, n - 1) + RowsOf(data, limit, n)
  }

  lemma SliceExtends<T>(data: seq<T>, from: nat, count: nat)
    requires from <= |data|
    ensures data[..from] + Slice(data, from, count) == if from + count < |data| then data[..from + count] else data
  {}

  lemma {:induction false} PagesArePrefix<T>(data: seq<T>, limit: int, n: nat)
    requires 1 <= limit && n <= TotalPages(|data|, limit)
    ensures Pages(data, limit, n) == if n * limit < |data| then data[..n * limit] else data
  {
    if n == 0 {
      assert 0 * limit == 0;
    } else {
      PagesArePrefix(data, limit, n - 1);
      PageBounds(|data|, limit, n);
      OffsetIs(n, limit);
      SliceExtends(data, Offset(n, limit), limit);
    }
  }

  /** A page before the last one is not empty. */
  lemma NotEmpty<T>(data: seq<T>, limit: int, page: int)
    requires 1 <= limit && 1 <= page < TotalPages(|data|, limit)
    ensures RowsOf(data, limit, page) != []
  {
    PageBounds(|data|, limit, page);
    OffsetIs(page, limit);
  }

  /** Pages 1 to total_pages, one after the other, are the list: nothing missing, nothing twice, nothing out of order. */
  lemma PagesAreLossless<T>(data: seq<T>, limit: int)
    requires 1 <= limit
    ensures Pages(data, limit, TotalPages(|data|, limit)) == data
  {
    PagesArePrefix(data, limit, TotalPages(|data|, limit));
    PageBounds(|data|, limit, TotalPages(|data|, limit));
  }

  // ----- the client loop over a collection that may change between requests -----

  /** The records of the first `n` requests. Request `r`, counted from zero, asks for page `r + 1` and finds the
      collection as `snapshots[r]`. */
  function Served<T>(snapshots: seq<seq<T>>, limit: int, n: nat): seq<T>
    requires 1 <= limit && n <= |snapshots|
  {
    if n == 0 then [] else Served(snapshots, limit, n - 1) + RowsOf(snapshots[n - 1], limit, n)
  }

  /** The outcome after `n` requests that all found further pages. `Loading` is a load that has not seen more snapshots. */
  function Outcome<T>(snapshots: seq<seq<T>>, limit: int, n: nat): Collected<T>
    requires 1 <= limit && n <= |snapshots|
    decreases |snapshots| - n
  {
    if n == |snapshots| then Loading
    else
      var pages := TotalPages(|snapshots[n]|, limit);
      if pages < n + 1 then Changed
      else if pages == n + 1 then Collected(Served(snapshots, limit, n + 1))
      else Outcome(snapshots, limit, n + 1)
  }

  /** `controlPlaneCollection`, with one snapshot of the collection per request. A collection without `pagination` comes
      whole with the first response. */
  method ControlPlaneCollection<T>(snapshots: seq<seq<T>>, paginated: bool, firstLimit: int) returns (r: Collected<T>)
    ensures r == if snapshots == [] then Loading
      else if !paginated then Collected(snapshots[0])
      else if 1 <= firstLimit <= 100 then Outcome(snapshots, firstLimit, 0) else Unavailable
  {
    var records: seq<T> := [];
    var page, limit := 1, firstLimit;
    while page <= |snapshots|
      invariant limit == firstLimit && 1 <= page <= |snapshots| + 1 && (page > 1 ==> paginated && 1 <= limit <= 100)
      invariant page == 1 ==> records == []
      invariant 1 <= limit <= 100 ==> records == Served(snapshots, limit, page - 1)
      invariant 1 <= limit <= 100 ==> Outcome(snapshots, limit, 0) == Outcome(snapshots, limit, page - 1)
    {
      var result := Whole(snapshots[page - 1]);
      if paginated { result := ListResponse(snapshots[page - 1], limit, page); }
      if result.Refused? { return Unavailable; }
      if result.Listed? && result.page.page != page { return Changed; }
      records := records + if result.Listed? then result.page.rows else result.rows;
      if result.Whole? || page >= result.page.totalPages { return Collected(records); }
      NotEmpty(snapshots[page - 1], limit, page);
      if result.page.rows == [] { return Changed; }
      page, limit := page + 1, result.page.limit;
    }
    return Loading;
  }

  /** Request `r` finds that there are further pages. */
  predicate FindsMore<T>(snapshots: seq<seq<T>>, limit: int, r: nat) {
    1 <= limit && r < |snapshots| && r + 1 < TotalPages(|snapshots[r]|, limit)
  }

  /** The load ends with its `n`th request: every earlier one found further pages, and the last found none. */
  predicate Completes<T>(snapshots: seq<seq<T>>, limit: int, n: nat) {
    && 1 <= limit && 1 <= n <= |snapshots| && TotalPages(|snapshots[n - 1]|, limit) == n
    && forall r: nat :: r < n - 1 ==> FindsMore(snapshots, limit, r)
  }

  lemma {:induction false} CompletesFrom<T>(snapshots: seq<seq<T>>, limit: int, n: nat, k: nat)
    requires Completes(snapshots, limit, n) && k < n
    ensures Outcome(snapshots, limit, k) == Collected(Served(snapshots, limit, n))
    decreases n - k
  {
    if k == n - 1 {
    } else {
      assert FindsMore(snapshots, limit, k);
      CompletesFrom(snapshots, limit, n, k + 1);
    }
  }

  lemma {:induction false} CollectedAt<T>(snapshots: seq<seq<T>>, limit: int, k: nat) returns (n: nat)
    requires 1 <= limit && k <= |snapshots| && Outcome(snapshots, limit, k).Collected?
    requires forall r: nat :: r < k ==> FindsMore(snapshots, limit, r)
    ensures Completes(snapshots, limit, n)
    decreases |snapshots| - k
  {
    if TotalPages(|snapshots[k]|, limit) == k + 1 { n := k + 1; } else { n := CollectedAt(snapshots, limit, k + 1); }
  }

  /** A list is returned exactly when some request finds its page to be the last one and all earlier requests found more
      to come; it is what those requests served. */
  lemma CollectsExactly<T>(snapshots: seq<seq<T>>, limit: int, records: seq<T>)
    requires 1 <= limit
    ensures Outcome(snapshots, limit, 0) == Collected(records) <==>
      exists n: nat :: Completes(snapshots, limit, n) && records == Served(snapshots, limit, n)
  {
    forall n: nat | Completes(snapshots, limit, n) ensures Outcome(snapshots, limit, 0) == Collected(Served(snapshots, limit, n)) {
      CompletesFrom(snapshots, limit, n, 0);
    }
    if Outcome(snapshots, limit, 0).Collected? {
      var n := CollectedAt(snapshots, limit, 0);
      CompletesFrom(snapshots, limit, n, 0);
    }
  }

  /** A collection that does not change while it is loaded is returned whole and in order. */
  lemma UnchangedIsCollected<T>(snapshots: seq<seq<T>>, data: seq<T>, limit: int)
    requires 1 <= limit && TotalPages(|data|, limit) <= |snapshots| && forall r :: 0 <= r < |snapshots| ==> snapshots[r] == data
    ensures Outcome(snapshots, limit, 0) == Collected(data)
  {
    var n := TotalPages(|data|, limit);
    CompletesFrom(snapshots, limit, n, 0);
    ServedUnchanged(snapshots, data, limit, n);
    PagesAreLossless(data, limit);
  }

  lemma {:induction false} ServedUnchanged<T>(snapshots: seq<seq<T>>, data: seq<T>, limit: int, n: nat)
    requires 1 <= limit && n <= |snapshots| && forall r :: 0 <= r < |snapshots| ==> snapshots[r] == data
    ensures Served(snapshots, limit, n) == Pages(data, limit, n)
  {
    if n == 0 {
    } else {
      ServedUnchanged(snapshots, data, limit, n - 1);
    }
  }

  // ----- which records are lost -----

  /** Position `i` is on the page that request `r` asks for. */
  predicate Asked(i: int, r: nat, limit: int)
    requires 1 <= limit
  {
    Offset(r + 1, limit) <= i < Offset(r + 1, limit) + limit
  }

  lemma AskedIs(i: int, r: nat, limit: int)
    requires 1 <= limit
    ensures Asked(i, r, limit) <==> r * limit <= i < r * limit + limit
  {
    OffsetIs(r + 1, limit);
  }

  predicate Found<T(==)>(data: seq<T>, limit: int, r: nat, x: T)
    requires 1 <= limit
  {
    exists i :: 0 <= i < |data| && data[i] == x && Asked(i, r, limit)
  }

  /** One of the first `n` requests finds `x`. */
  predicate FoundBy<T(==)>(snapshots: seq<seq<T>>, limit: int, n: nat, x: T)
    requires 1 <= limit && n <= |snapshots|
  {
    n > 0 && (Found(snapshots[n - 1], limit, n - 1, x) || FoundBy(snapshots, limit, n - 1, x))
  }

  lemma {:induction false} FoundByExactly<T>(snapshots: seq<seq<T>>, limit: int, n: nat, x: T)
    requires 1 <= limit && n <= |snapshots|
    ensures FoundBy(snapshots, limit, n, x) <==> exists r: nat :: r < n && Found(snapshots[r], limit, r, x)
  {
    if n == 0 {
    } else {
      FoundByExactly(snapshots, limit, n - 1, x);
    }
  }

  lemma {:induction false} ServedFound<T>(snapshots: seq<seq<T>>, limit: int, n: nat, x: T)
    requires 1 <= limit && n <= |snapshots|
    ensures x in Served(snapshots, limit, n) <==> FoundBy(snapshots, limit, n, x)
  {
    if n == 0 {
    } else {
      ServedFound(snapshots, limit, n - 1, x);
      ServedNext(snapshots, limit, n - 1, x);
    }
  }

  lemma ServedNext<T>(snapshots: seq<seq<T>>, limit: int, n: nat, x: T)
    requires 1 <= limit && n < |snapshots| && (x in Served(snapshots, limit, n) <==> FoundBy(snapshots, limit, n, x))
    ensures x in Served(snapshots, limit, n + 1) <==> FoundBy(snapshots, limit, n + 1, x)
  {
    RowsExactly(snapshots[n], limit, n, x);
    InEither(Served(snapshots, limit, n), RowsOf(snapshots[n], limit, n + 1), x);
  }

  /** A record is collected exactly when some request finds it at a position of the page it asks for. */
  lemma ServedExactly<T>(snapshots: seq<seq<T>>, limit: int, n: nat, x: T)
    requires 1 <= limit && n <= |snapshots|
    ensures x in Served(snapshots, limit, n) <==> exists r: nat :: r < n && Found(snapshots[r], limit, r, x)
  {
    ServedFound(snapshots, limit, n, x);
    FoundByExactly(snapshots, limit, n, x);
  }

  lemma RowsExactly<T>(data: seq<T>, limit: int, r: nat, x: T)
    requires 1 <= limit
    ensures x in RowsOf(data, limit, r + 1) <==> Found(data, limit, r, x)
  {
    SliceExactly(data, Offset(r + 1, limit), limit, x);
  }

  lemma SliceExactly<T>(data: seq<T>, from: nat, count: nat, x: T)
    ensures x in Slice(data, from, count) <==> exists i :: from <= i < from + count && i < |data| && data[i] == x
  {
    var rows := Slice(data, from, count);
    assert forall j :: 0 <= j < |rows| ==> rows[j] == data[from + j];
    forall i | from <= i < from + count && i < |data| ensures data[i] in rows { assert rows[i - from] == data[i]; }
  }

  lemma InEither<T>(a: seq<T>, b: seq<T>, x: T)
    ensures x in a + b <==> x in a || x in b
  {}

  /** Record `x` is in each of the first `n` snapshots, once, at the positions `at`. */
  predicate Stays<T(==)>(snapshots: seq<seq<T>>, n: nat, x: T, at: seq<nat>) {
    && n <= |snapshots| && |at| == n
    && forall r :: 0 <= r < n ==>
         at[r] < |snapshots[r]| && forall i :: 0 <= i < |snapshots[r]| ==> (snapshots[r][i] == x <==> i == at[r])
  }

  /** Between request `r` and the next the record moves from what is still to be fetched to what no longer is. */
  predicate Skips(at: seq<nat>, limit: int, r: nat) {
    r + 1 < |at| && r * limit + limit <= at[r] && at[r + 1] < r * limit + limit
  }

  /** Between request `r` and the next the record moves the other way. */
  predicate Returns(at: seq<nat>, limit: int, r: nat) {
    r + 1 < |at| && at[r] < r * limit + limit && r * limit + limit <= at[r + 1]
  }

  lemma StaysServed<T>(snapshots: seq<seq<T>>, limit: int, n: nat, x: T, at: seq<nat>)
    requires 1 <= limit && Stays(snapshots, n, x, at)
    ensures x in Served(snapshots, limit, n) <==> exists r: nat :: r < n && Asked(at[r], r, limit)
  {
    ServedExactly(snapshots, limit, n, x);
    forall r: nat | r < n ensures Found(snapshots[r], limit, r, x) <==> Asked(at[r], r, limit) {}
  }

  /** A record that is there throughout and yet is not collected has skipped, whatever else happens to the collection. */
  lemma LostHasSkipped<T>(snapshots: seq<seq<T>>, limit: int, n: nat, x: T, at: seq<nat>)
    requires Completes(snapshots, limit, n) && Stays(snapshots, n, x, at) && x !in Served(snapshots, limit, n)
    ensures exists r: nat :: Skips(at, limit, r)
  {
    StaysServed(snapshots, limit, n, x, at);
    PageBounds(|snapshots[n - 1]|, limit, n);
    var r := FirstPassed(at, limit, n - 1);
    assert !Asked(at[r], r, limit);
    AskedIs(at[r], r, limit);
    if r == 0 {
      assert false;
    } else {
      Distribute(r, limit);
      assert Skips(at, limit, r - 1);
    }
  }

  /** The first request by which the record is no longer still to be fetched. */
  lemma {:induction false} FirstPassed(at: seq<nat>, limit: int, last: nat) returns (r: nat)
    requires 1 <= limit && last < |at| && at[last] < last * limit + limit
    ensures r <= last && at[r] < r * limit + limit && (r > 0 ==> (r - 1) * limit + limit <= at[r - 1])
  {
    if last == 0 || (last - 1) * limit + limit <= at[last - 1] { r := last; } else { r := FirstPassed(at, limit, last - 1); }
  }

  /** When a record that has been passed does not return, it is lost exactly when it skips. */
  lemma LostExactly<T>(snapshots: seq<seq<T>>, limit: int, n: nat, x: T, at: seq<nat>)
    requires Completes(snapshots, limit, n) && Stays(snapshots, n, x, at) && forall r: nat :: !Returns(at, limit, r)
    ensures x !in Served(snapshots, limit, n) <==> exists r: nat :: Skips(at, limit, r)
  {
    StaysServed(snapshots, limit, n, x, at);
    if r: nat :| Skips(at, limit, r) {
      forall q: nat | q < n ensures !Asked(at[q], q, limit) {
        AskedIs(at[q], q, limit);
        if q <= r { StillAhead(at, limit, q, r); } else { StaysBehind(at, limit, r, q); }
      }
    } else if x !in Served(snapshots, limit, n) {
      LostHasSkipped(snapshots, limit, n, x, at);
    }
  }

  lemma {:induction false} StillAhead(at: seq<nat>, limit: int, q: nat, r: nat)
    requires 1 <= limit && q <= r < |at| && r * limit + limit <= at[r] && forall i: nat :: !Returns(at, limit, i)
    ensures q * limit + limit <= at[q]
    decreases r - q
  {
    if q == r {
    } else {
      StillAhead(at, limit, q + 1, r);
      Distribute(q + 1, limit);
      assert !Returns(at, limit, q);
    }
  }

  lemma {:induction false} StaysBehind(at: seq<nat>, limit: int, r: nat, q: nat)
    requires 1 <= limit && Skips(at, limit, r) && r < q < |at| && forall i: nat :: !Returns(at, limit, i)
    ensures at[q] < q * limit
    decreases q
  {
    Distribute(q, limit);
    if q == r + 1 {
    } else {
      StaysBehind(at, limit, r, q - 1);
      assert !Returns(at, limit, q - 1);
    }
  }

  /** Removals alone: positions never grow, and what is lost is exactly what skips. */
  lemma RemovalsLoseExactly<T>(snapshots: seq<seq<T>>, limit: int, n: nat, x: T, at: seq<nat>)
    requires Completes(snapshots, limit, n) && Stays(snapshots, n, x, at)
    requires forall r: nat :: r + 1 < n ==> at[r + 1] <= at[r]
    ensures x !in Served(snapshots, limit, n) <==> exists r: nat :: Skips(at, limit, r)
  {
    forall r: nat ensures !Returns(at, limit, r) {}
    LostExactly(snapshots, limit, n, x, at);
  }

  /** Insertions alone: positions never shrink, and no record that was there from the start is lost. */
  lemma InsertionsLoseNothing<T>(snapshots: seq<seq<T>>, limit: int, n: nat, x: T, at: seq<nat>)
    requires Completes(snapshots, limit, n) && Stays(snapshots, n, x, at)
    requires forall r: nat :: r + 1 < n ==> at[r] <= at[r + 1]
    ensures x in Served(snapshots, limit, n)
  {
    if x !in Served(snapshots, limit, n) {
      LostHasSkipped(snapshots, limit, n, x, at);
      assert false;
    }
  }

  // ----- runs of the loop -----

  /** The loop ends without error although it has lost a record that both snapshots hold: one before it was removed
      between the two requests. */
  lemma RemovalLosesRecord()
    ensures Outcome([[10, 20, 30, 40], [20, 30, 40]], 2, 0) == Collected([10, 20, 40])
    ensures Stays([[10, 20, 30, 40], [20, 30, 40]], 2, 30, [2, 1]) && Skips([2, 1], 2, 0)
  {
    var s := [[10, 20, 30, 40], [20, 30, 40]];
    assert RowsOf(s[0], 2, 1) == [10, 20] && RowsOf(s[1], 2, 2) == [40];
    assert Served(s, 2, 1) == Served(s, 2, 0) + [10, 20] == [10, 20];
    assert FindsMore(s, 2, 0) && Completes(s, 2, 2);
    CompletesFrom(s, 2, 2, 0);
  }

  /** A skip alone need not lose anything: two records skip here, and every record is collected all the same. */
  lemma SkipsWithoutLoss()
    ensures Outcome([[10, 20, 30], [30, 20, 10], [10, 20, 30]], 1, 0) == Collected([10, 20, 30])
    ensures Stays([[10, 20, 30], [30, 20, 10], [10, 20, 30]], 3, 10, [0, 2, 0]) && Skips([0, 2, 0], 1, 1)
    ensures Stays([[10, 20, 30], [30, 20, 10], [10, 20, 30]], 3, 30, [2, 0, 2]) && Skips([2, 0, 2], 1, 0)
  {
    var s := [[10, 20, 30], [30, 20, 10], [10, 20, 30]];
    assert RowsOf(s[0], 1, 1) == [10] && RowsOf(s[1], 1, 2) == [20] && RowsOf(s[2], 1, 3) == [30];
    assert Served(s, 1, 1) == Served(s, 1, 0) + [10] == [10];
    assert Served(s, 1, 2) == [10, 20];
    assert FindsMore(s, 1, 0) && FindsMore(s, 1, 1) && Completes(s, 1, 3);
    CompletesFrom(s, 1, 3, 0);
  }
}
