/** The periodic sweep of scraper/analysis.py,
    `remove_documents_with_negative_keywords`: every stored document whose title
    or description holds a negative keyword is deleted, in batches of 100. */
module Sweep {
  import opened Wrappers
  import opened Keywords
  import opened Models
  import opened Enrichment

  /** `batch_size` of `remove_documents_with_negative_keywords`. */
  const BatchSize: nat := 100

  /** The sweep's screen of a stored row; a null description reads as "". */
  predicate RowIsNegative(d: Document, kws: seq<string>)
  {
    HasNegativeKeyword(kws, d.title, d.description.GetOr(""))
  }

  /** The links of the flagged rows, in the order the query lists the rows. */
  function Flagged(order: seq<string>, rows: map<string, Document>, kws: seq<string>): (r: seq<string>)
    ensures |r| <= |order|
    ensures forall l :: l in r ==> l in rows && RowIsNegative(rows[l], kws)
  {
    if order == [] then []
    else
      var l := order[|order| - 1];
      var prev := Flagged(order[..|order| - 1], rows, kws);
      if l in rows && RowIsNegative(rows[l], kws) then prev + [l] else prev
  }

  lemma {:induction false} FlaggedWithin(order: seq<string>, rows: map<string, Document>, kws: seq<string>)
    ensures forall l :: l in Flagged(order, rows, kws) ==> l in order
  {
    if order != [] {
      FlaggedWithin(order[..|order| - 1], rows, kws);
      assert forall l :: l in order[..|order| - 1] ==> l in order;
    }
  }

  lemma {:induction false} FlaggedComplete(order: seq<string>, rows: map<string, Document>, kws: seq<string>)
    ensures forall l :: l in order && l in rows && RowIsNegative(rows[l], kws) ==> l in Flagged(order, rows, kws)
  {
    if order != [] {
      var init := order[..|order| - 1];
      FlaggedComplete(init, rows, kws);
      forall l | l in order && l in rows && RowIsNegative(rows[l], kws)
        ensures l in Flagged(order, rows, kws)
      {
        if l != order[|order| - 1] {
          var i :| 0 <= i < |order| && order[i] == l;
          assert init[i] == l;
        }
      }
    }
  }

  lemma {:induction false} FlaggedDistinct(order: seq<string>, rows: map<string, Document>, kws: seq<string>)
    requires Distinct(order)
    ensures Distinct(Flagged(order, rows, kws))
  {
    if order != [] {
      var init := order[..|order| - 1];
      FlaggedDistinct(init, rows, kws);
      FlaggedWithin(init, rows, kws);
      assert order[|order| - 1] !in init;
    }
  }

  lemma FlaggedSnoc(order: seq<string>, k: nat, rows: map<string, Document>, kws: seq<string>)
    requires k < |order|
    ensures Flagged(order[..k + 1], rows, kws) ==
            if order[k] in rows && RowIsNegative(rows[order[k]], kws) then Flagged(order[..k], rows, kws) + [order[k]]
            else Flagged(order[..k], rows, kws)
  {
    assert order[..k + 1][..k] == order[..k];
  }

  lemma {:induction false} FlaggedAppend(a: seq<string>, b: seq<string>, rows: map<string, Document>, kws: seq<string>)
    ensures Flagged(a + b, rows, kws) == Flagged(a, rows, kws) + Flagged(b, rows, kws)
    decreases |b|
  {
    if b == [] {
      assert a + b == a;
    } else {
      var b' := b[..|b| - 1];
      assert (a + b)[..|a + b| - 1] == a + b';
      FlaggedAppend(a, b', rows, kws);
    }
  }

  /** The first bulk delete that raises, among the batches of a list of `count` links. */
  function FirstFailingBatch(fails: nat -> bool, count: nat, b: nat): (r: Option<nat>)
    ensures r.Some? ==> b <= r.value && BatchSize * r.value < count && fails(r.value)
    decreases count - BatchSize * b
  {
    if BatchSize * b >= count then None
    else if fails(b) then Some(b)
    else FirstFailingBatch(fails, count, b + 1)
  }

  lemma {:induction false} NoFailingBatch(fails: nat -> bool, count: nat, b: nat, n: nat)
    requires b <= n && BatchSize * n >= count
    requires forall c :: b <= c < n ==> !fails(c)
    ensures FirstFailingBatch(fails, count, b) == None
    decreases n - b
  {
    if BatchSize * b < count {
      NoFailingBatch(fails, count, b + 1, n);
    }
  }

  lemma {:induction false} FailingBatchAt(fails: nat -> bool, count: nat, b: nat, n: nat)
    requires b <= n && BatchSize * n < count && fails(n)
    requires forall c :: b <= c < n ==> !fails(c)
    ensures FirstFailingBatch(fails, count, b) == Some(n)
    decreases n - b
  {
    if b < n {
      FailingBatchAt(fails, count, b + 1, n);
    }
  }

  /** None of the first `n` bulk deletes raises. */
  predicate NoneFailBefore(fails: nat -> bool, n: nat)
  {
    forall c: nat :: c < n ==> !fails(c)
  }

  lemma NoneFailExtend(fails: nat -> bool, n: nat)
    requires NoneFailBefore(fails, n) && !fails(n)
    ensures NoneFailBefore(fails, n + 1)
  {
  }

  function ToSet(s: seq<string>): set<string>
  {
    set x | x in s
  }

  datatype SweepResult = SweepResult(rows: map<string, Document>, removed: nat)

  /** The sweep over the rows listed in `order`: the flagged links are deleted in
      consecutive batches of `BatchSize`; when a bulk delete raises, the batches
      before it stay deleted and the sweep reports 0. */
  function SweepOf(rows: map<string, Document>, order: seq<string>, kws: seq<string>, fails: nat -> bool): SweepResult
  {
    var f := Flagged(order, rows, kws);
    match FirstFailingBatch(fails, |f|, 0)
    case None => SweepResult(rows - ToSet(f), |f|)
    case Some(b) => SweepResult(rows - ToSet(f[..BatchSize * b]), 0)
  }

  /** The sweep when batch `b` is the first whose delete raises: the batches
      before it, `done`, are gone. */
  lemma SweepStopsAt(rows: map<string, Document>, order: seq<string>, kws: seq<string>, fails: nat -> bool,
                     k: nat, done: seq<string>, b: nat)
    requires k <= |order|
    requires |done| == BatchSize * b && done < Flagged(order[..k], rows, kws)
    requires fails(b) && NoneFailBefore(fails, b)
    ensures SweepOf(rows, order, kws, fails) == SweepResult(rows - ToSet(done), 0)
  {
    var fk := Flagged(order[..k], rows, kws);
    assert order == order[..k] + order[k..];
    FlaggedAppend(order[..k], order[k..], rows, kws);
    var f := Flagged(order, rows, kws);
    FailingBatchAt(fails, |f|, 0, b);
    assert f[..BatchSize * b] == done;
  }

  /** The sweep when no bulk delete raises. */
  lemma SweepCompletes(rows: map<string, Document>, order: seq<string>, kws: seq<string>, fails: nat -> bool, n: nat)
    requires BatchSize * n >= |Flagged(order, rows, kws)|
    requires NoneFailBefore(fails, n)
    ensures var f := Flagged(order, rows, kws);
            SweepOf(rows, order, kws, fails) == SweepResult(rows - ToSet(f), |f|)
  {
    NoFailingBatch(fails, |Flagged(order, rows, kws)|, 0, n);
  }

  lemma ToSetAppend(a: seq<string>, b: seq<string>)
    ensures ToSet(a + b) == ToSet(a) + ToSet(b)
  {
  }

  /** A link not yet visited is not among the flagged links seen so far. */
  lemma NotYetFlagged(order: seq<string>, k: nat, rows: map<string, Document>, kws: seq<string>)
    requires Distinct(order) && k < |order|
    ensures order[k] !in Flagged(order[..k], rows, kws)
  {
    FlaggedWithin(order[..k], rows, kws);
  }

  lemma ToSetDelete(rows: map<string, Document>, done: seq<string>, batch: seq<string>)
    ensures rows - ToSet(done) - ToSet(batch) == rows - ToSet(done + batch)
  {
    ToSetAppend(done, batch);
  }

  /** Visiting one more row extends the pending batch when the row is flagged. */
  lemma FlaggedStep(order: seq<string>, k: nat, rows: map<string, Document>, kws: seq<string>,
                    done: seq<string>, batch: seq<string>)
    requires k < |order| && order[k] in rows
    requires Flagged(order[..k], rows, kws) == done + batch
    ensures Flagged(order[..k + 1], rows, kws) ==
            if RowIsNegative(rows[order[k]], kws) then done + (batch + [order[k]]) else done + batch
  {
    FlaggedSnoc(order, k, rows, kws);
    assert (done + batch) + [order[k]] == done + (batch + [order[k]]);
  }

  /** The screen of one stored row, with a null description read as "". */
  method ScreenRow(store: DocumentStore, link: string, kws: seq<string>) returns (negative: bool)
    requires link in store.rows
    ensures negative == RowIsNegative(store.rows[link], kws)
  {
    var d := store.rows[link];
    negative := ContainsNegativeKeywords(kws, d.title, d.description.GetOr(""));
  }

  /** One bulk delete, `filter(link__in=batch).delete()`, the `b`-th of the
      sweep; `fails(b)` says whether it raises, and then nothing is deleted. */
  method DeleteBatch(store: DocumentStore, batch: seq<string>, b: nat, fails: nat -> bool) returns (ok: bool)
    requires store.Valid()
    modifies store
    ensures store.Valid()
    ensures ok == !fails(b)
    ensures store.rows == if ok then old(store.rows) - ToSet(batch) else old(store.rows)
  {
    ok := !fails(b);
    if ok {
      store.DeleteAll(ToSet(batch));
    }
  }

  /** The sweep's state after visiting the first `k` rows of `order`: the
      flagged links seen so far are the `batchNo` deleted batches, `done`, then
      the pending batch; the table lost exactly `done`. */
  ghost predicate Progress(rows: map<string, Document>, order: seq<string>, kws: seq<string>, fails: nat -> bool,
                           k: nat, done: seq<string>, batch: seq<string>, batchNo: nat, current: map<string, Document>)
  {
    k <= |order|
    && Flagged(order[..k], rows, kws) == done + batch
    && |done| == BatchSize * batchNo
    && |batch| < BatchSize
    && current == rows - ToSet(done)
    && NoneFailBefore(fails, batchNo)
  }

  /** `remove_documents_with_negative_keywords()`. The query lists every row
      once, in `order`; `bulkDeleteFails(b)` says whether the bulk delete of the
      `b`-th batch raises, which makes the sweep report 0. */
  method RemoveDocumentsWithNegativeKeywords(store: DocumentStore, cache: KeywordCache, order: seq<string>,
                                             stored: Option<seq<string>>, bulkDeleteFails: nat -> bool)
    returns (totalRemoved: nat)
    requires store.Valid()
    requires forall l :: l in store.rows <==> l in order
    requires Distinct(order)
    modifies store, cache
    ensures store.Valid()
    ensures order == [] ==> cache.cached == old(cache.cached)
    ensures order != [] ==> cache.cached == Some(CachedKeywords(old(cache.cached), stored))
    ensures var r := SweepOf(old(store.rows), order, CachedKeywords(old(cache.cached), stored), bulkDeleteFails);
            store.rows == r.rows && totalRemoved == r.removed
  {
    // The keywords are first asked for when the first row is screened.
    var kws := CachedKeywords(cache.cached, stored);
    if order != [] {
      kws := cache.Get(stored);
    }
    totalRemoved := SweepRows(store, order, kws, bulkDeleteFails);
  }

  /** The loop of `remove_documents_with_negative_keywords` over the rows,
      screening with `kws`. */
  method SweepRows(store: DocumentStore, order: seq<string>, kws: seq<string>, bulkDeleteFails: nat -> bool)
    returns (totalRemoved: nat)
    requires store.Valid()
    requires forall l :: l in store.rows <==> l in order
    requires Distinct(order)
    modifies store
    ensures store.Valid()
    ensures var r := SweepOf(old(store.rows), order, kws, bulkDeleteFails);
            store.rows == r.rows && totalRemoved == r.removed
  {
    ghost var rows := store.rows;
    var toDeleteIds: seq<string> := [];
    var batchNo: nat := 0;
    ghost var done: seq<string> := [];
    for k := 0 to |order|
      invariant store.Valid()
      invariant Progress(rows, order, kws, bulkDeleteFails, k, done, toDeleteIds, batchNo, store.rows)
    {
      assert order[k] in store.rows by {
        NotYetFlagged(order, k, rows, kws);
        assert order[k] !in done;
      }
      var stop;
      stop, done, toDeleteIds, batchNo := VisitRow(store, order, k, kws, bulkDeleteFails, rows, done, toDeleteIds, batchNo);
      if stop {
        return 0;
      }
    }
    totalRemoved := DeleteLastBatch(store, order, kws, bulkDeleteFails, rows, done, toDeleteIds, batchNo);
  }

  /** One pass of the sweep's loop: the `k`-th row is screened and, when
      flagged, added to the pending batch, which is deleted once it holds
      `BatchSize` links; `stop` is the delete raising. */
  method VisitRow(store: DocumentStore, order: seq<string>, k: nat, kws: seq<string>, fails: nat -> bool,
                  ghost rows: map<string, Document>, ghost done: seq<string>, toDeleteIds: seq<string>, batchNo: nat)
    returns (stop: bool, ghost done': seq<string>, toDeleteIds': seq<string>, batchNo': nat)
    requires store.Valid() && k < |order| && order[k] in store.rows
    requires Progress(rows, order, kws, fails, k, done, toDeleteIds, batchNo, store.rows)
    modifies store
    ensures store.Valid()
    ensures stop ==> store.rows == SweepOf(rows, order, kws, fails).rows && SweepOf(rows, order, kws, fails).removed == 0
    ensures !stop ==> Progress(rows, order, kws, fails, k + 1, done', toDeleteIds', batchNo', store.rows)
  {
    var link := order[k];
    var negative := ScreenRow(store, link, kws);
    stop, done', toDeleteIds', batchNo' := false, done, toDeleteIds, batchNo;
    if !negative {
      ProgressSkips(rows, order, kws, fails, k, done, toDeleteIds, batchNo, store.rows);
      return;
    }
    toDeleteIds' := toDeleteIds + [link];
    if |toDeleteIds'| < BatchSize {
      ProgressPends(rows, order, kws, fails, k, done, toDeleteIds, batchNo, store.rows);
      return;
    }
    var ok := DeleteBatch(store, toDeleteIds', batchNo, fails);
    if !ok {
      ProgressStops(rows, order, kws, fails, k, done, toDeleteIds, batchNo, store.rows);
      return true, done, toDeleteIds', batchNo;
    }
    ProgressFlushes(rows, order, kws, fails, k, done, toDeleteIds, batchNo, old(store.rows));
    done' := done + toDeleteIds';
    toDeleteIds' := [];
    batchNo' := batchNo + 1;
  }

  /** A row that is not flagged leaves the pending batch as it is. */
  lemma ProgressSkips(rows: map<string, Document>, order: seq<string>, kws: seq<string>, fails: nat -> bool,
                      k: nat, done: seq<string>, batch: seq<string>, batchNo: nat, current: map<string, Document>)
    requires k < |order| && order[k] in current
    requires Progress(rows, order, kws, fails, k, done, batch, batchNo, current)
    requires !RowIsNegative(current[order[k]], kws)
    ensures Progress(rows, order, kws, fails, k + 1, done, batch, batchNo, current)
  {
    FlaggedStep(order, k, rows, kws, done, batch);
  }

  /** A flagged row joins the pending batch while it stays short of `BatchSize`. */
  lemma ProgressPends(rows: map<string, Document>, order: seq<string>, kws: seq<string>, fails: nat -> bool,
                      k: nat, done: seq<string>, batch: seq<string>, batchNo: nat, current: map<string, Document>)
    requires k < |order| && order[k] in current
    requires Progress(rows, order, kws, fails, k, done, batch, batchNo, current)
    requires RowIsNegative(current[order[k]], kws) && |batch + [order[k]]| < BatchSize
    ensures Progress(rows, order, kws, fails, k + 1, done, batch + [order[k]], batchNo, current)
  {
    FlaggedStep(order, k, rows, kws, done, batch);
  }

  /** A full batch whose bulk delete raises ends the sweep, reporting 0. */
  lemma ProgressStops(rows: map<string, Document>, order: seq<string>, kws: seq<string>, fails: nat -> bool,
                      k: nat, done: seq<string>, batch: seq<string>, batchNo: nat, current: map<string, Document>)
    requires k < |order| && order[k] in current
    requires Progress(rows, order, kws, fails, k, done, batch, batchNo, current)
    requires RowIsNegative(current[order[k]], kws) && |batch + [order[k]]| >= BatchSize && fails(batchNo)
    ensures current == SweepOf(rows, order, kws, fails).rows && SweepOf(rows, order, kws, fails).removed == 0
  {
    var full := batch + [order[k]];
    assert order[k] !in ToSet(done) && current[order[k]] == rows[order[k]];
    FlaggedStep(order, k, rows, kws, done, batch);
    assert Flagged(order[..k + 1], rows, kws) == done + full;
    ProperPrefix(done, full);
    SweepStopsAt(rows, order, kws, fails, k + 1, done, batchNo);
  }

  lemma ProperPrefix(a: seq<string>, b: seq<string>)
    requires b != []
    ensures a < a + b
  {
    assert (a + b)[..|a|] == a;
  }

  /** A full batch that is deleted joins the deleted links and empties the
      pending batch. */
  lemma ProgressFlushes(rows: map<string, Document>, order: seq<string>, kws: seq<string>, fails: nat -> bool,
                        k: nat, done: seq<string>, batch: seq<string>, batchNo: nat, current: map<string, Document>)
    requires k < |order| && order[k] in current
    requires Progress(rows, order, kws, fails, k, done, batch, batchNo, current)
    requires RowIsNegative(current[order[k]], kws) && |batch + [order[k]]| >= BatchSize && !fails(batchNo)
    ensures Progress(rows, order, kws, fails, k + 1, done + (batch + [order[k]]), [], batchNo + 1,
                     current - ToSet(batch + [order[k]]))
  {
    FlaggedStep(order, k, rows, kws, done, batch);
    NoneFailExtend(fails, batchNo);
    ToSetDelete(rows, done, batch + [order[k]]);
    assert done + (batch + [order[k]]) + [] == done + (batch + [order[k]]);
  }

  /** The end of the sweep: what is left in the pending batch is deleted. */
  method DeleteLastBatch(store: DocumentStore, order: seq<string>, kws: seq<string>, bulkDeleteFails: nat -> bool,
                         ghost rows: map<string, Document>, ghost done: seq<string>, toDeleteIds: seq<string>, batchNo: nat)
    returns (totalRemoved: nat)
    requires store.Valid()
    requires Progress(rows, order, kws, bulkDeleteFails, |order|, done, toDeleteIds, batchNo, store.rows)
    modifies store
    ensures store.Valid()
    ensures var r := SweepOf(rows, order, kws, bulkDeleteFails);
            store.rows == r.rows && totalRemoved == r.removed
  {
    assert order[..|order|] == order;
    if toDeleteIds == [] {
      assert done + toDeleteIds == done;
      SweepCompletes(rows, order, kws, bulkDeleteFails, batchNo);
      return BatchSize * batchNo;
    }
    var ok := DeleteBatch(store, toDeleteIds, batchNo, bulkDeleteFails);
    if !ok {
      SweepStopsAt(rows, order, kws, bulkDeleteFails, |order|, done, batchNo);
      return 0;
    }
    ToSetDelete(rows, done, toDeleteIds);
    NoneFailExtend(bulkDeleteFails, batchNo);
    SweepCompletes(rows, order, kws, bulkDeleteFails, batchNo + 1);
    totalRemoved := BatchSize * batchNo + |toDeleteIds|;
  }

  lemma {:induction false} DistinctToSetSize(s: seq<string>)
    requires Distinct(s)
    ensures |ToSet(s)| == |s|
  {
    if s != [] {
      var init := s[..|s| - 1];
      var last := s[|s| - 1];
      DistinctToSetSize(init);
      assert s == init + [last];
      ToSetAppend(init, [last]);
      assert ToSet([last]) == {last};
      assert last !in ToSet(init) by {
        assert forall i :: 0 <= i < |init| ==> init[i] == s[i];
      }
      assert ToSet(s) == ToSet(init) + {last};
    }
  }

  /** Without a failing bulk delete, the sweep deletes exactly the flagged rows,
      keeps every other row as it was, and returns how many rows it deleted. */
  lemma SweepRemovesExactlyFlaggedRows(rows: map<string, Document>, order: seq<string>, kws: seq<string>, fails: nat -> bool)
    requires forall l :: l in rows <==> l in order
    requires Distinct(order)
    requires FirstFailingBatch(fails, |Flagged(order, rows, kws)|, 0).None?
    ensures var r := SweepOf(rows, order, kws, fails);
            (forall l :: l in r.rows <==> l in rows && !RowIsNegative(rows[l], kws))
            && (forall l :: l in r.rows ==> r.rows[l] == rows[l])
            && r.removed == |rows.Keys| - |r.rows.Keys|
  {
    var f := Flagged(order, rows, kws);
    var r := SweepOf(rows, order, kws, fails);
    FlaggedComplete(order, rows, kws);
    FlaggedDistinct(order, rows, kws);
    DistinctToSetSize(f);
    assert r.rows.Keys == rows.Keys - ToSet(f);
    assert ToSet(f) <= rows.Keys;
    assert rows.Keys == r.rows.Keys + ToSet(f);
  }

  /** A failing bulk delete makes the sweep report 0, although the batches
      before it are gone; every row it deleted was flagged. */
  lemma SweepFailureReportsZero(rows: map<string, Document>, order: seq<string>, kws: seq<string>, fails: nat -> bool)
    requires FirstFailingBatch(fails, |Flagged(order, rows, kws)|, 0).Some?
    ensures var r := SweepOf(rows, order, kws, fails);
            r.removed == 0
            && (forall l :: l in r.rows ==> l in rows && r.rows[l] == rows[l])
            && (forall l :: l in rows && l !in r.rows ==> RowIsNegative(rows[l], kws))
  {
    var f := Flagged(order, rows, kws);
    var b := FirstFailingBatch(fails, |f|, 0).value;
    assert forall l :: l in f[..BatchSize * b] ==> l in f;
  }
}
