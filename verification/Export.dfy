/** Paged export (`src/export.rs`). */
module Export {
  import opened Documents
  import Order

  const MAX_EXPORT_LIMIT: nat := 10_000

  datatype Page = Page(rows: seq<Document>, nextLastId: Option<Id>)

  function Clamped(limit: nat): (k: nat)
    ensures 1 <= k <= MAX_EXPORT_LIMIT && (1 <= limit <= MAX_EXPORT_LIMIT ==> k == limit)
  {
    if limit < 1 then 1 else Order.Min(limit, MAX_EXPORT_LIMIT)
  }

  predicate IsAfter(id: Id, last: Option<Id>) {
    last.None? || Order.Less(last.value, id)
  }

  function Ids(rows: seq<Document>): seq<Id> {
    seq(|rows|, i requires 0 <= i < |rows| => rows[i].id)
  }

  function KeysAfter(docs: DocMap, last: Option<Id>): set<Id> {
    set id | id in docs && IsAfter(id, last)
  }

  /** The first documents after `last` in id order, and where to go on exactly when the page is full. */
  ghost predicate IsPage(page: Page, docs: DocMap, last: Option<Id>, limit: nat) {
    && Order.IsTop(Ids(page.rows), KeysAfter(docs, last), Clamped(limit), Order.Less)
    && (forall d :: d in page.rows ==> d.id in docs && docs[d.id] == d)
    && page.nextLastId == if |page.rows| == Clamped(limit) then Some(page.rows[|page.rows| - 1].id) else None
  }

  method ListKeys(docs: DocMap) returns (ids: seq<Id>)
    ensures Order.Items(ids) == docs.Keys && Order.Distinct(ids)
  {
    ids := [];
    var todo := docs.Keys;
    while todo != {}
      invariant todo <= docs.Keys && Order.Distinct(ids)
      invariant forall id :: id in ids <==> id in docs && id !in todo
    {
      var id :| id in todo;
      ids := ids + [id];
      todo := todo - {id};
    }
  }

  method SortedKeys(docs: DocMap) returns (sorted: seq<Id>)
    ensures Order.Ascending(sorted, Order.Less) && forall id :: id in sorted <==> id in docs.Keys
  {
    var ids := ListKeys(docs);
    Order.LessIsStrictTotal();
    Order.SortAscending(ids, Order.Less);
    Order.SortSameItems(ids, Order.Less);
    assert forall id :: id in ids <==> id in Order.Items(ids);
    sorted := Order.Sort(ids, Order.Less);
  }

  function After(ids: seq<Id>, last: Option<Id>): seq<Id> {
    if ids == [] then []
    else (if IsAfter(ids[0], last) then [ids[0]] else []) + After(ids[1..], last)
  }

  lemma {:induction false} AfterKeeps(ids: seq<Id>, last: Option<Id>)
    requires Order.Ascending(ids, Order.Less)
    ensures Order.Ascending(After(ids, last), Order.Less)
    ensures forall id :: id in After(ids, last) <==> id in ids && IsAfter(id, last)
  {
    if ids != [] {
      AfterKeeps(ids[1..], last);
      assert ids == [ids[0]] + ids[1..];
      var rest := After(ids[1..], last);
      forall j | 0 <= j < |rest| ensures Order.Less(ids[0], rest[j]) {
        assert rest[j] in rest;
        var m :| 0 <= m < |ids[1..]| && ids[1..][m] == rest[j];
        assert ids[m + 1] == rest[j];
      }
    }
  }

  lemma AscendingPrefixIsTop(ids: seq<Id>, pool: set<Id>, k: nat)
    requires Order.Ascending(ids, Order.Less) && Order.Items(ids) == pool
    ensures Order.IsTop(Order.Take(ids, k), pool, k, Order.Less)
  {
    Order.LessIsStrictTotal();
    Order.AscendingIsDistinct(ids, Order.Less);
    var top := Order.Take(ids, k);
    assert forall m :: 0 <= m < |top| ==> top[m] == ids[m] && top[m] in top;
    forall x, r | x in pool && x !in top && r in top ensures Order.Less(r, x) {
      var i :| 0 <= i < |ids| && ids[i] == x;
      var j :| 0 <= j < |top| && top[j] == r;
    }
  }

  /** The documents of these ids. */
  function RowsFor(docs: DocMap, ids: seq<Id>): (rows: seq<Document>)
    requires Keyed(docs) && forall id :: id in ids ==> id in docs
    ensures Ids(rows) == ids && forall d :: d in rows ==> d.id in docs && docs[d.id] == d
  {
    assert forall i :: 0 <= i < |ids| ==> ids[i] in ids;
    seq(|ids|, i requires 0 <= i < |ids| => docs[ids[i]])
  }

  /** `export_page`. */
  method ExportPage(docs: DocMap, last: Option<Id>, limit: nat) returns (page: Page)
    requires Keyed(docs)
    ensures IsPage(page, docs, last, limit)
  {
    var sorted := SortedKeys(docs);
    var taken := Order.Take(After(sorted, last), Clamped(limit));
    TakenIsTop(sorted, docs, last, limit);
    var rows := RowsFor(docs, taken);
    page := Page(rows, if |rows| == Clamped(limit) then Some(rows[|rows| - 1].id) else None);
  }

  lemma TakenIsTop(sorted: seq<Id>, docs: DocMap, last: Option<Id>, limit: nat)
    requires Order.Ascending(sorted, Order.Less) && forall id :: id in sorted <==> id in docs.Keys
    ensures Order.IsTop(Order.Take(After(sorted, last), Clamped(limit)), KeysAfter(docs, last), Clamped(limit),
                        Order.Less)
  {
    AfterKeeps(sorted, last);
    var after := After(sorted, last);
    assert Order.Items(after) == KeysAfter(docs, last);
    AscendingPrefixIsTop(after, KeysAfter(docs, last), Clamped(limit));
  }

  // ----- Following the cursor -----

  /** Pages so far: everything up to the cursor, in order. */
  ghost predicate Exported(rows: seq<Document>, docs: DocMap, last: Option<Id>) {
    && Order.Ascending(Ids(rows), Order.Less)
    && (forall id :: id in Ids(rows) <==> id in docs && last.Some? && !IsAfter(id, last))
    && (forall d :: d in rows ==> d.id in docs && docs[d.id] == d)
  }

  /** All documents, once each, in strictly ascending id order. */
  ghost predicate ExportedAll(rows: seq<Document>, docs: DocMap) {
    && Order.Ascending(Ids(rows), Order.Less)
    && (forall id :: id in Ids(rows) <==> id in docs)
    && (forall d :: d in rows ==> d.id in docs && docs[d.id] == d)
  }

  lemma IdsAppend(a: seq<Document>, b: seq<Document>)
    ensures Ids(a + b) == Ids(a) + Ids(b)
  {
  }

  /** Up to the cursor come ids that sort before everything on the next page. */
  lemma PagesInOrder(rows: seq<Document>, page: Page, docs: DocMap, last: Option<Id>, limit: nat)
    requires Exported(rows, docs, last) && IsPage(page, docs, last, limit)
    ensures Order.Ascending(Ids(rows + page.rows), Order.Less)
  {
    IdsAppend(rows, page.rows);
    Order.LessIsStrictTotal();
    forall i, j | 0 <= i < |rows| && 0 <= j < |page.rows| ensures Order.Less(Ids(rows)[i], Ids(page.rows)[j]) {
      var x, y := Ids(rows)[i], Ids(page.rows)[j];
      assert x in Ids(rows) && y in Ids(page.rows);
      assert !Order.Less(last.value, x) && Order.Less(last.value, y);
      assert x == last.value || Order.Less(x, last.value);
    }
  }

  /** A full page moves the cursor to its last row. */
  lemma FullPage(rows: seq<Document>, page: Page, docs: DocMap, last: Option<Id>, limit: nat, id: Id)
    requires Exported(rows, docs, last) && IsPage(page, docs, last, limit) && page.nextLastId.Some?
    ensures id in Ids(rows + page.rows) <==> id in docs && !IsAfter(id, page.nextLastId)
    ensures IsAfter(page.nextLastId.value, last) && page.nextLastId.value in docs
  {
    IdsAppend(rows, page.rows);
    Order.LessIsStrictTotal();
    var next, ids := page.nextLastId.value, Ids(page.rows);
    assert ids[|ids| - 1] == next && next in ids && next in KeysAfter(docs, last);
    if id in Ids(rows) {
      assert id == next || Order.Less(id, next);
    } else if id in ids {
      var j :| 0 <= j < |ids| && ids[j] == id;
      assert j == |ids| - 1 || Order.Less(ids[j], next);
    } else if id in docs {
      assert id in KeysAfter(docs, last);
      assert Order.Less(next, id);
    }
  }

  lemma FewerAfter(docs: DocMap, last: Option<Id>, next: Id)
    requires next in docs && IsAfter(next, last)
    ensures |KeysAfter(docs, Some(next))| < |KeysAfter(docs, last)|
  {
    Order.LessIsStrictTotal();
    var now, later := KeysAfter(docs, last), KeysAfter(docs, Some(next));
    assert next in now && next !in later;
    forall id | id in later ensures id in now {
      assert last.Some? ==> Order.Less(last.value, next) && Order.Less(next, id);
    }
    assert later <= now - {next};
    Order.SubsetSize(later, now - {next});
  }

  /** A page that is not full is the last one. */
  lemma LastPage(rows: seq<Document>, page: Page, docs: DocMap, last: Option<Id>, limit: nat, id: Id)
    requires Exported(rows, docs, last) && IsPage(page, docs, last, limit) && page.nextLastId.None?
    ensures id in Ids(rows + page.rows) <==> id in docs
  {
    IdsAppend(rows, page.rows);
    Order.LessIsStrictTotal();
    var ids := Ids(page.rows);
    Order.AscendingIsDistinct(ids, Order.Less);
    var pool := KeysAfter(docs, last);
    assert Order.Items(ids) <= pool && |Order.Items(ids)| == |pool|;
    SameSizeSubset(Order.Items(ids), pool);
    assert id in ids <==> id in pool;
  }

  lemma SameSizeSubset<T>(a: set<T>, b: set<T>)
    requires a <= b && |a| == |b|
    ensures a == b
  {
    assert b == a + (b - a);
  }

  /** Following `next_last_id` until it is absent ends, and gives every document exactly once in
      strictly ascending order, on `|docs| / limit + 1` pages. */
  method ExportAll(docs: DocMap, limit: nat) returns (rows: seq<Document>, pages: nat)
    requires Keyed(docs)
    ensures ExportedAll(rows, docs) && |rows| == |docs|
    ensures pages >= 1 && (pages - 1) * Clamped(limit) <= |docs| < pages * Clamped(limit)
  {
    rows, pages := [], 0;
    var last: Option<Id> := None;
    var more := true;
    var k := Clamped(limit);
    while more
      invariant more ==> Exported(rows, docs, last) && |rows| == pages * k
      invariant !more ==> ExportedAll(rows, docs) && pages >= 1 && (pages - 1) * k <= |rows| < pages * k
      decreases more, |KeysAfter(docs, last)|
    {
      var page := ExportPage(docs, last, limit);
      PagesInOrder(rows, page, docs, last, limit);
      if page.nextLastId.Some? {
        forall id ensures id in Ids(rows + page.rows) <==> id in docs && !IsAfter(id, page.nextLastId) {
          FullPage(rows, page, docs, last, limit, id);
        }
        FullPage(rows, page, docs, last, limit, "");
        FewerAfter(docs, last, page.nextLastId.value);
        OneMorePage(pages, k);
      } else {
        forall id ensures id in Ids(rows + page.rows) <==> id in docs { LastPage(rows, page, docs, last, limit, id); }
        OneMorePage(pages, k);
      }
      rows := rows + page.rows;
      pages := pages + 1;
      more, last := page.nextLastId.Some?, page.nextLastId;
    }
    AllCounted(rows, docs);
  }

  lemma OneMorePage(pages: nat, k: nat)
    ensures (pages + 1) * k == pages * k + k
  {
  }

  lemma AllCounted(rows: seq<Document>, docs: DocMap)
    requires ExportedAll(rows, docs)
    ensures |rows| == |docs|
  {
    Order.LessIsStrictTotal();
    Order.AscendingIsDistinct(Ids(rows), Order.Less);
    assert Order.Items(Ids(rows)) == docs.Keys;
  }
}
