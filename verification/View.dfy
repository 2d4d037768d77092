/** The cached namespace view (`src/view.rs`).

    Two things are proved about it, over every history of a view while the log grows.  First, it heals:
    batches may be applied several times, late and out of order, and a catch-up may stop half way, yet
    the next successful catch-up restores exactly the documents at the commit point, with fresh stamps.
    Second, eventual reads show no unindexed content.  Beside each stands the exact condition for it.
 */
module View {
  import opened Documents
  import opened Replay
  import opened Stamps
  import opened Meta
  import opened WalReads

  // ----- Healing -----

  /** Replaying the log onto `docs` from anywhere up to `base`, to anywhere from `high` on, restores
      the documents at that point. */
  ghost predicate Healable(docs: DocMap, base: nat, high: nat, log: seq<Entry>) {
    && base <= high <= |log|
    && forall m, t {:trigger log[m..t]} :: 0 <= m <= base && high <= t <= |log| ==>
         Replayed(log[m..t], docs) == At(log, t)
  }

  /** Freshly loaded documents heal. */
  lemma LoadedHealable(log: seq<Entry>, n: nat)
    requires n <= |log|
    ensures Healable(At(log, n), n, n, log)
  {
    forall m, t {:trigger log[m..t]} | 0 <= m <= n <= t <= |log|
      ensures Replayed(log[m..t], At(log, n)) == At(log, t)
    {
      ReplayFromStaleCursor(log, m, n, t);
    }
  }

  lemma HealableIsCurrent(docs: DocMap, n: nat, log: seq<Entry>)
    requires Healable(docs, n, n, log)
    ensures docs == At(log, n)
  {
    assert log[n..n] == [];
    assert Replayed(log[n..n], docs) == docs;
  }

  lemma DrawnFrom(log: seq<Entry>, m: nat, t: nat, a: nat, b: nat)
    requires m <= a <= b <= t <= |log|
    ensures forall x :: x in log[a..b] ==> x in log[m..t]
  {
    assert log[m..t] == log[m..a] + log[a..b] + log[b..t];
  }

  lemma SliceJoins(log: seq<Entry>, m: nat, k: nat, t: nat)
    requires m <= k <= t <= |log|
    ensures log[m..t] == log[m..k] + log[k..t]
  {
  }

  lemma ReplayedJoins(docs: DocMap, log: seq<Entry>, m: nat, k: nat, t: nat)
    requires m <= k <= t <= |log|
    ensures Replayed(log[k..t], Replayed(log[m..k], docs)) == Replayed(log[m..t], docs)
  {
    SliceJoins(log, m, k, t);
    ReplayedConcat(log[m..k], log[k..t], docs);
  }

  lemma NextReplayed(docs: DocMap, log: seq<Entry>, m: nat, n: nat)
    requires m < n <= |log|
    ensures Replayed(log[m..n], docs) == ApplyEntry(Replayed(log[m..n - 1], docs), log[n - 1])
  {
    assert log[m..n][..n - 1 - m] == log[m..n - 1];
  }

  lemma AppliedIsReplayed(docs: DocMap, log: seq<Entry>, n: nat)
    requires 1 <= n <= |log|
    ensures ApplyEntry(docs, log[n - 1]) == Replayed(log[n - 1..n], docs)
  {
    NextReplayed(docs, log, n - 1, n);
    assert log[n - 1..n - 1] == [];
  }

  /** Applying batches `a + 1` to `b`, whichever they are, keeps the documents healable: from `b` if the
      run starts where they can be replayed from, and otherwise from where they could be before. */
  lemma RunKeepsHealable(docs: DocMap, base: nat, high: nat, log: seq<Entry>, a: nat, b: nat)
    requires Healable(docs, base, high, log) && a <= b <= |log|
    ensures Healable(Replayed(log[a..b], docs), if a <= base then b else base, if high < b then b else high, log)
  {
    var docs' := Replayed(log[a..b], docs);
    var base', high' := if a <= base then b else base, if high < b then b else high;
    forall m, t {:trigger log[m..t]} | 0 <= m <= base' && high' <= t <= |log|
      ensures Replayed(log[m..t], docs') == At(log, t)
    {
      if m <= a {
        DrawnFrom(log, m, t, a, b);
        ReplayAbsorbs(log[a..b], log[m..t], docs);
      } else {
        var atM := Replayed(log[a..m], docs);
        ReplayedJoins(docs, log, a, m, b);
        DrawnFrom(log, m, t, m, b);
        ReplayAbsorbs(log[m..b], log[m..t], atM);
        ReplayedJoins(docs, log, a, m, t);
      }
    }
  }

  /** Healing survives new commits. */
  lemma HealableExtends(docs: DocMap, base: nat, high: nat, log: seq<Entry>, more: seq<Entry>)
    requires Healable(docs, base, high, log)
    ensures Healable(docs, base, high, log + more)
  {
    var log' := log + more;
    forall m, t {:trigger log'[m..t]} | 0 <= m <= base && high <= t <= |log'|
      ensures Replayed(log'[m..t], docs) == At(log', t)
    {
      var k := if t <= |log| then t else |log|;
      assert Replayed(log[m..k], docs) == At(log, k);
      assert log'[m..k] == log[m..k];
      AtPrefix(log, more, k);
      ReplayedJoins(docs, log', m, k, t);
      ReplayFrom(log', k, t);
    }
  }

  /** Documents and stamps together. */
  ghost predicate Heals(docs: DocMap, stamps: SeqMap, base: nat, high: nat, log: seq<Entry>) {
    Healable(docs, base, high, log) && StampsHeal(stamps, base, high, log)
  }

  lemma RunKeepsHeals(docs: DocMap, stamps: SeqMap, base: nat, high: nat, log: seq<Entry>, a: nat, b: nat)
    requires Heals(docs, stamps, base, high, log) && a <= b <= |log|
    ensures Heals(Replayed(log[a..b], docs), Restamped(stamps, log, a, b),
                  if a <= base then b else base, if high < b then b else high, log)
  {
    RunKeepsHealable(docs, base, high, log, a, b);
    RunKeepsStampsHeal(stamps, base, high, log, a, b);
  }

  /** Applying batch `n`, in any order. */
  lemma ApplyKeepsHeals(docs: DocMap, stamps: SeqMap, base: nat, high: nat, log: seq<Entry>, n: nat)
    requires Heals(docs, stamps, base, high, log) && 1 <= n <= |log|
    ensures Heals(ApplyEntry(docs, log[n - 1]), Stamped(stamps, n, log[n - 1]),
                  if n <= base + 1 then n else base, if high < n then n else high, log)
  {
    RunKeepsHeals(docs, stamps, base, high, log, n - 1, n);
    AppliedIsReplayed(docs, log, n);
    assert Restamped(stamps, log, n - 1, n) == Stamped(stamps, n, log[n - 1]);
  }

  lemma CommitKeepsHeals(docs: DocMap, stamps: SeqMap, base: nat, high: nat, log: seq<Entry>, more: seq<Entry>)
    requires Heals(docs, stamps, base, high, log)
    ensures Heals(docs, stamps, base, high, log + more)
  {
    HealableExtends(docs, base, high, log, more);
    StampsHealExtends(stamps, base, high, log, more);
  }

  lemma FreshHeals(docs: DocMap, stamps: SeqMap, n: nat, log: seq<Entry>)
    requires Fresh(docs, stamps, n, log)
    ensures Heals(docs, stamps, n, n, log)
  {
    LoadedHealable(log, n);
    FreshStampsHeal(stamps, n, log);
  }

  /** Replaying from anywhere up to `base` to the end of what the view has seen, or further, makes a
      healing view fresh. */
  lemma HealsFresh(docs: DocMap, stamps: SeqMap, base: nat, high: nat, log: seq<Entry>, m: nat, t: nat)
    requires Heals(docs, stamps, base, high, log) && m <= base && high <= t <= |log|
    ensures Fresh(Replayed(log[m..t], docs), Restamped(stamps, log, m, t), t, log)
  {
    assert Replayed(log[m..t], docs) == At(log, t);
  }

  lemma CurrentHealsFresh(docs: DocMap, stamps: SeqMap, n: nat, log: seq<Entry>)
    requires Heals(docs, stamps, n, n, log)
    ensures Fresh(docs, stamps, n, log)
  {
    HealsFresh(docs, stamps, n, n, log, n, n);
    HealableIsCurrent(docs, n, log);
    assert Restamped(stamps, log, n, n) == stamps;
  }

  // ----- Logs for the converse directions -----

  /** A log of `len` batches that does `e` at batch `k + 1`, `f` at batch `j + 1`, and nothing else. */
  function Sparse(len: nat, k: nat, e: Entry, j: nat, f: Entry): seq<Entry> {
    seq(len, i => if i == k then e else if i == j then f else NO_OPS)
  }

  lemma {:induction false} AtSparse(len: nat, k: nat, e: Entry, j: nat, f: Entry, t: nat)
    requires k < j && t <= len
    ensures At(Sparse(len, k, e, j, f), t) ==
      if t <= k then map[] else if t <= j then ApplyEntry(map[], e) else ApplyEntry(ApplyEntry(map[], e), f)
  {
    if t > 0 {
      AtSparse(len, k, e, j, f, t - 1);
      AtNext(Sparse(len, k, e, j, f), t - 1);
    }
  }

  const DOC_A := Document("a", map[])
  const PUT_A := Entry([DOC_A], [], [])
  const PATCH_A := Entry([], [DOC_A], [])
  const DROP_A := Entry([], [], ["a"])
  const ONLY_A: DocMap := map["a" := DOC_A]

  lemma OnlyA()
    ensures ApplyEntry(map[], PUT_A) == ONLY_A && ApplyEntry(ONLY_A, DROP_A) == map[]
    ensures ApplyEntry(map[], PATCH_A) == map[] && ApplyEntry(ONLY_A, PATCH_A) == ONLY_A
    ensures ApplyEntry(map[], DROP_A) == map[]
  {
    var none: DocMap := map[];
    assert RemoveAll(none, []) == none && PutAll(none, [DOC_A]) == PutAll(ONLY_A, []) == ONLY_A;
    assert RemoveAll(ONLY_A, ["a"]) == RemoveAll(none, []) == none;
    assert RemoveAll(none, ["a"]) == RemoveAll(none, []);
    assert PatchAll(none, [DOC_A]) == PatchAll(none, []) == none;
    assert Merged(DOC_A, DOC_A.attributes) == DOC_A;
    assert PatchAll(ONLY_A, [DOC_A]) == PatchAll(ONLY_A, []) == ONLY_A;
  }

  /** With document a put at batch `k + 1` and not touched again before batch `j + 1`, a view between
      the two is fresh with any stamp for it from `k + 1` on. */
  lemma SparseFresh(len: nat, k: nat, j: nat, f: Entry, t: nat, stamp: nat)
    requires k < t <= j && t <= len && k < stamp
    ensures Fresh(ONLY_A, map["a" := stamp], t, Sparse(len, k, PUT_A, j, f))
  {
    OnlyA();
    var log := Sparse(len, k, PUT_A, j, f);
    AtSparse(len, k, PUT_A, j, f, t);
    forall id, c: nat | id in ONLY_A && stamp <= c <= t ensures Lookup(At(log, c), id) == Some(ONLY_A[id]) {
      AtSparse(len, k, PUT_A, j, f, c);
    }
  }

  // ----- Gaps -----

  ghost predicate HealsAfterApply(docs: DocMap, log: seq<Entry>, n: nat)
    requires 1 <= n <= |log|
  {
    var docs' := ApplyEntry(docs, log[n - 1]);
    exists high: nat :: Healable(docs', n, high, log)
  }

  /** A view that heals from `base` can take batch `n` as its new number exactly if that leaves no gap. */
  lemma GapFreeExactly(base: nat, n: nat)
    requires n >= 1
    ensures
      (forall docs: DocMap, high: nat, log: seq<Entry> :: Healable(docs, base, high, log) && n <= |log| ==>
         HealsAfterApply(docs, log, n))
      <==> n <= base + 1
  {
    if n <= base + 1 {
      forall docs: DocMap, high: nat, log: seq<Entry> | Healable(docs, base, high, log) && n <= |log|
        ensures HealsAfterApply(docs, log, n)
      {
        AppliedIsReplayed(docs, log, n);
        RunKeepsHealable(docs, base, high, log, n - 1, n);
      }
    } else {
      var log := SkippedBatch(base, n);
      assert Healable(map[], base, base, log) && n <= |log| && !HealsAfterApply(map[], log, n);
    }
  }

  /** Batch `base + 1` puts document a, and a view at `base` applies batch `n` without it. */
  lemma SkippedBatch(base: nat, n: nat) returns (log: seq<Entry>)
    requires n > base + 1
    ensures |log| == n && Healable(map[], base, base, log)
    ensures !HealsAfterApply(map[], log, n)
  {
    log := Sparse(n, base, PUT_A, n, NO_OPS);
    OnlyA();
    AtSparse(n, base, PUT_A, n, NO_OPS, base);
    LoadedHealable(log, base);
    AtSparse(n, base, PUT_A, n, NO_OPS, n);
    var docs := ApplyEntry(map[], log[n - 1]);
    forall high: nat ensures !Healable(docs, n, high, log) {
      if Healable(docs, n, high, log) { HealableIsCurrent(docs, n, log); }
    }
  }

  // ----- Eventual reads -----

  /** `docs_for_query`. */
  function QueryDocs(docs: DocMap, stamps: SeqMap, meta: NamespaceMeta, skipTail: bool): DocMap {
    if !skipTail || meta.indexCursor >= meta.walCommitSeq then docs
    else map id | id in docs && (if id in stamps then stamps[id] else 0) <= meta.indexCursor :: docs[id]
  }

  /** What an eventual read returns is each id's document at the index cursor. */
  ghost predicate ReadsIndexed(docs: DocMap, stamps: SeqMap, meta: NamespaceMeta, log: seq<Entry>)
    requires meta.indexCursor <= |log|
  {
    var read := QueryDocs(docs, stamps, meta, true);
    forall id :: id in read ==> Lookup(At(log, meta.indexCursor), id) == Some(read[id])
  }

  /** A view at `last` has what eventual reads under this metadata need: it is at the cursor, or beyond it
      with the metadata saying that there is a tail to leave out. */
  predicate Reached(last: nat, meta: NamespaceMeta) {
    last == 0 || meta.indexCursor == last || (meta.indexCursor < last && meta.indexCursor < meta.walCommitSeq)
  }

  /** Eventual reads of fresh views at `last` are right exactly if the view has reached the cursor. */
  lemma EventualReadsExactly(last: nat, meta: NamespaceMeta)
    ensures
      (forall docs, stamps, log: seq<Entry> :: Fresh(docs, stamps, last, log) && meta.indexCursor <= |log| ==>
         ReadsIndexed(docs, stamps, meta, log))
      <==> Reached(last, meta)
  {
    if !Reached(last, meta) {
      var log := WrongRead(last, meta);
    } else {
      forall docs, stamps, log: seq<Entry> | Fresh(docs, stamps, last, log) && meta.indexCursor <= |log|
        ensures ReadsIndexed(docs, stamps, meta, log)
      {
        EventualReadsIndexed(docs, stamps, last, log, meta);
      }
    }
  }

  lemma EventualReadsIndexed(docs: DocMap, stamps: SeqMap, last: nat, log: seq<Entry>, meta: NamespaceMeta)
    requires Fresh(docs, stamps, last, log) && Reached(last, meta) && meta.indexCursor <= |log|
    ensures ReadsIndexed(docs, stamps, meta, log)
  {
    assert last == 0 ==> docs == map[];
  }

  /** A fresh view that shows document a, which the index does not hold: it was dropped on the way to the
      cursor, or put on the way from the cursor to a view that takes itself to be all indexed. */
  lemma WrongRead(last: nat, meta: NamespaceMeta) returns (log: seq<Entry>)
    requires !Reached(last, meta)
    ensures meta.indexCursor <= |log|
    ensures exists stamps :: Fresh(ONLY_A, stamps, last, log) && !ReadsIndexed(ONLY_A, stamps, meta, log)
  {
    var cursor := meta.indexCursor;
    OnlyA();
    var stamps: SeqMap;
    if cursor > last {
      log, stamps := Sparse(cursor, 0, PUT_A, cursor - 1, DROP_A), map["a" := 1];
      SparseFresh(cursor, 0, cursor - 1, DROP_A, last, 1);
      AtSparse(cursor, 0, PUT_A, cursor - 1, DROP_A, cursor);
    } else {
      log, stamps := Sparse(last, last - 1, PUT_A, last, NO_OPS), map["a" := last];
      SparseFresh(last, last - 1, last, NO_OPS, last, last);
      AtSparse(last, last - 1, PUT_A, last, NO_OPS, cursor);
    }
    assert "a" in QueryDocs(ONLY_A, stamps, meta, true);
    assert Lookup(At(log, cursor), "a") == None;
  }

  // ----- Applying a batch to a fresh view -----

  /** After a fresh view has taken batch `n` as its new number, its eventual reads are right under all
      metadata that number can serve. */
  ghost predicate ReadsAfterApply(docs: DocMap, stamps: SeqMap, log: seq<Entry>, n: nat)
    requires 1 <= n <= |log|
  {
    forall meta: NamespaceMeta :: Reached(n, meta) && meta.indexCursor <= |log| ==>
      ReadsIndexed(ApplyEntry(docs, log[n - 1]), Stamped(stamps, n, log[n - 1]), meta, log)
  }

  lemma ApplyKeepsFresh(docs: DocMap, stamps: SeqMap, last: nat, log: seq<Entry>, n: nat)
    requires Fresh(docs, stamps, last, log) && 1 <= n <= |log| && (n == last || n == last + 1)
    ensures Fresh(ApplyEntry(docs, log[n - 1]), Stamped(stamps, n, log[n - 1]), n, log)
  {
    FreshHeals(docs, stamps, last, log);
    ApplyKeepsHeals(docs, stamps, last, last, log, n);
    CurrentHealsFresh(ApplyEntry(docs, log[n - 1]), Stamped(stamps, n, log[n - 1]), n, log);
  }

  /** An empty view shows only what the batch itself puts, as that batch leaves it. */
  lemma FirstApplyReads(stamps: SeqMap, log: seq<Entry>, n: nat)
    requires stamps == map[] && 1 <= n <= |log|
    ensures ReadsAfterApply(map[], stamps, log, n)
  {
    var e := log[n - 1];
    var docs', stamps' := ApplyEntry(map[], e), Stamped(stamps, n, e);
    forall id | id in docs' ensures id in stamps' && stamps'[id] == n && Lookup(At(log, n), id) == Some(docs'[id]) {
      AppliedAt(map[], e, id);
      StampedAt(stamps, n, e, id);
      AtNext(log, n - 1);
      LookupApply(map[], e, id);
      LookupApply(At(log, n - 1), e, id);
      UpsertEffectCases(e.upserts, id);
    }
  }

  /** Of the batches a fresh view at `last` can take as its new number, only its own and the next are
      sure to leave its eventual reads right, unless it was empty. */
  lemma OwnOrNextExactly(last: nat, n: nat)
    requires n >= 1
    ensures
      (forall docs, stamps, log: seq<Entry> :: Fresh(docs, stamps, last, log) && n <= |log| ==>
         ReadsAfterApply(docs, stamps, log, n))
      <==> last == 0 || n == last || n == last + 1
  {
    if last == 0 || n == last || n == last + 1 {
      forall docs, stamps, log: seq<Entry> | Fresh(docs, stamps, last, log) && n <= |log|
        ensures ReadsAfterApply(docs, stamps, log, n)
      {
        if last == 0 {
          assert docs == map[] && stamps == map[];
          FirstApplyReads(stamps, log, n);
        } else {
          ApplyKeepsFresh(docs, stamps, last, log, n);
          forall meta: NamespaceMeta | Reached(n, meta) && meta.indexCursor <= |log|
            ensures ReadsIndexed(ApplyEntry(docs, log[n - 1]), Stamped(stamps, n, log[n - 1]), meta, log)
          {
            EventualReadsIndexed(ApplyEntry(docs, log[n - 1]), Stamped(stamps, n, log[n - 1]), n, log, meta);
          }
        }
      }
    } else {
      var log, stamp := OutOfOrderApply(last, n);
      assert Fresh(ONLY_A, map["a" := stamp], last, log) && n <= |log|;
    }
  }

  /** Two ways to go wrong.  A late batch: batch `n` patches document a before batch `n + 1` puts it, and
      applied again after that, it takes the stamp back below the put.  An early one: the view misses
      that batch `last + 1` drops a. */
  lemma OutOfOrderApply(last: nat, n: nat) returns (log: seq<Entry>, stamp: nat)
    requires last >= 1 && n >= 1 && n != last && n != last + 1
    ensures n <= |log| && Fresh(ONLY_A, map["a" := stamp], last, log)
    ensures !ReadsAfterApply(ONLY_A, map["a" := stamp], log, n)
  {
    OnlyA();
    if n < last {
      log, stamp := Sparse(last, n, PUT_A, last, NO_OPS)[n - 1 := PATCH_A], n + 1;
      LatePatch(last, n);
      StampedAt(map["a" := stamp], n, PATCH_A, "a");
      assert Mentions(PATCH_A.patches, "a") by { assert DOC_A in PATCH_A.patches; }
    } else {
      log, stamp := Sparse(n, 0, PUT_A, last, DROP_A), 1;
      SparseFresh(n, 0, last, DROP_A, last, 1);
      AtSparse(n, 0, PUT_A, last, DROP_A, n);
      assert log[n - 1] == NO_OPS;
    }
    var meta := EMPTY_META.(indexCursor := n);
    var docs', stamps' := ApplyEntry(ONLY_A, log[n - 1]), Stamped(map["a" := stamp], n, log[n - 1]);
    assert "a" in QueryDocs(docs', stamps', meta, true) && Lookup(At(log, n), "a") == None;
    assert Reached(n, meta) && !ReadsIndexed(docs', stamps', meta, log);
  }

  lemma LatePatch(last: nat, n: nat)
    requires 1 <= n < last
    ensures var log := Sparse(last, n, PUT_A, last, NO_OPS)[n - 1 := PATCH_A];
      At(log, n) == map[] && Fresh(ONLY_A, map["a" := n + 1], last, log)
  {
    OnlyA();
    var log := Sparse(last, n, PUT_A, last, NO_OPS)[n - 1 := PATCH_A];
    assert log == Sparse(last, n - 1, PATCH_A, n, PUT_A);
    AtSparse(last, n - 1, PATCH_A, n, PUT_A, n);
    AtSparse(last, n - 1, PATCH_A, n, PUT_A, last);
    forall id, c: nat | id in ONLY_A && n + 1 <= c <= last ensures Lookup(At(log, c), id) == Some(ONLY_A[id]) {
      AtSparse(last, n - 1, PATCH_A, n, PUT_A, c);
    }
  }

  // ----- build_doc_last_wal_seq -----

  /** Seed every live id with the snapshot's number, then stamp with the entries after it. */
  function BuiltStamps(seed: SeqMap, wal: Segments, from: nat, last: int): SeqMap
    requires HasRange(wal, from, last)
    decreases last + 1 - from
  {
    if from > last then seed else Stamped(BuiltStamps(seed, wal, from, last - 1), last, wal[last])
  }

  function Seed(meta: NamespaceMeta, docs: DocMap): SeqMap {
    if meta.walSnapshotSeq > 0 then map id | id in docs :: meta.walSnapshotSeq else map[]
  }

  function BuiltDocLast(meta: NamespaceMeta, docs: DocMap, wal: Segments): Result<SeqMap> {
    if HasRange(wal, meta.walSnapshotSeq + 1, meta.walCommitSeq)
    then Ok(BuiltStamps(Seed(meta, docs), wal, meta.walSnapshotSeq + 1, meta.walCommitSeq))
    else Err
  }

  method BuildDocLastWalSeq(meta: NamespaceMeta, docs: DocMap, wal: Segments) returns (r: Result<SeqMap>)
    ensures r == BuiltDocLast(meta, docs, wal)
  {
    var stamps: SeqMap := map[];
    if meta.walSnapshotSeq > 0 { stamps := map id | id in docs :: meta.walSnapshotSeq; }
    var from := if meta.walSnapshotSeq > 0 then meta.walSnapshotSeq + 1 else 1;
    var n := from;
    while n <= meta.walCommitSeq
      invariant from <= n && (n <= meta.walCommitSeq + 1 || n == from)
      invariant HasRange(wal, from, n - 1)
      invariant stamps == BuiltStamps(Seed(meta, docs), wal, from, n - 1)
    {
      if n !in wal { return Err; }
      stamps := UpdateDocWalSeqMap(stamps, n, wal[n]);
      n := n + 1;
    }
    r := Ok(stamps);
  }

  /** Half-built stamps at log number `k`, seeded with the ids live at `commit`. */
  ghost predicate HalfBuilt(stamps: SeqMap, seeds: set<Id>, k: nat, log: seq<Entry>) {
    && k <= |log|
    && (forall id :: id in stamps ==> id in At(log, k) || id in seeds)
    && (forall id :: id in At(log, k) && id in seeds ==> id in stamps)
    && forall id, c: nat :: id in stamps && id in At(log, k) && stamps[id] <= c <= k ==>
         Lookup(At(log, c), id) == Some(At(log, k)[id])
  }

  lemma HalfBuiltStep(stamps: SeqMap, seeds: set<Id>, k: nat, log: seq<Entry>)
    requires HalfBuilt(stamps, seeds, k, log) && k < |log|
    ensures HalfBuilt(Stamped(stamps, k + 1, log[k]), seeds, k + 1, log)
  {
    var e, docs := log[k], At(log, k);
    var docs', stamps' := At(log, k + 1), Stamped(stamps, k + 1, e);
    AtNext(log, k);
    forall id
      ensures id in stamps' ==> id in docs' || id in seeds
      ensures id in docs' && id in seeds ==> id in stamps'
    {
      StampedAt(stamps, k + 1, e, id);
      AppliedAt(docs, e, id);
    }
    forall id, c: nat | id in stamps' && id in docs' && stamps'[id] <= c <= k + 1
      ensures Lookup(At(log, c), id) == Some(docs'[id])
    {
      StampedAt(stamps, k + 1, e, id);
      AppliedAt(docs, e, id);
      if c <= k {
        assert Lookup(docs', id) == Lookup(docs, id);
      }
    }
  }

  lemma HalfBuiltNext(stamps: SeqMap, seeds: set<Id>, wal: Segments, n: nat, log: seq<Entry>)
    requires 1 <= n <= |log| && n in wal && GenuineSegments(wal, log) && HalfBuilt(stamps, seeds, n - 1, log)
    ensures HalfBuilt(Stamped(stamps, n, wal[n]), seeds, n, log)
  {
    assert wal[n] == log[n - 1];
    HalfBuiltStep(stamps, seeds, n - 1, log);
  }

  lemma {:induction false} BuiltHalfWay(seed: SeqMap, seeds: set<Id>, wal: Segments, from: nat, last: nat,
                                        log: seq<Entry>)
    requires 1 <= from <= last + 1 && last <= |log| && HasRange(wal, from, last) && GenuineSegments(wal, log)
    requires HalfBuilt(seed, seeds, from - 1, log)
    ensures HalfBuilt(BuiltStamps(seed, wal, from, last), seeds, last, log)
    decreases last
  {
    if from <= last {
      BuiltHalfWay(seed, seeds, wal, from, last - 1, log);
      HalfBuiltNext(BuiltStamps(seed, wal, from, last - 1), seeds, wal, last, log);
    }
  }

  /** Stamps rebuilt on load are right, although they are seeded with the documents live at the
      commit point rather than at the snapshot. */
  lemma BuiltDocLastFresh(meta: NamespaceMeta, wal: Segments, log: seq<Entry>)
    requires GenuineSegments(wal, log) && meta.walSnapshotSeq <= meta.walCommitSeq <= |log|
    ensures var r := BuiltDocLast(meta, At(log, meta.walCommitSeq), wal);
      r.Ok? ==> Fresh(At(log, meta.walCommitSeq), r.value, meta.walCommitSeq, log)
  {
    var docs := At(log, meta.walCommitSeq);
    var seed := Seed(meta, docs);
    if HasRange(wal, meta.walSnapshotSeq + 1, meta.walCommitSeq) {
      if meta.walSnapshotSeq == 0 { assert At(log, 0) == map[]; }
      assert HalfBuilt(seed, docs.Keys, meta.walSnapshotSeq, log);
      BuiltHalfWay(seed, docs.Keys, wal, meta.walSnapshotSeq + 1, meta.walCommitSeq, log);
      var stamps := BuiltStamps(seed, wal, meta.walSnapshotSeq + 1, meta.walCommitSeq);
      assert stamps.Keys == docs.Keys;
    }
  }

  // ----- Views over whole histories -----

  /** A log and a view of it.  `base` and `high` belong to the specification only: how far into the log
      a replay onto the view may start, and the highest batch the view has seen. */
  datatype Moment = Moment(log: seq<Entry>, docs: DocMap, stamps: SeqMap, last: nat, base: nat, high: nat)

  /** What can happen: a commit, a load, a waiter applying its batch, an empty flush's waiter applying
      number 0, a catch-up that stops after batch `k` or completes there, and a reload of the documents
      at `k` that fails before the stamps are rebuilt. */
  datatype Happening =
    | Commits(e: Entry) | Loads(meta: NamespaceMeta, wal: Segments) | Applies(n: nat) | AppliesNothing
    | StopsCatchUp(k: nat) | CatchesUp(k: nat) | StopsReload(k: nat)

  /** Batches `a + 1` to `b` applied, and `last` as the new number. */
  function Ran(v: Moment, a: nat, b: nat, last: nat): Moment
    requires a <= b <= |v.log|
  {
    v.(docs := Replayed(v.log[a..b], v.docs), stamps := Restamped(v.stamps, v.log, a, b), last := last,
       base := if a <= v.base && a < b then b else v.base, high := if v.high < b then b else v.high)
  }

  ghost predicate Happens(v: Moment, h: Happening, v': Moment) {
    match h
    case Commits(e) => v' == v.(log := v.log + [e])
    case Loads(meta, wal) =>
      && meta.walSnapshotSeq <= meta.walCommitSeq <= |v.log| && GenuineSegments(wal, v.log)
      && var docs, n := At(v.log, meta.walCommitSeq), meta.walCommitSeq;
      && BuiltDocLast(meta, docs, wal).Ok?
      && v' == Moment(v.log, docs, BuiltDocLast(meta, docs, wal).value, n, n, n)
    case Applies(n) => 1 <= n <= |v.log| && v' == Ran(v, n - 1, n, n)
    case AppliesNothing => v' == v.(last := 0)
    case StopsCatchUp(k) => v.last <= k <= |v.log| && v' == Ran(v, v.last, k, v.last)
    case CatchesUp(k) => v.last <= k <= |v.log| && v' == Ran(v, v.last, k, k)
    case StopsReload(k) => v.high <= k <= |v.log| && v' == v.(docs := At(v.log, k), high := k)
  }

  ghost predicate IsHistory(moments: seq<Moment>, hs: seq<Happening>) {
    && |moments| == |hs| + 1 && moments[0] == Moment([], map[], map[], 0, 0, 0)
    && forall k :: 0 <= k < |hs| ==> Happens(moments[k], hs[k], moments[k + 1])
  }

  ghost predicate Sound(v: Moment) {
    v.last <= |v.log| && Heals(v.docs, v.stamps, v.base, v.high, v.log)
  }

  lemma RanHeals(v: Moment, a: nat, b: nat, last: nat)
    requires Sound(v) && a <= b <= |v.log| && last <= |v.log|
    ensures Sound(Ran(v, a, b, last))
  {
    if a == b {
      assert v.log[a..b] == [];
    } else {
      RunKeepsHeals(v.docs, v.stamps, v.base, v.high, v.log, a, b);
    }
  }

  lemma HappeningKeepsSound(v: Moment, h: Happening, v': Moment)
    requires Sound(v) && Happens(v, h, v')
    ensures Sound(v')
  {
    match h
    case Commits(e) => CommitKeepsHeals(v.docs, v.stamps, v.base, v.high, v.log, [e]);
    case Loads(meta, wal) =>
      BuiltDocLastFresh(meta, wal, v.log);
      FreshHeals(v'.docs, v'.stamps, v'.last, v.log);
    case Applies(n) => RanHeals(v, n - 1, n, n);
    case AppliesNothing =>
    case StopsCatchUp(k) => RanHeals(v, v.last, k, v.last);
    case CatchesUp(k) => RanHeals(v, v.last, k, k);
    case StopsReload(k) => LoadedHealable(v.log, k);
  }

  lemma {:induction false} HistorySound(moments: seq<Moment>, hs: seq<Happening>, k: nat)
    requires IsHistory(moments, hs) && k < |moments|
    ensures Sound(moments[k])
  {
    if k == 0 {
      EmptyFresh([]);
      FreshHeals(map[], map[], 0, []);
    } else {
      HistorySound(moments, hs, k - 1);
      HappeningKeepsSound(moments[k - 1], hs[k - 1], moments[k]);
    }
  }

  /** Whatever a view has been through, a completed catch-up to a point at or after all it has seen makes
      it fresh there, unless its number has run ahead of a batch it missed. */
  lemma CatchUpHeals(moments: seq<Moment>, hs: seq<Happening>, k: nat, t: nat)
    requires IsHistory(moments, hs) && k < |moments|
    requires moments[k].last <= moments[k].base && moments[k].high <= t <= |moments[k].log|
    ensures moments[k].last <= t
    ensures var v := Ran(moments[k], moments[k].last, t, t);
      Fresh(v.docs, v.stamps, t, v.log) && v.base == t && v.high == t
  {
    HistorySound(moments, hs, k);
    var v := moments[k];
    HealsFresh(v.docs, v.stamps, v.base, v.high, v.log, v.last, t);
  }

  /** A view's number runs ahead exactly when it applies a batch with a gap before it, and stays ahead
      until it applies one without, applies number 0, or is loaded again. */
  lemma AheadExactlyByGap(v: Moment, h: Happening, v': Moment)
    requires Happens(v, h, v')
    ensures v'.last <= v'.base <==>
      match h
      case Applies(n) => n <= v.base + 1
      case AppliesNothing => true
      case Loads(_, _) => true
      case _ => v.last <= v.base
  {
  }

  /** No batch was applied with a gap before it. */
  ghost predicate NoGaps(moments: seq<Moment>, hs: seq<Happening>)
    requires |hs| < |moments|
  {
    forall k :: 0 <= k < |hs| && hs[k].Applies? ==> hs[k].n <= moments[k].base + 1
  }

  lemma {:induction false} NeverAhead(moments: seq<Moment>, hs: seq<Happening>, k: nat)
    requires IsHistory(moments, hs) && NoGaps(moments, hs) && k < |moments|
    ensures moments[k].last <= moments[k].base
  {
    if k > 0 {
      NeverAhead(moments, hs, k - 1);
      AheadExactlyByGap(moments[k - 1], hs[k - 1], moments[k]);
    }
  }

  /** After any history without gaps, however often batches came again or late and whatever stopped half
      way, a completed catch-up restores the view. */
  lemma GapFreeHistoryHeals(moments: seq<Moment>, hs: seq<Happening>, k: nat, t: nat)
    requires IsHistory(moments, hs) && NoGaps(moments, hs) && k < |moments|
    requires moments[k].high <= t <= |moments[k].log|
    ensures moments[k].last <= t
    ensures var v := Ran(moments[k], moments[k].last, t, t); Fresh(v.docs, v.stamps, t, v.log)
  {
    NeverAhead(moments, hs, k);
    CatchUpHeals(moments, hs, k, t);
  }

  // ----- A number ahead of a gap does harm -----

  /** The same happening, whatever the batches contain. */
  ghost predicate SameKind(h: Happening, h': Happening) {
    match h
    case Commits(_) => h'.Commits?
    case Loads(meta, wal) => h'.Loads? && h'.meta == meta && h'.wal.Keys == wal.Keys
    case _ => h' == h
  }

  ghost predicate SameKinds(hs: seq<Happening>, hs': seq<Happening>) {
    |hs| == |hs'| && forall k :: 0 <= k < |hs| ==> SameKind(hs[k], hs'[k])
  }

  ghost predicate Twins(v: Moment, w: Moment) {
    |v.log| == |w.log| && v.last == w.last && v.base == w.base && v.high == w.high
  }

  lemma TwinStep(v: Moment, h: Happening, v': Moment, w: Moment, h': Happening, w': Moment)
    requires Happens(v, h, v') && Happens(w, h', w') && SameKind(h, h') && Twins(v, w)
    ensures Twins(v', w')
  {
  }

  lemma {:induction false} TwinHistories(moments: seq<Moment>, hs: seq<Happening>, moments': seq<Moment>,
                                         hs': seq<Happening>, k: nat)
    requires IsHistory(moments, hs) && IsHistory(moments', hs') && SameKinds(hs, hs') && k < |moments|
    ensures Twins(moments[k], moments'[k])
  {
    if k > 0 {
      TwinHistories(moments, hs, moments', hs', k - 1);
      assert SameKind(hs[k - 1], hs'[k - 1]);
      TwinStep(moments[k - 1], hs[k - 1], moments[k], moments'[k - 1], hs'[k - 1], moments'[k]);
    }
  }

  /** Batch `b + 1` puts document a, batch `b` drops it, and the others do nothing. */
  function Lost(len: nat, b: nat): seq<Entry> {
    seq(len, i => if i == b then PUT_A else if i + 1 == b then DROP_A else NO_OPS)
  }

  lemma {:induction false} AtLost(len: nat, b: nat, t: nat)
    requires t <= len
    ensures At(Lost(len, b), t) == if t <= b then map[] else ONLY_A
  {
    OnlyA();
    if t > 0 {
      AtLost(len, b, t - 1);
      AtNext(Lost(len, b), t - 1);
    }
  }

  lemma {:induction false} NothingStamped(stamps: SeqMap, log: seq<Entry>, m: nat, t: nat)
    requires m <= t <= |log| && forall i :: m <= i < t ==> log[i] == NO_OPS
    ensures Restamped(stamps, log, m, t) == stamps
    decreases t
  {
    if m < t { NothingStamped(stamps, log, m, t - 1); }
  }

  /** While a replay may start no later than at `b`, document a has no stamp. */
  ghost predicate Missing(w: Moment, b: nat) {
    w.log == Lost(|w.log|, b) && (w.base == b ==> "a" !in w.stamps)
  }

  lemma MissingRan(w: Moment, b: nat, m: nat, t: nat, last: nat)
    requires Missing(w, b) && m <= t <= |w.log|
    ensures Missing(Ran(w, m, t, last), b)
  {
    if m <= w.base && m < t == b {
      StampedAt(Restamped(w.stamps, w.log, m, b - 1), b, w.log[b - 1], "a");
      assert !Mentions(DROP_A.upserts, "a");
    } else if m > b == w.base {
      NothingStamped(w.stamps, w.log, m, t);
    }
  }

  lemma MissingStep(w: Moment, h: Happening, w': Moment, b: nat)
    requires Missing(w, b) && Happens(w, h, w') && !h.Commits?
    ensures Missing(w', b)
  {
    match h
    case Loads(meta, wal) =>
      BuiltDocLastFresh(meta, wal, w.log);
      AtLost(|w.log|, b, meta.walCommitSeq);
    case Applies(n) => MissingRan(w, b, n - 1, n, n);
    case StopsCatchUp(k) => MissingRan(w, b, w.last, k, w.last);
    case CatchesUp(k) => MissingRan(w, b, w.last, k, k);
    case _ =>
  }

  /** The same happening on the log that loses document a. */
  lemma LostStep(v: Moment, h: Happening, v': Moment, w: Moment, b: nat) returns (h': Happening, w': Moment)
    requires Happens(v, h, v') && Twins(v, w) && Missing(w, b)
    ensures Happens(w, h', w') && SameKind(h, h') && Missing(w', b)
  {
    h' := h;
    match h {
      case Commits(_) =>
        h' := Commits(Lost(|w.log| + 1, b)[|w.log|]);
        w' := w.(log := w.log + [h'.e]);
        assert w'.log == Lost(|w'.log|, b);
        return;
      case Loads(meta, wal) =>
        var wal' := map n | n in wal :: if 1 <= n <= |w.log| then w.log[n - 1] else wal[n];
        h' := Loads(meta, wal');
        var docs, n := At(w.log, meta.walCommitSeq), meta.walCommitSeq;
        w' := Moment(w.log, docs, BuiltDocLast(meta, docs, wal').value, n, n, n);
      case Applies(n) => w' := Ran(w, n - 1, n, n);
      case AppliesNothing => w' := w.(last := 0);
      case StopsCatchUp(k) => w' := Ran(w, w.last, k, w.last);
      case CatchesUp(k) => w' := Ran(w, w.last, k, k);
      case StopsReload(k) => w' := w.(docs := At(w.log, k), high := k);
    }
    MissingStep(w, h', w', b);
  }

  lemma {:induction false} LostHistory(moments: seq<Moment>, hs: seq<Happening>, b: nat)
    returns (moments': seq<Moment>, hs': seq<Happening>)
    requires IsHistory(moments, hs)
    ensures IsHistory(moments', hs') && SameKinds(hs, hs') && Missing(moments'[|hs|], b)
    decreases |hs|
  {
    if hs == [] {
      moments', hs' := moments, hs;
      assert Lost(0, b) == [];
    } else {
      var n := |hs| - 1;
      assert IsHistory(moments[..n + 1], hs[..n]);
      var before, done := LostHistory(moments[..n + 1], hs[..n], b);
      TwinHistories(moments[..n + 1], hs[..n], before, done, n);
      assert Happens(moments[n], hs[n], moments[n + 1]);
      var h, w := LostStep(moments[n], hs[n], moments[n + 1], before[n], b);
      moments', hs' := before + [w], done + [h];
    }
  }

  /** A catch-up completed at `t` leaves the view fresh there. */
  ghost predicate CaughtUp(v: Moment, t: nat) {
    && v.last <= t <= |v.log|
    && var c := Ran(v, v.last, t, t);
    && Fresh(c.docs, c.stamps, t, c.log)
  }

  lemma MissingNotCaughtUp(w: Moment, t: nat)
    requires Missing(w, w.base) && w.base < w.last <= t <= |w.log|
    ensures !CaughtUp(w, t)
  {
    NothingStamped(w.stamps, w.log, w.last, t);
    AtLost(|w.log|, w.base, t);
  }

  /** After a history, a catch-up completed at or after all the view has seen leaves it fresh, whatever the
      batches contain, exactly if its number is not ahead of a gap. */
  lemma CatchUpExactly(moments: seq<Moment>, hs: seq<Happening>, t: nat)
    requires IsHistory(moments, hs)
    requires var v := moments[|hs|]; v.high <= t <= |v.log| && v.last <= t
    ensures moments[|hs|].last <= moments[|hs|].base <==>
      forall moments': seq<Moment>, hs': seq<Happening> :: IsHistory(moments', hs') && SameKinds(hs, hs') ==>
        CaughtUp(moments'[|hs|], t)
  {
    var v := moments[|hs|];
    if v.last <= v.base {
      forall moments': seq<Moment>, hs': seq<Happening> | IsHistory(moments', hs') && SameKinds(hs, hs')
        ensures CaughtUp(moments'[|hs|], t)
      {
        TwinHistories(moments, hs, moments', hs', |hs|);
        CatchUpHeals(moments', hs', |hs|, t);
      }
    } else {
      var moments', hs' := LostHistory(moments, hs, v.base);
      TwinHistories(moments, hs, moments', hs', |hs|);
      MissingNotCaughtUp(moments'[|hs|], t);
    }
  }

  /** Whatever a view has been through, while it is at the highest batch it has seen its stamps cover
      exactly its documents and its eventual reads are right under all metadata it can serve. */
  lemma EventualReadsInHistory(moments: seq<Moment>, hs: seq<Happening>, k: nat, meta: NamespaceMeta)
    requires IsHistory(moments, hs) && k < |moments| && moments[k].base == moments[k].high
    requires Reached(moments[k].high, meta) && meta.indexCursor <= |moments[k].log|
    ensures moments[k].stamps.Keys == moments[k].docs.Keys
    ensures ReadsIndexed(moments[k].docs, moments[k].stamps, meta, moments[k].log)
  {
    HistorySound(moments, hs, k);
    var v := moments[k];
    CurrentHealsFresh(v.docs, v.stamps, v.high, v.log);
    EventualReadsIndexed(v.docs, v.stamps, v.high, v.log, meta);
  }

  /** Half-way through a catch-up: batches after `last` and up to `n` applied. */
  ghost predicate TailDone(v: (DocMap, SeqMap), v0: (DocMap, SeqMap), last: nat, n: nat, log: seq<Entry>) {
    last <= n <= |log| && v.0 == Replayed(log[last..n], v0.0) && v.1 == Restamped(v0.1, log, last, n)
  }

  lemma TailStart(v: (DocMap, SeqMap), last: nat, log: seq<Entry>)
    requires last <= |log|
    ensures TailDone(v, v, last, last, log)
  {
    assert log[last..last] == [];
  }

  /** One round of the catch-up loop. */
  lemma TailStep(v: (DocMap, SeqMap), v0: (DocMap, SeqMap), last: nat, n: nat, log: seq<Entry>)
    requires n < |log| && TailDone(v, v0, last, n, log)
    ensures TailDone((ApplyEntry(v.0, log[n]), Stamped(v.1, n + 1, log[n])), v0, last, n + 1, log)
  {
    NextReplayed(v0.0, log, last, n + 1);
  }

  // ----- The view object -----

  class NamespaceView {
    var docs: DocMap
    var meta: NamespaceMeta
    var lastApplied: nat
    var docLast: SeqMap

    constructor Empty()
      ensures docs == map[] && meta == EMPTY_META && lastApplied == 0 && docLast == map[]
    {
      docs, meta, lastApplied, docLast := map[], EMPTY_META, 0, map[];
    }

    /** `apply_committed`, with number 0 and nothing to do for a waiter of an empty flush.  Any batch
        keeps a healing view healing; one that leaves no gap, from its own number on. */
    method ApplyCommitted(n: nat, entry: Entry, ghost log: seq<Entry>, ghost base: nat, ghost high: nat)
      requires n <= |log| && entry == if n == 0 then NO_OPS else log[n - 1]
      modifies this
      ensures docs == ApplyEntry(old(docs), entry) && docLast == Stamped(old(docLast), n, entry)
      ensures lastApplied == n
      ensures meta == old(meta).(walCommitSeq := if n > old(meta.walCommitSeq) then n else old(meta.walCommitSeq))
      ensures n == 0 ==> docs == old(docs) && docLast == old(docLast)
      ensures old(Heals(docs, docLast, base, high, log)) ==>
        Heals(docs, docLast, if 1 <= n <= base + 1 then n else base, if high < n then n else high, log)
      ensures old(Fresh(docs, docLast, lastApplied, log)) && n >= 1 && old(lastApplied) <= n <= old(lastApplied) + 1 ==>
        Fresh(docs, docLast, lastApplied, log)
    {
      if n >= 1 {
        if Heals(docs, docLast, base, high, log) { ApplyKeepsHeals(docs, docLast, base, high, log, n); }
        if Fresh(docs, docLast, lastApplied, log) && lastApplied <= n <= lastApplied + 1 {
          ApplyKeepsFresh(docs, docLast, lastApplied, log, n);
        }
      }
      docLast := UpdateDocWalSeqMap(docLast, n, entry);
      docs := ApplyEntryInPlace(docs, entry);
      lastApplied := n;
      if n > meta.walCommitSeq { meta := meta.(walCommitSeq := n); }
    }

    method ApplySegment(n: nat, entry: Entry)
      modifies this`docs, this`docLast
      ensures docs == ApplyEntry(old(docs), entry) && docLast == Stamped(old(docLast), n, entry)
    {
      docLast := UpdateDocWalSeqMap(docLast, n, entry);
      docs := ApplyEntryInPlace(docs, entry);
    }

    /** The incremental branch of `catch_up`: read and apply one segment after another, stopping at
        a segment that is not found. */
    method ApplyTail(commit: nat, wal: Segments, ghost log: seq<Entry>) returns (found: bool, reached: nat)
      requires lastApplied <= commit <= |log| && GenuineSegments(wal, log)
      modifies this`docs, this`docLast
      ensures lastApplied <= reached <= commit && (found <==> reached == commit)
      ensures HasRange(wal, lastApplied + 1, commit) ==> found
      ensures TailDone((docs, docLast), old((docs, docLast)), lastApplied, reached, log)
    {
      var n := lastApplied + 1;
      ghost var before := (docs, docLast);
      TailStart(before, lastApplied, log);
      while n <= commit
        invariant lastApplied + 1 <= n <= commit + 1
        invariant TailDone((docs, docLast), before, lastApplied, n - 1, log)
      {
        if n !in wal { return false, n - 1; }
        TailStep((docs, docLast), before, lastApplied, n - 1, log);
        assert wal[n] == log[n - 1];
        ApplySegment(n, wal[n]);
        n := n + 1;
      }
      return true, commit;
    }

    /** `catch_up`, with `metaRead` read after every batch applied so far was committed.  A healing view
        stays one, and a successful catch-up leaves it fresh at the commit point, unless its number had
        run ahead of a batch it missed; reloading mends that too. */
    method CatchUp(metaRead: NamespaceMeta, snap: Option<Snapshot>, wal: Segments, walAgain: Segments,
                   ghost log: seq<Entry>, ghost base: nat, ghost high: nat)
      returns (r: Result<bool>, ghost base': nat, ghost high': nat)
      requires Heals(docs, docLast, base, high, log)
      requires GenuineSnapshot(snap, log) && GenuineSegments(wal, log) && GenuineSegments(walAgain, log)
      requires metaRead.walSnapshotSeq <= metaRead.walCommitSeq && high <= metaRead.walCommitSeq <= |log|
      modifies this
      ensures high' <= metaRead.walCommitSeq && Heals(docs, docLast, base', high', log)
      ensures old(lastApplied) <= base ==> lastApplied <= base'
      ensures r.Ok? ==> meta == metaRead
      ensures r.Ok? && (old(lastApplied) <= base || old(lastApplied) < metaRead.walSnapshotSeq) ==>
        lastApplied == metaRead.walCommitSeq && Fresh(docs, docLast, lastApplied, log)
    {
      if metaRead.walCommitSeq <= lastApplied {
        if lastApplied <= base { CurrentHealsFresh(docs, docLast, lastApplied, log); }
        meta := metaRead;
        return Ok(false), base, high;
      }
      if metaRead.walSnapshotSeq > lastApplied {
        r, base', high' := Reload(metaRead, snap, wal, walAgain, log, base, high);
        return;
      }
      ghost var docsBefore, stampsBefore := docs, docLast;
      var found, reached := ApplyTail(metaRead.walCommitSeq, wal, log);
      RunKeepsHeals(docsBefore, stampsBefore, base, high, log, lastApplied, reached);
      base', high' := if lastApplied <= base then reached else base, if high < reached then reached else high;
      if !found { return Err, base', high'; }
      if lastApplied <= base { CurrentHealsFresh(docs, docLast, metaRead.walCommitSeq, log); }
      lastApplied := metaRead.walCommitSeq;
      meta := metaRead;
      r := Ok(true);
    }

    /** The reload branch of `catch_up`, for a view that compaction has overtaken.  The documents are
        replaced before the stamps are rebuilt, so an error in between leaves new documents with the
        old stamps and applied number. */
    method Reload(metaRead: NamespaceMeta, snap: Option<Snapshot>, wal: Segments, walAgain: Segments,
                  ghost log: seq<Entry>, ghost base: nat, ghost high: nat)
      returns (r: Result<bool>, ghost base': nat, ghost high': nat)
      requires Heals(docs, docLast, base, high, log)
      requires GenuineSnapshot(snap, log) && GenuineSegments(wal, log) && GenuineSegments(walAgain, log)
      requires metaRead.walSnapshotSeq <= metaRead.walCommitSeq && high <= metaRead.walCommitSeq <= |log|
      modifies this
      ensures high' <= metaRead.walCommitSeq && Heals(docs, docLast, base', high', log)
      ensures old(lastApplied) <= base ==> lastApplied <= base'
      ensures r.Ok? ==> lastApplied == metaRead.walCommitSeq && meta == metaRead
      ensures r.Ok? ==> Fresh(docs, docLast, lastApplied, log)
    {
      base', high' := base, high;
      var loaded := LoadDocsAtWalCommit(metaRead, snap, wal);
      if loaded.Err? { return Err, base, high; }
      LoadedAtCommitCorrect(metaRead, snap, wal, log);
      docs := loaded.value.0;
      LoadedHealable(log, metaRead.walCommitSeq);
      high' := metaRead.walCommitSeq;
      var stamps := BuildDocLastWalSeq(metaRead, docs, walAgain);
      if stamps.Err? { return Err, base', high'; }
      BuiltDocLastFresh(metaRead, walAgain, log);
      docLast := stamps.value;
      lastApplied := loaded.value.1;
      meta := metaRead;
      FreshHeals(docs, docLast, lastApplied, log);
      return Ok(true), lastApplied, high';
    }
  }

  /** `load`: with genuine reads it yields a view exactly when both reading passes succeed, and that
      view is healable and fresh, at the commit point read. */
  method LoadView(metaRead: NamespaceMeta, snap: Option<Snapshot>, wal: Segments, walAgain: Segments,
                  ghost log: seq<Entry>)
    returns (view: NamespaceView?)
    requires GenuineSnapshot(snap, log) && GenuineSegments(wal, log) && GenuineSegments(walAgain, log)
    requires metaRead.walSnapshotSeq <= metaRead.walCommitSeq <= |log|
    ensures view != null <==>
      LoadedAtCommit(metaRead, snap, wal).Ok? && HasRange(walAgain, metaRead.walSnapshotSeq + 1, metaRead.walCommitSeq)
    ensures view != null ==> (
      && fresh(view) && view.lastApplied == metaRead.walCommitSeq && view.meta == metaRead
      && Fresh(view.docs, view.docLast, view.lastApplied, log)
      && Heals(view.docs, view.docLast, view.lastApplied, view.lastApplied, log))
  {
    var loaded := LoadDocsAtWalCommit(metaRead, snap, wal);
    if loaded.Err? { return null; }
    LoadedAtCommitCorrect(metaRead, snap, wal, log);
    var stamps := BuildDocLastWalSeq(metaRead, loaded.value.0, walAgain);
    if stamps.Err? { return null; }
    BuiltDocLastFresh(metaRead, walAgain, log);
    FreshHeals(loaded.value.0, stamps.value, metaRead.walCommitSeq, log);
    var loadedView := new NamespaceView.Empty();
    loadedView.docs, loadedView.meta := loaded.value.0, metaRead;
    loadedView.lastApplied, loadedView.docLast := loaded.value.1, stamps.value;
    view := loadedView;
  }
}
