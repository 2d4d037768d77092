/** Replaying the log.

    The committed log is a sequence of entries; the documents of a namespace at sequence number
    n are the replay of its first n entries from nothing.  Seen from a single document id, an
    entry either fixes the outcome or merges attributes, and these effects compose; that is
    what makes replays repeatable.
 */
module Replay {
  import opened Documents

  /** Entries applied in order. */
  function Replayed(es: seq<Entry>, docs: DocMap): DocMap {
    if es == [] then docs else ApplyEntry(Replayed(es[..|es| - 1], docs), es[|es| - 1])
  }

  /** The documents at sequence number `n`: entry `n` is `log[n - 1]`. */
  function At(log: seq<Entry>, n: nat): DocMap
    requires n <= |log|
  {
    Replayed(log[..n], map[])
  }

  // ----- One document's view of an entry -----

  /** What a run of entries does to one document id. */
  datatype Effect = Fixed(doc: Option<Document>) | Merge(attrs: Attributes)

  function Act(eff: Effect, before: Option<Document>): Option<Document> {
    match eff
    case Fixed(doc) => doc
    case Merge(attrs) => if before.None? then None else Some(Merged(before.value, attrs))
  }

  function Then(first: Effect, second: Effect): Effect {
    match second
    case Fixed(_) => second
    case Merge(attrs) =>
      match first
      case Fixed(doc) => Fixed(Act(second, doc))
      case Merge(before) => Merge(before + attrs)
  }

  lemma ThenActs(first: Effect, second: Effect, before: Option<Document>)
    ensures Act(Then(first, second), before) == Act(second, Act(first, before))
  {
    if first.Merge? && second.Merge? && before.Some? {
      assert (before.value.attributes + first.attrs) + second.attrs
          == before.value.attributes + (first.attrs + second.attrs);
    }
  }

  const UNTOUCHED: Effect := Merge(map[])

  function DeleteEffect(deletes: seq<Id>, id: Id): Effect {
    if id in deletes then Fixed(None) else UNTOUCHED
  }

  function UpsertEffect(upserts: seq<Document>, id: Id): Effect {
    if upserts == [] then UNTOUCHED
    else Then(if upserts[0].id == id then Fixed(Some(upserts[0])) else UNTOUCHED, UpsertEffect(upserts[1..], id))
  }

  function PatchEffect(patches: seq<Document>, id: Id): Effect {
    if patches == [] then UNTOUCHED
    else Then(if patches[0].id == id then Merge(patches[0].attributes) else UNTOUCHED, PatchEffect(patches[1..], id))
  }

  function EntryEffect(e: Entry, id: Id): Effect {
    Then(Then(DeleteEffect(e.deletes, id), UpsertEffect(e.upserts, id)), PatchEffect(e.patches, id))
  }

  lemma UntouchedActs(before: Option<Document>)
    ensures Act(UNTOUCHED, before) == before
  {
    if before.Some? { assert before.value.attributes + map[] == before.value.attributes; }
  }

  lemma {:induction false} LookupRemoveAll(docs: DocMap, ids: seq<Id>, id: Id)
    ensures Lookup(RemoveAll(docs, ids), id) == Act(DeleteEffect(ids, id), Lookup(docs, id))
    decreases |ids|
  {
    UntouchedActs(Lookup(docs, id));
    if ids != [] {
      LookupRemoveAll(docs - {ids[0]}, ids[1..], id);
      UntouchedActs(Lookup(docs - {ids[0]}, id));
      assert ids == [ids[0]] + ids[1..];
    }
  }

  lemma {:induction false} LookupPutAll(docs: DocMap, upserts: seq<Document>, id: Id)
    ensures Lookup(PutAll(docs, upserts), id) == Act(UpsertEffect(upserts, id), Lookup(docs, id))
    decreases |upserts|
  {
    UntouchedActs(Lookup(docs, id));
    if upserts != [] {
      var head := if upserts[0].id == id then Fixed(Some(upserts[0])) else UNTOUCHED;
      LookupPutAll(docs[upserts[0].id := upserts[0]], upserts[1..], id);
      ThenActs(head, UpsertEffect(upserts[1..], id), Lookup(docs, id));
    }
  }

  lemma {:induction false} LookupPatchAll(docs: DocMap, patches: seq<Document>, id: Id)
    ensures Lookup(PatchAll(docs, patches), id) == Act(PatchEffect(patches, id), Lookup(docs, id))
    decreases |patches|
  {
    UntouchedActs(Lookup(docs, id));
    if patches != [] {
      var head := if patches[0].id == id then Merge(patches[0].attributes) else UNTOUCHED;
      LookupPatchAll(PatchOne(docs, patches[0]), patches[1..], id);
      ThenActs(head, PatchEffect(patches[1..], id), Lookup(docs, id));
    }
  }

  /** One entry, seen from one id, is one effect. */
  lemma LookupApply(docs: DocMap, e: Entry, id: Id)
    ensures Lookup(ApplyEntry(docs, e), id) == Act(EntryEffect(e, id), Lookup(docs, id))
  {
    var d, u, p := DeleteEffect(e.deletes, id), UpsertEffect(e.upserts, id), PatchEffect(e.patches, id);
    var removed := RemoveAll(docs, e.deletes);
    LookupRemoveAll(docs, e.deletes, id);
    LookupPutAll(removed, e.upserts, id);
    LookupPatchAll(PutAll(removed, e.upserts), e.patches, id);
    ThenActs(d, u, Lookup(docs, id));
    ThenActs(Then(d, u), p, Lookup(docs, id));
  }

  function RunEffect(es: seq<Entry>, id: Id): Effect {
    if es == [] then UNTOUCHED else Then(RunEffect(es[..|es| - 1], id), EntryEffect(es[|es| - 1], id))
  }

  /** So is a whole replay. */
  lemma {:induction false} LookupReplayed(es: seq<Entry>, docs: DocMap, id: Id)
    ensures Lookup(Replayed(es, docs), id) == Act(RunEffect(es, id), Lookup(docs, id))
  {
    UntouchedActs(Lookup(docs, id));
    if es != [] {
      var front, last := es[..|es| - 1], es[|es| - 1];
      LookupReplayed(front, docs, id);
      LookupApply(Replayed(front, docs), last, id);
      ThenActs(RunEffect(front, id), EntryEffect(last, id), Lookup(docs, id));
    }
  }

  // ----- Replays compose -----

  lemma {:induction false} ReplayedConcat(a: seq<Entry>, b: seq<Entry>, docs: DocMap)
    ensures Replayed(a + b, docs) == Replayed(b, Replayed(a, docs))
  {
    if b == [] {
      assert a + b == a;
    } else {
      var front := b[..|b| - 1];
      ReplayedConcat(a, front, docs);
      assert (a + b)[..|a + b| - 1] == a + front;
    }
  }

  /** Replaying the entries after `m` onto the state at `m` reaches the state at `n`. */
  lemma ReplayFrom(log: seq<Entry>, m: nat, n: nat)
    requires m <= n <= |log|
    ensures Replayed(log[m..n], At(log, m)) == At(log, n)
  {
    ReplayedConcat(log[..m], log[m..n], map[]);
    assert log[..m] + log[m..n] == log[..n];
  }

  lemma AtNext(log: seq<Entry>, n: nat)
    requires n < |log|
    ensures At(log, n + 1) == ApplyEntry(At(log, n), log[n])
  {
    assert log[..n + 1][..n] == log[..n];
  }

  /** The state at `n` does not depend on what is appended later. */
  lemma AtPrefix(log: seq<Entry>, more: seq<Entry>, n: nat)
    requires n <= |log|
    ensures At(log + more, n) == At(log, n)
  {
    assert (log + more)[..n] == log[..n];
  }

  lemma {:induction false} ReplayedKeyed(es: seq<Entry>, docs: DocMap)
    requires Keyed(docs)
    ensures Keyed(Replayed(es, docs))
  {
    if es != [] {
      ReplayedKeyed(es[..|es| - 1], docs);
      ApplyEntryKeyed(Replayed(es[..|es| - 1], docs), es[|es| - 1]);
    }
  }

  lemma AtKeyed(log: seq<Entry>, n: nat)
    requires n <= |log|
    ensures Keyed(At(log, n))
  {
    ReplayedKeyed(log[..n], map[]);
  }

  // ----- Absorption -----

  /** A run that only merges into `id` is made of entries that only merge into it, and it covers
      every attribute they set. */
  lemma {:induction false} MergeRunCovers(es: seq<Entry>, id: Id, e: Entry)
    requires RunEffect(es, id).Merge? && e in es
    ensures EntryEffect(e, id).Merge?
    ensures EntryEffect(e, id).attrs.Keys <= RunEffect(es, id).attrs.Keys
  {
    var front, last := es[..|es| - 1], es[|es| - 1];
    if e != last {
      assert es == front + [last];
      MergeRunCovers(front, id, e);
    }
  }

  lemma {:induction false} DrawnRunMerges(xs: seq<Entry>, es: seq<Entry>, id: Id)
    requires RunEffect(es, id).Merge?
    requires forall x :: x in xs ==> x in es
    ensures RunEffect(xs, id).Merge?
    ensures RunEffect(xs, id).attrs.Keys <= RunEffect(es, id).attrs.Keys
  {
    if xs != [] {
      var front, last := xs[..|xs| - 1], xs[|xs| - 1];
      assert last in xs;
      DrawnRunMerges(front, es, id);
      MergeRunCovers(es, id, last);
    }
  }

  lemma CoveredMergeVanishes(small: Attributes, large: Attributes, before: Option<Document>)
    requires small.Keys <= large.Keys
    ensures Act(Merge(large), Act(Merge(small), before)) == Act(Merge(large), before)
  {
    if before.Some? {
      assert (before.value.attributes + small) + large == before.value.attributes + large;
    }
  }

  /** Entries already contained in a run, applied beforehand in any order and any number of
      times, leave no trace once the run is replayed. */
  lemma ReplayAbsorbs(xs: seq<Entry>, es: seq<Entry>, docs: DocMap)
    requires forall x :: x in xs ==> x in es
    ensures Replayed(es, Replayed(xs, docs)) == Replayed(es, docs)
  {
    var twice, once := Replayed(es, Replayed(xs, docs)), Replayed(es, docs);
    forall id ensures Lookup(twice, id) == Lookup(once, id) {
      LookupReplayed(es, Replayed(xs, docs), id);
      LookupReplayed(xs, docs, id);
      LookupReplayed(es, docs, id);
      if RunEffect(es, id).Merge? {
        DrawnRunMerges(xs, es, id);
        CoveredMergeVanishes(RunEffect(xs, id).attrs, RunEffect(es, id).attrs, Lookup(docs, id));
      }
    }
    SameLookup(twice, once);
  }

  /** Replaying a run of entries twice is replaying it once. */
  lemma ReplayIdempotent(es: seq<Entry>, docs: DocMap)
    ensures Replayed(es, Replayed(es, docs)) == Replayed(es, docs)
  {
    ReplayAbsorbs(es, es, docs);
  }

  /** Replaying from a stale cursor `m <= s` onto the state at `s` still gives the state at `t`. */
  lemma ReplayFromStaleCursor(log: seq<Entry>, m: nat, s: nat, t: nat)
    requires m <= s <= t <= |log|
    ensures Replayed(log[m..t], At(log, s)) == At(log, t)
  {
    ReplayFrom(log, m, s);
    assert forall x :: x in log[m..s] ==> x in log[m..t] by { assert log[m..t] == log[m..s] + log[s..t]; }
    ReplayAbsorbs(log[m..s], log[m..t], At(log, m));
    ReplayFrom(log, m, t);
  }

  // ----- Untouched documents -----

  predicate Touches(e: Entry, id: Id) {
    || id in e.deletes
    || (exists u :: u in e.upserts && u.id == id)
    || (exists p :: p in e.patches && p.id == id)
  }

  lemma {:induction false} UpsertEffectCases(upserts: seq<Document>, id: Id)
    ensures (forall u :: u in upserts ==> u.id != id) ==> UpsertEffect(upserts, id) == UNTOUCHED
    ensures (exists u :: u in upserts && u.id == id) ==>
      UpsertEffect(upserts, id).Fixed? && UpsertEffect(upserts, id).doc.Some?
  {
    if upserts != [] {
      UpsertEffectCases(upserts[1..], id);
      assert upserts == [upserts[0]] + upserts[1..];
    }
  }

  lemma {:induction false} PatchEffectCases(patches: seq<Document>, id: Id)
    ensures PatchEffect(patches, id).Merge?
    ensures (forall p :: p in patches ==> p.id != id) ==> PatchEffect(patches, id) == UNTOUCHED
  {
    if patches != [] {
      PatchEffectCases(patches[1..], id);
      assert patches == [patches[0]] + patches[1..];
    }
  }

  lemma UntouchedEntry(e: Entry, id: Id)
    requires !Touches(e, id)
    ensures EntryEffect(e, id) == UNTOUCHED
  {
    UpsertEffectCases(e.upserts, id);
    PatchEffectCases(e.patches, id);
  }

  lemma {:induction false} UntouchedRun(es: seq<Entry>, id: Id)
    requires forall e :: e in es ==> !Touches(e, id)
    ensures RunEffect(es, id) == UNTOUCHED
  {
    if es != [] {
      UntouchedRun(es[..|es| - 1], id);
      assert es[|es| - 1] in es;
      UntouchedEntry(es[|es| - 1], id);
    }
  }

  /** A document no entry in `(m, n]` names is the same at `m` and at `n`. */
  lemma UntouchedSame(log: seq<Entry>, m: nat, n: nat, id: Id)
    requires m <= n <= |log|
    requires forall e :: e in log[m..n] ==> !Touches(e, id)
    ensures Lookup(At(log, n), id) == Lookup(At(log, m), id)
  {
    ReplayFrom(log, m, n);
    LookupReplayed(log[m..n], At(log, m), id);
    UntouchedRun(log[m..n], id);
    UntouchedActs(Lookup(At(log, m), id));
  }
}
