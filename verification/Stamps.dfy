/** Stamps: for each live document, the number of the last batch that touched it
    (`update_doc_wal_seq_map` in `src/view.rs`).

    Like documents, stamps can be replayed.  Seen from one id, a run of batches fixes the stamp, renews
    it if there is one, or leaves it alone, and a run absorbs any part of itself done before.
 */
module Stamps {
  import opened Documents
  import opened Replay

  type SeqMap = map<Id, nat>

  function ForgetAll(m: SeqMap, ids: seq<Id>): SeqMap
    decreases |ids|
  {
    if ids == [] then m else ForgetAll(m - {ids[0]}, ids[1..])
  }

  function StampAll(m: SeqMap, rows: seq<Document>, n: nat): SeqMap
    decreases |rows|
  {
    if rows == [] then m else StampAll(m[rows[0].id := n], rows[1..], n)
  }

  function StampPresent(m: SeqMap, rows: seq<Document>, n: nat): SeqMap
    decreases |rows|
  {
    if rows == [] then m else StampPresent(if rows[0].id in m then m[rows[0].id := n] else m, rows[1..], n)
  }

  /** Deletes forget, upserts stamp, patches stamp what is present. */
  function Stamped(m: SeqMap, n: nat, e: Entry): SeqMap {
    StampPresent(StampAll(ForgetAll(m, e.deletes), e.upserts, n), e.patches, n)
  }

  method UpdateDocWalSeqMap(m: SeqMap, n: nat, e: Entry) returns (out: SeqMap)
    ensures out == Stamped(m, n, e)
  {
    out := m;
    var i := 0;
    while i < |e.deletes|
      invariant 0 <= i <= |e.deletes|
      invariant ForgetAll(out, e.deletes[i..]) == ForgetAll(m, e.deletes)
    {
      assert e.deletes[i..][1..] == e.deletes[i + 1..];
      out := out - {e.deletes[i]};
      i := i + 1;
    }
    i := 0;
    while i < |e.upserts|
      invariant 0 <= i <= |e.upserts|
      invariant StampAll(out, e.upserts[i..], n) == StampAll(ForgetAll(m, e.deletes), e.upserts, n)
    {
      assert e.upserts[i..][1..] == e.upserts[i + 1..];
      out := out[e.upserts[i].id := n];
      i := i + 1;
    }
    i := 0;
    while i < |e.patches|
      invariant 0 <= i <= |e.patches|
      invariant StampPresent(out, e.patches[i..], n) == Stamped(m, n, e)
    {
      assert e.patches[i..][1..] == e.patches[i + 1..];
      if e.patches[i].id in out { out := out[e.patches[i].id := n]; }
      i := i + 1;
    }
  }

  predicate Mentions(rows: seq<Document>, id: Id) {
    exists r :: r in rows && r.id == id
  }

  lemma MentionsHead(rows: seq<Document>, id: Id)
    requires rows != []
    ensures Mentions(rows, id) <==> rows[0].id == id || Mentions(rows[1..], id)
  {
    assert rows == [rows[0]] + rows[1..];
  }

  lemma {:induction false} ForgetAllAt(m: SeqMap, ids: seq<Id>, id: Id)
    ensures id in ForgetAll(m, ids) <==> id in m && id !in ids
    ensures id in ForgetAll(m, ids) ==> ForgetAll(m, ids)[id] == m[id]
    decreases |ids|
  {
    if ids != [] {
      ForgetAllAt(m - {ids[0]}, ids[1..], id);
      assert ids == [ids[0]] + ids[1..];
    }
  }

  lemma {:induction false} StampAllAt(m: SeqMap, rows: seq<Document>, n: nat, id: Id)
    ensures id in StampAll(m, rows, n) <==> id in m || Mentions(rows, id)
    ensures id in StampAll(m, rows, n) ==> StampAll(m, rows, n)[id] == if Mentions(rows, id) then n else m[id]
    decreases |rows|
  {
    if rows != [] {
      MentionsHead(rows, id);
      StampAllAt(m[rows[0].id := n], rows[1..], n, id);
    }
  }

  lemma {:induction false} StampPresentAt(m: SeqMap, rows: seq<Document>, n: nat, id: Id)
    ensures id in StampPresent(m, rows, n) <==> id in m
    ensures id in m ==> StampPresent(m, rows, n)[id] == if Mentions(rows, id) then n else m[id]
    decreases |rows|
  {
    if rows != [] {
      MentionsHead(rows, id);
      StampPresentAt(if rows[0].id in m then m[rows[0].id := n] else m, rows[1..], n, id);
    }
  }

  /** What an entry does to one id's stamp. */
  lemma StampedAt(m: SeqMap, n: nat, e: Entry, id: Id)
    ensures id in Stamped(m, n, e) <==> Mentions(e.upserts, id) || (id in m && id !in e.deletes)
    ensures id in Stamped(m, n, e) ==>
      Stamped(m, n, e)[id] == if Mentions(e.upserts, id) || Mentions(e.patches, id) then n else m[id]
  {
    var forgotten := ForgetAll(m, e.deletes);
    ForgetAllAt(m, e.deletes, id);
    StampAllAt(forgotten, e.upserts, n, id);
    StampPresentAt(StampAll(forgotten, e.upserts, n), e.patches, n, id);
  }

  /** And to the document itself, in the same terms. */
  lemma AppliedAt(docs: DocMap, e: Entry, id: Id)
    ensures id in ApplyEntry(docs, e) <==> Mentions(e.upserts, id) || (id in docs && id !in e.deletes)
    ensures !Mentions(e.upserts, id) && !Mentions(e.patches, id) && id !in e.deletes ==>
      Lookup(ApplyEntry(docs, e), id) == Lookup(docs, id)
  {
    LookupApply(docs, e, id);
    UpsertEffectCases(e.upserts, id);
    PatchEffectCases(e.patches, id);
    UntouchedActs(Lookup(docs, id));
    assert Lookup(docs, id).Some? <==> id in docs;
    assert Lookup(ApplyEntry(docs, e), id).Some? <==> id in ApplyEntry(docs, e);
  }

  // ----- Runs of batches -----

  /** The stamps after batches `m + 1` to `t`. */
  function Restamped(stamps: SeqMap, log: seq<Entry>, m: nat, t: nat): SeqMap
    requires m <= t <= |log|
    decreases t
  {
    if m == t then stamps else Stamped(Restamped(stamps, log, m, t - 1), t, log[t - 1])
  }

  function StampOf(stamps: SeqMap, id: Id): Option<nat> {
    if id in stamps then Some(stamps[id]) else None
  }

  lemma SameStamps(a: SeqMap, b: SeqMap)
    requires forall id :: StampOf(a, id) == StampOf(b, id)
    ensures a == b
  {
    forall id ensures id in a <==> id in b { assert StampOf(a, id) == StampOf(b, id); }
    forall id | id in a ensures a[id] == b[id] { assert StampOf(a, id) == StampOf(b, id); }
  }

  /** What a run of batches does to one id's stamp. */
  datatype StampEffect = Fix(stamp: Option<nat>) | Renew(n: nat) | Keep

  function StampAct(f: StampEffect, s: Option<nat>): Option<nat> {
    match f
    case Fix(stamp) => stamp
    case Renew(n) => if s.Some? then Some(n) else None
    case Keep => s
  }

  function StampThen(f: StampEffect, g: StampEffect): StampEffect {
    match g
    case Fix(_) => g
    case Keep => f
    case Renew(n) => if f.Fix? then Fix(StampAct(g, f.stamp)) else g
  }

  function EntryStamp(e: Entry, n: nat, id: Id): StampEffect {
    if Mentions(e.upserts, id) then Fix(Some(n))
    else if id in e.deletes then Fix(None)
    else if Mentions(e.patches, id) then Renew(n)
    else Keep
  }

  function RunStamp(log: seq<Entry>, m: nat, t: nat, id: Id): StampEffect
    requires m <= t <= |log|
    decreases t
  {
    if m == t then Keep else StampThen(RunStamp(log, m, t - 1, id), EntryStamp(log[t - 1], t, id))
  }

  lemma {:induction false} RestampedActs(stamps: SeqMap, log: seq<Entry>, m: nat, t: nat, id: Id)
    requires m <= t <= |log|
    ensures StampOf(Restamped(stamps, log, m, t), id) == StampAct(RunStamp(log, m, t, id), StampOf(stamps, id))
    decreases t
  {
    if m < t {
      RestampedActs(stamps, log, m, t - 1, id);
      StampedAt(Restamped(stamps, log, m, t - 1), t, log[t - 1], id);
    }
  }

  lemma {:induction false} RestampedJoins(stamps: SeqMap, log: seq<Entry>, m: nat, k: nat, t: nat)
    requires m <= k <= t <= |log|
    ensures Restamped(Restamped(stamps, log, m, k), log, k, t) == Restamped(stamps, log, m, t)
    decreases t
  {
    if k < t { RestampedJoins(stamps, log, m, k, t - 1); }
  }

  /** A part of a run does no more to a stamp than the run. */
  lemma {:induction false} PartOfRun(log: seq<Entry>, m: nat, a: nat, b: nat, t: nat, id: Id)
    requires m <= a <= b <= t <= |log|
    ensures RunStamp(log, m, t, id).Keep? ==> RunStamp(log, a, b, id).Keep?
    ensures RunStamp(log, a, b, id).Fix? ==> RunStamp(log, m, t, id).Fix?
    decreases t
  {
    if b < t {
      PartOfRun(log, m, a, b, t - 1, id);
    } else if a < t {
      PartOfRun(log, m, a, t - 1, t - 1, id);
    }
  }

  /** Replaying a run absorbs any part of it that was done before. */
  lemma RestampAbsorbs(stamps: SeqMap, log: seq<Entry>, m: nat, a: nat, b: nat, t: nat)
    requires m <= a <= b <= t <= |log|
    ensures Restamped(Restamped(stamps, log, a, b), log, m, t) == Restamped(stamps, log, m, t)
  {
    var twice, once := Restamped(Restamped(stamps, log, a, b), log, m, t), Restamped(stamps, log, m, t);
    forall id ensures StampOf(twice, id) == StampOf(once, id) {
      RestampedActs(stamps, log, a, b, id);
      RestampedActs(Restamped(stamps, log, a, b), log, m, t, id);
      RestampedActs(stamps, log, m, t, id);
      PartOfRun(log, m, a, b, t, id);
    }
    SameStamps(twice, once);
  }

  // ----- Fresh stamps -----

  /** Stamps are kept for exactly the live documents, and a document has not changed since its stamp. */
  ghost predicate Fresh(docs: DocMap, stamps: SeqMap, last: nat, log: seq<Entry>) {
    && last <= |log| && docs == At(log, last) && stamps.Keys == docs.Keys
    && forall id, c: nat :: id in docs && stamps[id] <= c <= last ==> Lookup(At(log, c), id) == Some(docs[id])
  }

  lemma EmptyFresh(log: seq<Entry>)
    ensures Fresh(map[], map[], 0, log)
  {
    assert At(log, 0) == map[];
  }

  /** The next batch keeps the stamps right. */
  lemma StampKeepsFresh(docs: DocMap, stamps: SeqMap, last: nat, log: seq<Entry>)
    requires Fresh(docs, stamps, last, log) && last < |log|
    ensures Fresh(ApplyEntry(docs, log[last]), Stamped(stamps, last + 1, log[last]), last + 1, log)
  {
    var e := log[last];
    var docs', stamps' := ApplyEntry(docs, e), Stamped(stamps, last + 1, e);
    AtNext(log, last);
    forall id ensures id in stamps' <==> id in docs' {
      StampedAt(stamps, last + 1, e, id);
      AppliedAt(docs, e, id);
    }
    forall id, c: nat | id in docs' && stamps'[id] <= c <= last + 1 ensures Lookup(At(log, c), id) == Some(docs'[id]) {
      StampedAt(stamps, last + 1, e, id);
      AppliedAt(docs, e, id);
      if c <= last {
        assert Lookup(docs', id) == Lookup(docs, id);
      }
    }
  }

  lemma {:induction false} RunKeepsFresh(stamps: SeqMap, m: nat, t: nat, log: seq<Entry>)
    requires m <= t <= |log| && Fresh(At(log, m), stamps, m, log)
    ensures Fresh(At(log, t), Restamped(stamps, log, m, t), t, log)
    decreases t
  {
    if m < t {
      RunKeepsFresh(stamps, m, t - 1, log);
      StampKeepsFresh(At(log, t - 1), Restamped(stamps, log, m, t - 1), t - 1, log);
      AtNext(log, t - 1);
    }
  }

  /** Redoing a run that ends where the stamps are keeps them right: it gives an id either the stamp it
      had, or the one that a replay from the beginning gives it. */
  lemma RedoKeepsFresh(stamps: SeqMap, m: nat, t: nat, log: seq<Entry>)
    requires m <= t <= |log| && Fresh(At(log, t), stamps, t, log)
    ensures Fresh(At(log, t), Restamped(stamps, log, m, t), t, log)
  {
    EmptyFresh(log);
    assert At(log, 0) == map[];
    var start := Restamped(map[], log, 0, m);
    RunKeepsFresh(map[], 0, m, log);
    RunKeepsFresh(start, m, t, log);
    var redone, replayed := Restamped(stamps, log, m, t), Restamped(start, log, m, t);
    forall id ensures StampOf(redone, id) == StampOf(replayed, id) || StampOf(redone, id) == StampOf(stamps, id) {
      RestampedActs(stamps, log, m, t, id);
      RestampedActs(start, log, m, t, id);
      assert id in stamps <==> id in replayed;
    }
    RightStamps(redone, replayed, stamps, At(log, t), t, log);
  }

  lemma RightStamps(stamps: SeqMap, a: SeqMap, b: SeqMap, docs: DocMap, t: nat, log: seq<Entry>)
    requires Fresh(docs, a, t, log) && Fresh(docs, b, t, log)
    requires forall id :: StampOf(stamps, id) == StampOf(a, id) || StampOf(stamps, id) == StampOf(b, id)
    ensures Fresh(docs, stamps, t, log)
  {
    forall id ensures id in stamps <==> id in docs {
      assert StampOf(stamps, id) == StampOf(a, id) || StampOf(stamps, id) == StampOf(b, id);
    }
    forall id, c: nat | id in docs && stamps[id] <= c <= t ensures Lookup(At(log, c), id) == Some(docs[id]) {
      assert StampOf(stamps, id) == StampOf(a, id) || StampOf(stamps, id) == StampOf(b, id);
    }
  }

  // ----- Stamps that heal -----

  /** Replaying the log onto the stamps from anywhere up to `base`, to anywhere from `high` on, makes
      them fresh. */
  ghost predicate StampsHeal(stamps: SeqMap, base: nat, high: nat, log: seq<Entry>) {
    && base <= high <= |log|
    && forall m: nat, t: nat {:trigger Restamped(stamps, log, m, t)} :: m <= base && high <= t <= |log| ==>
         Fresh(At(log, t), Restamped(stamps, log, m, t), t, log)
  }

  lemma FreshStampsHeal(stamps: SeqMap, n: nat, log: seq<Entry>)
    requires n <= |log| && Fresh(At(log, n), stamps, n, log)
    ensures StampsHeal(stamps, n, n, log)
  {
    forall m: nat, t: nat {:trigger Restamped(stamps, log, m, t)} | m <= n <= t <= |log|
      ensures Fresh(At(log, t), Restamped(stamps, log, m, t), t, log)
    {
      RedoKeepsFresh(stamps, m, n, log);
      RunKeepsFresh(Restamped(stamps, log, m, n), n, t, log);
      RestampedJoins(stamps, log, m, n, t);
    }
  }

  /** Redoing batches `a + 1` to `b`, whichever they are, keeps the stamps healable: from `b` if the run
      starts where the stamps can be replayed from, and otherwise from where they could be before. */
  lemma RunKeepsStampsHeal(stamps: SeqMap, base: nat, high: nat, log: seq<Entry>, a: nat, b: nat)
    requires StampsHeal(stamps, base, high, log) && a <= b <= |log|
    ensures StampsHeal(Restamped(stamps, log, a, b), if a <= base then b else base, if high < b then b else high, log)
  {
    var stamps' := Restamped(stamps, log, a, b);
    var base', high' := if a <= base then b else base, if high < b then b else high;
    forall m: nat, t: nat {:trigger Restamped(stamps', log, m, t)} | m <= base' && high' <= t <= |log|
      ensures Fresh(At(log, t), Restamped(stamps', log, m, t), t, log)
    {
      if m <= a {
        RestampAbsorbs(stamps, log, m, a, b, t);
      } else {
        var atM := Restamped(stamps, log, a, m);
        RestampedJoins(stamps, log, a, m, b);
        RestampAbsorbs(atM, log, m, m, b, t);
        RestampedJoins(stamps, log, a, m, t);
      }
    }
  }

  lemma {:induction false} RestampedPrefix(stamps: SeqMap, log: seq<Entry>, more: seq<Entry>, m: nat, t: nat)
    requires m <= t <= |log|
    ensures Restamped(stamps, log + more, m, t) == Restamped(stamps, log, m, t)
    decreases t
  {
    if m < t { RestampedPrefix(stamps, log, more, m, t - 1); }
  }

  lemma FreshExtends(docs: DocMap, stamps: SeqMap, n: nat, log: seq<Entry>, more: seq<Entry>)
    requires Fresh(docs, stamps, n, log)
    ensures Fresh(docs, stamps, n, log + more)
  {
    AtPrefix(log, more, n);
    forall id, c: nat | id in docs && stamps[id] <= c <= n ensures Lookup(At(log + more, c), id) == Some(docs[id]) {
      AtPrefix(log, more, c);
    }
  }

  /** Healing survives new commits. */
  lemma StampsHealExtends(stamps: SeqMap, base: nat, high: nat, log: seq<Entry>, more: seq<Entry>)
    requires StampsHeal(stamps, base, high, log)
    ensures StampsHeal(stamps, base, high, log + more)
  {
    var log' := log + more;
    forall m: nat, t: nat {:trigger Restamped(stamps, log', m, t)} | m <= base && high <= t <= |log'|
      ensures Fresh(At(log', t), Restamped(stamps, log', m, t), t, log')
    {
      var k := if t <= |log| then t else |log|;
      assert Fresh(At(log, k), Restamped(stamps, log, m, k), k, log);
      FreshExtends(At(log, k), Restamped(stamps, log, m, k), k, log, more);
      RestampedPrefix(stamps, log, more, m, k);
      AtPrefix(log, more, k);
      RunKeepsFresh(Restamped(stamps, log', m, k), k, t, log');
      RestampedJoins(stamps, log', m, k, t);
    }
  }
}
