/** What becomes of one call of `write` (`src/buffer.rs`): which batch takes it, whether that batch
    reaches the log, what the caller is told, and whether its schema patch goes with it.

    Each is said over the actions of a run: a call stays in the buffer until the first take after it,
    and in that batch until the first append after the take.
 */
module CallFates {
  import opened Documents
  import opened GroupCommit

  // ----- The actions that decide -----

  predicate Writes(a: Action, id: nat) {
    (a.AWriteOk? || a.AWriteMergeError?) && a.id == id
  }

  /** The buffer is emptied: into a batch, or as nothing. */
  predicate Takes(s: State, a: Action) {
    (a.ADrain? && !IsEmpty(s.buffer)) || (a.AFinishEmpty? && IsEmpty(s.buffer))
  }

  predicate Appends(a: Action) {
    a.AAppendOk? || a.AAppendFails?
  }

  predicate Commits(a: Action) {
    a.AAppendOk? || (a.AAppendFails? && a.committed)
  }

  ghost predicate NoTake(states: seq<State>, actions: seq<Action>, i: nat, j: nat)
    requires j <= |actions| < |states|
  {
    forall x :: i <= x < j ==> !Takes(states[x], actions[x])
  }

  ghost predicate NoAppend(actions: seq<Action>, i: nat, j: nat)
    requires j <= |actions|
  {
    forall x :: i <= x < j ==> !Appends(actions[x])
  }

  ghost predicate NoMergeError(actions: seq<Action>, i: nat, j: nat)
    requires j <= |actions|
  {
    forall x :: i <= x < j ==> !actions[x].AWriteMergeError?
  }

  /** The call at `w` is taken into a batch by the drain at `d`. */
  ghost predicate DrainedAt(states: seq<State>, actions: seq<Action>, w: nat, d: nat)
    requires |actions| < |states|
  {
    w < d < |actions| && actions[d].ADrain? && Takes(states[d], actions[d]) && NoTake(states, actions, w + 1, d)
  }

  /** And the append at `p` ends that batch. */
  ghost predicate AppendedAt(states: seq<State>, actions: seq<Action>, w: nat, d: nat, p: nat)
    requires |actions| < |states|
  {
    DrainedAt(states, actions, w, d) && d < p < |actions| && Appends(actions[p]) && NoAppend(actions, d + 1, p)
  }

  // ----- Stages of a call -----

  /** Waits for an answer in no batch, and has had none. */
  ghost predicate Unheard(s: State, id: nat) {
    id !in s.acked && id !in s.waiters && (s.phase.InFlight? || s.phase.Appended? ==> id !in s.phase.waiters)
  }

  /** Waiting in the buffer; `ok` if its own merge succeeded, `patched` if its patch is in the buffer. */
  ghost predicate Buffering(s: State, id: nat, ok: bool, patched: bool) {
    && id in s.place && s.place[id] == Buffered && id in s.buffer.writers && id !in s.acked
    && (id in s.failed <==> !ok) && (id in s.buffer.schemaBy <==> patched)
    && (if ok then id in s.waiters else Unheard(s, id))
  }

  ghost predicate Travelling(s: State, id: nat, ok: bool, patched: bool) {
    && s.phase.InFlight? && id in s.place && s.place[id] == Flying && id in s.phase.batch.writers && id !in s.acked
    && (id in s.failed <==> !ok) && (id in s.phase.batch.schemaBy <==> patched)
    && (if ok then id in s.phase.waiters else Unheard(s, id))
  }

  /** In log entry `n`, or with `n == 0` in none. */
  ghost predicate Ended(s: State, id: nat, n: nat, failed: bool, patched: bool) {
    && id in s.place && (id in s.failed <==> failed) && (failed ==> Unheard(s, id))
    && (id in s.acked ==> s.acked[id] == n)
    && if n == 0 then s.place[id] == Gone
       else s.place[id] == Logged(n) && n <= |s.log| && id in s.log[n - 1].writers
            && (id in s.log[n - 1].schemaBy <==> patched)
  }

  ghost predicate FailedKnown(s: State) {
    s.failed <= s.written.Keys
  }

  lemma {:induction false} RunFailedKnown(states: seq<State>, actions: seq<Action>, interval: nat, k: nat)
    requires IsRun(states, actions, interval) && k < |states|
    ensures FailedKnown(states[k])
  {
    if k > 0 {
      RunFailedKnown(states, actions, interval, k - 1);
      RunInv(states, actions, interval, k - 1);
      FailedKnownStep(states[k - 1], actions[k - 1], states[k], interval);
    }
  }

  lemma FailedKnownStep(s: State, a: Action, s': State, interval: nat)
    requires Inv(s, interval) && Step(s, a, s', interval) && FailedKnown(s)
    ensures FailedKnown(s')
  {
  }

  lemma WrittenStage(s: State, a: Action, s': State, interval: nat, id: nat)
    requires Inv(s, interval) && FailedKnown(s) && Step(s, a, s', interval) && Writes(a, id)
    ensures Buffering(s', id, a.AWriteOk?, a.AWriteOk? && a.w.schema)
  {
    assert id !in s.buffer.schemaBy;
  }

  /** Who waits for what. */
  lemma WaitersPlaced(s: State, interval: nat, id: nat)
    requires Inv(s, interval) && id in s.place
    ensures id in s.waiters ==> s.place[id] == Buffered
    ensures s.phase.InFlight? && id in s.phase.waiters ==> s.place[id] == Flying
    ensures s.phase.Appended? && id in s.phase.waiters ==> s.place[id] == Logged(s.phase.seqNo)
    ensures id in s.acked && s.acked[id] > 0 ==> s.place[id] == Logged(s.acked[id])
    ensures s.place.Keys == s.written.Keys
  {
    if id in s.acked { assert AckOk(s, id); }
  }

  lemma BufferingStep(s: State, a: Action, s': State, interval: nat, id: nat, ok: bool, patched: bool)
    requires Inv(s, interval) && Step(s, a, s', interval) && Buffering(s, id, ok, patched)
    ensures !Takes(s, a) ==> Buffering(s', id, ok, patched && !a.AWriteMergeError?)
    ensures Takes(s, a) && a.ADrain? ==> Travelling(s', id, ok, patched)
    ensures Takes(s, a) && !a.ADrain? ==> Ended(s', id, 0, !ok, false)
  {
    WaitersPlaced(s, interval, id);
  }

  lemma TravellingStep(s: State, a: Action, s': State, interval: nat, id: nat, ok: bool, patched: bool)
    requires Inv(s, interval) && Step(s, a, s', interval) && Travelling(s, id, ok, patched)
    ensures !Appends(a) ==> Travelling(s', id, ok, patched)
    ensures Appends(a) ==>
      Ended(s', id, if Commits(a) then |s.log| + 1 else 0, !ok || a.AAppendFails?, patched)
  {
  }

  /** The operations of a call that has ended do not move. */
  lemma EndedStays(s: State, a: Action, s': State, interval: nat, id: nat)
    requires Inv(s, interval) && Step(s, a, s', interval)
    requires id in s.place && (s.place[id].Gone? || s.place[id].Logged?)
    ensures id in s'.place && s'.place[id] == s.place[id] && s.log <= s'.log
  {
  }

  lemma EndedAnswer(s: State, a: Action, s': State, interval: nat, id: nat, n: nat, failed: bool, patched: bool)
    requires Inv(s, interval) && Step(s, a, s', interval) && Ended(s, id, n, failed, patched)
    ensures (id in s'.failed <==> failed) && (failed ==> Unheard(s', id))
    ensures id in s'.acked ==> s'.acked[id] == n
  {
    WaitersPlaced(s, interval, id);
  }

  lemma EndedStep(s: State, a: Action, s': State, interval: nat, id: nat, n: nat, failed: bool, patched: bool)
    requires Inv(s, interval) && Step(s, a, s', interval) && Ended(s, id, n, failed, patched)
    ensures Ended(s', id, n, failed, patched)
  {
    EndedStays(s, a, s', interval, id);
    EndedAnswer(s, a, s', interval, id, n, failed, patched);
  }

  // ----- Stages over a run -----

  lemma RunWritten(states: seq<State>, actions: seq<Action>, interval: nat, w: nat, id: nat)
    requires IsRun(states, actions, interval) && w < |actions| && Writes(actions[w], id)
    ensures var ok := actions[w].AWriteOk?; Buffering(states[w + 1], id, ok, ok && actions[w].w.schema)
  {
    RunInv(states, actions, interval, w);
    RunFailedKnown(states, actions, interval, w);
    WrittenStage(states[w], actions[w], states[w + 1], interval, id);
  }

  lemma RunBuffering(states: seq<State>, actions: seq<Action>, interval: nat, k: nat, id: nat, ok: bool, patched: bool)
    requires IsRun(states, actions, interval) && k < |actions| && Buffering(states[k], id, ok, patched)
    ensures var s, a, s' := states[k], actions[k], states[k + 1];
      && (!Takes(s, a) ==> Buffering(s', id, ok, patched && !a.AWriteMergeError?))
      && (Takes(s, a) && a.ADrain? ==> Travelling(s', id, ok, patched))
      && (Takes(s, a) && !a.ADrain? ==> Ended(s', id, 0, !ok, false))
  {
    RunInv(states, actions, interval, k);
    BufferingStep(states[k], actions[k], states[k + 1], interval, id, ok, patched);
  }

  lemma RunTravelling(states: seq<State>, actions: seq<Action>, interval: nat, k: nat, id: nat, ok: bool, patched: bool)
    requires IsRun(states, actions, interval) && k < |actions| && Travelling(states[k], id, ok, patched)
    ensures var a, s' := actions[k], states[k + 1];
      if Appends(a)
      then Ended(s', id, if Commits(a) then |states[k].log| + 1 else 0, !ok || a.AAppendFails?, patched)
      else Travelling(s', id, ok, patched)
  {
    RunInv(states, actions, interval, k);
    TravellingStep(states[k], actions[k], states[k + 1], interval, id, ok, patched);
  }

  lemma RunEnded(states: seq<State>, actions: seq<Action>, interval: nat, k: nat, id: nat, n: nat, failed: bool,
                 patched: bool)
    requires IsRun(states, actions, interval) && k < |actions| && Ended(states[k], id, n, failed, patched)
    ensures Ended(states[k + 1], id, n, failed, patched)
  {
    RunInv(states, actions, interval, k);
    EndedStep(states[k], actions[k], states[k + 1], interval, id, n, failed, patched);
  }

  /** The patch of the call at `w` is still merged at `d`. */
  ghost predicate Patched(actions: seq<Action>, w: nat, d: nat)
    requires w < d <= |actions|
  {
    actions[w].AWriteOk? && actions[w].w.schema && NoMergeError(actions, w + 1, d)
  }

  lemma {:induction false} BufferingUntil(states: seq<State>, actions: seq<Action>, interval: nat, w: nat, k: nat,
                                          id: nat)
    requires IsRun(states, actions, interval) && w < k <= |actions| && Writes(actions[w], id)
    requires NoTake(states, actions, w + 1, k)
    ensures Buffering(states[k], id, actions[w].AWriteOk?, Patched(actions, w, k))
  {
    if k == w + 1 {
      RunWritten(states, actions, interval, w, id);
      assert NoMergeError(actions, w + 1, k);
    } else {
      BufferingUntil(states, actions, interval, w, k - 1, id);
      RunBuffering(states, actions, interval, k - 1, id, actions[w].AWriteOk?, Patched(actions, w, k - 1));
      assert Patched(actions, w, k) <==> Patched(actions, w, k - 1) && !actions[k - 1].AWriteMergeError?;
    }
  }

  lemma {:induction false} TravellingUntil(states: seq<State>, actions: seq<Action>, interval: nat, w: nat, d: nat,
                                           k: nat, id: nat)
    requires IsRun(states, actions, interval) && DrainedAt(states, actions, w, d) && Writes(actions[w], id)
    requires d < k <= |actions| && NoAppend(actions, d + 1, k)
    ensures Travelling(states[k], id, actions[w].AWriteOk?, Patched(actions, w, d))
  {
    if k == d + 1 {
      BufferingUntil(states, actions, interval, w, d, id);
      RunBuffering(states, actions, interval, d, id, actions[w].AWriteOk?, Patched(actions, w, d));
    } else {
      TravellingUntil(states, actions, interval, w, d, k - 1, id);
      RunTravelling(states, actions, interval, k - 1, id, actions[w].AWriteOk?, Patched(actions, w, d));
    }
  }

  lemma {:induction false} EndedFrom(states: seq<State>, actions: seq<Action>, interval: nat, i: nat, k: nat,
                                     id: nat, n: nat, failed: bool, patched: bool)
    requires IsRun(states, actions, interval) && i <= k < |states| && Ended(states[i], id, n, failed, patched)
    ensures Ended(states[k], id, n, failed, patched)
  {
    if i < k {
      EndedFrom(states, actions, interval, i, k - 1, id, n, failed, patched);
      RunEnded(states, actions, interval, k - 1, id, n, failed, patched);
    }
  }

  lemma EndedByAppend(states: seq<State>, actions: seq<Action>, interval: nat, w: nat, d: nat, p: nat, k: nat, id: nat)
    requires IsRun(states, actions, interval) && AppendedAt(states, actions, w, d, p) && Writes(actions[w], id)
    requires p < k < |states|
    ensures Ended(states[k], id, if Commits(actions[p]) then |states[p].log| + 1 else 0,
                  !actions[w].AWriteOk? || actions[p].AAppendFails?, Patched(actions, w, d))
  {
    TravellingUntil(states, actions, interval, w, d, p, id);
    RunTravelling(states, actions, interval, p, id, actions[w].AWriteOk?, Patched(actions, w, d));
    EndedFrom(states, actions, interval, p + 1, k, id, if Commits(actions[p]) then |states[p].log| + 1 else 0,
              !actions[w].AWriteOk? || actions[p].AAppendFails?, Patched(actions, w, d));
  }

  lemma EndedAsNothing(states: seq<State>, actions: seq<Action>, interval: nat, w: nat, d: nat, k: nat, id: nat)
    requires IsRun(states, actions, interval) && w < d < k <= |actions| && Writes(actions[w], id)
    requires actions[d].AFinishEmpty? && Takes(states[d], actions[d]) && NoTake(states, actions, w + 1, d)
    ensures Ended(states[k], id, 0, !actions[w].AWriteOk?, false)
  {
    BufferingUntil(states, actions, interval, w, d, id);
    RunBuffering(states, actions, interval, d, id, actions[w].AWriteOk?, Patched(actions, w, d));
    EndedFrom(states, actions, interval, d + 1, k, id, 0, !actions[w].AWriteOk?, false);
  }

  /** A call is in the buffer, taken as nothing, in flight, or ended by an append. */
  datatype Fate = Waits | Nothing(d: nat) | Flies(d: nat) | Ends(d: nat, p: nat)

  ghost predicate HasFate(states: seq<State>, actions: seq<Action>, w: nat, k: nat, fate: Fate)
    requires k <= |actions| < |states|
  {
    match fate
    case Waits => NoTake(states, actions, w + 1, k)
    case Nothing(d) =>
      w < d < k && actions[d].AFinishEmpty? && Takes(states[d], actions[d]) && NoTake(states, actions, w + 1, d)
    case Flies(d) => d < k && DrainedAt(states, actions, w, d) && NoAppend(actions, d + 1, k)
    case Ends(d, p) => p < k && AppendedAt(states, actions, w, d, p)
  }

  lemma {:induction false} FateOf(states: seq<State>, actions: seq<Action>, w: nat, k: nat) returns (fate: Fate)
    requires w < k <= |actions| < |states|
    ensures HasFate(states, actions, w, k, fate)
    decreases k
  {
    fate := Waits;
    if k > w + 1 {
      fate := FateOf(states, actions, w, k - 1);
      if fate.Waits? && Takes(states[k - 1], actions[k - 1]) {
        fate := if actions[k - 1].ADrain? then Flies(k - 1) else Nothing(k - 1);
      } else if fate.Flies? && Appends(actions[k - 1]) {
        fate := Ends(fate.d, k - 1);
      }
    }
  }

  // ----- Whose operations reach the log -----

  ghost predicate InLog(s: State, id: nat) {
    exists j :: 0 <= j < |s.log| && id in s.log[j].writers
  }

  /** The batch of the call at `w` was committed before `k`. */
  ghost predicate CommittedBefore(states: seq<State>, actions: seq<Action>, w: nat, k: nat)
    requires |actions| < |states|
  {
    exists d: nat, p: nat :: p < k && AppendedAt(states, actions, w, d, p) && Commits(actions[p])
  }

  lemma NotLogged(states: seq<State>, actions: seq<Action>, interval: nat, k: nat, id: nat)
    requires IsRun(states, actions, interval) && k < |states|
    requires id in states[k].place && !states[k].place[id].Logged?
    ensures !InLog(states[k], id)
  {
    RunInv(states, actions, interval, k);
  }

  lemma FateInLog(states: seq<State>, actions: seq<Action>, interval: nat, w: nat, k: nat, id: nat, fate: Fate)
    requires IsRun(states, actions, interval) && w < k <= |actions| && Writes(actions[w], id)
    requires HasFate(states, actions, w, k, fate)
    ensures InLog(states[k], id) <==> fate.Ends? && Commits(actions[fate.p])
  {
    match fate
    case Waits =>
      BufferingUntil(states, actions, interval, w, k, id);
      NotLogged(states, actions, interval, k, id);
    case Flies(d) =>
      TravellingUntil(states, actions, interval, w, d, k, id);
      NotLogged(states, actions, interval, k, id);
    case Nothing(d) =>
      EndedAsNothing(states, actions, interval, w, d, k, id);
      NotLogged(states, actions, interval, k, id);
    case Ends(d, p) =>
      EndedByAppend(states, actions, interval, w, d, p, k, id);
      if Commits(actions[p]) {
        assert id in states[k].log[|states[p].log|].writers;
      } else {
        NotLogged(states, actions, interval, k, id);
      }
  }

  /** A call's operations are in the log exactly if the batch it was drained into was committed,
      whatever the call was told. */
  lemma LoggedExactly(states: seq<State>, actions: seq<Action>, interval: nat, w: nat, k: nat, id: nat)
    requires IsRun(states, actions, interval) && w < k <= |actions| && Writes(actions[w], id)
    ensures InLog(states[k], id) <==> CommittedBefore(states, actions, w, k)
  {
    var fate := FateOf(states, actions, w, k);
    FateInLog(states, actions, interval, w, k, id, fate);
    if CommittedBefore(states, actions, w, k) {
      var d: nat, p: nat :| p < k && AppendedAt(states, actions, w, d, p) && Commits(actions[p]);
      FateInLog(states, actions, interval, w, k, id, Ends(d, p));
    }
  }

  /** The batch of the call at `w` was committed before `k`, but the call failed to merge its patch or the
      append reported an error. */
  ghost predicate CommittedInVain(states: seq<State>, actions: seq<Action>, w: nat, k: nat)
    requires |actions| < |states| && w < |actions|
  {
    exists d: nat, p: nat :: p < k && AppendedAt(states, actions, w, d, p) && Commits(actions[p])
      && (actions[w].AWriteMergeError? || actions[p].AAppendFails?)
  }

  /** A call that was told of an error has its operations in the log exactly if it failed to merge its patch
      and its batch was committed all the same, or the append reported an error after the commit. */
  lemma FailedButLoggedExactly(states: seq<State>, actions: seq<Action>, interval: nat, w: nat, k: nat, id: nat)
    requires IsRun(states, actions, interval) && w < k <= |actions| && Writes(actions[w], id)
    ensures id in states[k].failed && InLog(states[k], id) <==> CommittedInVain(states, actions, w, k)
  {
    LoggedExactly(states, actions, interval, w, k, id);
    if CommittedBefore(states, actions, w, k) {
      var d: nat, p: nat :| p < k && AppendedAt(states, actions, w, d, p) && Commits(actions[p]);
      EndedByAppend(states, actions, interval, w, d, p, k, id);
      if CommittedInVain(states, actions, w, k) {
        var d': nat, p': nat :| p' < k && AppendedAt(states, actions, w, d', p') && Commits(actions[p'])
          && (actions[w].AWriteMergeError? || actions[p'].AAppendFails?);
        EndedByAppend(states, actions, interval, w, d', p', k, id);
      }
    }
  }

  // ----- The schema patch of an acknowledged call -----

  /** The entry that holds an acknowledged call's schema patch. */
  ghost predicate PatchCommitted(s: State, id: nat) {
    id in s.acked && 0 < s.acked[id] <= |s.log| && id in s.log[s.acked[id] - 1].schemaBy
  }

  /** No schema merge failed between the call at `w` and the drain that took it. */
  ghost predicate DrainedBeforeMergeError(states: seq<State>, actions: seq<Action>, w: nat, k: nat)
    requires |actions| < |states|
  {
    exists d: nat :: d < k && DrainedAt(states, actions, w, d) && NoMergeError(actions, w + 1, d)
  }

  lemma OneDrain(states: seq<State>, actions: seq<Action>, w: nat, d: nat)
    requires |actions| < |states| && w < d < |actions| && Takes(states[d], actions[d])
    requires NoTake(states, actions, w + 1, d)
    ensures forall d': nat :: DrainedAt(states, actions, w, d') ==> d' == d
  {
  }

  /** A call that has been told of success is told of no failure, and its patch is in its entry exactly if
      no schema merge failed between the call and the drain that took it. */
  lemma SchemaAcked(states: seq<State>, actions: seq<Action>, interval: nat, w: nat, k: nat, id: nat)
    requires IsRun(states, actions, interval) && w < k <= |actions| && Writes(actions[w], id)
    requires id in states[k].acked
    ensures id !in states[k].failed
    ensures actions[w].w.schema ==>
      (PatchCommitted(states[k], id) <==> DrainedBeforeMergeError(states, actions, w, k))
  {
    var fate := FateOf(states, actions, w, k);
    match fate
    case Waits => BufferingUntil(states, actions, interval, w, k, id);
    case Flies(d) => TravellingUntil(states, actions, interval, w, d, k, id);
    case Nothing(d) =>
      EndedAsNothing(states, actions, interval, w, d, k, id);
      OneDrain(states, actions, w, d);
    case Ends(d, p) =>
      EndedByAppend(states, actions, interval, w, d, p, k, id);
      OneDrain(states, actions, w, d);
  }

  // ----- A run in which a schema merge fails -----

  const PATCH_ONLY := Write([], [], [], true, false)

  /** Call 0's patch merges and call 1's does not. */
  lemma FailedMerge(w: Write) returns (s: State)
    requires w.schema
    ensures Reachable(s, 0) && s.phase.Idle? && s.last.None? && s.log == [] && s.acked == map[] && s.now == 0
    ensures s.buffer == Batch(Joined(NO_OPS, w), [0, 1], {}, {}) && s.waiters == {0} && s.failed == {1}
    ensures s.written == map[0 := PATCH_ONLY, 1 := w]
  {
    var s0 := State(map[], map[], EMPTY_BATCH, {}, Idle, [], map[], {}, {}, 0, None, []);
    assert IsRun([s0], [], 0);
    var s1 := s0.(written := s0.written[0 := PATCH_ONLY], place := s0.place[0 := Buffered],
                  buffer := Batch(NO_OPS, [] + [0], {} + {0}, {}), waiters := {} + {0});
    ReachableStep(s0, AWriteOk(0, PATCH_ONLY), s1, 0);
    s := s1.(written := s1.written[1 := w], place := s1.place[1 := Buffered],
             buffer := Batch(Joined(NO_OPS, w), s1.buffer.writers + [1], {}, {}), failed := {} + {1},
             lost := {} + s1.buffer.schemaBy);
    ReachableStep(s1, AWriteMergeError(1, w), s, 0);
  }

  lemma BeginDrain(a: State) returns (c: State)
    requires Reachable(a, 0) && a.phase.Idle? && a.last.None?
    ensures c == a.(phase := Cooled(false, a.now)) && Reachable(c, 0)
  {
    var b := a.(phase := Waiting(false));
    ReachableStep(a, ABeginFlush(false), b, 0);
    c := b.(phase := Cooled(false, b.now));
    ReachableStep(b, APassCooldown, c, 0);
  }

  /** Call 0 is acknowledged with 0 by an empty flush, its patch committed nowhere. */
  lemma LostSchemaPatch()
    ensures exists s: State :: Reachable(s, 0) && s.log == [] && 0 in s.written && s.written[0].schema
              && 0 in s.acked && s.acked[0] == 0
  {
    var a := FailedMerge(PATCH_ONLY);
    var c := BeginDrain(a);
    var d := c.(phase := SawEmpty);
    ReachableStep(c, ADrain, d, 0);
    var e := d.(phase := Idle, acked := AckAll(d.acked, d.waiters, 0), waiters := {},
                place := Moved(d.place, d.buffer.writers, Gone), buffer := EMPTY_BATCH);
    ReachableStep(d, AFinishEmpty, e, 0);
  }

  /** Call 1 is told of the failed merge, and its upsert is committed. */
  lemma FailedMergeCommitted()
    ensures exists s: State :: Reachable(s, 0) && 1 in s.failed && |s.log| == 1 && 1 in s.log[0].writers
              && s.log[0].entry.upserts == [Document("a", map[])]
  {
    var a := FailedMerge(PATCH_ONLY.(upserts := [Document("a", map[])]));
    var c := BeginDrain(a);
    var d := c.(phase := InFlight(c.buffer, c.waiters, false, c.phase.since),
                place := Moved(c.place, c.buffer.writers, Flying), buffer := EMPTY_BATCH, waiters := {});
    ReachableStep(c, ADrain, d, 0);
    var e := d.(log := d.log + [d.phase.batch], place := Moved(d.place, d.phase.batch.writers, Logged(1)),
                phase := Appended(d.phase.waiters, 1, false, d.phase.since, d.now));
    ReachableStep(d, AAppendOk, e, 0);
    assert 1 in e.log[0].writers && e.log[0].entry.upserts == [Document("a", map[])];
  }
}
