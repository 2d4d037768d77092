/** Group commit (`src/buffer.rs`): writes gather in a buffer, one flush at a time turns the buffer into
    a log entry, and every waiter of the batch gets its number.

    The model is one process's buffer for one namespace as a state machine.  Each action is what
    happens under one lock, or one request to the log; the clock may advance between any two.
    `written`, `place`, `lost` and `commits` are history and belong to the specification only.
 */
module GroupCommit {
  import opened Documents

  /** One call of `write`. */
  datatype Write = Write(upserts: seq<Document>, patches: seq<Document>, deletes: seq<Id>, schema: bool, metric: bool)

  /** Buffered operations, with the calls they came from, and the calls whose schema patch and
      distance metric are merged in. */
  datatype Batch = Batch(entry: Entry, writers: seq<nat>, schemaBy: set<nat>, metricBy: set<nat>)

  const EMPTY_BATCH := Batch(NO_OPS, [], {}, {})

  predicate IsEmpty(b: Batch) {
    b.entry == NO_OPS && b.schemaBy == {} && b.metricBy == {}
  }

  /** The flush that holds the flush lock. */
  datatype Phase =
    | Idle
    | Waiting(bypass: bool)
    | Cooled(bypass: bool, since: nat)
    | SawEmpty
    | InFlight(batch: Batch, waiters: set<nat>, bypass: bool, since: nat)
    | Appended(waiters: set<nat>, seqNo: nat, bypass: bool, since: nat, durableAt: nat)

  /** Where the operations of a call are. */
  datatype Place = Buffered | Flying | Logged(seqNo: nat) | Gone

  datatype Commit = Commit(seqNo: nat, bypass: bool, durableAt: nat, recordedAt: nat)

  datatype State = State(
    written: map<nat, Write>,
    place: map<nat, Place>,
    buffer: Batch,
    waiters: set<nat>,
    phase: Phase,
    log: seq<Batch>,
    acked: map<nat, nat>,
    failed: set<nat>,
    lost: set<nat>,
    now: nat,
    last: Option<nat>,
    commits: seq<Commit>)

  predicate Init(s: State) {
    s == State(map[], map[], EMPTY_BATCH, {}, Idle, [], map[], {}, {}, 0, None, [])
  }

  /** `remaining_commit_cooldown`. */
  function RemainingCooldown(last: Option<nat>, interval: nat, now: nat): nat {
    if last.None? then 0
    else
      var passed := if now < last.value then 0 else now - last.value;
      if interval < passed then 0 else interval - passed
  }

  function Joined(e: Entry, w: Write): Entry {
    Entry(e.upserts + w.upserts, e.patches + w.patches, e.deletes + w.deletes)
  }

  // ----- The actions -----

  predicate WriteOk(s: State, s': State, id: nat, w: Write) {
    && id !in s.written
    && s' == s.(written := s.written[id := w],
                place := s.place[id := Buffered],
                buffer := Batch(Joined(s.buffer.entry, w), s.buffer.writers + [id],
                                if w.schema then s.buffer.schemaBy + {id} else s.buffer.schemaBy,
                                if w.metric then s.buffer.metricBy + {id} else s.buffer.metricBy),
                waiters := s.waiters + {id})
  }

  /** Merging the schema patch fails: the call returns an error, but its operations stay in the buffer
      and the patches merged so far are gone. */
  predicate WriteMergeError(s: State, s': State, id: nat, w: Write) {
    && id !in s.written && w.schema && s.buffer.schemaBy != {}
    && s' == s.(written := s.written[id := w],
                place := s.place[id := Buffered],
                buffer := Batch(Joined(s.buffer.entry, w), s.buffer.writers + [id], {}, s.buffer.metricBy),
                failed := s.failed + {id},
                lost := s.lost + s.buffer.schemaBy)
  }

  predicate BeginFlush(s: State, s': State, bypass: bool) {
    s.phase.Idle? && s' == s.(phase := Waiting(bypass))
  }

  predicate PassCooldown(s: State, s': State, interval: nat) {
    && s.phase.Waiting? && (s.phase.bypass || RemainingCooldown(s.last, interval, s.now) == 0)
    && s' == s.(phase := Cooled(s.phase.bypass, s.now))
  }

  function Moved(place: map<nat, Place>, ids: seq<nat>, target: Place): map<nat, Place> {
    map id | id in place :: if id in ids then target else place[id]
  }

  predicate Drain(s: State, s': State) {
    && s.phase.Cooled?
    && s' == if IsEmpty(s.buffer) then s.(phase := SawEmpty)
             else s.(phase := InFlight(s.buffer, s.waiters, s.phase.bypass, s.phase.since),
                     place := Moved(s.place, s.buffer.writers, Flying),
                     buffer := EMPTY_BATCH, waiters := {})
  }

  function AckAll(acked: map<nat, nat>, ids: set<nat>, seqNo: nat): map<nat, nat> {
    acked + map id | id in ids :: seqNo
  }

  /** The second look: acknowledge the waiters only if the buffer is still empty. */
  predicate FinishEmpty(s: State, s': State) {
    && s.phase.SawEmpty?
    && s' == if IsEmpty(s.buffer)
             then s.(phase := Idle, acked := AckAll(s.acked, s.waiters, 0), waiters := {},
                     place := Moved(s.place, s.buffer.writers, Gone), buffer := EMPTY_BATCH)
             else s.(phase := Idle)
  }

  predicate AppendOk(s: State, s': State) {
    && s.phase.InFlight?
    && s' == s.(log := s.log + [s.phase.batch],
                place := Moved(s.place, s.phase.batch.writers, Logged(|s.log| + 1)),
                phase := Appended(s.phase.waiters, |s.log| + 1, s.phase.bypass, s.phase.since, s.now))
  }

  predicate Acknowledge(s: State, s': State) {
    && s.phase.Appended?
    && s' == s.(last := Some(s.now),
                acked := AckAll(s.acked, s.phase.waiters, s.phase.seqNo),
                commits := s.commits + [Commit(s.phase.seqNo, s.phase.bypass, s.phase.durableAt, s.now)],
                phase := Idle)
  }

  /** The append reports an error; the entry may have been committed all the same. */
  predicate AppendFails(s: State, s': State, committed: bool) {
    && s.phase.InFlight?
    && s' == s.(log := if committed then s.log + [s.phase.batch] else s.log,
                place := Moved(s.place, s.phase.batch.writers, if committed then Logged(|s.log| + 1) else Gone),
                failed := s.failed + s.phase.waiters,
                phase := Idle)
  }

  predicate Tick(s: State, s': State, elapsed: nat) {
    s' == s.(now := s.now + elapsed)
  }

  datatype Action =
    | AWriteOk(id: nat, w: Write) | AWriteMergeError(id: nat, w: Write)
    | ABeginFlush(bypass: bool) | APassCooldown | ADrain | AFinishEmpty
    | AAppendOk | AAcknowledge | AAppendFails(committed: bool) | ATick(elapsed: nat)

  predicate Step(s: State, a: Action, s': State, interval: nat) {
    match a
    case AWriteOk(id, w) => WriteOk(s, s', id, w)
    case AWriteMergeError(id, w) => WriteMergeError(s, s', id, w)
    case ABeginFlush(bypass) => BeginFlush(s, s', bypass)
    case APassCooldown => PassCooldown(s, s', interval)
    case ADrain => Drain(s, s')
    case AFinishEmpty => FinishEmpty(s, s')
    case AAppendOk => AppendOk(s, s')
    case AAcknowledge => Acknowledge(s, s')
    case AAppendFails(committed) => AppendFails(s, s', committed)
    case ATick(elapsed) => Tick(s, s', elapsed)
  }

  ghost predicate IsRun(states: seq<State>, actions: seq<Action>, interval: nat) {
    && |states| == |actions| + 1
    && Init(states[0])
    && forall k :: 0 <= k < |actions| ==> Step(states[k], actions[k], states[k + 1], interval)
  }

  // ----- What a batch holds -----

  ghost predicate Known(ids: seq<nat>, written: map<nat, Write>) {
    forall id :: id in ids ==> id in written
  }

  /** The operations of these calls, in order. */
  function Gathered(ids: seq<nat>, written: map<nat, Write>): Entry
    requires Known(ids, written)
  {
    if ids == [] then NO_OPS else Joined(Gathered(ids[..|ids| - 1], written), written[ids[|ids| - 1]])
  }

  lemma {:induction false} GatheredExtends(ids: seq<nat>, written: map<nat, Write>, id: nat, w: Write)
    requires Known(ids, written) && id !in written
    ensures Gathered(ids, written[id := w]) == Gathered(ids, written)
  {
    if ids != [] { GatheredExtends(ids[..|ids| - 1], written, id, w); }
  }

  predicate Contains(e: Entry, w: Write) {
    && (forall u :: u in w.upserts ==> u in e.upserts)
    && (forall p :: p in w.patches ==> p in e.patches)
    && (forall d :: d in w.deletes ==> d in e.deletes)
  }

  lemma {:induction false} GatheredContains(ids: seq<nat>, written: map<nat, Write>, id: nat)
    requires Known(ids, written) && id in ids
    ensures Contains(Gathered(ids, written), written[id])
  {
    var last := |ids| - 1;
    if ids[last] != id {
      assert id in ids[..last];
      GatheredContains(ids[..last], written, id);
    }
  }

  /** A batch is exactly the operations of its calls; only they can have put in a schema patch or metric. */
  ghost predicate BatchOk(b: Batch, written: map<nat, Write>) {
    && Known(b.writers, written) && b.entry == Gathered(b.writers, written)
    && (forall id :: id in b.schemaBy ==> id in b.writers)
  }

  /** A lost patch is in no batch. */
  ghost predicate LostOk(s: State) {
    forall id :: id in s.lost ==>
      && id in s.written && id !in s.buffer.schemaBy
      && (s.phase.InFlight? ==> id !in s.phase.batch.schemaBy)
      && (forall k :: 0 <= k < |s.log| ==> id !in s.log[k].schemaBy)
  }

  /** Waiters of a batch: calls of it whose patch and metric are in it, unless a failed merge lost the patch. */
  ghost predicate WaitersOk(waiters: set<nat>, b: Batch, s: State) {
    forall id :: id in waiters ==>
      && id in b.writers && id in s.written
      && (s.written[id].metric ==> id in b.metricBy)
      && (s.written[id].schema ==> id in b.schemaBy || id in s.lost)
  }

  /** Every call is where `place` says, and nowhere else. */
  ghost predicate PlacesOk(s: State) {
    && s.place.Keys == s.written.Keys
    && (forall id :: id in s.buffer.writers ==> id in s.place && s.place[id] == Buffered)
    && (s.phase.InFlight? ==> forall id :: id in s.phase.batch.writers ==> id in s.place && s.place[id] == Flying)
    && (forall k, id :: 0 <= k < |s.log| && id in s.log[k].writers ==> id in s.place && s.place[id] == Logged(k + 1))
  }

  /** An acknowledged call: number 0 for one with nothing to commit, else the entry that holds it. */
  ghost predicate AckOk(s: State, id: nat) {
    && id in s.acked && id in s.written
    && (if s.acked[id] == 0 then
          s.written[id].upserts == [] && s.written[id].patches == [] && s.written[id].deletes == []
          && !s.written[id].metric && (s.written[id].schema ==> id in s.lost)
        else
          && s.acked[id] <= |s.log|
          && id in s.log[s.acked[id] - 1].writers
          && (s.written[id].metric ==> id in s.log[s.acked[id] - 1].metricBy)
          && (s.written[id].schema ==> id in s.log[s.acked[id] - 1].schemaBy || id in s.lost))
  }

  ghost predicate BatchesOk(s: State) {
    && BatchOk(s.buffer, s.written) && WaitersOk(s.waiters, s.buffer, s)
    && (s.phase.InFlight? ==> BatchOk(s.phase.batch, s.written) && WaitersOk(s.phase.waiters, s.phase.batch, s))
    && (forall k :: 0 <= k < |s.log| ==> BatchOk(s.log[k], s.written))
    && (s.phase.Appended? ==> 1 <= s.phase.seqNo <= |s.log| && WaitersOk(s.phase.waiters, s.log[s.phase.seqNo - 1], s))
  }

  ghost predicate AcksOk(s: State) {
    forall id :: id in s.acked ==> AckOk(s, id)
  }

  ghost predicate ContentOk(s: State) {
    BatchesOk(s) && AcksOk(s)
  }

  /** The cooldown was over at `since`. */
  ghost predicate CooledAt(s: State, bypass: bool, since: nat, interval: nat) {
    since <= s.now && (!bypass && s.last.Some? ==> since >= s.last.value + interval)
  }

  ghost predicate TimeOk(s: State, interval: nat) {
    && (s.last.Some? <==> s.commits != []) &&
      (s.last.Some? ==> s.last.value <= s.now && s.last.value == s.commits[|s.commits| - 1].recordedAt)
    && (s.phase.Cooled? ==> CooledAt(s, s.phase.bypass, s.phase.since, interval))
    && (s.phase.InFlight? ==> CooledAt(s, s.phase.bypass, s.phase.since, interval))
    && (s.phase.Appended? ==>
      CooledAt(s, s.phase.bypass, s.phase.since, interval) && s.phase.since <= s.phase.durableAt <= s.now)
    && Paced(s.commits, interval)
  }

  /** Each commit that waited its turn became durable at least the interval after the commit before it
      was recorded. */
  ghost predicate Paced(commits: seq<Commit>, interval: nat) {
    && (forall k :: 0 <= k < |commits| ==> commits[k].durableAt <= commits[k].recordedAt)
    && (forall k :: 0 < k < |commits| && !commits[k].bypass ==>
      commits[k].durableAt >= commits[k - 1].recordedAt + interval)
  }

  ghost predicate Inv(s: State, interval: nat) {
    PlacesOk(s) && ContentOk(s) && LostOk(s) && TimeOk(s, interval)
  }

  // ----- Every action keeps it -----

  /** Earlier acknowledgements stay right while calls are added, the log grows and patches get lost. */
  lemma AckStays(s: State, s': State, id: nat)
    requires AckOk(s, id) && id in s'.acked && s'.acked[id] == s.acked[id]
    requires id in s'.written && s'.written[id] == s.written[id] && s.lost <= s'.lost && s.log <= s'.log
    ensures AckOk(s', id)
  {
  }

  lemma AcksStay(s: State, s': State)
    requires AcksOk(s) && s'.acked == s.acked && s.lost <= s'.lost && s.log <= s'.log
    requires forall id :: id in s.written ==> id in s'.written && s'.written[id] == s.written[id]
    ensures AcksOk(s')
  {
    forall id | id in s'.acked ensures AckOk(s', id) {
      assert AckOk(s, id);
      AckStays(s, s', id);
    }
  }

  /** A new call changes no batch that does not name it. */
  lemma BatchOkExtends(b: Batch, written: map<nat, Write>, id: nat, w: Write)
    requires BatchOk(b, written) && id !in written
    ensures BatchOk(b, written[id := w])
  {
    GatheredExtends(b.writers, written, id, w);
  }

  lemma JoinedOk(b: Batch, written: map<nat, Write>, id: nat, w: Write)
    requires BatchOk(b, written) && id !in written
    ensures Known(b.writers + [id], written[id := w])
    ensures Gathered(b.writers + [id], written[id := w]) == Joined(b.entry, w)
  {
    GatheredExtends(b.writers, written, id, w);
    assert (b.writers + [id])[..|b.writers|] == b.writers;
  }

  lemma WritePlaces(s: State, s': State, id: nat, w: Write)
    requires PlacesOk(s) && id !in s.written
    requires s'.written == s.written[id := w] && s'.place == s.place[id := Buffered]
    requires s'.buffer.writers == s.buffer.writers + [id] && s'.phase == s.phase && s'.log == s.log
    ensures PlacesOk(s')
  {
  }

  /** What a new call leaves alone: waiters elsewhere, the log, and earlier acknowledgements. */
  lemma WriteContent(s: State, s': State, id: nat, w: Write)
    requires PlacesOk(s) && ContentOk(s) && id !in s.written
    requires s'.written == s.written[id := w] && s'.log == s.log && s'.phase == s.phase && s'.acked == s.acked
    requires s.lost <= s'.lost
    requires s'.buffer.writers == s.buffer.writers + [id] && s'.buffer.entry == Joined(s.buffer.entry, w)
    requires s'.buffer.schemaBy <= s.buffer.schemaBy + {id}
    requires WaitersOk(s'.waiters, s'.buffer, s')
    ensures ContentOk(s')
  {
    JoinedOk(s.buffer, s.written, id, w);
    if s.phase.InFlight? { BatchOkExtends(s.phase.batch, s.written, id, w); }
    forall k | 0 <= k < |s.log| ensures BatchOk(s'.log[k], s'.written) { BatchOkExtends(s.log[k], s.written, id, w); }
    AcksStay(s, s');
  }

  /** The patches a failed merge loses are in the buffer and in no other batch. */
  lemma WriteLost(s: State, s': State, id: nat, w: Write)
    requires PlacesOk(s) && ContentOk(s) && LostOk(s) && (WriteOk(s, s', id, w) || WriteMergeError(s, s', id, w))
    ensures LostOk(s')
  {
    forall i | i in s'.lost
      ensures i in s'.written && i !in s'.buffer.schemaBy
      ensures s'.phase.InFlight? ==> i !in s'.phase.batch.schemaBy
      ensures forall k :: 0 <= k < |s'.log| ==> i !in s'.log[k].schemaBy
    {
      if i !in s.lost {
        assert s.place[i] == Buffered;
        forall k | 0 <= k < |s.log| ensures i !in s.log[k].schemaBy {
          assert BatchOk(s.log[k], s.written);
        }
      }
    }
  }

  lemma WriteWaiters(s: State, s': State, id: nat, w: Write)
    requires WaitersOk(s.waiters, s.buffer, s) && (WriteOk(s, s', id, w) || WriteMergeError(s, s', id, w))
    ensures WaitersOk(s'.waiters, s'.buffer, s')
  {
  }

  lemma WriteKeeps(s: State, s': State, id: nat, w: Write, interval: nat)
    requires Inv(s, interval) && (WriteOk(s, s', id, w) || WriteMergeError(s, s', id, w))
    ensures Inv(s', interval)
  {
    WriteWaiters(s, s', id, w);
    WritePlaces(s, s', id, w);
    WriteContent(s, s', id, w);
    WriteLost(s, s', id, w);
    assert TimeOk(s', interval);
  }

  lemma CooldownOver(s: State, interval: nat)
    requires RemainingCooldown(s.last, interval, s.now) == 0 && TimeOk(s, interval)
    ensures CooledAt(s, false, s.now, interval)
  {
  }

  lemma DrainedContent(s: State, s': State)
    requires PlacesOk(s) && ContentOk(s) && Drain(s, s') && !IsEmpty(s.buffer)
    ensures PlacesOk(s') && ContentOk(s')
  {
    AcksStay(s, s');
  }

  lemma DrainKeeps(s: State, s': State, interval: nat)
    requires Inv(s, interval) && Drain(s, s')
    ensures Inv(s', interval)
  {
    if IsEmpty(s.buffer) { SameContentKeeps(s, s'); } else { DrainedContent(s, s'); }
  }

  /** Nothing gathered means nothing written. */
  lemma {:induction false} NothingGathered(ids: seq<nat>, written: map<nat, Write>, id: nat)
    requires Known(ids, written) && Gathered(ids, written) == NO_OPS && id in ids
    ensures written[id].upserts == [] && written[id].patches == [] && written[id].deletes == []
  {
    var last := |ids| - 1;
    var before := Gathered(ids[..last], written);
    assert Joined(before, written[ids[last]]) == NO_OPS;
    assert before.upserts == [] && before.patches == [] && before.deletes == [];
    if ids[last] != id {
      assert id in ids[..last];
      NothingGathered(ids[..last], written, id);
    }
  }

  /** Nothing but the clock, the phase and the history of commits moves. */
  ghost predicate SameContent(s: State, s': State) {
    && s'.written == s.written && s'.place == s.place && s'.buffer == s.buffer && s'.waiters == s.waiters
    && s'.log == s.log && s'.acked == s.acked && s'.lost == s.lost
    && (s'.phase.InFlight? || s'.phase.Appended? ==> s'.phase == s.phase)
  }

  lemma SameContentKeeps(s: State, s': State)
    requires PlacesOk(s) && ContentOk(s) && SameContent(s, s')
    ensures PlacesOk(s') && ContentOk(s')
  {
    AcksStay(s, s');
  }

  lemma EmptyAckOk(s: State, s': State, id: nat)
    requires ContentOk(s) && IsEmpty(s.buffer) && s'.written == s.written && s'.lost == s.lost && s'.log == s.log
    requires s'.acked == AckAll(s.acked, s.waiters, 0) && id in s'.acked
    ensures AckOk(s', id)
  {
    if id in s.waiters {
      NothingGathered(s.buffer.writers, s.written, id);
    } else {
      assert AckOk(s, id);
      AckStays(s, s', id);
    }
  }

  lemma EmptyAcked(s: State, s': State)
    requires PlacesOk(s) && ContentOk(s) && IsEmpty(s.buffer) && s.phase.SawEmpty? && FinishEmpty(s, s')
    ensures PlacesOk(s') && ContentOk(s')
  {
    forall id | id in s'.acked ensures AckOk(s', id) { EmptyAckOk(s, s', id); }
  }

  lemma FinishEmptyKeeps(s: State, s': State, interval: nat)
    requires Inv(s, interval) && FinishEmpty(s, s')
    ensures Inv(s', interval)
  {
    if IsEmpty(s.buffer) { EmptyAcked(s, s'); } else { SameContentKeeps(s, s'); }
  }

  lemma LoggedContent(s: State, s': State)
    requires ContentOk(s) && s.phase.InFlight? && s'.log == s.log + [s.phase.batch]
    requires s'.written == s.written && s'.lost == s.lost && s'.acked == s.acked
    ensures AcksOk(s')
    ensures forall k :: 0 <= k < |s'.log| ==> BatchOk(s'.log[k], s'.written)
  {
    AcksStay(s, s');
  }

  lemma LoggedPlaces(s: State, s': State)
    requires PlacesOk(s) && s.phase.InFlight? && s'.log == s.log + [s.phase.batch] && s'.written == s.written
    requires s'.place == Moved(s.place, s.phase.batch.writers, Logged(|s.log| + 1)) && s'.buffer == s.buffer
    requires !s'.phase.InFlight?
    ensures PlacesOk(s')
  {
  }

  lemma AppendKeeps(s: State, s': State, interval: nat)
    requires Inv(s, interval) && (AppendOk(s, s') || AppendFails(s, s', true))
    ensures Inv(s', interval)
  {
    LoggedPlaces(s, s');
    LoggedContent(s, s');
  }

  lemma AppendFailsKeeps(s: State, s': State, interval: nat)
    requires Inv(s, interval) && AppendFails(s, s', false)
    ensures Inv(s', interval)
  {
    AcksStay(s, s');
  }

  lemma AcknowledgedContent(s: State, s': State)
    requires PlacesOk(s) && ContentOk(s) && Acknowledge(s, s')
    ensures PlacesOk(s') && ContentOk(s')
  {
    forall id | id in s'.acked ensures AckOk(s', id) {
      if id !in s.phase.waiters {
        assert AckOk(s, id);
        AckStays(s, s', id);
      }
    }
  }

  lemma AcknowledgeKeeps(s: State, s': State, interval: nat)
    requires Inv(s, interval) && Acknowledge(s, s')
    ensures Inv(s', interval)
  {
    AcknowledgedContent(s, s');
    PacedMore(s.commits, s'.commits[|s.commits|], interval);
  }

  lemma PacedMore(commits: seq<Commit>, next: Commit, interval: nat)
    requires Paced(commits, interval) && next.durableAt <= next.recordedAt
    requires !next.bypass && commits != [] ==> next.durableAt >= commits[|commits| - 1].recordedAt + interval
    ensures Paced(commits + [next], interval)
  {
  }

  lemma QuietKeeps(s: State, s': State, a: Action, interval: nat)
    requires Inv(s, interval) && Step(s, a, s', interval) && (a.ABeginFlush? || a.APassCooldown? || a.ATick?)
    ensures Inv(s', interval)
  {
    SameContentKeeps(s, s');
    if a.APassCooldown? && !s.phase.bypass { CooldownOver(s, interval); }
  }

  lemma StepKeepsInv(s: State, a: Action, s': State, interval: nat)
    requires Inv(s, interval) && Step(s, a, s', interval)
    ensures Inv(s', interval)
  {
    match a
    case AWriteOk(id, w) => WriteKeeps(s, s', id, w, interval);
    case AWriteMergeError(id, w) => WriteKeeps(s, s', id, w, interval);
    case ADrain => DrainKeeps(s, s', interval);
    case AFinishEmpty => FinishEmptyKeeps(s, s', interval);
    case AAppendOk => AppendKeeps(s, s', interval);
    case AAcknowledge => AcknowledgeKeeps(s, s', interval);
    case AAppendFails(committed) =>
      if committed { AppendKeeps(s, s', interval); } else { AppendFailsKeeps(s, s', interval); }
    case _ => QuietKeeps(s, s', a, interval);
  }

  lemma {:induction false} RunInv(states: seq<State>, actions: seq<Action>, interval: nat, k: nat)
    requires IsRun(states, actions, interval) && k < |states|
    ensures Inv(states[k], interval)
  {
    if k > 0 {
      RunInv(states, actions, interval, k - 1);
      StepKeepsInv(states[k - 1], actions[k - 1], states[k], interval);
    }
  }

  // ----- The results, at every state of every run -----

  /** A call acknowledged with a number has all its operations in that log entry; one acknowledged with
      0 had no operations. */
  lemma AckSafe(states: seq<State>, actions: seq<Action>, interval: nat, k: nat, id: nat)
    requires IsRun(states, actions, interval) && k < |states| && id in states[k].acked
    ensures var s := states[k];
      && id in s.written && s.acked[id] <= |s.log|
      && (s.acked[id] > 0 ==> Contains(s.log[s.acked[id] - 1].entry, s.written[id]))
      && (s.acked[id] == 0 ==> Contains(NO_OPS, s.written[id]))
  {
    RunInv(states, actions, interval, k);
    var s := states[k];
    assert AckOk(s, id);
    if s.acked[id] > 0 {
      assert BatchOk(s.log[s.acked[id] - 1], s.written);
      GatheredContains(s.log[s.acked[id] - 1].writers, s.written, id);
    }
  }

  /** Every log entry is exactly the operations of its calls in order, and no call is in two entries. */
  lemma OneEntryEach(states: seq<State>, actions: seq<Action>, interval: nat, k: nat, i: nat, j: nat, id: nat)
    requires IsRun(states, actions, interval) && k < |states| && i < |states[k].log| && j < |states[k].log|
    ensures var s := states[k];
      Known(s.log[i].writers, s.written) && s.log[i].entry == Gathered(s.log[i].writers, s.written)
    ensures id in states[k].log[i].writers && id in states[k].log[j].writers ==> i == j
  {
    RunInv(states, actions, interval, k);
    assert BatchOk(states[k].log[i], states[k].written);
  }

  /** Commits that waited their turn are at least the interval apart, whatever happened in between. */
  lemma CommitsPaced(states: seq<State>, actions: seq<Action>, interval: nat, k: nat, i: nat, j: nat)
    requires IsRun(states, actions, interval) && k < |states| && i < j < |states[k].commits|
    requires !states[k].commits[j].bypass
    ensures states[k].commits[j].durableAt >= states[k].commits[i].recordedAt + interval
  {
    RunInv(states, actions, interval, k);
    RecordsAscend(states, actions, interval, k, i, j - 1);
  }

  ghost predicate RecordsOk(s: State) {
    && (forall i, j :: 0 <= i <= j < |s.commits| ==> s.commits[i].recordedAt <= s.commits[j].recordedAt)
    && (forall i :: 0 <= i < |s.commits| ==> s.commits[i].recordedAt <= s.now)
  }

  lemma StepKeepsRecords(s: State, a: Action, s': State, interval: nat)
    requires Step(s, a, s', interval) && RecordsOk(s)
    ensures RecordsOk(s')
  {
    assert s'.commits == s.commits ||
      (s'.commits[..|s.commits|] == s.commits && |s'.commits| == |s.commits| + 1 && s'.now == s.now
      && s'.commits[|s.commits|].recordedAt == s.now);
  }

  lemma {:induction false} RecordsAscend(states: seq<State>, actions: seq<Action>, interval: nat, k: nat, i: nat,
                                         j: nat)
    requires IsRun(states, actions, interval) && k < |states| && i <= j < |states[k].commits|
    ensures states[k].commits[i].recordedAt <= states[k].commits[j].recordedAt
  {
    RunRecords(states, actions, interval, k);
  }

  lemma {:induction false} RunRecords(states: seq<State>, actions: seq<Action>, interval: nat, k: nat)
    requires IsRun(states, actions, interval) && k < |states|
    ensures RecordsOk(states[k])
  {
    if k > 0 {
      RunRecords(states, actions, interval, k - 1);
      StepKeepsRecords(states[k - 1], actions[k - 1], states[k], interval);
    }
  }

  // ----- Reachable states -----

  ghost predicate Reachable(s: State, interval: nat) {
    exists states, actions :: IsRun(states, actions, interval) && states[|states| - 1] == s
  }

  lemma ReachableStep(s: State, a: Action, s': State, interval: nat)
    requires Reachable(s, interval) && Step(s, a, s', interval)
    ensures Reachable(s', interval)
  {
    var states, actions :| IsRun(states, actions, interval) && states[|states| - 1] == s;
    var states', actions' := states + [s'], actions + [a];
    forall k | 0 <= k < |actions'| ensures Step(states'[k], actions'[k], states'[k + 1], interval) {
      if k < |actions| { assert Step(states[k], actions[k], states[k + 1], interval); }
    }
    assert IsRun(states', actions', interval) && states'[|states'| - 1] == s';
  }
}
