/** How far apart log entries become durable (`src/buffer.rs`).

    The pause between commits runs from the last append that was reported to succeed.  An append that
    reports an error may have committed all the same; the next flush then does not wait for it.
 */
module Pacing {
  import opened Documents
  import opened GroupCommit
  import opened CallFates

  /** The append at `p` commits an entry, at the time of state `p`. */
  ghost predicate CommitsAt(actions: seq<Action>, p: nat) {
    p < |actions| && Commits(actions[p])
  }

  /** The same for one whose flush waited its turn. */
  ghost predicate WaitsItsTurn(states: seq<State>, actions: seq<Action>, q: nat)
    requires |actions| < |states|
  {
    CommitsAt(actions, q) && states[q].phase.InFlight? && !states[q].phase.bypass
  }

  /** Some append from `p` on and before `q` was reported to succeed. */
  ghost predicate ReportedBetween(actions: seq<Action>, p: nat, q: nat)
    requires q <= |actions|
  {
    exists r :: p <= r < q && actions[r].AAppendOk?
  }

  // ----- With a reported append in between -----

  /** At `s` an append reported at time `t` is being acknowledged, or the next flush waits for it. */
  ghost predicate Heeded(s: State, t: nat, interval: nat) {
    && t <= s.now
    && (if s.phase.Appended? then t <= s.phase.durableAt <= s.now || (s.last.Some? && t <= s.last.value)
        else s.last.Some? && t <= s.last.value)
    && ((s.phase.Cooled? || s.phase.InFlight?) && !s.phase.bypass ==> s.phase.since >= t + interval)
  }

  lemma HeededStep(s: State, a: Action, s': State, interval: nat, t: nat)
    requires TimeOk(s, interval) && Step(s, a, s', interval) && Heeded(s, t, interval)
    ensures Heeded(s', t, interval)
  {
    if a.APassCooldown? && !s.phase.bypass { CooldownOver(s, interval); }
  }

  lemma HeededStart(s: State, s': State, interval: nat)
    requires AppendOk(s, s') && TimeOk(s, interval)
    ensures Heeded(s', s.now, interval)
  {
  }

  lemma RunTimes(states: seq<State>, actions: seq<Action>, interval: nat, k: nat)
    requires IsRun(states, actions, interval) && k < |states|
    ensures TimeOk(states[k], interval)
  {
    RunInv(states, actions, interval, k);
  }

  lemma HeededBase(states: seq<State>, actions: seq<Action>, interval: nat, r: nat)
    requires IsRun(states, actions, interval) && r < |actions| && actions[r].AAppendOk?
    ensures Heeded(states[r + 1], states[r].now, interval)
  {
    RunTimes(states, actions, interval, r);
    assert Step(states[r], actions[r], states[r + 1], interval);
    HeededStart(states[r], states[r + 1], interval);
  }

  lemma HeededNext(states: seq<State>, actions: seq<Action>, interval: nat, k: nat, t: nat)
    requires IsRun(states, actions, interval) && k < |actions| && Heeded(states[k], t, interval)
    ensures Heeded(states[k + 1], t, interval)
  {
    RunTimes(states, actions, interval, k);
    HeededStep(states[k], actions[k], states[k + 1], interval, t);
  }

  lemma {:induction false} HeededFrom(states: seq<State>, actions: seq<Action>, interval: nat, r: nat, k: nat)
    requires IsRun(states, actions, interval) && r < k < |states| && actions[r].AAppendOk?
    ensures Heeded(states[k], states[r].now, interval)
  {
    if k == r + 1 {
      HeededBase(states, actions, interval, r);
    } else {
      HeededFrom(states, actions, interval, r, k - 1);
      HeededNext(states, actions, interval, k - 1, states[r].now);
    }
  }

  lemma {:induction false} NowAscends(states: seq<State>, actions: seq<Action>, interval: nat, i: nat, j: nat)
    requires IsRun(states, actions, interval) && i <= j < |states|
    ensures states[i].now <= states[j].now
  {
    if i < j {
      NowAscends(states, actions, interval, i, j - 1);
      assert Step(states[j - 1], actions[j - 1], states[j], interval);
    }
  }

  /** Then a commit that waited its turn is at least the interval after the earlier one. */
  lemma ReportedPaces(states: seq<State>, actions: seq<Action>, interval: nat, p: nat, q: nat)
    requires IsRun(states, actions, interval) && p < q && WaitsItsTurn(states, actions, q)
    requires ReportedBetween(actions, p, q)
    ensures states[q].now >= states[p].now + interval
  {
    var r :| p <= r < q && actions[r].AAppendOk?;
    NowAscends(states, actions, interval, p, r);
    HeededFrom(states, actions, interval, r, q);
    RunTimes(states, actions, interval, q);
  }

  // ----- Without one -----

  /** A run cut off after `q`, with other waiting times: the same actions but for the ticks. */
  ghost predicate Retimed(actions: seq<Action>, p: nat, q: nat, actions': seq<Action>, p': nat, q': nat) {
    && p < q < |actions| && p' < q' < |actions'|
    && Untimed(actions'[..p']) == Untimed(actions[..p]) && actions'[p'] == actions[p]
    && Untimed(actions'[..q']) == Untimed(actions[..q]) && actions'[q'] == actions[q]
  }

  function Untimed(actions: seq<Action>): seq<Action> {
    if actions == [] then []
    else Untimed(actions[..|actions| - 1]) + if actions[|actions| - 1].ATick? then [] else [actions[|actions| - 1]]
  }

  /** With the clock stopped. */
  function Still(a: Action): Action {
    if a.ATick? then ATick(0) else a
  }

  /** The same phase, whatever its times. */
  ghost predicate SamePhase(a: Phase, b: Phase) {
    match a
    case Idle => b.Idle?
    case Waiting(bypass) => b == a
    case Cooled(bypass, _) => b.Cooled? && b.bypass == bypass
    case SawEmpty => b.SawEmpty?
    case InFlight(batch, waiters, bypass, _) => b.InFlight? && b == InFlight(batch, waiters, bypass, b.since)
    case Appended(_, _, _, _, _) => false
  }

  /** The same state but for the clock, which says that the pause after the last reported commit is over. */
  ghost predicate Shadow(s: State, s': State, interval: nat) {
    && SamePhase(s.phase, s'.phase) && s' == s.(now := s'.now, phase := s'.phase)
    && (s.last.Some? ==> s'.now >= s.last.value + interval)
  }

  lemma ShadowStep(s: State, a: Action, t: State, interval: nat, s': State) returns (t': State)
    requires Step(s, a, t, interval) && Shadow(s, s', interval) && !a.AAppendOk?
    ensures Step(s', Still(a), t', interval) && Shadow(t, t', interval) && t'.now == s'.now
  {
    match a
    case APassCooldown => t' := s'.(phase := Cooled(s'.phase.bypass, s'.now));
    case ADrain =>
      t' := if IsEmpty(s.buffer) then s'.(phase := SawEmpty)
            else s'.(phase := InFlight(s'.buffer, s'.waiters, s'.phase.bypass, s'.phase.since),
                     place := Moved(s'.place, s'.buffer.writers, Flying), buffer := EMPTY_BATCH, waiters := {});
    case ATick(_) => t' := s';
    case AWriteOk(_, _) => t' := t.(now := s'.now, phase := s'.phase);
    case AWriteMergeError(_, _) => t' := t.(now := s'.now, phase := s'.phase);
    case _ => t' := t.(now := s'.now);
  }

  /** The shadow of the run from state `i` to state `j`, with the clock stopped. */
  lemma {:induction false} ShadowRun(states: seq<State>, actions: seq<Action>, interval: nat, i: nat, j: nat, s': State)
    returns (shadows: seq<State>, stilled: seq<Action>)
    requires IsRun(states, actions, interval) && i <= j < |states|
    requires forall k :: i <= k < j ==> !actions[k].AAppendOk?
    requires Shadow(states[i], s', interval)
    ensures |shadows| == j - i + 1 && |stilled| == j - i && shadows[0] == s'
    ensures forall k :: 0 <= k < j - i ==> Step(shadows[k], stilled[k], shadows[k + 1], interval)
    ensures forall k :: 0 <= k < j - i ==> stilled[k] == Still(actions[i + k])
    ensures Shadow(states[j], shadows[j - i], interval) && shadows[j - i].now == s'.now
  {
    if i == j {
      shadows, stilled := [s'], [];
    } else {
      var before, done := ShadowRun(states, actions, interval, i, j - 1, s');
      var next := ShadowStep(states[j - 1], actions[j - 1], states[j], interval, before[j - 1 - i]);
      shadows, stilled := before + [next], done + [Still(actions[j - 1])];
    }
  }

  lemma LastCommit(s: State, a: Action, t: State, interval: nat, s': State) returns (t': State)
    requires Step(s, a, t, interval) && Commits(a) && Shadow(s, s', interval)
    ensures Step(s', a, t', interval)
  {
    if a.AAppendOk? {
      t' := t.(now := s'.now,
               phase := Appended(s'.phase.waiters, |s'.log| + 1, s'.phase.bypass, s'.phase.since, s'.now));
    } else {
      t' := t.(now := s'.now);
    }
  }

  lemma RunsJoin(first: seq<State>, acts: seq<Action>, second: seq<State>, more: seq<Action>, a: Action, interval: nat)
    requires IsRun(first, acts, interval) && |second| == |more| + 1
    requires Step(first[|first| - 1], a, second[0], interval)
    requires forall k :: 0 <= k < |more| ==> Step(second[k], more[k], second[k + 1], interval)
    ensures IsRun(first + second, acts + [a] + more, interval)
  {
    var states, actions := first + second, acts + [a] + more;
    forall k | 0 <= k < |actions| ensures Step(states[k], actions[k], states[k + 1], interval) {
      if k < |acts| {
        assert Step(first[k], acts[k], first[k + 1], interval);
      } else if k > |acts| {
        assert Step(second[k - |first|], more[k - |first|], second[k - |first| + 1], interval);
      }
    }
  }

  lemma RunCut(states: seq<State>, actions: seq<Action>, interval: nat, p: nat)
    requires IsRun(states, actions, interval) && p < |states|
    ensures IsRun(states[..p + 1], actions[..p], interval)
  {
    forall k | 0 <= k < p ensures Step(states[..p + 1][k], actions[..p][k], states[..p + 1][k + 1], interval) {
      assert Step(states[k], actions[k], states[k + 1], interval);
    }
  }

  lemma {:induction false} UntimedJoins(a: seq<Action>, b: seq<Action>)
    ensures Untimed(a + b) == Untimed(a) + Untimed(b)
    decreases |b|
  {
    if b == [] {
      assert a + b == a;
    } else {
      var last := |b| - 1;
      assert (a + b)[..|a| + last] == a + b[..last];
      UntimedJoins(a, b[..last]);
    }
  }

  lemma {:induction false} UntimedStill(a: seq<Action>, b: seq<Action>)
    requires |a| == |b| && forall k :: 0 <= k < |a| ==> b[k] == Still(a[k])
    ensures Untimed(a) == Untimed(b)
  {
    if a != [] { UntimedStill(a[..|a| - 1], b[..|b| - 1]); }
  }

  lemma {:induction false} UntimedHas(a: seq<Action>, x: Action)
    requires !x.ATick?
    ensures x in Untimed(a) <==> x in a
  {
    if a != [] {
      UntimedHas(a[..|a| - 1], x);
      assert a == a[..|a| - 1] + [a[|a| - 1]];
    }
  }

  lemma WaitedLong(states: seq<State>, actions: seq<Action>, interval: nat, p: nat)
    requires IsRun(states, actions, interval) && p < |actions| && Commits(actions[p])
    ensures Shadow(states[p], states[p].(now := states[p].now + interval), interval)
  {
    RunTimes(states, actions, interval, p);
    assert Step(states[p], actions[p], states[p + 1], interval);
  }

  /** From the commit at `p`, delayed by the interval, to the commit at `q` in no time. */
  lemma InNoTime(states: seq<State>, actions: seq<Action>, interval: nat, p: nat, q: nat)
    returns (second: seq<State>, stilled: seq<Action>)
    requires IsRun(states, actions, interval) && p < q && CommitsAt(actions, p) && WaitsItsTurn(states, actions, q)
    requires !ReportedBetween(actions, p, q)
    ensures |second| == q - p + 2 && |stilled| == q - p
    ensures second[0] == states[p].(now := states[p].now + interval)
    ensures second[q - p].now == second[0].now && second[q - p].phase.InFlight? && !second[q - p].phase.bypass
    ensures forall k :: 0 <= k < q - p ==> stilled[k] == Still(actions[p + k])
    ensures forall k :: 0 <= k < q - p ==> Step(second[k], stilled[k], second[k + 1], interval)
    ensures Step(second[q - p], actions[q], second[q - p + 1], interval)
  {
    WaitedLong(states, actions, interval, p);
    var shadows;
    shadows, stilled := ShadowRun(states, actions, interval, p, q, states[p].(now := states[p].now + interval));
    assert Step(states[q], actions[q], states[q + 1], interval);
    var end := LastCommit(states[q], actions[q], states[q + 1], interval, shadows[q - p]);
    second := shadows + [end];
  }

  /** Without a reported append in between, the same actions can happen with no time at all between the two
      commits, however long the interval is. */
  lemma UnreportedUnpaced(states: seq<State>, actions: seq<Action>, interval: nat, p: nat, q: nat)
    returns (states': seq<State>, actions': seq<Action>)
    requires IsRun(states, actions, interval) && p < q && CommitsAt(actions, p) && WaitsItsTurn(states, actions, q)
    requires !ReportedBetween(actions, p, q)
    ensures IsRun(states', actions', interval) && Retimed(actions, p, q, actions', p + 1, q + 1)
    ensures WaitsItsTurn(states', actions', q + 1) && states'[q + 1].now == states'[p + 1].now
  {
    var second, stilled := InNoTime(states, actions, interval, p, q);
    var more := stilled + [actions[q]];
    RunCut(states, actions, interval, p);
    RunsJoin(states[..p + 1], actions[..p], second, more, ATick(interval), interval);
    states', actions' := states[..p + 1] + second, actions[..p] + [ATick(interval)] + more;
    RetimedSo(actions, p, q, stilled, interval);
  }

  lemma RetimedSo(actions: seq<Action>, p: nat, q: nat, stilled: seq<Action>, interval: nat)
    requires p < q < |actions| && |stilled| == q - p
    requires forall k :: 0 <= k < q - p ==> stilled[k] == Still(actions[p + k])
    requires !actions[p].ATick?
    ensures Retimed(actions, p, q, actions[..p] + [ATick(interval)] + (stilled + [actions[q]]), p + 1, q + 1)
  {
    var tick := [ATick(interval)];
    var actions' := actions[..p] + tick + (stilled + [actions[q]]);
    assert actions'[..p + 1] == actions[..p] + tick;
    assert actions'[..q + 1] == actions[..p] + tick + stilled;
    assert actions[..q] == actions[..p] + actions[p..q];
    UntimedJoins(actions[..p], tick);
    UntimedJoins(actions[..p] + tick, stilled);
    UntimedJoins(actions[..p], actions[p..q]);
    UntimedStill(actions[p..q], stilled);
    assert tick[..0] == [];
  }

  lemma UntimedSplit(actions: seq<Action>, p: nat, q: nat)
    requires p <= q <= |actions|
    ensures Untimed(actions[..q]) == Untimed(actions[..p]) + Untimed(actions[p..q])
  {
    assert actions[..q] == actions[..p] + actions[p..q];
    UntimedJoins(actions[..p], actions[p..q]);
  }

  lemma ReportedUntimed(actions: seq<Action>, p: nat, q: nat)
    requires p <= q <= |actions|
    ensures ReportedBetween(actions, p, q) <==> AAppendOk in Untimed(actions[p..q])
  {
    UntimedHas(actions[p..q], AAppendOk);
    if r :| p <= r < q && actions[r].AAppendOk? { assert actions[p..q][r - p] == AAppendOk; }
    if AAppendOk in actions[p..q] {
      var k :| 0 <= k < q - p && actions[p..q][k] == AAppendOk;
      assert actions[p + k].AAppendOk?;
    }
  }

  /** Whether an append was reported in between does not depend on the times. */
  lemma RetimedReports(actions: seq<Action>, p: nat, q: nat, actions': seq<Action>, p': nat, q': nat)
    requires Retimed(actions, p, q, actions', p', q')
    ensures ReportedBetween(actions, p, q) <==> ReportedBetween(actions', p', q')
  {
    UntimedSplit(actions, p, q);
    UntimedSplit(actions', p', q');
    var n := |Untimed(actions[..p])|;
    assert Untimed(actions[p..q]) == Untimed(actions[..q])[n..] == Untimed(actions'[p'..q']);
    ReportedUntimed(actions, p, q);
    ReportedUntimed(actions', p', q');
  }

  /** A run with other waiting times in which the later commit waited its turn. */
  ghost predicate Retiming(actions: seq<Action>, p: nat, q: nat, interval: nat, states': seq<State>,
                           actions': seq<Action>, p': nat, q': nat)
  {
    && IsRun(states', actions', interval) && Retimed(actions, p, q, actions', p', q')
    && WaitsItsTurn(states', actions', q')
  }

  /** Two commits, the later of which waited its turn, are at least the interval apart, whatever the times
      are, exactly if an append was reported to succeed from the first on and before the second. */
  lemma PacedExactly(states: seq<State>, actions: seq<Action>, interval: nat, p: nat, q: nat)
    requires IsRun(states, actions, interval) && p < q && CommitsAt(actions, p) && WaitsItsTurn(states, actions, q)
    requires interval >= 1
    ensures ReportedBetween(actions, p, q) <==>
      forall states': seq<State>, actions': seq<Action>, p': nat, q': nat ::
        Retiming(actions, p, q, interval, states', actions', p', q') ==> states'[q'].now >= states'[p'].now + interval
  {
    if ReportedBetween(actions, p, q) {
      forall states': seq<State>, actions': seq<Action>, p': nat, q': nat |
        Retiming(actions, p, q, interval, states', actions', p', q')
        ensures states'[q'].now >= states'[p'].now + interval
      {
        RetimedReports(actions, p, q, actions', p', q');
        ReportedPaces(states', actions', interval, p', q');
      }
    } else {
      var states', actions' := UnreportedUnpaced(states, actions, interval, p, q);
      assert Retiming(actions, p, q, interval, states', actions', p + 1, q + 1);
    }
  }

  // ----- A run without a pause -----

  /** Nothing buffered, nothing in flight, and no commit reported yet. */
  ghost predicate Quiet(s: State) {
    s.phase.Idle? && s.last.None? && s.buffer == EMPTY_BATCH && s.waiters == {}
  }

  lemma RunGrows(states: seq<State>, actions: seq<Action>, interval: nat, a: Action, s': State)
    requires IsRun(states, actions, interval) && Step(states[|states| - 1], a, s', interval)
    ensures IsRun(states + [s'], actions + [a], interval)
  {
    RunsJoin(states, actions, [s'], [], a, interval);
    assert actions + [a] + [] == actions + [a];
  }

  /** One call, and a flush of it whose append commits and reports an error. */
  lemma UnreportedFlush(states: seq<State>, actions: seq<Action>, interval: nat, id: nat)
    returns (states': seq<State>, actions': seq<Action>)
    requires IsRun(states, actions, interval) && Quiet(states[|states| - 1]) && id !in states[|states| - 1].written
    ensures IsRun(states', actions', interval) && |actions'| == |actions| + 5
    ensures actions <= actions' && states <= states'
    ensures CommitsAt(actions', |actions| + 4) && WaitsItsTurn(states', actions', |actions| + 4)
    ensures states'[|actions| + 4].now == states[|states| - 1].now == states'[|states'| - 1].now
    ensures Quiet(states'[|states'| - 1])
    ensures states'[|states'| - 1].written.Keys == states[|states| - 1].written.Keys + {id}
  {
    var w := Write([Document("a", map[])], [], [], false, false);
    var s := states[|states| - 1];
    var a := s.(written := s.written[id := w], place := s.place[id := Buffered],
                buffer := Batch(Joined(s.buffer.entry, w), s.buffer.writers + [id], {}, {}),
                waiters := s.waiters + {id});
    RunGrows(states, actions, interval, AWriteOk(id, w), a);
    var b := a.(phase := Waiting(false));
    RunGrows(states + [a], actions + [AWriteOk(id, w)], interval, ABeginFlush(false), b);
    var c := b.(phase := Cooled(false, b.now));
    states', actions' := states + [a] + [b], actions + [AWriteOk(id, w)] + [ABeginFlush(false)];
    RunGrows(states', actions', interval, APassCooldown, c);
    states', actions' := states' + [c], actions' + [APassCooldown];
    var d := c.(phase := InFlight(c.buffer, c.waiters, false, c.now),
                place := Moved(c.place, c.buffer.writers, Flying), buffer := EMPTY_BATCH, waiters := {});
    RunGrows(states', actions', interval, ADrain, d);
    states', actions' := states' + [d], actions' + [ADrain];
    var e := d.(log := d.log + [d.phase.batch],
                place := Moved(d.place, d.phase.batch.writers, Logged(|d.log| + 1)),
                failed := d.failed + d.phase.waiters, phase := Idle);
    RunGrows(states', actions', interval, AAppendFails(true), e);
    states', actions' := states' + [e], actions' + [AAppendFails(true)];
  }

  /** For every interval, two entries durable at the same moment, though the second waited its turn. */
  lemma UnpacedRun(interval: nat)
    ensures exists states: seq<State>, actions: seq<Action>, p: nat, q: nat ::
      && IsRun(states, actions, interval) && p < q && CommitsAt(actions, p) && WaitsItsTurn(states, actions, q)
      && states[q].now == states[p].now
  {
    var s := State(map[], map[], EMPTY_BATCH, {}, Idle, [], map[], {}, {}, 0, None, []);
    assert IsRun([s], [], interval);
    var states1, actions1 := UnreportedFlush([s], [], interval, 0);
    var states, actions := UnreportedFlush(states1, actions1, interval, 1);
    assert actions[4] == actions1[4] && states[4] == states1[4];
    assert CommitsAt(actions, 4) && WaitsItsTurn(states, actions, 9) && states[9].now == states[4].now;
  }
}
