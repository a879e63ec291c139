/** Who looks after an unusable active input, over every interleaving. */
module FailoverCover {
  import opened Domain
  import opened FailoverState
  import opened FailoverRuns

  /** Nothing needs doing: the stream is gone, declared exhausted, or served. */
  predicate Settled(s: State) {
    s.dead || s.exhausted || UsableAt(s, s.active)
  }

  /** The action will reconsider the active input: a choice to be made, or a
      switch away from it under way. */
  predicate Remedies(a: Action, active: int) {
    match a
    case TrySelect(_) => true
    case StartSwitch(prev, _, _) => prev == active
    case CommitSwitch(prev, _, _) => prev == active
    case _ => false
  }

  predicate PendingIn(th: Thread, active: int) {
    exists j :: 0 <= j < |th| && Remedies(th[j], active)
  }

  predicate Pending(threads: seq<Thread>, active: int) {
    exists i :: 0 <= i < |threads| && PendingIn(threads[i], active)
  }

  /** An unusable active input is declared exhausted or being looked after. */
  predicate Covered(w: World) {
    Settled(w.s) || Pending(w.threads, w.s.active)
  }

  /** What remains of the threads once thread i has taken its next action. */
  function Others(w: World, i: nat): seq<Thread>
    requires i < |w.threads| && w.threads[i] != []
  {
    w.threads[i := w.threads[i][1..]]
  }

  /** The steps that leave the active input to nobody: a replacement refuses to
      start, an unraced commit activates an input that failed meanwhile, or an
      active input of negative priority times out; and nothing else is pending. */
  ghost predicate Uncovers(w: World, e: Event)
    requires Enabled(w, e)
  {
    match e
    case Advance(_, i, ok) =>
      (match w.threads[i][0]
       case StartSwitch(_, _, _) => !ok && !Settled(w.s) && !Pending(Others(w, i), w.s.active)
       case CommitSwitch(prev, best, _) =>
         !w.s.dead && w.s.active == prev && !UsableAt(w.s, best) && !Pending(Others(w, i), best)
       case _ => false)
    case Tick(at, timeout, _) =>
      !w.s.dead && !w.s.exhausted && w.s.active < 0 && TimedOut(w.s, at, timeout)
      && !CollectFailback(w.s, at, timeout) && !Pending(w.threads, w.s.active)
    case _ => false
  }

  // -------------------------------------------------------------- pending actions

  lemma PendingInConcat(a: Thread, b: Thread, active: int)
    ensures PendingIn(a + b, active) <==> PendingIn(a, active) || PendingIn(b, active)
  {
    var all := a + b;
    if j :| 0 <= j < |a| && Remedies(a[j], active) {
      assert all[j] == a[j];
    }
    if j :| 0 <= j < |b| && Remedies(b[j], active) {
      assert all[|a| + j] == b[j];
    }
  }

  lemma PendingConcat(a: seq<Thread>, b: seq<Thread>, active: int)
    ensures Pending(a + b, active) <==> Pending(a, active) || Pending(b, active)
  {
    var all := a + b;
    if i :| 0 <= i < |a| && PendingIn(a[i], active) {
      assert all[i] == a[i];
    }
    if i :| 0 <= i < |b| && PendingIn(b[i], active) {
      assert all[|a| + i] == b[i];
    }
  }

  /** Putting actions at the head of a thread. */
  lemma PendingPrepend(threads: seq<Thread>, i: nat, next: Thread, active: int)
    requires i < |threads|
    ensures Pending(threads[i := next + threads[i]], active) <==> PendingIn(next, active) || Pending(threads, active)
  {
    var more := threads[i := next + threads[i]];
    PendingInConcat(next, threads[i], active);
    if k :| 0 <= k < |threads| && PendingIn(threads[k], active) {
      assert PendingIn(more[k], active);
    }
    if PendingIn(next, active) {
      assert PendingIn(more[i], active);
    }
    if k :| 0 <= k < |more| && PendingIn(more[k], active) {
      assert k == i || more[k] == threads[k];
    }
  }

  lemma PendingNext(w: World, i: nat, active: int)
    requires i < |w.threads| && w.threads[i] != []
    ensures Pending(w.threads, active) <==> Remedies(w.threads[i][0], active) || Pending(Others(w, i), active)
  {
    var a := w.threads[i][0];
    PendingPrepend(Others(w, i), i, [a], active);
    assert [a] + w.threads[i][1..] == w.threads[i];
    assert Others(w, i)[i := w.threads[i]] == w.threads;
    assert [a][0] == a;
  }

  lemma ProbersRemedyNothing(tasks: seq<ProbeTask>, active: int)
    ensures !Pending(Probers(tasks), active)
  {
  }

  // ------------------------------------------------------------------- each step

  /** An action that neither starts nor commits a switch keeps its thread's share
      of the cover. */
  lemma ActCovers(s: State, a: Action, ok: bool, at: int)
    requires !a.StartSwitch? && !a.CommitSwitch?
    ensures var (t, next, _) := Act(s, a, ok, at);
            t.active == s.active && (Settled(s) || Remedies(a, s.active) ==> Settled(t) || PendingIn(next, t.active))
  {
    var (t, next, _) := Act(s, a, ok, at);
    match a
    case InitialStart(best) =>
      if !ok && ReportError(s, best, false, at).1 {
        assert Remedies(next[0], t.active);
      }
    case TrySelect(reason) =>
      if !s.dead && Select(s).1.Some? {
        assert Remedies(next[0], t.active);
      }
    case RunProbe(task) =>
      if ok && ProbeOk(s, task, at).1.Some? {
        assert Remedies(next[0], t.active);
      }
    case _ =>
  }

  lemma AdvanceThreads(w: World, e: Event, active: int)
    requires e.Advance? && Enabled(w, e)
    ensures var (_, next, _) := Act(w.s, w.threads[e.thread][0], e.ok, e.at);
            Pending(Step(w, e).threads, active) <==> PendingIn(next, active) || Pending(Others(w, e.thread), active)
  {
    var (t, next, spawned) := Act(w.s, w.threads[e.thread][0], e.ok, e.at);
    var rest := Others(w, e.thread);
    assert Step(w, e).threads == rest[e.thread := next + rest[e.thread]] + spawned;
    PendingConcat(rest[e.thread := next + rest[e.thread]], spawned, active);
    PendingPrepend(rest, e.thread, next, active);
    if w.threads[e.thread][0].Launch? {
      ProbersRemedyNothing(w.threads[e.thread][0].tasks, active);
    }
  }

  lemma AdvanceCoversExactly(w: World, e: Event)
    requires e.Advance? && Enabled(w, e) && Covered(w)
    ensures Covered(Step(w, e)) <==> !Uncovers(w, e)
  {
    var a := w.threads[e.thread][0];
    var (t, next, _) := Act(w.s, a, e.ok, e.at);
    AdvanceThreads(w, e, t.active);
    PendingNext(w, e.thread, w.s.active);
    match a
    case StartSwitch(prev, best, reason) =>
      if e.ok {
        assert next[0] == CommitSwitch(prev, best, reason);
        assert Remedies(next[0], w.s.active) <==> Remedies(a, w.s.active);
      }
    case CommitSwitch(prev, best, reason) =>
      assert UsableAt(t, best) <==> UsableAt(w.s, best);
    case _ => ActCovers(w.s, a, e.ok, e.at);
  }

  lemma RequestCovers(w: World, t: State, reason: Reason)
    ensures Pending(w.threads + [[TrySelect(reason)]], t.active)
    ensures Pending(w.threads, t.active) ==> Pending(w.threads + [], t.active)
  {
    var th := [TrySelect(reason)];
    assert Remedies(th[0], t.active);
    assert PendingIn([th][0], t.active);
    PendingConcat(w.threads, [th], t.active);
    assert w.threads + [] == w.threads;
  }

  lemma TickThreadPending(s: State, at: int, timeout: int, tasks: seq<ProbeTask>, active: int)
    ensures PendingIn(TickThread(s, at, timeout, tasks), active)
            <==> CollectTimedOut(s, at, timeout) >= 0 || CollectFailback(s, at, timeout)
  {
    var a := if CollectTimedOut(s, at, timeout) >= 0 then [TrySelect(Timeout)] else [];
    var c := if CollectFailback(s, at, timeout) then [TrySelect(Failback)] else [];
    PendingInConcat(a + [Launch(tasks)], c, active);
    PendingInConcat(a, [Launch(tasks)], active);
    assert a != [] ==> Remedies(a[0], active);
    assert c != [] ==> Remedies(c[0], active);
  }

  lemma TickCoversExactly(w: World, e: Event)
    requires e.Tick? && Enabled(w, e) && Covered(w)
    ensures Covered(Step(w, e)) <==> !Uncovers(w, e)
  {
    var th := TickThread(w.s, e.at, e.timeout, e.tasks);
    var t := Step(w, e).s;
    TickThreadPending(w.s, e.at, e.timeout, e.tasks, w.s.active);
    PendingConcat(w.threads, [th], w.s.active);
    assert Pending([th], w.s.active) <==> PendingIn([th][0], w.s.active);
    assert t.active == w.s.active && t.dead == w.s.dead && t.exhausted == w.s.exhausted;
  }

  lemma EditCovers(w: World, e: Event)
    requires e.Edit? && Enabled(w, e) && Covered(w)
    ensures Covered(Step(w, e))
  {
    RemoveAllEffect(w.s, e.removed);
    AddAllEffect(RemoveAll(w.s, e.removed), e.added);
    ReplaceAllEffect(AddAll(RemoveAll(w.s, e.removed), e.added), e.updated);
    var reason := UpdateReason(w.s, e.added, e.removed);
    PendingConcat(w.threads, [Follow(reason)], w.s.active);
    if reason.Some? {
      RequestCovers(w, Step(w, e).s, reason.value);
    }
  }

  /** Every step keeps an unusable active input looked after, exactly when it is
      not one of the uncovering ones. */
  lemma StepCoversExactly(w: World, e: Event)
    requires Enabled(w, e) && Covered(w)
    ensures Covered(Step(w, e)) <==> !Uncovers(w, e)
  {
    match e
    case Advance(_, _, _) => AdvanceCoversExactly(w, e);
    case Tick(_, _, _) => TickCoversExactly(w, e);
    case Edit(_, _, _, _) => EditCovers(w, e);
    case Fault(at, p, noPusher) => RequestCovers(w, Step(w, e).s, Error);
    case SwitchRequest(_, _) => RequestCovers(w, Step(w, e).s, Manual);
    case _ =>
  }

  // ------------------------------------------------------------------------ runs

  lemma StartCoveredExactly(inputs: seq<Input>, now: int)
    ensures Covered(Start(inputs, now)) <==> inputs != []
  {
    FreshWellKeyed(inputs, now);
    if inputs != [] {
      assert Mentions(inputs, inputs[0].priority);
      assert UsableAt(Fresh(inputs, now), inputs[0].priority);
    }
  }

  /** Covered after every step. */
  ghost predicate CoveredThroughout(w: World, es: seq<Event>)
    requires Runs(w, es)
    decreases |es|
  {
    Covered(After(w, es)) && (es == [] || CoveredThroughout(w, es[..|es| - 1]))
  }

  /** No step of the run uncovers in the world it meets. */
  ghost predicate NeverUncovers(w: World, es: seq<Event>)
    requires Runs(w, es)
    decreases |es|
  {
    es == [] ||
    (NeverUncovers(w, es[..|es| - 1]) && !Uncovers(After(w, es[..|es| - 1]), es[|es| - 1]))
  }

  lemma {:induction false} RunCoversExactly(w: World, es: seq<Event>)
    requires Runs(w, es)
    ensures CoveredThroughout(w, es) <==> Covered(w) && NeverUncovers(w, es)
  {
    if es != [] {
      var front := es[..|es| - 1];
      RunCoversExactly(w, front);
      if CoveredThroughout(w, front) {
        assert Covered(After(w, front));
        StepCoversExactly(After(w, front), es[|es| - 1]);
      }
    }
  }

  /** Over every interleaving from registration: the stream stays covered exactly
      when it was given an input and no step uncovers it; and then, whenever
      nothing is pending, a live stream is exhausted or its active input usable. */
  lemma CoveredExactly(inputs: seq<Input>, now: int, es: seq<Event>)
    requires Runs(Start(inputs, now), es)
    ensures CoveredThroughout(Start(inputs, now), es) <==> inputs != [] && NeverUncovers(Start(inputs, now), es)
    ensures var w := After(Start(inputs, now), es);
            (inputs != [] && NeverUncovers(Start(inputs, now), es) && !w.s.dead && !Pending(w.threads, w.s.active))
            ==> w.s.exhausted || UsableAt(w.s, w.s.active)
  {
    RunCoversExactly(Start(inputs, now), es);
    StartCoveredExactly(inputs, now);
  }

  // ------------------------------------------------------------ a run that loses it

  /** The two-input stream with the given statuses, threads and exhaustion flag. */
  function RaceWorld(a: Input, b: Input, now: int, sa: Status, sb: Status, out: bool, threads: seq<Thread>): World {
    var at0 := if sa == Degraded then map[0 := now] else map[];
    var at := if sb == Degraded then at0[1 := now] else at0;
    World(State(map[0 := Health(0, a, now, sa), 1 := Health(1, b, now, sb)], 0, at, map[], now, [], [],
                None, false, out, 2),
          threads, now)
  }

  lemma RaceFaultA(a: Input, b: Input, now: int, noPusher: bool)
    ensures var w := RaceWorld(a, b, now, Idle, Idle, false, [[InitialStart(0)]]);
            Step(w, Fault(now, 0, noPusher))
            == RaceWorld(a, b, now, Degraded, Idle, false, [[InitialStart(0)], [TrySelect(Error)]])
  {
  }

  lemma RaceSelectB(a: Input, b: Input, now: int)
    ensures var w := RaceWorld(a, b, now, Degraded, Idle, false, [[InitialStart(0)], [TrySelect(Error)]]);
            Step(w, Advance(now, 1, true))
            == RaceWorld(a, b, now, Degraded, Idle, false, [[InitialStart(0)], [StartSwitch(0, 1, Error)]])
  {
    var w := RaceWorld(a, b, now, Degraded, Idle, false, [[InitialStart(0)], [TrySelect(Error)]]);
    assert UsableAt(w.s, 1);
    assert SelectBest(w.s) == Some(1);
    assert Act(w.s, w.threads[1][0], true, now).1 == [StartSwitch(0, 1, Error)];
    assert [StartSwitch(0, 1, Error)] + w.threads[1][1..] == [StartSwitch(0, 1, Error)];
    assert Step(w, Advance(now, 1, true)).threads == [[InitialStart(0)], [StartSwitch(0, 1, Error)]];
  }

  lemma RaceFaultB(a: Input, b: Input, now: int, noPusher: bool)
    ensures var w := RaceWorld(a, b, now, Degraded, Idle, false, [[InitialStart(0)], [StartSwitch(0, 1, Error)]]);
            Step(w, Fault(now, 1, noPusher))
            == RaceWorld(a, b, now, Degraded, Degraded, false,
                         [[InitialStart(0)], [StartSwitch(0, 1, Error)], [TrySelect(Error)]])
  {
  }

  lemma RaceExhausts(a: Input, b: Input, now: int)
    ensures var w := RaceWorld(a, b, now, Degraded, Degraded, false,
                               [[InitialStart(0)], [StartSwitch(0, 1, Error)], [TrySelect(Error)]]);
            Step(w, Advance(now, 2, true))
            == RaceWorld(a, b, now, Degraded, Degraded, true, [[InitialStart(0)], [StartSwitch(0, 1, Error)], []])
  {
    var w := RaceWorld(a, b, now, Degraded, Degraded, false,
                       [[InitialStart(0)], [StartSwitch(0, 1, Error)], [TrySelect(Error)]]);
    assert forall p :: !UsableAt(w.s, p);
    assert Act(w.s, w.threads[2][0], true, now).1 == [];
    assert [] + w.threads[2][1..] == [];
    assert Step(w, Advance(now, 2, true)).threads == [[InitialStart(0)], [StartSwitch(0, 1, Error)], []];
  }

  lemma RaceCommits(a: Input, b: Input, now: int, w: World)
    requires w == RaceWorld(a, b, now, Degraded, Degraded, true, [[InitialStart(0)], [StartSwitch(0, 1, Error)], []])
    ensures var v := Step(w, Advance(now, 1, true));
            && Enabled(v, Advance(now, 1, true))
            && Step(v, Advance(now, 1, true)).s == Commit(w.s, 0, 1, Error, now)
            && Step(v, Advance(now, 1, true)).threads == [[InitialStart(0)], [], []]
  {
    var v := Step(w, Advance(now, 1, true));
    assert [CommitSwitch(0, 1, Error)] + w.threads[1][1..] == [CommitSwitch(0, 1, Error)];
    assert v.threads == w.threads[1 := [CommitSwitch(0, 1, Error)]] + [];
    assert v.threads == [[InitialStart(0)], [CommitSwitch(0, 1, Error)], []];
    assert [] + v.threads[1][1..] == [];
    assert Step(v, Advance(now, 1, true)).threads == v.threads[1 := []] + [];
  }

  lemma RaceToExhaustion(a: Input, b: Input, now: int, noPusher: bool) returns (es: seq<Event>)
    requires a.priority == 0 && b.priority == 1
    ensures Runs(Start([a, b], now), es)
    ensures After(Start([a, b], now), es)
         == RaceWorld(a, b, now, Degraded, Degraded, true, [[InitialStart(0)], [StartSwitch(0, 1, Error)], []])
  {
    var w0 := Start([a, b], now);
    TwoInputs(a, b, now);
    RaceFaultA(a, b, now, noPusher);
    es := Extend(w0, [], Fault(now, 0, noPusher));
    RaceSelectB(a, b, now);
    es := Extend(w0, es, Advance(now, 1, true));
    RaceFaultB(a, b, now, noPusher);
    es := Extend(w0, es, Fault(now, 1, noPusher));
    RaceExhausts(a, b, now);
    es := Extend(w0, es, Advance(now, 2, true));
  }

  /** Two inputs, both faulted: the failover selected before the second fault
      commits after exhaustion was declared. The stream then sits unexhausted on a
      degraded input, nothing is pending, and that input is never probed. Both
      faults may be a push slot reporting, from inside its own start, that no
      encoder is connected. */
  lemma RacingCommitHidesExhaustion(a: Input, b: Input, now: int, noPusher: bool) returns (es: seq<Event>)
    requires a.priority == 0 && b.priority == 1
    ensures Runs(Start([a, b], now), es)
    ensures var w := After(Start([a, b], now), es);
            && !Covered(w) && !w.s.exhausted && w.s.active == 1 && (forall p :: !UsableAt(w.s, p))
            && (forall t :: !ProbeDue(w.s, w.s.active, t))
  {
    var w0 := Start([a, b], now);
    es := RaceToExhaustion(a, b, now, noPusher);
    var w4 := After(w0, es);
    RaceCommits(a, b, now, w4);
    es := Extend(w0, es, Advance(now, 1, true));
    es := Extend(w0, es, Advance(now, 1, true));
    var w := After(w0, es);
    assert w.s == Commit(w4.s, 0, 1, Error, now);
    assert w.threads == [[InitialStart(0)], [], []];
  }

  lemma Extend(w: World, es: seq<Event>, e: Event) returns (more: seq<Event>)
    requires Runs(w, es) && Enabled(After(w, es), e)
    ensures more == es + [e] && Runs(w, more) && After(w, more) == Step(After(w, es), e)
  {
    more := es + [e];
    assert more[..|more| - 1] == es;
  }

  lemma TwoInputs(a: Input, b: Input, now: int)
    requires a.priority == 0 && b.priority == 1
    ensures Start([a, b], now) == RaceWorld(a, b, now, Idle, Idle, false, [[InitialStart(0)]])
  {
    FreshWellKeyed([a, b], now);
    assert [a, b][..1] == [a] && [a][..0] == [];
    assert Fresh([a], now).inputs == map[0 := Health(0, a, now, Idle)];
    var f := Fresh([a, b], now);
    assert f.inputs == map[0 := Health(0, a, now, Idle), 1 := Health(1, b, now, Idle)];
    assert UsableAt(f, 0);
    assert SelectBest(f) == Some(0);
  }
}
