/** What brings an exhausted stream back, over every interleaving. */
module FailoverRescue {
  import opened Domain
  import opened FailoverState
  import opened FailoverRuns
  import opened FailoverProbes
  import opened FailoverCover

  predicate SomeUsable(s: State) {
    exists p :: p in s.inputs && UsableAt(s, p)
  }

  /** A live exhausted stream with a usable input has a failover pending. */
  predicate Rescued(w: World) {
    !w.s.dead && w.s.exhausted && SomeUsable(w.s) ==> Pending(w.threads, w.s.active)
  }

  /** The steps that leave an exhausted stream without a failover pending although
      an input is usable: a packet heals a standby, an edit adds an input not below
      the active priority and keeps the active one, or the replacement found refuses
      to start. */
  predicate Strands(w: World, e: Event)
    requires Enabled(w, e)
  {
    !w.s.dead && w.s.exhausted &&
    match e
    case Packet(_, p) => p in w.s.inputs && p != w.s.active && !Pending(w.threads, w.s.active)
    case Edit(_, added, removed, _) =>
      added != [] && !Mentions(removed, w.s.active) && !MentionsBelow(added, w.s.active)
      && !Pending(w.threads, w.s.active)
    case Advance(_, i, ok) =>
      w.threads[i][0].StartSwitch? && !ok && SomeUsable(w.s) && !Pending(Others(w, i), w.s.active)
    case _ => false
  }

  // -------------------------------------------------------------------- each step

  lemma PacketRescues(w: World, e: Event)
    requires e.Packet? && Enabled(w, e) && Rescued(w)
    ensures Rescued(Step(w, e)) <==> !Strands(w, e)
  {
    var t := Step(w, e).s;
    if !w.s.dead && w.s.exhausted && e.priority in w.s.inputs {
      assert UsableAt(t, e.priority);
    }
  }

  lemma EditRescues(w: World, e: Event)
    requires e.Edit? && Enabled(w, e) && Rescued(w)
    ensures Rescued(Step(w, e)) <==> !Strands(w, e)
  {
    var t := Step(w, e).s;
    var reason := UpdateReason(w.s, e.added, e.removed);
    PendingConcat(w.threads, [Follow(reason)], w.s.active);
    if reason.Some? {
      RequestCovers(w, t, reason.value);
    }
    if !w.s.dead {
      EditOnState(w.s, e.added, e.removed, e.updated);
      if e.added != [] {
        assert Mentions(e.added, e.added[0].priority);
        assert UsableAt(t, e.added[0].priority);
      } else {
        forall p | UsableAt(t, p) ensures UsableAt(w.s, p) {
          assert !Mentions(e.added, p);
        }
        NoNewUsable(w.s, t);
      }
    }
  }

  /** No fault, tick or request makes an input usable. */
  lemma NoNewUsable(s: State, t: State)
    requires forall p :: UsableAt(t, p) ==> UsableAt(s, p)
    ensures SomeUsable(t) ==> SomeUsable(s)
  {
    if p :| UsableAt(t, p) {
      assert UsableAt(s, p);
    }
  }

  lemma FaultRescues(w: World, e: Event)
    requires e.Fault? && Enabled(w, e) && Rescued(w)
    ensures Rescued(Step(w, e))
  {
    NoNewUsable(w.s, Step(w, e).s);
    RequestCovers(w, Step(w, e).s, Error);
  }

  lemma TickRescues(w: World, e: Event)
    requires e.Tick? && Enabled(w, e) && Rescued(w)
    ensures Rescued(Step(w, e))
  {
    NoNewUsable(w.s, Step(w, e).s);
    PendingConcat(w.threads, [TickThread(w.s, e.at, e.timeout, e.tasks)], w.s.active);
  }

  /** An action that neither starts nor commits a switch. */
  lemma ActRescues(s: State, a: Action, ok: bool, at: int)
    requires !a.StartSwitch? && !a.CommitSwitch?
    ensures var (t, next, _) := Act(s, a, ok, at);
            && t.active == s.active && t.dead == s.dead
            && (!t.dead && t.exhausted && SomeUsable(t) ==>
                  PendingIn(next, t.active) || (s.exhausted && SomeUsable(s) && !Remedies(a, s.active)))
  {
    var (t, next, _) := Act(s, a, ok, at);
    match a
    case InitialStart(best) => NoNewUsable(s, t);
    case TrySelect(reason) =>
      NoNewUsable(s, t);
      if !s.dead && Select(s).1.Some? {
        assert Remedies(next[0], t.active);
      }
    case RunProbe(task) =>
      if ok && ProbeOk(s, task, at).1.Some? {
        assert Remedies(next[0], t.active);
      }
    case _ => NoNewUsable(s, t);
  }

  lemma AdvanceRescues(w: World, e: Event)
    requires e.Advance? && Enabled(w, e) && Rescued(w)
    ensures Rescued(Step(w, e)) <==> !Strands(w, e)
  {
    var a := w.threads[e.thread][0];
    var (t, next, _) := Act(w.s, a, e.ok, e.at);
    AdvanceThreads(w, e, t.active);
    PendingNext(w, e.thread, w.s.active);
    match a
    case StartSwitch(prev, best, reason) =>
      if e.ok {
        assert next[0] == CommitSwitch(prev, best, reason);
        assert Remedies(next[0], w.s.active) <==> Remedies(a, w.s.active);
      }
    case CommitSwitch(_, _, _) =>
    case _ => ActRescues(w.s, a, e.ok, e.at);
  }

  /** Every step keeps a failover pending for an exhausted stream with a usable
      input, exactly when it is not one of the stranding ones. */
  lemma StepRescuesExactly(w: World, e: Event)
    requires Enabled(w, e) && Rescued(w)
    ensures Rescued(Step(w, e)) <==> !Strands(w, e)
  {
    match e
    case Packet(_, _) => PacketRescues(w, e);
    case Edit(_, _, _, _) => EditRescues(w, e);
    case Advance(_, _, _) => AdvanceRescues(w, e);
    case Fault(_, _, _) => FaultRescues(w, e);
    case Tick(_, _, _) => TickRescues(w, e);
    case SwitchRequest(_, p) =>
      NoNewUsable(w.s, Step(w, e).s);
      RequestCovers(w, Step(w, e).s, Manual);
    case Unregister(_) =>
  }

  // ------------------------------------------------------------------------- runs

  ghost predicate RescuedThroughout(w: World, es: seq<Event>)
    requires Runs(w, es)
    decreases |es|
  {
    Rescued(After(w, es)) && (es == [] || RescuedThroughout(w, es[..|es| - 1]))
  }

  /** No step of the run strands in the world it meets. */
  ghost predicate NeverStrands(w: World, es: seq<Event>)
    requires Runs(w, es)
    decreases |es|
  {
    es == [] || (NeverStrands(w, es[..|es| - 1]) && !Strands(After(w, es[..|es| - 1]), es[|es| - 1]))
  }

  lemma {:induction false} RunRescuesExactly(w: World, es: seq<Event>)
    requires Runs(w, es)
    ensures RescuedThroughout(w, es) <==> Rescued(w) && NeverStrands(w, es)
  {
    if es != [] {
      var front := es[..|es| - 1];
      RunRescuesExactly(w, front);
      if RescuedThroughout(w, front) {
        assert Rescued(After(w, front));
        StepRescuesExactly(After(w, front), es[|es| - 1]);
      }
    }
  }

  /** Over every interleaving from registration: rescued throughout exactly when no
      step strands; and then, whenever no failover is pending, a live stream is
      declared exhausted only if nothing is usable. */
  lemma ExhaustedOnlyWhenNothingUsable(inputs: seq<Input>, now: int, es: seq<Event>)
    requires Runs(Start(inputs, now), es)
    ensures RescuedThroughout(Start(inputs, now), es) <==> NeverStrands(Start(inputs, now), es)
    ensures var w := After(Start(inputs, now), es);
            NeverStrands(Start(inputs, now), es) && !w.s.dead && w.s.exhausted && !Pending(w.threads, w.s.active)
            ==> forall p :: !UsableAt(w.s, p)
  {
    FreshWellKeyed(inputs, now);
    RunRescuesExactly(Start(inputs, now), es);
    var w := After(Start(inputs, now), es);
    if p :| UsableAt(w.s, p) {
      assert SomeUsable(w.s);
    }
  }

  // ------------------------------------------------------------ a run that strands

  lemma SecondFault(a: Input, b: Input, now: int)
    ensures var w := RaceWorld(a, b, now, Degraded, Idle, false, [[InitialStart(0)], [TrySelect(Error)]]);
            Step(w, Fault(now, 1, false))
            == RaceWorld(a, b, now, Degraded, Degraded, false, [[InitialStart(0)], [TrySelect(Error)], [TrySelect(Error)]])
  {
  }

  lemma NothingToSelect(a: Input, b: Input, now: int, out: bool, threads: seq<Thread>, i: nat)
    requires i < |threads| && threads[i] == [TrySelect(Error)]
    ensures var w := RaceWorld(a, b, now, Degraded, Degraded, out, threads);
            && Enabled(w, Advance(now, i, true))
            && Step(w, Advance(now, i, true)) == RaceWorld(a, b, now, Degraded, Degraded, true, threads[i := []])
  {
    var w := RaceWorld(a, b, now, Degraded, Degraded, out, threads);
    assert forall p :: !UsableAt(w.s, p);
    assert [] + threads[i][1..] == [];
    assert threads[i := []] + [] == threads[i := []];
  }

  lemma BothFaulted(a: Input, b: Input, now: int) returns (es: seq<Event>)
    requires a.priority == 0 && b.priority == 1
    ensures Runs(Start([a, b], now), es)
    ensures After(Start([a, b], now), es)
         == RaceWorld(a, b, now, Degraded, Degraded, true, [[InitialStart(0)], [], []])
  {
    var w0 := Start([a, b], now);
    TwoInputs(a, b, now);
    RaceFaultA(a, b, now, false);
    es := Extend(w0, [], Fault(now, 0, false));
    SecondFault(a, b, now);
    es := Extend(w0, es, Fault(now, 1, false));
    var threads := [[InitialStart(0)], [TrySelect(Error)], [TrySelect(Error)]];
    NothingToSelect(a, b, now, false, threads, 1);
    es := Extend(w0, es, Advance(now, 1, true));
    NothingToSelect(a, b, now, true, threads[1 := []], 2);
    es := Extend(w0, es, Advance(now, 2, true));
    assert threads[1 := []][2 := []] == [[InitialStart(0)], [], []];
  }

  /** Both inputs fault, the stream is declared exhausted, and a packet of the
      standby heals it: nothing switches to it. */
  lemma HealedStandbyStrands(a: Input, b: Input, now: int) returns (es: seq<Event>)
    requires a.priority == 0 && b.priority == 1
    ensures Runs(Start([a, b], now), es)
    ensures var w := After(Start([a, b], now), es);
            !Rescued(w) && !w.s.dead && w.s.exhausted && w.s.active == 0 && UsableAt(w.s, 1) && !Pending(w.threads, 0)
  {
    var w0 := Start([a, b], now);
    es := BothFaulted(a, b, now);
    StandbyDelivers(After(w0, es), now);
    es := Extend(w0, es, Packet(now, 1));
    assert forall i :: 0 <= i < 3 ==> !PendingIn(After(w0, es).threads[i], 0);
  }

  lemma StandbyDelivers(w: World, now: int)
    requires !w.s.dead && w.s.exhausted && w.s.active == 0 && 1 in w.s.inputs && w.clock <= now
    ensures var v := Step(w, Packet(now, 1));
            v.threads == w.threads && !v.s.dead && v.s.exhausted && v.s.active == 0 && UsableAt(v.s, 1)
  {
  }
}
