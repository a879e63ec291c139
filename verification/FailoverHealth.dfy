/** One input's status and liveness stamp, over every interleaving. */
module FailoverHealth {
  import opened Domain
  import opened FailoverState
  import opened FailoverRuns
  import opened FailoverProbes

  // -------------------------------------------------------- what concerns one input

  /** A packet of the input arrives. */
  predicate Delivers(w: World, e: Event, p: int) {
    e.Packet? && e.priority == p && !w.s.dead && p in w.s.inputs
  }

  /** The input is registered, anew or in place of itself. */
  predicate Registers(w: World, e: Event, p: int) {
    e.Edit? && !w.s.dead && Mentions(e.added, p)
  }

  predicate CommitsTo(a: Action, s: State, p: int) {
    a.CommitSwitch? && a.prev == s.active && a.best == p && !s.dead && p in s.inputs
  }

  /** A switch that nobody overtook makes the input the active one. */
  predicate Activates(w: World, e: Event, p: int)
    requires e.Advance? ==> e.thread < |w.threads| && w.threads[e.thread] != []
  {
    e.Advance? && CommitsTo(w.threads[e.thread][0], w.s, p)
  }

  /** A delivering input is left for another, or switched to again. */
  predicate Leaves(w: World, e: Event, p: int)
    requires e.Advance? ==> e.thread < |w.threads| && w.threads[e.thread] != []
  {
    && e.Advance? && w.threads[e.thread][0].CommitSwitch? && w.threads[e.thread][0].prev == p == w.s.active
    && !w.s.dead && p in w.s.inputs && w.s.inputs[p].status == Active
  }

  /** A probe sent for this very record succeeds. */
  predicate Recovers(w: World, e: Event, p: int)
    requires e.Advance? ==> e.thread < |w.threads| && w.threads[e.thread] != []
  {
    && e.Advance? && e.ok && w.threads[e.thread][0].RunProbe? && w.threads[e.thread][0].task.priority == p
    && !w.s.dead && p in w.s.inputs && w.s.inputs[p].id == w.threads[e.thread][0].task.id
  }

  /** A usable input reports an error, other than a push slot that has no encoder
      yet and is the only input, or its first start is refused. */
  predicate Faults(w: World, e: Event, p: int)
    requires e.Advance? ==> e.thread < |w.threads| && w.threads[e.thread] != []
  {
    !w.s.dead && UsableAt(w.s, p) &&
    match e
    case Fault(_, q, noPusher) => q == p && !(noPusher && |w.s.inputs| == 1)
    case Advance(_, i, ok) => !ok && w.threads[i][0] == InitialStart(p)
    case _ => false
  }

  /** A tick finds the active input silent for longer than the timeout. */
  predicate Silent(w: World, e: Event, p: int, seen: int) {
    e.Tick? && !w.s.dead && p == w.s.active && p in w.s.inputs && !IsDegraded(w.s, p) && e.at - seen > e.timeout
  }

  // ------------------------------------------------------------------ in every step

  /** What the step makes of the input's status and stamp. */
  predicate AsTold(w: World, e: Event, p: int, h: Health)
    requires e.Advance? ==> e.thread < |w.threads| && w.threads[e.thread] != []
  {
    if Registers(w, e, p) then h.status == Idle && h.lastPacketAt == ZERO_TIME
    else
      && p in w.s.inputs
      && h.status == (if Delivers(w, e, p) then Active
                      else if Faults(w, e, p) || Silent(w, e, p, w.s.inputs[p].lastPacketAt) then Degraded
                      else if Recovers(w, e, p) || Leaves(w, e, p) then Idle
                      else w.s.inputs[p].status)
      && h.lastPacketAt == if Delivers(w, e, p) || Activates(w, e, p) then e.at else w.s.inputs[p].lastPacketAt
  }

  lemma PacketHealth(w: World, e: Event, p: int)
    requires Enabled(w, e) && e.Packet? && p in Step(w, e).s.inputs
    ensures AsTold(w, e, p, Step(w, e).s.inputs[p])
  {
  }

  lemma FaultHealth(w: World, e: Event, p: int)
    requires Enabled(w, e) && e.Fault? && p in Step(w, e).s.inputs
    ensures AsTold(w, e, p, Step(w, e).s.inputs[p])
  {
    OnlyInput(w.s.inputs, p);
  }

  lemma TickHealth(w: World, e: Event, p: int)
    requires Enabled(w, e) && e.Tick? && p in Step(w, e).s.inputs
    ensures AsTold(w, e, p, Step(w, e).s.inputs[p])
  {
  }

  /** Only an edit or a packet, a fault, a silent tick, a probe or a commit changes
      what is known of an input, and each in one way. */
  lemma StepHealth(w: World, e: Event, p: int)
    requires Enabled(w, e) && p in Step(w, e).s.inputs
    ensures AsTold(w, e, p, Step(w, e).s.inputs[p])
  {
    match e
    case Packet(_, _) => PacketHealth(w, e, p);
    case Fault(_, _, _) => FaultHealth(w, e, p);
    case Tick(_, _, _) => TickHealth(w, e, p);
    case Edit(_, added, removed, updated) =>
      if !w.s.dead {
        EditHealth(w.s, added, removed, updated, p);
      }
    case Advance(_, _, _) => ActHealth(w, e, p);
    case _ =>
  }

  lemma OnlyInput(inputs: map<int, Health>, p: int)
    requires p in inputs
    ensures |inputs| >= 1
  {
    assert inputs.Keys == {p} + (inputs.Keys - {p});
  }

  lemma EditHealth(s: State, added: seq<Input>, removed: seq<Input>, updated: seq<Input>, p: int)
    requires !s.dead && p in UpdateInputs(s, added, removed, updated).inputs
    ensures var h := UpdateInputs(s, added, removed, updated).inputs[p];
            if Mentions(added, p) then h.status == Idle && h.lastPacketAt == ZERO_TIME
            else p in s.inputs && h.status == s.inputs[p].status && h.lastPacketAt == s.inputs[p].lastPacketAt
  {
    RemoveAllEffect(s, removed);
    if Mentions(added, p) {
      AddedUnseen(RemoveAll(s, removed), added, p);
    }
    AddAllEffect(RemoveAll(s, removed), added);
    ReplaceAllEffect(AddAll(RemoveAll(s, removed), added), updated);
  }

  lemma {:induction false} AddedUnseen(s: State, added: seq<Input>, p: int)
    requires Mentions(added, p)
    ensures p in AddAll(s, added).inputs && AddAll(s, added).inputs[p].lastPacketAt == ZERO_TIME
  {
    var n := |added| - 1;
    assert added[..n + 1] == added;
    MentionsSnoc(added, n, p);
    if added[n].priority != p {
      AddedUnseen(s, added[..n], p);
    }
  }

  lemma ActHealth(w: World, e: Event, p: int)
    requires Enabled(w, e) && e.Advance? && p in Step(w, e).s.inputs
    ensures AsTold(w, e, p, Step(w, e).s.inputs[p])
  {
    match w.threads[e.thread][0]
    case InitialStart(best) =>
    case CommitSwitch(prev, best, reason) =>
    case RunProbe(task) =>
    case _ =>
  }

  // ------------------------------------------------------------------ over each run

  /** The latest of the input's registration, its last switch and its last packet,
      as the events tell it; one added later counts as never seen until then. */
  ghost function SeenAt(inputs: seq<Input>, now: int, es: seq<Event>, p: int): int
    requires Runs(Start(inputs, now), es)
    decreases |es|
  {
    if es == [] then now
    else
      var (front, e) := (es[..|es| - 1], es[|es| - 1]);
      var w := After(Start(inputs, now), front);
      if Registers(w, e, p) then ZERO_TIME
      else if Delivers(w, e, p) || Activates(w, e, p) then e.at
      else SeenAt(inputs, now, front, p)
  }

  /** Down: since it was last registered, delivering, recovered or left while
      delivering, the input has faulted or timed out. */
  ghost function StatusOf(inputs: seq<Input>, now: int, es: seq<Event>, p: int): Status
    requires Runs(Start(inputs, now), es)
    decreases |es|
  {
    if es == [] then Idle
    else
      var (front, e) := (es[..|es| - 1], es[|es| - 1]);
      var w := After(Start(inputs, now), front);
      if Registers(w, e, p) then Idle
      else if Delivers(w, e, p) then Active
      else if Faults(w, e, p) || Silent(w, e, p, SeenAt(inputs, now, front, p)) then Degraded
      else if Recovers(w, e, p) || Leaves(w, e, p) then Idle
      else StatusOf(inputs, now, front, p)
  }

  lemma {:induction false} FreshSeen(inputs: seq<Input>, now: int, p: int)
    requires p in Fresh(inputs, now).inputs
    ensures Fresh(inputs, now).inputs[p].lastPacketAt == now && Fresh(inputs, now).inputs[p].status == Idle
  {
    if inputs != [] && inputs[|inputs| - 1].priority != p {
      FreshSeen(inputs[..|inputs| - 1], now, p);
    }
  }

  /** Over every interleaving the record of an input is what its events say. */
  lemma {:induction false} HealthExactly(inputs: seq<Input>, now: int, es: seq<Event>, p: int)
    requires Runs(Start(inputs, now), es) && p in After(Start(inputs, now), es).s.inputs
    ensures After(Start(inputs, now), es).s.inputs[p].lastPacketAt == SeenAt(inputs, now, es, p)
    ensures After(Start(inputs, now), es).s.inputs[p].status == StatusOf(inputs, now, es, p)
  {
    if es == [] {
      FreshSeen(inputs, now, p);
    } else {
      var (front, e) := (es[..|es| - 1], es[|es| - 1]);
      var w := After(Start(inputs, now), front);
      StepHealth(w, e, p);
      if p in w.s.inputs {
        HealthExactly(inputs, now, front, p);
      }
    }
  }

  /** A tick degrades exactly the active input of a live stream, not degraded yet,
      that was last registered, switched to or heard of longer ago than the timeout. */
  lemma TickDegradesExactly(inputs: seq<Input>, now: int, es: seq<Event>, tick: Event, p: int)
    requires Runs(Start(inputs, now), es) && tick.Tick? && Enabled(After(Start(inputs, now), es), tick)
    ensures var w := After(Start(inputs, now), es);
            IsDegraded(Step(w, tick).s, p)
            <==> IsDegraded(w.s, p)
                 || (!w.s.dead && p == w.s.active && p in w.s.inputs
                     && tick.at - SeenAt(inputs, now, es, p) > tick.timeout)
  {
    var w := After(Start(inputs, now), es);
    assert Step(w, tick).s.inputs.Keys == w.s.inputs.Keys;
    if p in w.s.inputs {
      assert p in Step(w, tick).s.inputs.Keys;
      HealthExactly(inputs, now, es, p);
      StepHealth(w, tick, p);
    }
  }

  lemma {:induction false} ClockPast(w: World, es: seq<Event>, k: nat)
    requires Runs(w, es) && k < |es|
    ensures es[k].at <= After(w, es).clock
  {
    if k < |es| - 1 {
      ClockPast(w, es[..|es| - 1], k);
    }
  }

  /** No later event of the run registers the input. */
  ghost predicate KeptSince(w: World, es: seq<Event>, k: nat, p: int)
    requires Runs(w, es)
    decreases |es|
  {
    k >= |es| || (KeptSince(w, es[..|es| - 1], k, p) && !Registers(After(w, es[..|es| - 1]), es[|es| - 1], p))
  }

  lemma {:induction false} SeenSince(inputs: seq<Input>, now: int, es: seq<Event>, k: nat, p: int)
    requires Runs(Start(inputs, now), es) && k < |es| && KeptSince(Start(inputs, now), es, k, p)
    requires Runs(Start(inputs, now), es[..k]) && Delivers(After(Start(inputs, now), es[..k]), es[k], p)
    ensures SeenAt(inputs, now, es, p) >= es[k].at
  {
    var front := es[..|es| - 1];
    if k < |front| {
      assert front[..k] == es[..k];
      SeenSince(inputs, now, front, k, p);
      ClockPast(Start(inputs, now), front, k);
    }
  }

  /** In particular an input that delivered within the timeout, and was not
      registered again since, is never degraded by a tick. */
  lemma DeliveringNotDegraded(inputs: seq<Input>, now: int, es: seq<Event>, k: nat, tick: Event, p: int)
    requires Runs(Start(inputs, now), es) && k < |es| && KeptSince(Start(inputs, now), es, k, p)
    requires Runs(Start(inputs, now), es[..k]) && Delivers(After(Start(inputs, now), es[..k]), es[k], p)
    requires tick.Tick? && Enabled(After(Start(inputs, now), es), tick) && tick.at - es[k].at <= tick.timeout
    ensures var w := After(Start(inputs, now), es); IsDegraded(Step(w, tick).s, p) ==> IsDegraded(w.s, p)
  {
    SeenSince(inputs, now, es, k, p);
    TickDegradesExactly(inputs, now, es, tick, p);
  }

  // ------------------------------------------------------------ the last real switch

  /** The time of the last switch or recovery logged, or of registration. */
  function LastSwitchTime(log: seq<SwitchEvent>, now: int): int {
    if log == [] then now
    else if log[|log| - 1].reason != Initial then log[|log| - 1].at
    else LastSwitchTime(log[..|log| - 1], now)
  }

  lemma LastSwitchSnoc(log: seq<SwitchEvent>, e: SwitchEvent, now: int)
    ensures LastSwitchTime(log + [e], now) == if e.reason != Initial then e.at else LastSwitchTime(log, now)
  {
    assert (log + [e])[..|log + [e]| - 1] == log;
  }

  lemma StepTimed(w: World, e: Event, now: int)
    requires Enabled(w, e) && AllRealReasons(w.threads) && w.s.lastSwitchAt == LastSwitchTime(w.s.log, now)
    ensures Step(w, e).s.lastSwitchAt == LastSwitchTime(Step(w, e).s.log, now)
  {
    match e
    case Packet(at, p) => LastSwitchSnoc(w.s.log, SwitchEvent(at, p, p, Recovery), now);
    case Edit(_, added, removed, updated) =>
      RemoveAllEffect(w.s, removed);
      AddAllEffect(RemoveAll(w.s, removed), added);
      ReplaceAllEffect(AddAll(RemoveAll(w.s, removed), added), updated);
    case Advance(at, i, ok) =>
      assert RealReasons(w.threads[i]);
      match w.threads[i][0] {
        case RecordInitial(best) => LastSwitchSnoc(w.s.log, SwitchEvent(at, -1, best, Initial), now);
        case CommitSwitch(prev, best, reason) => LastSwitchSnoc(w.s.log, SwitchEvent(at, prev, best, reason), now);
        case _ =>
      }
    case _ =>
  }

  /** Over every interleaving the cooldowns run from the last switch or recovery
      logged, or from registration. */
  lemma {:induction false} CooldownsFromLog(inputs: seq<Input>, now: int, es: seq<Event>)
    requires Runs(Start(inputs, now), es)
    ensures var s := After(Start(inputs, now), es).s; s.lastSwitchAt == LastSwitchTime(s.log, now)
  {
    if es == [] {
      FreshWellKeyed(inputs, now);
    } else {
      var front := es[..|es| - 1];
      CooldownsFromLog(inputs, now, front);
      HistoryChains(inputs, now, front);
      StepTimed(After(Start(inputs, now), front), es[|es| - 1], now);
    }
  }

  // ---------------------------------------------------------------------- the end

  /** Once unregistered a stream stays dead, and only its log of the initial choice
      and its probe marks can still change. */
  lemma DeadFrozen(w: World, e: Event)
    requires Enabled(w, e) && w.s.dead
    ensures var t := Step(w, e).s;
            && t == w.s.(probing := t.probing, log := t.log, history := t.history)
            && (t.log == w.s.log || (e.Advance? && w.threads[e.thread][0].RecordInitial?))
  {
  }

  lemma {:induction false} UnregisteredStays(w: World, e: Event, es: seq<Event>)
    requires Enabled(w, e) && e.Unregister? && Runs(Step(w, e), es)
    ensures var t := After(Step(w, e), es).s;
            t == w.s.(dead := true, probing := t.probing, log := t.log, history := t.history)
  {
    if es != [] {
      UnregisteredStays(w, e, es[..|es| - 1]);
      DeadFrozen(After(Step(w, e), es[..|es| - 1]), es[|es| - 1]);
    }
  }
}
