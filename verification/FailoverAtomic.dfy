/** The failover engine seen one operation at a time: every operation runs to
    completion, failover included, and the ingestor always starts. */
module FailoverAtomic {
  import opened Domain
  import opened FailoverState
  import opened FailoverRuns
  import opened FailoverProbes

  datatype Op =
    | PacketOp(at: int, priority: int)
    | FaultOp(at: int, priority: int, noPusher: bool)
    | TickOp(at: int, timeout: int)
    | ProbeOp(at: int, task: ProbeTask, ok: bool)
    | SwitchOp(at: int, priority: int)
    | EditOp(at: int, added: seq<Input>, removed: seq<Input>, updated: seq<Input>)

  /** tryFailover with a successful start and no interference. */
  ghost function Failover(s: State, reason: Reason, at: int): State {
    var (t, switch) := Select(s);
    match switch
    case Some(Switch(prev, best)) => Commit(t, prev, best, reason, at)
    case None => t
  }

  ghost function FailoverIf(cond: bool, s: State, reason: Reason, at: int): State {
    if cond then Failover(s, reason, at) else s
  }

  ghost function Apply(s: State, op: Op): State {
    match op
    case PacketOp(at, p) => RecordPacket(s, p, at)
    case FaultOp(at, p, noPusher) =>
      var (t, failover) := ReportError(s, p, noPusher, at);
      FailoverIf(failover, t, Error, at)
    case TickOp(at, timeout) =>
      FailoverIf(CollectFailback(s, at, timeout),
                 FailoverIf(CollectTimedOut(s, at, timeout) >= 0, Collect(s, at, timeout), Timeout, at),
                 Failback, at)
    case ProbeOp(at, task, ok) =>
      if !ok then EndProbe(s, task.priority)
      else
        var (t, follow) := ProbeOk(s, task, at);
        EndProbe(if follow.Some? then Failover(t, follow.value, at) else t, task.priority)
    case SwitchOp(at, p) =>
      var (t, ok) := RequestSwitch(s, p);
      FailoverIf(ok, t, Manual, at)
    case EditOp(at, added, removed, updated) =>
      var reason := UpdateReason(s, added, removed);
      var t := UpdateInputs(s, added, removed, updated);
      if reason.Some? then Failover(t, reason.value, at) else t
  }

  ghost function ApplyAll(s: State, ops: seq<Op>): State {
    if ops == [] then s else Apply(ApplyAll(s, ops[..|ops| - 1]), ops[|ops| - 1])
  }

  // ------------------------------------------------------------- the invariant

  /** The stream is either declared exhausted or served by a usable input. */
  ghost predicate Served(s: State) {
    s.exhausted || UsableAt(s, s.active)
  }

  /** An operator override in force is the active, usable input. */
  ghost predicate OverrideHonoured(s: State) {
    s.override.Some? ==> s.override == Some(s.active) && UsableAt(s, s.active) && !s.exhausted
  }

  ghost predicate Healthy(s: State) {
    !s.dead && WellKeyed(s) && Served(s) && OverrideHonoured(s)
  }

  /** Status, key and override changes a commit makes. */
  lemma CommitEffect(s: State, prev: int, best: int, reason: Reason, at: int)
    requires !s.dead && s.active == prev && WellKeyed(s)
    ensures var t := Commit(s, prev, best, reason, at);
            && !t.dead && WellKeyed(t) && !t.exhausted && t.active == best && t.override == s.override
            && t.inputs.Keys == s.inputs.Keys && forall p :: UsableAt(t, p) <==> UsableAt(s, p)
  {
  }

  lemma SameChoice(s: State, t: State)
    requires forall p :: UsableAt(t, p) <==> UsableAt(s, p)
    requires t.override == s.override || (t.override.None? && !UsableAt(s, s.override.value))
    ensures SelectBest(t) == SelectBest(s)
  {
    forall p ensures p in UsableSet(t) <==> p in UsableSet(s) {
      assert UsableAt(t, p) <==> UsableAt(s, p);
    }
    assert UsableSet(t) == UsableSet(s);
  }

  lemma ClearedOverride(s: State)
    ensures var t := ClearOverride(s, SelectBest(s));
            && (t.override.Some? ==> t.override == SelectBest(s))
            && (t.override == s.override || (t.override.None? && !UsableAt(s, s.override.value)))
  {
  }

  /** Failover repairs any state: whatever the active input's health, it ends
      served, with the override honoured or dropped. */
  lemma FailoverRepairs(s: State, reason: Reason, at: int)
    requires !s.dead && WellKeyed(s)
    ensures var t := Failover(s, reason, at);
            && Healthy(t)
            && t.inputs.Keys == s.inputs.Keys
            && (SelectBest(s).Some? ==> !t.exhausted && t.active == SelectBest(s).value)
            && (SelectBest(s).None? ==> t.exhausted)
            && SelectBest(t) == SelectBest(s)
  {
    var u := ClearOverride(s, SelectBest(s));
    var t := Failover(s, reason, at);
    ClearedOverride(s);
    if SelectBest(s).Some? && Select(s).1.Some? {
      CommitEffect(u, u.active, SelectBest(s).value, reason, at);
    } else {
      assert t.inputs == s.inputs && t.override == u.override;
      assert forall p :: UsableAt(t, p) <==> UsableAt(s, p);
    }
    SameChoice(s, t);
  }

  lemma EditEffect(s: State, added: seq<Input>, removed: seq<Input>, updated: seq<Input>)
    requires WellKeyed(s) && !s.dead
    ensures var t := UpdateInputs(s, added, removed, updated);
            && WellKeyed(t) && !t.dead && t.override == s.override && t.active == s.active
            && t.exhausted == s.exhausted
            && (!Mentions(removed, s.active) && UsableAt(s, s.active) ==> UsableAt(t, s.active))
            && (forall p :: p in t.inputs <==> (p in s.inputs && !Mentions(removed, p)) || Mentions(added, p))
  {
    RemoveAllEffect(s, removed);
    AddKeyed(RemoveAll(s, removed), added);
    AddAllEffect(RemoveAll(s, removed), added);
    ReplaceKeyed(AddAll(RemoveAll(s, removed), added), updated);
    ReplaceAllEffect(AddAll(RemoveAll(s, removed), added), updated);
  }

  lemma {:induction false} AddKeyed(s: State, added: seq<Input>)
    requires WellKeyed(s)
    ensures WellKeyed(AddAll(s, added))
  {
    if added != [] {
      AddKeyed(s, added[..|added| - 1]);
    }
  }

  lemma {:induction false} ReplaceKeyed(s: State, updated: seq<Input>)
    requires WellKeyed(s)
    ensures WellKeyed(ReplaceAll(s, updated))
  {
    if updated != [] {
      ReplaceKeyed(s, updated[..|updated| - 1]);
    }
  }

  /** The one operation that harms a healthy stream: -1 stands for no timed-out
      input, so a tick overlooks an active input of negative priority falling
      silent, unless it finds a better one to fall back to. */
  ghost predicate Slips(s: State, op: Op) {
    match op
    case TickOp(at, timeout) =>
      TimedOut(s, at, timeout) && s.active < 0 && !s.exhausted && !CollectFailback(s, at, timeout)
    case _ => false
  }

  /** A tick keeps a healthy stream healthy exactly when it does not slip; and 12 s
      past the last switch exactly then it leaves the stream exhausted or running
      on the best input. */
  lemma TickHealthyExactly(s: State, at: int, timeout: int)
    requires Healthy(s)
    ensures var t := Apply(s, TickOp(at, timeout));
            && (Healthy(t) <==> !Slips(s, TickOp(at, timeout)))
            && (at - s.lastSwitchAt >= FAILBACK_SWITCH_COOLDOWN ==>
                  (t.exhausted || SelectBest(t) == Some(t.active) <==> !Slips(s, TickOp(at, timeout))))
  {
    var c := Collect(s, at, timeout);
    var a := AfterTimeout(s, at, timeout);
    SelectBestFrame(a, c.probing);
    assert c == a.(probing := c.probing);
    assert WellKeyed(c);
    if TimedOut(s, at, timeout) && s.active >= 0 {
      FailoverRepairs(c, Timeout, at);
      if CollectFailback(s, at, timeout) {
        FailoverRepairs(Failover(c, Timeout, at), Failback, at);
      }
    } else if CollectFailback(s, at, timeout) {
      FailoverRepairs(c, Failback, at);
    } else if TimedOut(s, at, timeout) {
      assert !UsableAt(c, c.active);
    } else {
      assert UsableAt(c, c.active) <==> UsableAt(s, s.active);
    }
  }

  lemma FaultHealthy(s: State, at: int, p: int, noPusher: bool)
    requires Healthy(s)
    ensures Healthy(Apply(s, FaultOp(at, p, noPusher)))
  {
    var (t, failover) := ReportError(s, p, noPusher, at);
    if failover {
      FailoverRepairs(t, Error, at);
    }
  }

  lemma ProbeHealthy(s: State, at: int, task: ProbeTask, ok: bool)
    requires Healthy(s)
    ensures Healthy(Apply(s, ProbeOp(at, task, ok)))
  {
    var (t, follow) := ProbeOk(s, task, at);
    if ok && follow.Some? {
      FailoverRepairs(t, follow.value, at);
    }
  }

  lemma EditHealthy(s: State, at: int, added: seq<Input>, removed: seq<Input>, updated: seq<Input>)
    requires Healthy(s)
    ensures Healthy(Apply(s, EditOp(at, added, removed, updated)))
  {
    EditEffect(s, added, removed, updated);
    var (t, reason) := (UpdateInputs(s, added, removed, updated), UpdateReason(s, added, removed));
    if reason.Some? {
      FailoverRepairs(t, reason.value, at);
      assert Apply(s, EditOp(at, added, removed, updated)) == Failover(t, reason.value, at);
    } else {
      ActiveKeptHealthy(s, t);
      assert Apply(s, EditOp(at, added, removed, updated)) == t;
    }
  }

  lemma ActiveKeptHealthy(s: State, t: State)
    requires Healthy(s) && WellKeyed(t) && !t.dead
    requires t.override == s.override && t.active == s.active && t.exhausted == s.exhausted
    requires UsableAt(s, s.active) ==> UsableAt(t, s.active)
    ensures Healthy(t)
  {
  }

  /** So does every complete operation. */
  lemma ApplyHealthyExactly(s: State, op: Op)
    requires Healthy(s)
    ensures Healthy(Apply(s, op)) <==> !Slips(s, op)
  {
    match op
    case PacketOp(_, _) =>
    case FaultOp(at, p, noPusher) => FaultHealthy(s, at, p, noPusher);
    case TickOp(at, timeout) => TickHealthyExactly(s, at, timeout);
    case ProbeOp(at, task, ok) => ProbeHealthy(s, at, task, ok);
    case SwitchOp(at, p) =>
      var (t, ok) := RequestSwitch(s, p);
      if ok {
        FailoverRepairs(t, Manual, at);
      }
    case EditOp(at, added, removed, updated) => EditHealthy(s, at, added, removed, updated);
  }

  // ------------------------------------------------------------------------ runs

  /** Healthy after every operation. */
  ghost predicate HealthyThroughout(s: State, ops: seq<Op>) {
    Healthy(ApplyAll(s, ops)) && (ops == [] || HealthyThroughout(s, ops[..|ops| - 1]))
  }

  /** No operation slips in the state it meets. */
  ghost predicate NeverSlips(s: State, ops: seq<Op>) {
    ops == [] || (NeverSlips(s, ops[..|ops| - 1]) && !Slips(ApplyAll(s, ops[..|ops| - 1]), ops[|ops| - 1]))
  }

  /** Registration is healthy exactly when it is given an input. */
  lemma RegisteredHealthyExactly(inputs: seq<Input>, now: int)
    ensures Healthy(Registered(inputs, now)) <==> inputs != []
  {
    FreshWellKeyed(inputs, now);
    if inputs != [] {
      assert Mentions(inputs, inputs[0].priority);
      assert UsableAt(Fresh(inputs, now), inputs[0].priority);
    }
  }

  /** Every state reachable by complete operations is healthy, exactly when the
      stream has an input and no tick slips. */
  lemma {:induction false} AlwaysHealthyExactly(inputs: seq<Input>, now: int, ops: seq<Op>)
    ensures HealthyThroughout(Registered(inputs, now), ops)
            <==> inputs != [] && NeverSlips(Registered(inputs, now), ops)
  {
    var s := Registered(inputs, now);
    if ops == [] {
      RegisteredHealthyExactly(inputs, now);
    } else {
      var front := ops[..|ops| - 1];
      AlwaysHealthyExactly(inputs, now, front);
      if HealthyThroughout(s, front) {
        assert Healthy(ApplyAll(s, front));
        ApplyHealthyExactly(ApplyAll(s, front), ops[|ops| - 1]);
      }
    }
  }

  /** After such a run, a tick at least 12 s past the last switch leaves the stream
      exhausted or on exactly the best input, exactly when it does not slip. */
  lemma TickSettlesOnBestExactly(inputs: seq<Input>, now: int, ops: seq<Op>, at: int, timeout: int)
    requires inputs != [] && NeverSlips(Registered(inputs, now), ops)
    requires at - ApplyAll(Registered(inputs, now), ops).lastSwitchAt >= FAILBACK_SWITCH_COOLDOWN
    ensures var s := ApplyAll(Registered(inputs, now), ops);
            var t := Apply(s, TickOp(at, timeout));
            t.exhausted || SelectBest(t) == Some(t.active) <==> !Slips(s, TickOp(at, timeout))
  {
    AlwaysHealthyExactly(inputs, now, ops);
    var s := ApplyAll(Registered(inputs, now), ops);
    assert Healthy(s);
    TickHealthyExactly(s, at, timeout);
  }

  /** One input of negative priority that stays silent is enough. */
  lemma NegativePrioritySlips(inp: Input, now: int, at: int, timeout: int)
    requires inp.priority < 0 && at - now > timeout
    ensures var s := Registered([inp], now);
            var t := Apply(s, TickOp(at, timeout));
            Healthy(s) && Slips(s, TickOp(at, timeout)) && !Healthy(t) && !t.exhausted && !UsableAt(t, t.active)
  {
    var s, p := Registered([inp], now), inp.priority;
    RegisteredHealthyExactly([inp], now);
    FreshWellKeyed([inp], now);
    assert [inp][..0] == [];
    assert Fresh([inp], now).inputs == map[p := Health(0, inp, now, Idle)];
    assert UsableAt(Fresh([inp], now), p);
    assert SelectBest(Fresh([inp], now)) == Some(p);
    assert !ShouldFailback(AfterTimeout(s, at, timeout), at);
    TickHealthyExactly(s, at, timeout);
  }

  // ----------------------------------------------------- priorities that never slip

  predicate NonNegative(inputs: seq<Input>) {
    forall i :: 0 <= i < |inputs| ==> inputs[i].priority >= 0
  }

  ghost predicate NonNegativeKeys(s: State) {
    forall p :: p in s.inputs ==> p >= 0
  }

  predicate NonNegativeOp(op: Op) {
    op.EditOp? ==> NonNegative(op.added)
  }

  lemma FailoverKeys(s: State, reason: Reason, at: int)
    ensures Failover(s, reason, at).inputs.Keys == s.inputs.Keys
  {
    var (t, switch) := Select(s);
    assert t.inputs == s.inputs;
    if switch.Some? {
      CommitKeys(t, switch.value.prev, switch.value.best, reason, at);
    }
  }

  lemma CommitKeys(s: State, prev: int, best: int, reason: Reason, at: int)
    ensures Commit(s, prev, best, reason, at).inputs.Keys == s.inputs.Keys
  {
  }

  lemma EditKeepsNonNegative(s: State, op: Op)
    requires op.EditOp? && NonNegativeKeys(s) && NonNegativeOp(op)
    ensures NonNegativeKeys(UpdateInputs(s, op.added, op.removed, op.updated))
  {
    RemoveAllEffect(s, op.removed);
    AddAllEffect(RemoveAll(s, op.removed), op.added);
    ReplaceAllEffect(AddAll(RemoveAll(s, op.removed), op.added), op.updated);
  }

  lemma TickKeys(s: State, at: int, timeout: int)
    ensures Apply(s, TickOp(at, timeout)).inputs.Keys == s.inputs.Keys
  {
    var c := Collect(s, at, timeout);
    assert c.inputs.Keys == s.inputs.Keys;
    FailoverKeys(c, Timeout, at);
    FailoverKeys(c, Failback, at);
    FailoverKeys(Failover(c, Timeout, at), Failback, at);
  }

  lemma ProbeKeys(s: State, at: int, task: ProbeTask, ok: bool)
    ensures Apply(s, ProbeOp(at, task, ok)).inputs.Keys == s.inputs.Keys
  {
    var (t, follow) := ProbeOk(s, task, at);
    assert t.inputs.Keys == s.inputs.Keys;
    if follow.Some? {
      FailoverKeys(t, follow.value, at);
    }
  }

  lemma EditKeys(s: State, op: Op)
    requires op.EditOp?
    ensures Apply(s, op).inputs.Keys == UpdateInputs(s, op.added, op.removed, op.updated).inputs.Keys
  {
    var reason := UpdateReason(s, op.added, op.removed);
    if reason.Some? {
      FailoverKeys(UpdateInputs(s, op.added, op.removed, op.updated), reason.value, op.at);
    }
  }

  /** Only an edit changes the priorities. */
  lemma ApplyKeys(s: State, op: Op)
    requires !op.EditOp?
    ensures Apply(s, op).inputs.Keys == s.inputs.Keys
  {
    match op
    case PacketOp(_, _) =>
    case FaultOp(at, p, noPusher) => FailoverKeys(ReportError(s, p, noPusher, at).0, Error, at);
    case TickOp(at, timeout) => TickKeys(s, at, timeout);
    case ProbeOp(at, task, ok) => ProbeKeys(s, at, task, ok);
    case SwitchOp(at, p) => FailoverKeys(RequestSwitch(s, p).0, Manual, at);
  }

  lemma ApplyKeepsNonNegative(s: State, op: Op)
    requires NonNegativeKeys(s) && NonNegativeOp(op)
    ensures NonNegativeKeys(Apply(s, op))
  {
    if op.EditOp? {
      EditKeepsNonNegative(s, op);
      EditKeys(s, op);
      SameKeysNonNegative(UpdateInputs(s, op.added, op.removed, op.updated), Apply(s, op));
    } else {
      ApplyKeys(s, op);
      SameKeysNonNegative(s, Apply(s, op));
    }
  }

  lemma SameKeysNonNegative(s: State, t: State)
    requires NonNegativeKeys(s) && t.inputs.Keys == s.inputs.Keys
    ensures NonNegativeKeys(t)
  {
    forall p | p in t.inputs ensures p >= 0 {
      assert p in s.inputs.Keys;
    }
  }

  /** Streams whose priorities are validated never slip, whatever happens. */
  lemma {:induction false} ValidatedNeverSlips(inputs: seq<Input>, now: int, ops: seq<Op>)
    requires NonNegative(inputs) && forall i :: 0 <= i < |ops| ==> NonNegativeOp(ops[i])
    ensures NeverSlips(Registered(inputs, now), ops)
    ensures NonNegativeKeys(ApplyAll(Registered(inputs, now), ops))
  {
    if ops == [] {
      FreshWellKeyed(inputs, now);
    } else {
      ValidatedNeverSlips(inputs, now, ops[..|ops| - 1]);
      ApplyKeepsNonNegative(ApplyAll(Registered(inputs, now), ops[..|ops| - 1]), ops[|ops| - 1]);
    }
  }

  // -------------------------------------------------- atomic runs are real runs

  lemma {:induction false} RunsConcat(w: World, a: seq<Event>, b: seq<Event>)
    requires Runs(w, a) && Runs(After(w, a), b)
    ensures Runs(w, a + b) && After(w, a + b) == After(After(w, a), b)
    decreases |b|
  {
    if b == [] {
      assert a + b == a;
    } else {
      var front, all := b[..|b| - 1], a + b;
      RunsConcat(w, a, front);
      assert all[..|all| - 1] == a + front && all[|all| - 1] == b[|b| - 1];
    }
  }

  lemma OneStep(w: World, e: Event)
    requires Enabled(w, e)
    ensures Runs(w, [e]) && After(w, [e]) == Step(w, e)
  {
    assert [e][..|[e]| - 1] == [] && After(w, []) == w;
  }

  /** A thread's next action, alone. */
  lemma ActionRun(w: World, i: nat, ok: bool) returns (es: seq<Event>)
    requires i < |w.threads| && w.threads[i] != []
    ensures Runs(w, es)
    ensures var (t, next, spawned) := Act(w.s, w.threads[i][0], ok, w.clock);
            && After(w, es).s == t && After(w, es).clock == w.clock
            && i < |After(w, es).threads| && After(w, es).threads[i] == next + w.threads[i][1..]
  {
    es := [Advance(w.clock, i, ok)];
    OneStep(w, es[0]);
  }

  /** A thread about to fail over can run through select, start and commit alone;
      the state it leaves is the atomic failover's. */
  lemma FailoverRun(w: World, i: nat, reason: Reason) returns (es: seq<Event>)
    requires i < |w.threads| && w.threads[i] != [] && w.threads[i][0] == TrySelect(reason)
    ensures Runs(w, es)
    ensures After(w, es).s == Failover(w.s, reason, w.clock) && After(w, es).clock == w.clock
    ensures i < |After(w, es).threads| && After(w, es).threads[i] == w.threads[i][1..]
  {
    var rest := w.threads[i][1..];
    es := ActionRun(w, i, true);
    if Select(w.s).1.Some? {
      var Switch(prev, best) := Select(w.s).1.value;
      var w1 := After(w, es);
      assert w1.threads[i] == [StartSwitch(prev, best, reason)] + rest;
      var b := ActionRun(w1, i, true);
      RunsConcat(w, es, b);
      var w2 := After(w1, b);
      assert w2.threads[i] == [CommitSwitch(prev, best, reason)] + rest;
      var c := ActionRun(w2, i, true);
      RunsConcat(w, es + b, c);
      es := es + b + c;
    }
  }

  /** An operation whose event spawns at most one failover is a run of the
      interleaved engine with the same outcome. */
  lemma OpIsARun(w: World, op: Op) returns (es: seq<Event>)
    requires !op.TickOp? && !op.ProbeOp? && op.at == w.clock
    ensures Runs(w, es) && After(w, es).s == Apply(w.s, op)
  {
    var e := match op
      case PacketOp(at, p) => Packet(at, p)
      case FaultOp(at, p, noPusher) => Fault(at, p, noPusher)
      case SwitchOp(at, p) => SwitchRequest(at, p)
      case EditOp(at, added, removed, updated) => Edit(at, added, removed, updated);
    OneStep(w, e);
    var w1 := Step(w, e);
    es := [e];
    if |w1.threads| > |w.threads| && w1.threads[|w.threads|] != [] {
      var more := FailoverRun(w1, |w.threads|, w1.threads[|w.threads|][0].reason);
      RunsConcat(w, [e], more);
      es := [e] + more;
    }
  }

  /** The failover a tick's thread asks for first, if it asks for one. */
  lemma MaybeFailoverRun(w: World, i: nat, cond: bool, reason: Reason, rest: Thread) returns (es: seq<Event>)
    requires i < |w.threads| && w.threads[i] == (if cond then [TrySelect(reason)] else []) + rest
    ensures Runs(w, es)
    ensures After(w, es).s == FailoverIf(cond, w.s, reason, w.clock)
    ensures i < |After(w, es).threads| && After(w, es).threads[i] == rest && After(w, es).clock == w.clock
  {
    if cond {
      es := FailoverRun(w, i, reason);
      assert w.threads[i][1..] == rest;
    } else {
      es := [];
      assert [] + rest == rest;
    }
  }

  lemma LaunchRun(w: World, i: nat, tasks: seq<ProbeTask>, rest: Thread) returns (es: seq<Event>)
    requires i < |w.threads| && w.threads[i] == [Launch(tasks)] + rest
    ensures Runs(w, es) && After(w, es).s == w.s && After(w, es).clock == w.clock
    ensures i < |After(w, es).threads| && After(w, es).threads[i] == rest
  {
    es := ActionRun(w, i, true);
    assert [] + w.threads[i][1..] == rest;
  }

  lemma ProbeReport(w: World, i: nat, task: ProbeTask, ok: bool) returns (es: seq<Event>)
    requires i < |w.threads| && w.threads[i] == [RunProbe(task)]
    ensures Runs(w, es) && After(w, es).clock == w.clock && i < |After(w, es).threads|
    ensures var (t, follow) := ProbeOk(w.s, task, w.clock);
            && After(w, es).s == (if ok then t else w.s)
            && After(w, es).threads[i]
               == (if ok && follow.Some? then [TrySelect(follow.value)] else []) + [FinishProbe(task.priority)]
  {
    es := ActionRun(w, i, ok);
    assert w.threads[i][1..] == [];
    assert [] + [FinishProbe(task.priority)] == [FinishProbe(task.priority)];
  }

  /** So is a tick, with the two failovers it may ask for; the probes it launches
      are left to run. */
  lemma TickIsARun(w: World, timeout: int, tasks: seq<ProbeTask>) returns (es: seq<Event>)
    requires TasksFor(tasks, w.s, CollectDue(w.s, w.clock, timeout))
    ensures Runs(w, es) && After(w, es).s == Apply(w.s, TickOp(w.clock, timeout))
  {
    var e := Tick(w.clock, timeout, tasks);
    var i := |w.threads|;
    var late := if CollectFailback(w.s, w.clock, timeout) then [TrySelect(Failback)] else [];
    OneStep(w, e);
    var w1 := Step(w, e);
    assert w1.threads[i] == (if CollectTimedOut(w.s, w.clock, timeout) >= 0 then [TrySelect(Timeout)] else []) + ([Launch(tasks)] + late);
    var a := MaybeFailoverRun(w1, i, CollectTimedOut(w.s, w.clock, timeout) >= 0, Timeout, [Launch(tasks)] + late);
    RunsConcat(w, [e], a);
    var w2 := After(w1, a);
    var b := LaunchRun(w2, i, tasks, late);
    RunsConcat(w, [e] + a, b);
    var w3 := After(w2, b);
    assert late == late + [];
    var c := MaybeFailoverRun(w3, i, CollectFailback(w.s, w.clock, timeout), Failback, []);
    RunsConcat(w, [e] + a + b, c);
    es := [e] + a + b + c;
  }

  lemma ProbeEnds(w: World, i: nat, cond: bool, reason: Reason, p: int) returns (es: seq<Event>)
    requires i < |w.threads| && w.threads[i] == (if cond then [TrySelect(reason)] else []) + [FinishProbe(p)]
    ensures Runs(w, es) && After(w, es).s == EndProbe(FailoverIf(cond, w.s, reason, w.clock), p)
  {
    var a := MaybeFailoverRun(w, i, cond, reason, [FinishProbe(p)]);
    var b := ActionRun(After(w, a), i, true);
    RunsConcat(w, a, b);
    es := a + b;
  }

  /** And a probe with the failover its success may ask for. */
  lemma ProbeIsARun(w: World, i: nat, task: ProbeTask, ok: bool) returns (es: seq<Event>)
    requires i < |w.threads| && w.threads[i] == [RunProbe(task)]
    ensures Runs(w, es) && After(w, es).s == Apply(w.s, ProbeOp(w.clock, task, ok))
  {
    var (t, follow) := ProbeOk(w.s, task, w.clock);
    var cond := ok && follow.Some?;
    var reason := if follow.Some? then follow.value else Failback;
    var a := ProbeReport(w, i, task, ok);
    var w1 := After(w, a);
    var b := ProbeEnds(w1, i, cond, reason, task.priority);
    RunsConcat(w, a, b);
    es := a + b;
  }
}
