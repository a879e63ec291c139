/** The fully interleaved failover engine: callers, the monitor, probes and
    failovers are threads that advance one locked section (or one slow call) at
    a time, in any order. */
module FailoverRuns {
  import opened Domain
  import opened FailoverState

  datatype Action =
    | InitialStart(best: int)                        // Register: ingestor.Start, unlocked
    | RecordInitial(best: int)
    | TrySelect(reason: Reason)                      // tryFailover: first section
    | StartSwitch(prev: int, best: int, why: Reason) // tryFailover: ingestor.Start, unlocked
    | CommitSwitch(prev: int, best: int, why: Reason)
    | Launch(tasks: seq<ProbeTask>)                  // checkHealth: go runProbe
    | RunProbe(task: ProbeTask)                      // runProbe: Probe call, unlocked
    | FinishProbe(priority: int)                     // runProbe: deferred section

  type Thread = seq<Action>

  datatype World = World(s: State, threads: seq<Thread>, clock: int)

  /** What the environment may do next; `at` is the time it happens. */
  datatype Event =
    | Packet(at: int, priority: int)
    | Fault(at: int, priority: int, noPusher: bool)
    | Tick(at: int, timeout: int, tasks: seq<ProbeTask>)
    | SwitchRequest(at: int, priority: int)
    | Edit(at: int, added: seq<Input>, removed: seq<Input>, updated: seq<Input>)
    | Unregister(at: int)
    | Advance(at: int, thread: nat, ok: bool)        // `ok`: outcome of an unlocked call

  ghost predicate Enabled(w: World, e: Event) {
    e.at >= w.clock &&
    match e
    case Tick(at, timeout, tasks) => TasksFor(tasks, w.s, CollectDue(w.s, at, timeout))
    case Advance(_, i, _) => i < |w.threads| && w.threads[i] != []
    case _ => true
  }

  function Follow(reason: Option<Reason>): Thread {
    match reason case Some(r) => [TrySelect(r)] case None => []
  }

  ghost function TickThread(s: State, at: int, timeout: int, tasks: seq<ProbeTask>): Thread {
    (if CollectTimedOut(s, at, timeout) >= 0 then [TrySelect(Timeout)] else [])
    + [Launch(tasks)]
    + (if CollectFailback(s, at, timeout) then [TrySelect(Failback)] else [])
  }

  function Probers(tasks: seq<ProbeTask>): seq<Thread> {
    seq(|tasks|, i requires 0 <= i < |tasks| => [RunProbe(tasks[i])])
  }

  /** One action of a thread: the new state, what the thread does next, and the
      threads it spawns. */
  ghost function Act(s: State, a: Action, ok: bool, at: int): (State, Thread, seq<Thread>) {
    match a
    case InitialStart(best) =>
      if ok then (s, [RecordInitial(best)], [])
      else
        var (t, failover) := ReportError(s, best, false, at);
        (t, if failover then [TrySelect(Error)] else [], [])
    case RecordInitial(best) => (RecordSwitch(s, SwitchEvent(at, -1, best, Initial)), [], [])
    case TrySelect(reason) =>
      var (t, switch) := Select(s);
      (t, match switch case Some(Switch(prev, best)) => [StartSwitch(prev, best, reason)] case None => [], [])
    case StartSwitch(prev, best, reason) => (s, if ok then [CommitSwitch(prev, best, reason)] else [], [])
    case CommitSwitch(prev, best, reason) => (Commit(s, prev, best, reason, at), [], [])
    case Launch(tasks) => (s, [], Probers(tasks))
    case RunProbe(task) =>
      if !ok then (s, [FinishProbe(task.priority)], [])
      else
        var (t, follow) := ProbeOk(s, task, at);
        (t, Follow(follow) + [FinishProbe(task.priority)], [])
    case FinishProbe(p) => (EndProbe(s, p), [], [])
  }

  ghost function Step(w: World, e: Event): World
    requires Enabled(w, e)
  {
    match e
    case Packet(at, p) => World(RecordPacket(w.s, p, at), w.threads, at)
    case Fault(at, p, noPusher) =>
      var (t, failover) := ReportError(w.s, p, noPusher, at);
      World(t, w.threads + (if failover then [[TrySelect(Error)]] else []), at)
    case Tick(at, timeout, tasks) =>
      World(Collect(w.s, at, timeout), w.threads + [TickThread(w.s, at, timeout, tasks)], at)
    case SwitchRequest(at, p) =>
      var (t, ok) := RequestSwitch(w.s, p);
      World(t, w.threads + (if ok then [[TrySelect(Manual)]] else []), at)
    case Edit(at, added, removed, updated) =>
      World(UpdateInputs(w.s, added, removed, updated),
            w.threads + [Follow(UpdateReason(w.s, added, removed))], at)
    case Unregister(at) => World(Kill(w.s), w.threads, at)
    case Advance(at, i, ok) =>
      var (t, next, spawned) := Act(w.s, w.threads[i][0], ok, at);
      World(t, w.threads[i := next + w.threads[i][1..]] + spawned, at)
  }

  /** Register, up to the point where its locked choice is made. */
  ghost function Start(inputs: seq<Input>, now: int): World {
    World(Registered(inputs, now),
          if SelectBest(Fresh(inputs, now)).Some? then [[InitialStart(SelectBest(Fresh(inputs, now)).value)]] else [],
          now)
  }

  ghost predicate Runs(w: World, es: seq<Event>)
    decreases |es|, 0
  {
    es == [] || (Runs(w, es[..|es| - 1]) && Enabled(After(w, es[..|es| - 1]), es[|es| - 1]))
  }

  /** The world after a run. */
  ghost function After(w: World, es: seq<Event>): World
    requires Runs(w, es)
    decreases |es|, 1
  {
    if es == [] then w else Step(After(w, es[..|es| - 1]), es[|es| - 1])
  }

  // ---------------------------------------------------------------- exhaustion

  /** Packets flowing on the active input rule out exhaustion. */
  predicate NoFalseAlarm(s: State) {
    s.active in s.inputs && s.inputs[s.active].status == Active ==> !s.exhausted
  }

  lemma EditKeepsNoFalseAlarm(s: State, added: seq<Input>, removed: seq<Input>, updated: seq<Input>)
    ensures var t := UpdateInputs(s, added, removed, updated);
            forall p :: p in t.inputs && t.inputs[p].status == Active ==> p in s.inputs && s.inputs[p].status == Active
    ensures var t := UpdateInputs(s, added, removed, updated);
            t.active == s.active && t.exhausted == s.exhausted && t.log == s.log && t.history == s.history
  {
    RemoveAllEffect(s, removed);
    AddAllEffect(RemoveAll(s, removed), added);
    ReplaceAllEffect(AddAll(RemoveAll(s, removed), added), updated);
  }

  lemma {:induction false} RemoveAllEffect(s: State, removed: seq<Input>)
    ensures var t := RemoveAll(s, removed);
            && t == s.(inputs := t.inputs, degradedAt := t.degradedAt, probing := t.probing)
            && (forall p :: p in t.inputs <==> p in s.inputs && !Mentions(removed, p))
            && (forall p :: p in t.inputs ==> t.inputs[p] == s.inputs[p])
            && (forall p :: p in t.degradedAt <==> p in s.degradedAt && !Mentions(removed, p))
            && (forall p :: p in t.degradedAt ==> t.degradedAt[p] == s.degradedAt[p])
            && (forall p :: IsProbing(t, p) <==> IsProbing(s, p) && !Mentions(removed, p))
  {
    if removed != [] {
      var n := |removed| - 1;
      RemoveAllEffect(s, removed[..n]);
      assert removed[..n + 1] == removed;
      forall p ensures Mentions(removed, p) <==> Mentions(removed[..n], p) || removed[n].priority == p {
        MentionsSnoc(removed, n, p);
      }
    }
  }

  lemma {:induction false} AddAllEffect(s: State, added: seq<Input>)
    ensures var t := AddAll(s, added);
            && t == s.(inputs := t.inputs, nextId := t.nextId)
            && t.nextId >= s.nextId
            && (forall p :: p in t.inputs <==> p in s.inputs || Mentions(added, p))
            && (forall p :: Mentions(added, p) ==> t.inputs[p].status == Idle && s.nextId <= t.inputs[p].id < t.nextId)
            && (forall p :: p in s.inputs && !Mentions(added, p) ==> t.inputs[p] == s.inputs[p])
  {
    if added != [] {
      var n := |added| - 1;
      AddAllEffect(s, added[..n]);
      assert added[..n + 1] == added;
      forall p ensures Mentions(added, p) <==> Mentions(added[..n], p) || added[n].priority == p {
        MentionsSnoc(added, n, p);
      }
    }
  }

  lemma {:induction false} ReplaceAllEffect(s: State, updated: seq<Input>)
    ensures var t := ReplaceAll(s, updated);
            && t == s.(inputs := t.inputs)
            && t.inputs.Keys == s.inputs.Keys
            && (forall p :: p in t.inputs ==> t.inputs[p] == s.inputs[p].(input := t.inputs[p].input))
  {
    if updated != [] {
      ReplaceAllEffect(s, updated[..|updated| - 1]);
    }
  }

  lemma ActKeepsNoFalseAlarm(s: State, a: Action, ok: bool, at: int)
    requires NoFalseAlarm(s)
    ensures NoFalseAlarm(Act(s, a, ok, at).0)
  {
    if SelectBest(s).None? {
      assert !UsableAt(s, s.active);
    }
  }

  lemma StepKeepsNoFalseAlarm(w: World, e: Event)
    requires Enabled(w, e) && NoFalseAlarm(w.s)
    ensures NoFalseAlarm(Step(w, e).s)
  {
    match e
    case Edit(_, added, removed, updated) => EditKeepsNoFalseAlarm(w.s, added, removed, updated);
    case Advance(at, i, ok) => ActKeepsNoFalseAlarm(w.s, w.threads[i][0], ok, at);
    case _ =>
  }

  /** Whatever the interleaving, the stream is never reported exhausted while the
      active input delivers packets. */
  lemma {:induction false} NeverExhaustedWhileActive(inputs: seq<Input>, now: int, es: seq<Event>)
    requires Runs(Start(inputs, now), es)
    ensures NoFalseAlarm(After(Start(inputs, now), es).s)
  {
    if es == [] {
      FreshWellKeyed(inputs, now);
    } else {
      NeverExhaustedWhileActive(inputs, now, es[..|es| - 1]);
      StepKeepsNoFalseAlarm(After(Start(inputs, now), es[..|es| - 1]), es[|es| - 1]);
    }
  }

  // ------------------------------------------------------------ switch history

  /** Replays a log from a first active priority; None if a link is broken. */
  function Replay(first: int, log: seq<SwitchEvent>): Option<int> {
    if log == [] then Some(first)
    else
      var e := log[|log| - 1];
      var cur := Replay(first, log[..|log| - 1]);
      if e.reason == Initial then cur
      else if cur == Some(e.from) then Some(e.to)
      else None
  }

  /** The newest entries of the log, newest first, at most MAX_SWITCH_HISTORY. */
  function Newest(log: seq<SwitchEvent>): seq<SwitchEvent> {
    seq(if |log| < MAX_SWITCH_HISTORY then |log| else MAX_SWITCH_HISTORY,
        i requires 0 <= i < |log| => log[|log| - 1 - i])
  }

  ghost predicate Chained(s: State, first: int) {
    Replay(first, s.log) == Some(s.active) && s.history == Newest(s.log)
  }

  lemma RecordKeepsChained(s: State, first: int, e: SwitchEvent)
    requires s.history == Newest(s.log)
    ensures var t := RecordSwitch(s, e);
            t.history == Newest(t.log) && Replay(first, t.log)
              == if e.reason == Initial then Replay(first, s.log)
                 else if Replay(first, s.log) == Some(e.from) then Some(e.to) else None
  {
    var t := RecordSwitch(s, e);
    assert t.log[..|t.log| - 1] == s.log;
    assert |t.history| == |Newest(t.log)|;
    forall i | 0 <= i < |t.history| ensures t.history[i] == Newest(t.log)[i] {}
  }

  /** Reasons carried by pending failovers are real switch reasons. */
  predicate RealReasons(th: Thread) {
    forall i :: 0 <= i < |th| ==>
      match th[i]
      case TrySelect(r) => r != Initial
      case StartSwitch(_, _, r) => r != Initial
      case CommitSwitch(_, _, r) => r != Initial
      case _ => true
  }

  predicate AllRealReasons(threads: seq<Thread>) {
    forall i :: 0 <= i < |threads| ==> RealReasons(threads[i])
  }

  lemma ActKeepsChained(s: State, a: Action, ok: bool, at: int, first: int)
    requires Chained(s, first) && RealReasons([a])
    ensures var (t, next, spawned) := Act(s, a, ok, at);
            Chained(t, first) && RealReasons(next) && AllRealReasons(spawned)
  {
    assert [a][0] == a;
    match a
    case RecordInitial(best) => RecordKeepsChained(s, first, SwitchEvent(at, -1, best, Initial));
    case CommitSwitch(prev, best, reason) =>
      if !s.dead && s.active == prev {
        var t := Commit(s, prev, best, reason, at);
        var e := SwitchEvent(at, prev, best, reason);
        assert t == RecordSwitch(t.(history := s.history, log := s.log), e);
        RecordKeepsChained(t.(history := s.history, log := s.log), first, e);
      }
    case _ =>
  }

  lemma PacketKeepsChained(s: State, p: int, at: int, first: int)
    requires Chained(s, first)
    ensures Chained(RecordPacket(s, p, at), first)
  {
    var t := RecordPacket(s, p, at);
    if t.log != s.log {
      RecordKeepsChained(t.(history := s.history, log := s.log), first, SwitchEvent(at, p, p, Recovery));
    }
  }

  lemma AdvanceKeepsChained(w: World, at: int, i: nat, ok: bool, first: int)
    requires Enabled(w, Advance(at, i, ok)) && Chained(w.s, first) && AllRealReasons(w.threads)
    ensures Chained(Step(w, Advance(at, i, ok)).s, first) && AllRealReasons(Step(w, Advance(at, i, ok)).threads)
  {
    assert RealReasons(w.threads[i]);
    ActKeepsChained(w.s, w.threads[i][0], ok, at, first);
  }

  lemma StepKeepsChained(w: World, e: Event, first: int)
    requires Enabled(w, e) && Chained(w.s, first) && AllRealReasons(w.threads)
    ensures Chained(Step(w, e).s, first) && AllRealReasons(Step(w, e).threads)
  {
    match e
    case Packet(at, p) => PacketKeepsChained(w.s, p, at, first);
    case Edit(_, added, removed, updated) => EditKeepsNoFalseAlarm(w.s, added, removed, updated);
    case Advance(at, i, ok) => AdvanceKeepsChained(w, at, i, ok, first);
    case _ =>
  }

  /** Over every interleaving the logged switches chain from Register's choice to
      the current active priority, and the stored history is the newest part of
      the log. */
  lemma {:induction false} HistoryChains(inputs: seq<Input>, now: int, es: seq<Event>)
    requires Runs(Start(inputs, now), es)
    ensures var w := After(Start(inputs, now), es);
            Chained(w.s, Registered(inputs, now).active) && AllRealReasons(w.threads)
  {
    if es == [] {
      FreshWellKeyed(inputs, now);
    } else {
      HistoryChains(inputs, now, es[..|es| - 1]);
      StepKeepsChained(After(Start(inputs, now), es[..|es| - 1]), es[|es| - 1], Registered(inputs, now).active);
    }
  }

  /** No real switch is logged strictly between positions i and j. */
  predicate OnlyInitialBetween(log: seq<SwitchEvent>, i: int, j: int) {
    forall k :: i < k < j && 0 <= k < |log| ==> log[k].reason == Initial
  }

  /** What a replayable log looks like: every From is the previous To, the first
      From is the starting priority, the last To is where the replay ends. */
  lemma {:induction false} ReplayLinks(first: int, log: seq<SwitchEvent>, j: nat)
    requires Replay(first, log).Some? && j <= |log|
    ensures Replay(first, log[..j]).Some?
    ensures forall i :: 0 <= i < j && log[i].reason != Initial && OnlyInitialBetween(log, i, j)
                        ==> Replay(first, log[..j]) == Some(log[i].to)
    ensures OnlyInitialBetween(log, -1, j) ==> Replay(first, log[..j]) == Some(first)
    ensures j < |log| && log[j].reason != Initial ==> Replay(first, log[..j]) == Some(log[j].from)
    decreases |log| + j
  {
    if j == |log| {
      assert log[..j] == log;
      if j > 0 {
        ReplayLinks(first, log[..j - 1], j - 1);
        assert log[..j - 1][..j - 1] == log[..j - 1];
        forall i | 0 <= i < j && log[i].reason != Initial && OnlyInitialBetween(log, i, j)
          ensures Replay(first, log) == Some(log[i].to)
        {
          if i < j - 1 {
            assert log[j - 1].reason == Initial;
            assert OnlyInitialBetween(log[..j - 1], i, j - 1);
          }
        }
        if OnlyInitialBetween(log, -1, j) {
          assert log[j - 1].reason == Initial;
          assert OnlyInitialBetween(log[..j - 1], -1, j - 1);
        }
      }
    } else {
      var short := log[..|log| - 1];
      assert short[..j] == log[..j];
      ReplayLinks(first, short, j);
      forall i | 0 <= i < j && log[i].reason != Initial && OnlyInitialBetween(log, i, j)
        ensures Replay(first, log[..j]) == Some(log[i].to)
      {
        assert OnlyInitialBetween(short, i, j);
      }
      if OnlyInitialBetween(log, -1, j) {
        assert OnlyInitialBetween(short, -1, j);
      }
      if j == |log| - 1 {
        assert short == log[..j];
      }
    }
  }

  lemma NewestMeans(log: seq<SwitchEvent>, k: nat)
    requires k < |Newest(log)|
    ensures |Newest(log)| == if |log| < MAX_SWITCH_HISTORY then |log| else MAX_SWITCH_HISTORY
    ensures Newest(log)[k] == log[|log| - 1 - k]
  {
  }

  /** The stored history is the log's newest part reversed. */
  lemma HistoryMeans(s: State, first: int, k: nat)
    requires Chained(s, first) && s.log != []
    ensures |s.history| == if |s.log| < MAX_SWITCH_HISTORY then |s.log| else MAX_SWITCH_HISTORY
    ensures k < |s.history| ==> s.history[k] == s.log[|s.log| - 1 - k]
  {
    if k < |s.history| {
      NewestMeans(s.log, k);
    }
  }

  /** A chained state, read off any logged switch: its From is the To of the
      switch before it, the first From is the starting priority, the newest To is
      the active one. */
  lemma ChainedMeans(s: State, first: int, j: nat)
    requires Chained(s, first) && j < |s.log| && s.log[j].reason != Initial
    ensures forall i :: 0 <= i < j && s.log[i].reason != Initial && OnlyInitialBetween(s.log, i, j)
                        ==> s.log[i].to == s.log[j].from
    ensures OnlyInitialBetween(s.log, -1, j) ==> s.log[j].from == first
    ensures OnlyInitialBetween(s.log, j, |s.log|) ==> s.log[j].to == s.active
  {
    ReplayLinks(first, s.log, j);
    LastSwitchActive(s, first, j);
  }

  lemma LastSwitchActive(s: State, first: int, j: nat)
    requires Chained(s, first) && j < |s.log| && s.log[j].reason != Initial
    ensures OnlyInitialBetween(s.log, j, |s.log|) ==> s.log[j].to == s.active
  {
    ReplayLinks(first, s.log, |s.log|);
    assert s.log[..|s.log|] == s.log;
  }
}
