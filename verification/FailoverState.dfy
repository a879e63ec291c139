/** Per-stream state of the input failover engine. Every locked section of the
    engine is one method of StreamState, proved against a function on State. */
module FailoverState {
  import opened Domain

  const MAX_SWITCH_HISTORY := 20
  const FAILBACK_PROBE_COOLDOWN := 8000   // ms
  const FAILBACK_SWITCH_COOLDOWN := 12000 // ms
  const ZERO_TIME := 0                    // an unset time stamp

  datatype Status = Idle | Active | Degraded | Stopped

  /** Runtime health of one input. The identity tells an input apart from a
      later one registered under the same priority. */
  datatype Health = Health(id: nat, input: Input, lastPacketAt: int, status: Status)

  datatype Reason = Initial | Error | Timeout | Manual | Failback | Recovery | InputAdded | InputRemoved

  datatype SwitchEvent = SwitchEvent(at: int, from: int, to: int, reason: Reason)

  datatype ProbeTask = ProbeTask(priority: int, id: nat)

  /** What tryFailover carries out of its first locked section. */
  datatype Switch = Switch(prev: int, best: int)

  datatype State = State(
    inputs: map<int, Health>,
    active: int,
    degradedAt: map<int, int>,
    probing: map<int, bool>,
    lastSwitchAt: int,
    history: seq<SwitchEvent>,  // newest first, bounded
    log: seq<SwitchEvent>,      // oldest first, every event ever recorded
    override: Option<int>,
    dead: bool,
    exhausted: bool,
    nextId: nat)

  /** Inputs are stored under their own priority. */
  ghost predicate WellKeyed(s: State) {
    forall p :: p in s.inputs ==> s.inputs[p].input.priority == p
  }

  predicate Usable(h: Health) {
    h.status != Degraded && h.status != Stopped
  }

  predicate UsableAt(s: State, p: int) {
    p in s.inputs && Usable(s.inputs[p])
  }

  function UsableSet(s: State): set<int> {
    set p | p in s.inputs && Usable(s.inputs[p])
  }

  predicate IsProbing(s: State, p: int) {
    p in s.probing && s.probing[p]
  }

  lemma Inhabited(ks: set<int>)
    ensures ks == {} || exists k :: k in ks
  {
    if forall k :: k !in ks {
      assert ks == {};
    }
  }

  lemma {:induction false} MinExists(ks: set<int>)
    requires ks != {}
    ensures exists m :: m in ks && forall k :: k in ks ==> m <= k
    decreases |ks|
  {
    Inhabited(ks);
    var x :| x in ks;
    var rest := ks - {x};
    if rest == {} {
      assert ks <= {x} + rest;
      assert forall k :: k in ks ==> k == x;
      assert x in ks && forall k :: k in ks ==> x <= k;
    } else {
      MinExists(rest);
      var m :| m in rest && forall k :: k in rest ==> m <= k;
      var lo := if m <= x then m else x;
      forall k | k in ks ensures lo <= k {
        assert k == x || k in rest;
      }
      assert lo in ks;
    }
  }

  ghost function MinOf(ks: set<int>): (m: int)
    requires ks != {}
    ensures m in ks && forall k :: k in ks ==> m <= k
  {
    MinExists(ks);
    var m :| m in ks && forall k :: k in ks ==> m <= k;
    m
  }

  /** The input to activate next: a usable override, else the lowest usable priority. */
  ghost function SelectBest(s: State): (b: Option<int>)
    ensures b.Some? ==> UsableAt(s, b.value)
    ensures b.None? <==> forall p :: !UsableAt(s, p)
    ensures b.Some? && !(s.override.Some? && UsableAt(s, s.override.value))
            ==> forall p :: UsableAt(s, p) ==> b.value <= p
  {
    if s.override.Some? && UsableAt(s, s.override.value) then s.override
    else
      Inhabited(UsableSet(s));
      assert forall p :: UsableAt(s, p) <==> p in UsableSet(s);
      if UsableSet(s) == {} then None else Some(MinOf(UsableSet(s)))
  }

  /** Probe bookkeeping never influences the choice. */
  lemma SelectBestFrame(s: State, probing: map<int, bool>)
    ensures SelectBest(s.(probing := probing)) == SelectBest(s)
  {
    var t := s.(probing := probing);
    assert UsableSet(t) == UsableSet(s);
  }

  function Pushed(history: seq<SwitchEvent>, e: SwitchEvent): seq<SwitchEvent> {
    if |history| >= MAX_SWITCH_HISTORY then [e] + history[..MAX_SWITCH_HISTORY - 1] else [e] + history
  }

  function RecordSwitch(s: State, e: SwitchEvent): State {
    s.(history := Pushed(s.history, e), log := s.log + [e])
  }

  /** First packet on a non-active-status input heals it; on the active input it
      also ends exhaustion. */
  function RecordPacket(s: State, p: int, now: int): State {
    if s.dead || p !in s.inputs then s
    else if s.inputs[p].status == Active then
      s.(inputs := s.inputs[p := s.inputs[p].(lastPacketAt := now)])
    else
      var t := s.(inputs := s.inputs[p := s.inputs[p].(lastPacketAt := now, status := Active)],
                  degradedAt := s.degradedAt - {p});
      if t.exhausted && p == t.active then
        RecordSwitch(t.(exhausted := false, lastSwitchAt := now), SwitchEvent(now, p, p, Recovery))
      else t
  }

  /** An ingestor error degrades an input; the flag says whether failover follows. */
  function ReportError(s: State, p: int, noPusher: bool, now: int): (State, bool) {
    if s.dead || (noPusher && |s.inputs| <= 1) || !UsableAt(s, p) then (s, false)
    else (Degrade(s, p, now), true)
  }

  function Degrade(s: State, p: int, now: int): State
    requires p in s.inputs
  {
    s.(inputs := s.inputs[p := s.inputs[p].(status := Degraded)], degradedAt := s.degradedAt[p := now])
  }

  predicate TimedOut(s: State, now: int, timeout: int) {
    s.active in s.inputs && s.inputs[s.active].status != Degraded &&
    now - s.inputs[s.active].lastPacketAt > timeout
  }

  /** Degraded inputs whose probe is due; the active one only once exhausted. */
  predicate ProbeDue(s: State, p: int, now: int) {
    p in s.inputs && s.inputs[p].status == Degraded && !IsProbing(s, p) &&
    (p != s.active || s.exhausted) &&
    p in s.degradedAt && now - s.degradedAt[p] >= FAILBACK_PROBE_COOLDOWN
  }

  function DueSet(s: State, now: int): set<int> {
    set p | p in s.inputs && ProbeDue(s, p, now)
  }

  function TaskFor(s: State, p: int): ProbeTask
    requires p in s.inputs
  {
    ProbeTask(p, s.inputs[p].id)
  }

  /** The tasks are one per priority in ks, each for the input registered now. */
  ghost predicate TasksFor(tasks: seq<ProbeTask>, s: State, ks: set<int>) {
    && (forall k :: k in tasks ==> k.priority in ks && k.priority in s.inputs && k == TaskFor(s, k.priority))
    && (forall p :: p in ks ==> exists i :: 0 <= i < |tasks| && tasks[i].priority == p)
    && (forall i, j :: 0 <= i < j < |tasks| ==> tasks[i].priority != tasks[j].priority)
  }

  lemma TasksForSnoc(tasks: seq<ProbeTask>, s: State, ks: set<int>, p: int)
    requires p in s.inputs && p !in ks && TasksFor(tasks, s, ks)
    ensures TasksFor(tasks + [TaskFor(s, p)], s, ks + {p})
  {
    var more := tasks + [TaskFor(s, p)];
    forall q | q in ks + {p} ensures exists i :: 0 <= i < |more| && more[i].priority == q {
      if q == p {
        assert more[|tasks|].priority == p;
      } else {
        var i :| 0 <= i < |tasks| && tasks[i].priority == q;
        assert more[i].priority == q;
      }
    }
    forall i, j | 0 <= i < j < |more| ensures more[i].priority != more[j].priority {
      assert more[i] in tasks;
    }
  }

  ghost predicate ShouldFailback(s: State, now: int) {
    !s.exhausted && now - s.lastSwitchAt >= FAILBACK_SWITCH_COOLDOWN &&
    SelectBest(s).Some? && SelectBest(s).value < s.active
  }

  function Marked(probing: map<int, bool>, ks: set<int>): map<int, bool> {
    probing + (map p | p in ks :: true)
  }

  /** State once the active input's silence has been judged. */
  function AfterTimeout(s: State, now: int, timeout: int): State {
    if TimedOut(s, now, timeout) then Degrade(s, s.active, now) else s
  }

  /** The monitor tick's locked section. */
  function Collect(s: State, now: int, timeout: int): State {
    if s.dead then s
    else
      var t := AfterTimeout(s, now, timeout);
      t.(probing := Marked(t.probing, DueSet(t, now)))
  }

  /** collectTimeoutIfNeeded for one input. */
  function Judged(s: State, p: int, now: int, timeout: int): (State, bool) {
    if p == s.active && TimedOut(s, now, timeout) then (Degrade(s, p, now), true) else (s, false)
  }

  /** collectProbeIfNeeded for one input. */
  function Queued(s: State, p: int, now: int): (State, bool) {
    if ProbeDue(s, p, now) then (s.(probing := s.probing[p := true]), true) else (s, false)
  }

  /** The tick's state after visiting some of the inputs, whatever the order. */
  function Visited(s: State, visited: set<int>, now: int, timeout: int): State {
    var t := AfterTimeout(s, now, timeout);
    (if s.active in visited then t else s).(probing := Marked(s.probing, visited * DueSet(t, now)))
  }

  lemma MarkOne(probing: map<int, bool>, ks: set<int>, p: int)
    ensures Marked(probing, ks + {p}) == Marked(probing, ks)[p := true]
    ensures Marked(probing, {}) == probing
  {
  }

  lemma MeetOne(ks: set<int>, due: set<int>, p: int)
    ensures p in due ==> (ks + {p}) * due == ks * due + {p}
    ensures p !in due ==> (ks + {p}) * due == ks * due
  {
  }

  /** Judging one input moves the state from s to t exactly at the active one. */
  lemma JudgeOne(s: State, visited: set<int>, p: int, now: int, timeout: int)
    requires p in s.inputs && p !in visited
    ensures var t := AfterTimeout(s, now, timeout);
            var cur := Visited(s, visited, now, timeout);
            Judged(cur, p, now, timeout)
            == ((if s.active in visited + {p} then t else s).(probing := cur.probing),
                p == s.active && TimedOut(s, now, timeout))
  {
  }

  /** The probe of input p is due in the mixed state exactly when it is due in t. */
  lemma DueOne(s: State, visited: set<int>, p: int, now: int, timeout: int, cur: State)
    requires p in s.inputs && p !in visited
    requires var t := AfterTimeout(s, now, timeout);
             cur == (if s.active in visited + {p} then t else s).(
               probing := Marked(s.probing, visited * DueSet(t, now)))
    ensures ProbeDue(cur, p, now) <==> p in DueSet(AfterTimeout(s, now, timeout), now)
  {
    assert IsProbing(cur, p) == IsProbing(s, p);
  }

  /** Visiting one more input extends the visited set by exactly that input. */
  lemma VisitOne(s: State, visited: set<int>, p: int, now: int, timeout: int)
    requires p in s.inputs && p !in visited
    ensures var (a, silent) := Judged(Visited(s, visited, now, timeout), p, now, timeout);
            var (b, queued) := Queued(a, p, now);
            && b == Visited(s, visited + {p}, now, timeout)
            && silent == (p == s.active && TimedOut(s, now, timeout))
            && queued == (p in DueSet(AfterTimeout(s, now, timeout), now))
            && p in a.inputs && a.inputs[p].id == s.inputs[p].id
  {
    var due := DueSet(AfterTimeout(s, now, timeout), now);
    JudgeOne(s, visited, p, now, timeout);
    DueOne(s, visited, p, now, timeout, Judged(Visited(s, visited, now, timeout), p, now, timeout).0);
    MeetOne(visited, due, p);
    MarkOne(s.probing, visited * due, p);
  }

  lemma VisitedNone(s: State, now: int, timeout: int)
    ensures Visited(s, {}, now, timeout) == s
    ensures TasksFor([], s, {} * CollectDue(s, now, timeout))
  {
    var due := DueSet(AfterTimeout(s, now, timeout), now);
    assert {} * due == {};
    MarkOne(s.probing, {}, 0);
  }

  lemma VisitedAll(s: State, now: int, timeout: int)
    requires !s.dead
    ensures Visited(s, s.inputs.Keys, now, timeout) == Collect(s, now, timeout)
    ensures s.inputs.Keys * CollectDue(s, now, timeout) == CollectDue(s, now, timeout)
  {
    var t := AfterTimeout(s, now, timeout);
    assert s.inputs.Keys * DueSet(t, now) == DueSet(t, now);
  }

  /** The priority reported as timed out; -1 stands for none. */
  function CollectTimedOut(s: State, now: int, timeout: int): int {
    if !s.dead && TimedOut(s, now, timeout) then s.active else -1
  }

  /** The priorities a tick queues a probe for. */
  function CollectDue(s: State, now: int, timeout: int): set<int> {
    if s.dead then {} else DueSet(AfterTimeout(s, now, timeout), now)
  }

  ghost predicate CollectFailback(s: State, now: int, timeout: int) {
    !s.dead && ShouldFailback(AfterTimeout(s, now, timeout), now)
  }

  function ClearOverride(s: State, best: Option<int>): State {
    if s.override.Some? && !(best.Some? && best == s.override) then s.(override := None) else s
  }

  /** First locked section of tryFailover. */
  ghost function Select(s: State): (r: (State, Option<Switch>)) {
    if s.dead then (s, None)
    else
      var best := SelectBest(s);
      var t := ClearOverride(s, best);
      if best.None? then (t.(exhausted := true), None)
      else if best.value == t.active && !t.exhausted then (t, None)
      else (t, Some(Switch(t.active, best.value)))
  }

  /** Second locked section of tryFailover, once the new ingestor runs. */
  function Commit(s: State, prev: int, best: int, reason: Reason, now: int): State {
    if s.dead || s.active != prev then s
    else
      var idled := if prev in s.inputs && s.inputs[prev].status == Active
                   then s.inputs[prev := s.inputs[prev].(status := Idle)] else s.inputs;
      var stamped := if best in idled then idled[best := idled[best].(lastPacketAt := now)] else idled;
      RecordSwitch(
        s.(inputs := stamped, active := best, lastSwitchAt := now, exhausted := false),
        SwitchEvent(now, prev, best, reason))
  }

  /** A successful probe; the result names the failover that must follow. The
      probed record is only the live one while its identity matches. */
  function ProbeOk(s: State, task: ProbeTask, now: int): (State, Option<Reason>) {
    if s.dead then (s, None)
    else
      var p := task.priority;
      var inputs := if p in s.inputs && s.inputs[p].id == task.id
                    then s.inputs[p := s.inputs[p].(status := Idle)] else s.inputs;
      var t := s.(inputs := inputs, degradedAt := s.degradedAt - {p});
      (t,
       if s.exhausted then Some(Recovery)
       else if p < s.active && now - s.lastSwitchAt >= FAILBACK_SWITCH_COOLDOWN then Some(Failback)
       else None)
  }

  function EndProbe(s: State, p: int): State {
    s.(probing := s.probing[p := false])
  }

  /** Operator switch request: accepted for a usable input of a live stream. */
  function RequestSwitch(s: State, p: int): (State, bool) {
    if s.dead || !UsableAt(s, p) then (s, false) else (s.(override := Some(p)), true)
  }

  function RemoveAll(s: State, removed: seq<Input>): State {
    if removed == [] then s
    else
      var t := RemoveAll(s, removed[..|removed| - 1]);
      var p := removed[|removed| - 1].priority;
      t.(inputs := t.inputs - {p}, degradedAt := t.degradedAt - {p}, probing := t.probing - {p})
  }

  function AddAll(s: State, added: seq<Input>): State {
    if added == [] then s
    else
      var t := AddAll(s, added[..|added| - 1]);
      var inp := added[|added| - 1];
      t.(inputs := t.inputs[inp.priority := Health(t.nextId, inp, ZERO_TIME, Idle)], nextId := t.nextId + 1)
  }

  function ReplaceAll(s: State, updated: seq<Input>): State {
    if updated == [] then s
    else
      var t := ReplaceAll(s, updated[..|updated| - 1]);
      var inp := updated[|updated| - 1];
      if inp.priority in t.inputs
      then t.(inputs := t.inputs[inp.priority := t.inputs[inp.priority].(input := inp)]) else t
  }

  predicate Mentions(inputs: seq<Input>, p: int) {
    exists i :: 0 <= i < |inputs| && inputs[i].priority == p
  }

  predicate MentionsBelow(inputs: seq<Input>, p: int) {
    exists i :: 0 <= i < |inputs| && inputs[i].priority < p
  }

  /** Locked section of a live input edit. */
  function UpdateInputs(s: State, added: seq<Input>, removed: seq<Input>, updated: seq<Input>): State {
    if s.dead then s else ReplaceAll(AddAll(RemoveAll(s, removed), added), updated)
  }

  function UpdateReason(s: State, added: seq<Input>, removed: seq<Input>): Option<Reason> {
    if s.dead then None
    else if Mentions(removed, s.active) then Some(InputRemoved)
    else if MentionsBelow(added, s.active) then Some(InputAdded)
    else None
  }

  function Kill(s: State): State {
    s.(dead := true)
  }

  /** Register: every configured input idle, the best one chosen as active. */
  ghost function Registered(inputs: seq<Input>, now: int): State {
    var s := Fresh(inputs, now);
    match SelectBest(s)
    case Some(best) => s.(active := best)
    case None => s
  }

  function Fresh(inputs: seq<Input>, now: int): State {
    if inputs == [] then State(map[], 0, map[], map[], now, [], [], None, false, false, 0)
    else
      var s := Fresh(inputs[..|inputs| - 1], now);
      var inp := inputs[|inputs| - 1];
      s.(inputs := s.inputs[inp.priority := Health(s.nextId, inp, now, Idle)], nextId := s.nextId + 1)
  }

  /** The mutable per-stream record; each method is one locked section. */
  class StreamState {
    var inputs: map<int, Health>
    var active: int
    var degradedAt: map<int, int>
    var probing: map<int, bool>
    var lastSwitchAt: int
    var switchHistory: seq<SwitchEvent>
    var overridePriority: Option<int>
    var dead: bool
    var exhausted: bool
    var nextId: nat
    ghost var log: seq<SwitchEvent>

    ghost function View(): State
      reads this
    {
      State(inputs, active, degradedAt, probing, lastSwitchAt, switchHistory, log,
            overridePriority, dead, exhausted, nextId)
    }

    constructor (configured: seq<Input>, now: int)
      ensures View() == Registered(configured, now)
    {
      inputs, active, degradedAt, probing := map[], 0, map[], map[];
      lastSwitchAt, switchHistory, overridePriority := now, [], None;
      dead, exhausted, nextId, log := false, false, 0, [];
      new;
      var i := 0;
      while i < |configured|
        invariant 0 <= i <= |configured|
        invariant View() == Fresh(configured[..i], now)
      {
        var inp := configured[i];
        inputs := inputs[inp.priority := Health(nextId, inp, now, Idle)];
        nextId := nextId + 1;
        i := i + 1;
        assert configured[..i][..i - 1] == configured[..i - 1];
      }
      assert configured[..i] == configured;
      ghost var s := Fresh(configured, now);
      FreshWellKeyed(configured, now);
      var best := FindBest();
      if best.Some? {
        active := best.value;
      }
    }

    /** Walks the input map in whatever order it presents itself. */
    method FindBest() returns (best: Option<int>)
      requires WellKeyed(View())
      ensures best == SelectBest(View())
    {
      if overridePriority.Some? && overridePriority.value in inputs && Usable(inputs[overridePriority.value]) {
        return overridePriority;
      }
      best := None;
      var rest := inputs.Keys;
      while rest != {}
        invariant rest <= inputs.Keys
        invariant best.Some? ==> UsableAt(View(), best.value) && best.value !in rest
        invariant forall p :: p in inputs && p !in rest && Usable(inputs[p]) ==> best.Some? && best.value <= p
        decreases |rest|
      {
        Inhabited(rest);
        var p :| p in rest;
        rest := rest - {p};
        var h := inputs[p];
        if Usable(h) && (best.None? || h.input.priority < best.value) {
          best := Some(p);
        }
      }
      assert forall p :: UsableAt(View(), p) ==> best.Some? && best.value <= p;
    }

    method Record(e: SwitchEvent)
      modifies this`switchHistory, this`log
      ensures View() == RecordSwitch(old(View()), e)
    {
      if |switchHistory| >= MAX_SWITCH_HISTORY {
        switchHistory := [e] + switchHistory[..MAX_SWITCH_HISTORY - 1];
      } else {
        switchHistory := [e] + switchHistory;
      }
      log := log + [e];
    }

    method OnPacket(p: int, now: int)
      modifies this
      ensures View() == RecordPacket(old(View()), p, now)
    {
      if dead || p !in inputs { return; }
      var h := inputs[p].(lastPacketAt := now);
      if h.status != Active {
        h := h.(status := Active);
        degradedAt := degradedAt - {p};
        inputs := inputs[p := h];
        if exhausted && p == active {
          exhausted := false;
          lastSwitchAt := now;
          Record(SwitchEvent(now, p, p, Recovery));
        }
      } else {
        inputs := inputs[p := h];
      }
    }

    method OnError(p: int, noPusher: bool, now: int) returns (failover: bool)
      modifies this
      ensures (View(), failover) == ReportError(old(View()), p, noPusher, now)
    {
      if dead || (noPusher && |inputs| <= 1) { return false; }
      if p !in inputs || inputs[p].status == Degraded || inputs[p].status == Stopped { return false; }
      inputs := inputs[p := inputs[p].(status := Degraded)];
      degradedAt := degradedAt[p := now];
      return true;
    }

    /** The tick: one pass over the inputs, then the failback decision. */
    method OnTick(now: int, timeout: int) returns (timedOut: int, tasks: seq<ProbeTask>, failback: bool)
      requires WellKeyed(View())
      modifies this
      ensures View() == Collect(old(View()), now, timeout)
      ensures timedOut == CollectTimedOut(old(View()), now, timeout)
      ensures TasksFor(tasks, old(View()), CollectDue(old(View()), now, timeout))
      ensures failback == CollectFailback(old(View()), now, timeout)
    {
      timedOut, tasks, failback := -1, [], false;
      if dead { return; }
      ghost var s := View();
      timedOut, tasks := VisitInputs(now, timeout);
      assert WellKeyed(View());
      var best := FindBest();
      SelectBestFrame(AfterTimeout(s, now, timeout), View().probing);
      failback := !exhausted && now - lastSwitchAt >= FAILBACK_SWITCH_COOLDOWN && best.Some? && best.value < active;
    }

    /** Visits the inputs in arbitrary order, judging the active one's silence
        and queueing due probes. */
    method VisitInputs(now: int, timeout: int) returns (timedOut: int, tasks: seq<ProbeTask>)
      requires !dead
      modifies this`inputs, this`degradedAt, this`probing
      ensures View() == Collect(old(View()), now, timeout)
      ensures timedOut == CollectTimedOut(old(View()), now, timeout)
      ensures TasksFor(tasks, old(View()), CollectDue(old(View()), now, timeout))
    {
      timedOut, tasks := -1, [];
      ghost var s := View();
      ghost var visited: set<int> := {};
      VisitedNone(s, now, timeout);
      var rest := inputs.Keys;
      while rest != {}
        invariant rest !! visited && rest + visited == s.inputs.Keys
        invariant View() == Visited(s, visited, now, timeout)
        invariant timedOut == if s.active in visited then CollectTimedOut(s, now, timeout) else -1
        invariant TasksFor(tasks, s, visited * CollectDue(s, now, timeout))
        decreases |rest|
      {
        Inhabited(rest);
        var p :| p in rest;
        rest := rest - {p};
        timedOut, tasks := VisitInput(p, now, timeout, timedOut, tasks, s, visited);
        visited := visited + {p};
      }
      assert visited == s.inputs.Keys;
      VisitedAll(s, now, timeout);
    }

    method VisitInput(p: int, now: int, timeout: int, timedOut0: int, tasks0: seq<ProbeTask>,
                      ghost s: State, ghost visited: set<int>)
      returns (timedOut: int, tasks: seq<ProbeTask>)
      requires p in s.inputs && p !in visited && !s.dead
      requires View() == Visited(s, visited, now, timeout)
      requires TasksFor(tasks0, s, visited * CollectDue(s, now, timeout))
      modifies this`inputs, this`degradedAt, this`probing
      ensures View() == Visited(s, visited + {p}, now, timeout)
      ensures timedOut == if p == s.active && TimedOut(s, now, timeout) then p else timedOut0
      ensures TasksFor(tasks, s, (visited + {p}) * CollectDue(s, now, timeout))
    {
      ghost var due := CollectDue(s, now, timeout);
      VisitOne(s, visited, p, now, timeout);
      MeetOne(visited, due, p);
      timedOut, tasks := timedOut0, tasks0;
      var silent := JudgeSilence(p, now, timeout);
      if silent {
        timedOut := p;
      }
      var queued := QueueProbe(p, now);
      if queued {
        TasksForSnoc(tasks, s, visited * due, p);
        tasks := tasks + [ProbeTask(p, inputs[p].id)];
      }
    }

    method JudgeSilence(p: int, now: int, timeout: int) returns (silent: bool)
      requires p in inputs
      modifies this`inputs, this`degradedAt
      ensures (View(), silent) == Judged(old(View()), p, now, timeout)
    {
      if p != active || inputs[p].status == Degraded || now - inputs[p].lastPacketAt <= timeout { return false; }
      inputs := inputs[p := inputs[p].(status := Degraded)];
      degradedAt := degradedAt[p := now];
      return true;
    }

    method QueueProbe(p: int, now: int) returns (due: bool)
      requires p in inputs
      modifies this`probing
      ensures (View(), due) == Queued(old(View()), p, now)
    {
      if inputs[p].status != Degraded || (p in probing && probing[p]) { return false; }
      if p == active && !exhausted { return false; }
      if p !in degradedAt || now - degradedAt[p] < FAILBACK_PROBE_COOLDOWN { return false; }
      probing := probing[p := true];
      return true;
    }

    method OnSelect() returns (switch: Option<Switch>)
      requires WellKeyed(View())
      modifies this
      ensures (View(), switch) == Select(old(View()))
    {
      if dead { return None; }
      var best := FindBest();
      if overridePriority.Some? && !(best.Some? && best.value == overridePriority.value) {
        overridePriority := None;
      }
      if best.None? {
        exhausted := true;
        return None;
      }
      if best.value == active && !exhausted { return None; }
      return Some(Switch(active, best.value));
    }

    method OnCommit(prev: int, best: int, reason: Reason, now: int)
      modifies this
      ensures View() == Commit(old(View()), prev, best, reason, now)
    {
      if dead || active != prev { return; }
      if prev in inputs && inputs[prev].status == Active {
        inputs := inputs[prev := inputs[prev].(status := Idle)];
      }
      active := best;
      lastSwitchAt := now;
      exhausted := false;
      if best in inputs {
        inputs := inputs[best := inputs[best].(lastPacketAt := now)];
      }
      Record(SwitchEvent(now, prev, best, reason));
    }

    method OnProbeOk(task: ProbeTask, now: int) returns (follow: Option<Reason>)
      modifies this
      ensures (View(), follow) == ProbeOk(old(View()), task, now)
    {
      if dead { return None; }
      if task.priority in inputs && inputs[task.priority].id == task.id {
        inputs := inputs[task.priority := inputs[task.priority].(status := Idle)];
      }
      degradedAt := degradedAt - {task.priority};
      if exhausted {
        follow := Some(Recovery);
      } else if task.priority < active && now - lastSwitchAt >= FAILBACK_SWITCH_COOLDOWN {
        follow := Some(Failback);
      } else {
        follow := None;
      }
    }

    method OnProbeEnd(p: int)
      modifies this
      ensures View() == EndProbe(old(View()), p)
    {
      probing := probing[p := false];
    }

    method OnSwitchRequest(p: int) returns (ok: bool)
      modifies this
      ensures (View(), ok) == RequestSwitch(old(View()), p)
    {
      if dead || p !in inputs || inputs[p].status == Degraded || inputs[p].status == Stopped { return false; }
      overridePriority := Some(p);
      return true;
    }

    method OnUpdateInputs(added: seq<Input>, removed: seq<Input>, updated: seq<Input>)
      returns (reason: Option<Reason>)
      modifies this
      ensures View() == UpdateInputs(old(View()), added, removed, updated)
      ensures reason == UpdateReason(old(View()), added, removed)
    {
      if dead { return None; }
      reason := DropInputs(removed);
      reason := AdmitInputs(added, reason);
      ReplaceInputs(updated);
    }

    method DropInputs(removed: seq<Input>) returns (reason: Option<Reason>)
      modifies this
      ensures View() == RemoveAll(old(View()), removed) && active == old(active)
      ensures reason == if Mentions(removed, active) then Some(InputRemoved) else None
    {
      reason := None;
      for i := 0 to |removed|
        invariant View() == RemoveAll(old(View()), removed[..i]) && active == old(active)
        invariant reason == if Mentions(removed[..i], active) then Some(InputRemoved) else None
      {
        assert removed[..i + 1][..i] == removed[..i] && removed[..i + 1][i] == removed[i];
        MentionsSnoc(removed, i, active);
        var p := removed[i].priority;
        inputs, degradedAt, probing := inputs - {p}, degradedAt - {p}, probing - {p};
        if p == active {
          reason := Some(InputRemoved);
        }
      }
      assert removed[..|removed|] == removed;
    }

    method AdmitInputs(added: seq<Input>, before: Option<Reason>) returns (reason: Option<Reason>)
      modifies this
      ensures View() == AddAll(old(View()), added) && active == old(active)
      ensures reason == if before.None? && MentionsBelow(added, active) then Some(InputAdded) else before
    {
      reason := before;
      for i := 0 to |added|
        invariant View() == AddAll(old(View()), added[..i]) && active == old(active)
        invariant reason == if before.None? && MentionsBelow(added[..i], active) then Some(InputAdded) else before
      {
        assert added[..i + 1][..i] == added[..i] && added[..i + 1][i] == added[i];
        MentionsBelowSnoc(added, i, active);
        var inp := added[i];
        inputs := inputs[inp.priority := Health(nextId, inp, ZERO_TIME, Idle)];
        nextId := nextId + 1;
        if inp.priority < active && reason.None? {
          reason := Some(InputAdded);
        }
      }
      assert added[..|added|] == added;
    }

    method ReplaceInputs(updated: seq<Input>)
      modifies this
      ensures View() == ReplaceAll(old(View()), updated)
    {
      for i := 0 to |updated|
        invariant View() == ReplaceAll(old(View()), updated[..i])
      {
        assert updated[..i + 1][..i] == updated[..i];
        var inp := updated[i];
        if inp.priority in inputs {
          inputs := inputs[inp.priority := inputs[inp.priority].(input := inp)];
        }
      }
      assert updated[..|updated|] == updated;
    }

    method OnKill()
      modifies this
      ensures View() == Kill(old(View()))
    {
      dead := true;
    }
  }

  lemma MentionsSnoc(inputs: seq<Input>, i: nat, p: int)
    requires i < |inputs|
    ensures Mentions(inputs[..i + 1], p) <==> Mentions(inputs[..i], p) || inputs[i].priority == p
  {
    var a, b := inputs[..i + 1], inputs[..i];
    forall k | 0 <= k < |a| ensures k < i ==> a[k] == b[k] {}
    if Mentions(b, p) {
      var k :| 0 <= k < |b| && b[k].priority == p;
      assert a[k].priority == p;
    }
    assert a[i] == inputs[i];
  }

  lemma MentionsBelowSnoc(inputs: seq<Input>, i: nat, p: int)
    requires i < |inputs|
    ensures MentionsBelow(inputs[..i + 1], p) <==> MentionsBelow(inputs[..i], p) || inputs[i].priority < p
  {
    var a, b := inputs[..i + 1], inputs[..i];
    if MentionsBelow(b, p) {
      var k :| 0 <= k < |b| && b[k].priority < p;
      assert a[k].priority < p;
    }
    assert a[i] == inputs[i];
  }

  lemma {:induction false} FreshWellKeyed(inputs: seq<Input>, now: int)
    ensures WellKeyed(Fresh(inputs, now))
    ensures forall p :: p in Fresh(inputs, now).inputs ==> Fresh(inputs, now).inputs[p].status == Idle
    ensures forall p :: p in Fresh(inputs, now).inputs <==> Mentions(inputs, p)
    ensures Fresh(inputs, now).override.None? && !Fresh(inputs, now).dead && !Fresh(inputs, now).exhausted
    ensures Fresh(inputs, now).degradedAt == map[] && Fresh(inputs, now).probing == map[]
    ensures Fresh(inputs, now).log == [] && Fresh(inputs, now).history == []
    ensures Fresh(inputs, now).lastSwitchAt == now && Fresh(inputs, now).active == 0
    ensures Fresh(inputs, now).nextId == |inputs|
    ensures forall p :: p in Fresh(inputs, now).inputs ==> Fresh(inputs, now).inputs[p].id < |inputs|
  {
    if inputs != [] {
      var n := |inputs| - 1;
      FreshWellKeyed(inputs[..n], now);
      assert inputs[..n + 1] == inputs;
      forall p ensures Mentions(inputs, p) <==> Mentions(inputs[..n], p) || inputs[n].priority == p {
        MentionsSnoc(inputs, n, p);
      }
    }
  }
}
