/** Probe bookkeeping of the interleaved failover engine. */
module FailoverProbes {
  import opened Domain
  import opened FailoverState
  import opened FailoverRuns
  import FailoverCover

  // --------------------------------------------------- probes in flight, counted

  function TaskCount(tasks: seq<ProbeTask>, p: int): nat {
    if tasks == [] then 0 else (if tasks[0].priority == p then 1 else 0) + TaskCount(tasks[1..], p)
  }

  /** How many probes of input p this action still has to run or finish. */
  function ActionCount(a: Action, p: int): nat {
    match a
    case Launch(tasks) => TaskCount(tasks, p)
    case RunProbe(task) => if task.priority == p then 1 else 0
    case FinishProbe(q) => if q == p then 1 else 0
    case _ => 0
  }

  function ThreadCount(th: Thread, p: int): nat {
    if th == [] then 0 else ActionCount(th[0], p) + ThreadCount(th[1..], p)
  }

  /** The number of probes of input p in flight. */
  function InFlight(threads: seq<Thread>, p: int): nat {
    if threads == [] then 0 else ThreadCount(threads[0], p) + InFlight(threads[1..], p)
  }

  lemma {:induction false} ThreadCountConcat(a: Thread, b: Thread, p: int)
    ensures ThreadCount(a + b, p) == ThreadCount(a, p) + ThreadCount(b, p)
  {
    if a == [] {
      assert a + b == b;
    } else {
      assert (a + b)[1..] == a[1..] + b;
      ThreadCountConcat(a[1..], b, p);
    }
  }

  lemma {:induction false} InFlightConcat(a: seq<Thread>, b: seq<Thread>, p: int)
    ensures InFlight(a + b, p) == InFlight(a, p) + InFlight(b, p)
  {
    if a == [] {
      assert a + b == b;
    } else {
      assert (a + b)[1..] == a[1..] + b;
      InFlightConcat(a[1..], b, p);
    }
  }

  lemma {:induction false} InFlightReplace(threads: seq<Thread>, i: nat, th: Thread, p: int)
    requires i < |threads|
    ensures InFlight(threads[i := th], p) + ThreadCount(threads[i], p) == InFlight(threads, p) + ThreadCount(th, p)
  {
    if i == 0 {
      assert threads[i := th][1..] == threads[1..];
    } else {
      assert threads[i := th][1..] == threads[1..][i - 1 := th];
      InFlightReplace(threads[1..], i - 1, th, p);
    }
  }

  lemma {:induction false} ThreadCountAt(th: Thread, j: nat, p: int)
    requires j < |th|
    ensures ActionCount(th[j], p) <= ThreadCount(th, p)
  {
    if j > 0 {
      ThreadCountAt(th[1..], j - 1, p);
    }
  }

  lemma {:induction false} InFlightAt(threads: seq<Thread>, i: nat, j: nat, p: int)
    requires i < |threads| && j < |threads[i]|
    ensures ActionCount(threads[i][j], p) <= InFlight(threads, p)
  {
    if i == 0 {
      ThreadCountAt(threads[0], j, p);
    } else {
      InFlightAt(threads[1..], i - 1, j, p);
    }
  }

  predicate Names(tasks: seq<ProbeTask>, p: int) {
    exists i :: 0 <= i < |tasks| && tasks[i].priority == p
  }

  lemma {:induction false} TaskCountNames(tasks: seq<ProbeTask>, p: int)
    ensures TaskCount(tasks, p) > 0 <==> Names(tasks, p)
    ensures (forall i, j :: 0 <= i < j < |tasks| ==> tasks[i].priority != tasks[j].priority) ==> TaskCount(tasks, p) <= 1
  {
    if tasks != [] {
      var rest := tasks[1..];
      TaskCountNames(rest, p);
      if Names(rest, p) {
        var i :| 0 <= i < |rest| && rest[i].priority == p;
        assert tasks[i + 1].priority == p;
      }
      if i :| 0 < i < |tasks| && tasks[i].priority == p {
        assert rest[i - 1].priority == p;
      }
      assert forall i, j :: 0 <= i < j < |rest| ==> rest[i] == tasks[i + 1] && rest[j] == tasks[j + 1];
    }
  }

  lemma {:induction false} ProbersCount(tasks: seq<ProbeTask>, p: int)
    ensures InFlight(Probers(tasks), p) == TaskCount(tasks, p)
  {
    if tasks != [] {
      assert Probers(tasks)[1..] == Probers(tasks[1..]);
      assert ThreadCount([RunProbe(tasks[0])], p) == if tasks[0].priority == p then 1 else 0;
      ProbersCount(tasks[1..], p);
    }
  }

  // ------------------------------------------------ the bookkeeping of one input

  predicate IsDegraded(s: State, p: int) {
    p in s.inputs && s.inputs[p].status == Degraded
  }

  /** One probe of the input is in flight when it is marked probing, none when not. */
  predicate OneProbeAt(w: World, p: int) {
    InFlight(w.threads, p) == if IsProbing(w.s, p) then 1 else 0
  }

  /** The input has a time stamp exactly while it is degraded. */
  predicate TrackedAt(s: State, p: int) {
    p in s.degradedAt <==> IsDegraded(s, p)
  }

  /** The input is removed while marked probing: its probe lives on unmarked. */
  predicate OrphansAt(w: World, e: Event, p: int) {
    e.Edit? && !w.s.dead && Mentions(e.removed, p) && IsProbing(w.s, p)
  }

  /** The degraded input is registered again without being removed, or a probe sent
      for an earlier record succeeds while the record of today is degraded. */
  ghost predicate UntracksAt(w: World, e: Event, p: int)
    requires Enabled(w, e)
  {
    !w.s.dead && IsDegraded(w.s, p) &&
    match e
    case Edit(_, added, removed, _) => Mentions(added, p) && !Mentions(removed, p)
    case Advance(_, i, ok) => StaleSuccess(w.s, w.threads[i][0], ok, p)
    case _ => false
  }

  predicate StaleSuccess(s: State, a: Action, ok: bool, p: int) {
    a.RunProbe? && ok && a.task.priority == p && p in s.inputs && s.inputs[p].id != a.task.id
  }

  // ------------------------------------------------------------ probes and marks

  lemma ActOnProbing(s: State, a: Action, ok: bool, at: int, p: int)
    ensures IsProbing(Act(s, a, ok, at).0, p) <==> IsProbing(s, p) && a != FinishProbe(p)
  {
  }

  lemma ActOnCount(s: State, a: Action, ok: bool, at: int, p: int)
    ensures var (t, next, spawned) := Act(s, a, ok, at);
            ThreadCount(next, p) + InFlight(spawned, p) == if a.FinishProbe? then 0 else ActionCount(a, p)
  {
    match a
    case Launch(tasks) => ProbersCount(tasks, p);
    case RunProbe(task) =>
      var follow := if ok then Follow(ProbeOk(s, task, at).1) else [];
      ThreadCountConcat(follow, [FinishProbe(task.priority)], p);
      assert Act(s, a, ok, at).1 == follow + [FinishProbe(task.priority)];
    case _ =>
  }

  lemma AdvanceKeepsOne(w: World, e: Event, p: int)
    requires e.Advance? && Enabled(w, e) && OneProbeAt(w, p)
    ensures OneProbeAt(Step(w, e), p)
  {
    var th := w.threads[e.thread];
    var (t, next, spawned) := Act(w.s, th[0], e.ok, e.at);
    ActOnProbing(w.s, th[0], e.ok, e.at, p);
    ActOnCount(w.s, th[0], e.ok, e.at, p);
    ThreadCountConcat(next, th[1..], p);
    InFlightReplace(w.threads, e.thread, next + th[1..], p);
    InFlightConcat(w.threads[e.thread := next + th[1..]], spawned, p);
    InFlightAt(w.threads, e.thread, 0, p);
  }

  lemma TickCount(s: State, at: int, timeout: int, tasks: seq<ProbeTask>, p: int)
    ensures ThreadCount(TickThread(s, at, timeout, tasks), p) == TaskCount(tasks, p)
  {
    var a := if CollectTimedOut(s, at, timeout) >= 0 then [TrySelect(Timeout)] else [];
    var c := if CollectFailback(s, at, timeout) then [TrySelect(Failback)] else [];
    ThreadCountConcat(a + [Launch(tasks)], c, p);
    ThreadCountConcat(a, [Launch(tasks)], p);
  }

  /** A tick marks exactly the inputs it queues a probe for, none marked before. */
  lemma CollectOnProbing(s: State, at: int, timeout: int, p: int)
    ensures IsProbing(Collect(s, at, timeout), p) <==> IsProbing(s, p) || p in CollectDue(s, at, timeout)
    ensures p in CollectDue(s, at, timeout) ==> !IsProbing(s, p)
  {
  }

  lemma DueNamed(tasks: seq<ProbeTask>, s: State, ks: set<int>, p: int)
    requires TasksFor(tasks, s, ks)
    ensures p in ks <==> Names(tasks, p)
  {
    if i :| 0 <= i < |tasks| && tasks[i].priority == p {
      assert tasks[i] in tasks;
    }
  }

  lemma TickKeepsOne(w: World, e: Event, p: int)
    requires e.Tick? && Enabled(w, e) && OneProbeAt(w, p)
    ensures OneProbeAt(Step(w, e), p)
  {
    var th := TickThread(w.s, e.at, e.timeout, e.tasks);
    InFlightConcat(w.threads, [th], p);
    TickCount(w.s, e.at, e.timeout, e.tasks, p);
    TaskCountNames(e.tasks, p);
    DueNamed(e.tasks, w.s, CollectDue(w.s, e.at, e.timeout), p);
    CollectOnProbing(w.s, e.at, e.timeout, p);
  }

  /** Asking for a failover concerns no probe. */
  lemma QuietThread(threads: seq<Thread>, reason: Option<Reason>, p: int)
    ensures InFlight(threads + [Follow(reason)], p) == InFlight(threads, p)
    ensures InFlight(threads + [], p) == InFlight(threads, p)
  {
    InFlightConcat(threads, [Follow(reason)], p);
    assert ThreadCount(Follow(reason), p) == 0;
    assert InFlight([Follow(reason)], p) == ThreadCount(Follow(reason), p);
    assert threads + [] == threads;
  }

  /** What an edit of a live stream does to the records and their bookkeeping. */
  lemma EditOnState(s: State, added: seq<Input>, removed: seq<Input>, updated: seq<Input>)
    requires !s.dead
    ensures var t := UpdateInputs(s, added, removed, updated);
            && !t.dead && t.active == s.active && t.exhausted == s.exhausted
            && (forall p :: p in t.inputs <==> (p in s.inputs && !Mentions(removed, p)) || Mentions(added, p))
            && (forall p :: Mentions(added, p) ==> t.inputs[p].status == Idle)
            && (forall p :: p in t.inputs && !Mentions(added, p) ==>
                  t.inputs[p].status == s.inputs[p].status && t.inputs[p].id == s.inputs[p].id)
            && (forall p :: p in t.degradedAt <==> p in s.degradedAt && !Mentions(removed, p))
            && (forall p :: p in t.degradedAt ==> t.degradedAt[p] == s.degradedAt[p])
            && (forall p :: IsProbing(t, p) <==> IsProbing(s, p) && !Mentions(removed, p))
  {
    RemoveAllEffect(s, removed);
    AddAllEffect(RemoveAll(s, removed), added);
    ReplaceAllEffect(AddAll(RemoveAll(s, removed), added), updated);
  }

  /** One probe in flight exactly when marked: every step keeps it for an input,
      unless it removes that input while marked. */
  lemma StepKeepsOneExactly(w: World, e: Event, p: int)
    requires Enabled(w, e) && OneProbeAt(w, p)
    ensures OneProbeAt(Step(w, e), p) <==> !OrphansAt(w, e, p)
  {
    match e
    case Advance(_, _, _) => AdvanceKeepsOne(w, e, p);
    case Tick(_, _, _) => TickKeepsOne(w, e, p);
    case Edit(_, added, removed, updated) =>
      QuietThread(w.threads, UpdateReason(w.s, added, removed), p);
      if !w.s.dead {
        EditOnState(w.s, added, removed, updated);
      }
    case Fault(_, _, _) => QuietThread(w.threads, Some(Error), p);
    case SwitchRequest(_, _) => QuietThread(w.threads, Some(Manual), p);
    case _ =>
  }

  // ------------------------------------------------------------------ time stamps

  /** An action and the stamp of one input. */
  lemma ActOnStamp(s: State, a: Action, ok: bool, at: int, p: int)
    requires TrackedAt(s, p)
    ensures TrackedAt(Act(s, a, ok, at).0, p) <==> !(!s.dead && IsDegraded(s, p) && StaleSuccess(s, a, ok, p))
  {
    match a
    case CommitSwitch(prev, best, reason) => CommitOnStamp(s, prev, best, reason, at, p);
    case _ =>
  }

  lemma CommitOnStamp(s: State, prev: int, best: int, reason: Reason, at: int, p: int)
    ensures var t := Commit(s, prev, best, reason, at);
            t.degradedAt == s.degradedAt && (IsDegraded(t, p) <==> IsDegraded(s, p))
  {
  }

  /** Stamped exactly while degraded: every step keeps it for an input, unless it
      registers that input again while degraded or is a stale success. */
  lemma StepTracksExactly(w: World, e: Event, p: int)
    requires Enabled(w, e) && TrackedAt(w.s, p)
    ensures TrackedAt(Step(w, e).s, p) <==> !UntracksAt(w, e, p)
  {
    match e
    case Advance(at, i, ok) => ActOnStamp(w.s, w.threads[i][0], ok, at, p);
    case Edit(_, added, removed, updated) =>
      if !w.s.dead {
        EditOnState(w.s, added, removed, updated);
      }
    case Packet(at, q) => PacketOnStamp(w.s, q, at, p);
    case Fault(at, q, noPusher) => FaultOnStamp(w.s, q, noPusher, at, p);
    case Tick(at, timeout, _) => TickOnStamp(w.s, at, timeout, p);
    case _ =>
  }

  lemma PacketOnStamp(s: State, q: int, at: int, p: int)
    requires TrackedAt(s, p)
    ensures TrackedAt(RecordPacket(s, q, at), p)
  {
  }

  lemma FaultOnStamp(s: State, q: int, noPusher: bool, at: int, p: int)
    requires TrackedAt(s, p)
    ensures TrackedAt(ReportError(s, q, noPusher, at).0, p)
  {
  }

  lemma TickOnStamp(s: State, at: int, timeout: int, p: int)
    requires TrackedAt(s, p)
    ensures TrackedAt(Collect(s, at, timeout), p)
  {
  }

  // ------------------------------------------------------------- the whole stream

  /** degradedAt names exactly the degraded inputs, and exactly the inputs marked
      probing have a probe in flight, one each. */
  ghost predicate Tracked(w: World) {
    forall p :: TrackedAt(w.s, p) && OneProbeAt(w, p)
  }

  /** One of the three steps that break it, for some input: a removal under probe, a
      second registration while degraded, a stale success. */
  ghost predicate Breaks(w: World, e: Event)
    requires Enabled(w, e)
  {
    exists p :: OrphansAt(w, e, p) || UntracksAt(w, e, p)
  }

  /** Every step keeps the bookkeeping, exactly when it is not one of the three. */
  lemma StepKeepsTrackedExactly(w: World, e: Event)
    requires Enabled(w, e) && Tracked(w)
    ensures Tracked(Step(w, e)) <==> !Breaks(w, e)
  {
    forall p
      ensures TrackedAt(Step(w, e).s, p) && OneProbeAt(Step(w, e), p) <==> !(OrphansAt(w, e, p) || UntracksAt(w, e, p))
    {
      assert TrackedAt(w.s, p) && OneProbeAt(w, p);
      StepKeepsOneExactly(w, e, p);
      StepTracksExactly(w, e, p);
    }
  }

  /** Tracked after every step. */
  ghost predicate TrackedThroughout(w: World, es: seq<Event>)
    requires Runs(w, es)
    decreases |es|
  {
    Tracked(After(w, es)) && (es == [] || TrackedThroughout(w, es[..|es| - 1]))
  }

  /** No step of the run breaks the bookkeeping of the world it meets. */
  ghost predicate NeverBreaks(w: World, es: seq<Event>)
    requires Runs(w, es)
    decreases |es|
  {
    es == [] || (NeverBreaks(w, es[..|es| - 1]) && !Breaks(After(w, es[..|es| - 1]), es[|es| - 1]))
  }

  lemma {:induction false} RunTrackedExactly(w: World, es: seq<Event>)
    requires Runs(w, es)
    ensures TrackedThroughout(w, es) <==> Tracked(w) && NeverBreaks(w, es)
  {
    if es != [] {
      var front := es[..|es| - 1];
      RunTrackedExactly(w, front);
      if TrackedThroughout(w, front) {
        assert Tracked(After(w, front));
        StepKeepsTrackedExactly(After(w, front), es[|es| - 1]);
      }
    }
  }

  lemma StartTracked(inputs: seq<Input>, now: int)
    ensures Tracked(Start(inputs, now))
  {
    FreshWellKeyed(inputs, now);
    forall p ensures InFlight(Start(inputs, now).threads, p) == 0 {
      forall best ensures InFlight([[InitialStart(best)]], p) == ThreadCount([InitialStart(best)], p) == 0 {}
    }
  }

  /** Over every interleaving from registration the bookkeeping holds throughout,
      exactly when no step of the run is one of the three. */
  lemma ProbesStayTracked(inputs: seq<Input>, now: int, es: seq<Event>)
    requires Runs(Start(inputs, now), es)
    ensures TrackedThroughout(Start(inputs, now), es) <==> NeverBreaks(Start(inputs, now), es)
  {
    StartTracked(inputs, now);
    RunTrackedExactly(Start(inputs, now), es);
  }

  // -------------------------------------------------- where stale successes come from

  /** The task still designates the input registered under its priority. */
  predicate LiveTask(s: State, t: ProbeTask) {
    t.priority in s.inputs && s.inputs[t.priority].id == t.id
  }

  /** The action's probes of input p do. */
  predicate LiveAction(s: State, a: Action, p: int) {
    match a
    case Launch(tasks) => forall k :: 0 <= k < |tasks| && tasks[k].priority == p ==> LiveTask(s, tasks[k])
    case RunProbe(task) => task.priority == p ==> LiveTask(s, task)
    case _ => true
  }

  predicate LiveThread(s: State, th: Thread, p: int) {
    forall j :: 0 <= j < |th| ==> LiveAction(s, th[j], p)
  }

  predicate LiveThreads(s: State, threads: seq<Thread>, p: int) {
    forall i :: 0 <= i < |threads| ==> LiveThread(s, threads[i], p)
  }

  /** The action is still to probe input p, or to report a probe of it. */
  predicate AwaitsIn(a: Action, p: int) {
    match a
    case Launch(tasks) => Names(tasks, p)
    case RunProbe(task) => task.priority == p
    case _ => false
  }

  predicate Awaited(threads: seq<Thread>, p: int) {
    exists i, j :: 0 <= i < |threads| && 0 <= j < |threads[i]| && AwaitsIn(threads[i][j], p)
  }

  /** The edit removes or registers again an input whose probe is still to report. */
  predicate ReplacesAwaited(w: World, e: Event, p: int) {
    e.Edit? && !w.s.dead && Awaited(w.threads, p) && (Mentions(e.removed, p) || Mentions(e.added, p))
  }

  predicate SameRecord(s: State, t: State, p: int) {
    (p in t.inputs <==> p in s.inputs) && (p in s.inputs && p in t.inputs ==> t.inputs[p].id == s.inputs[p].id)
  }

  lemma SameRecordKeepsLive(s: State, t: State, threads: seq<Thread>, p: int)
    requires LiveThreads(s, threads, p) && (SameRecord(s, t, p) || !Awaited(threads, p))
    ensures LiveThreads(t, threads, p)
  {
    forall i, j | 0 <= i < |threads| && 0 <= j < |threads[i]| ensures LiveAction(t, threads[i][j], p) {
      assert LiveThread(s, threads[i], p);
      assert LiveAction(s, threads[i][j], p);
      assert AwaitsIn(threads[i][j], p) ==> Awaited(threads, p);
    }
  }

  lemma ActKeepsLive(s: State, a: Action, ok: bool, at: int, p: int)
    requires LiveAction(s, a, p)
    ensures SameRecord(s, Act(s, a, ok, at).0, p)
    ensures LiveThread(s, Act(s, a, ok, at).1, p) && LiveThreads(s, Act(s, a, ok, at).2, p)
  {
  }

  lemma TickLive(s: State, at: int, timeout: int, tasks: seq<ProbeTask>, p: int)
    requires TasksFor(tasks, s, CollectDue(s, at, timeout))
    ensures LiveThread(s, TickThread(s, at, timeout, tasks), p)
  {
    forall k | 0 <= k < |tasks| ensures LiveTask(s, tasks[k]) {
      assert tasks[k] in tasks;
    }
  }

  lemma AdvanceKeepsLive(w: World, e: Event, p: int)
    requires e.Advance? && Enabled(w, e) && LiveThreads(w.s, w.threads, p)
    ensures LiveThreads(Step(w, e).s, Step(w, e).threads, p)
    ensures !StaleSuccess(w.s, w.threads[e.thread][0], e.ok, p)
  {
    var th := w.threads[e.thread];
    assert LiveThread(w.s, th, p);
    assert LiveAction(w.s, th[0], p);
    ActKeepsLive(w.s, th[0], e.ok, e.at, p);
    assert LiveThreads(w.s, Step(w, e).threads, p);
    SameRecordKeepsLive(w.s, Step(w, e).s, Step(w, e).threads, p);
  }

  lemma StepKeepsLive(w: World, e: Event, p: int)
    requires Enabled(w, e) && LiveThreads(w.s, w.threads, p) && !ReplacesAwaited(w, e, p)
    ensures LiveThreads(Step(w, e).s, Step(w, e).threads, p)
    ensures e.Advance? ==> !StaleSuccess(w.s, w.threads[e.thread][0], e.ok, p)
  {
    var (t, more) := (Step(w, e).s, Step(w, e).threads);
    match e
    case Advance(_, _, _) => AdvanceKeepsLive(w, e, p);
    case Tick(at, timeout, tasks) =>
      TickLive(w.s, at, timeout, tasks, p);
      assert LiveThreads(w.s, more, p);
      SameRecordKeepsLive(w.s, t, more, p);
    case Edit(_, added, removed, updated) =>
      if !w.s.dead {
        EditOnState(w.s, added, removed, updated);
      }
      SameRecordKeepsLive(w.s, t, w.threads, p);
    case _ => SameRecordKeepsLive(w.s, t, w.threads, p);
  }

  ghost predicate NeverReplaces(w: World, es: seq<Event>, p: int)
    requires Runs(w, es)
    decreases |es|
  {
    es == [] || (NeverReplaces(w, es[..|es| - 1], p) && !ReplacesAwaited(After(w, es[..|es| - 1]), es[|es| - 1], p))
  }

  /** A stale success needs an edit, earlier in the run, that replaced or dropped
      the record of an input whose probe was still to report. */
  lemma {:induction false} StaleOnlyAfterReplacing(inputs: seq<Input>, now: int, es: seq<Event>, p: int)
    requires Runs(Start(inputs, now), es) && NeverReplaces(Start(inputs, now), es, p)
    ensures var w := After(Start(inputs, now), es);
            forall e :: Enabled(w, e) && e.Advance? ==> !StaleSuccess(w.s, w.threads[e.thread][0], e.ok, p)
    ensures LiveThreads(After(Start(inputs, now), es).s, After(Start(inputs, now), es).threads, p)
  {
    var w := After(Start(inputs, now), es);
    if es != [] {
      StaleOnlyAfterReplacing(inputs, now, es[..|es| - 1], p);
      StepKeepsLive(After(Start(inputs, now), es[..|es| - 1]), es[|es| - 1], p);
    }
    forall e | Enabled(w, e) && e.Advance? ensures !StaleSuccess(w.s, w.threads[e.thread][0], e.ok, p) {
      AdvanceKeepsLive(w, e, p);
    }
  }

  // ----------------------------------------------------------- a degraded input

  /** An input a step degrades is stamped with the time of the step; one that stays
      degraded keeps the stamp it has, unless the step untracks it. */
  lemma DegradedStamp(w: World, e: Event, p: int)
    requires Enabled(w, e) && IsDegraded(Step(w, e).s, p) && (IsDegraded(w.s, p) || TrackedAt(w.s, p))
    ensures p in Step(w, e).s.degradedAt
            <==> IsDegraded(w.s, p) ==> p in w.s.degradedAt && !UntracksAt(w, e, p)
    ensures p in Step(w, e).s.degradedAt ==>
              Step(w, e).s.degradedAt[p] == if IsDegraded(w.s, p) then w.s.degradedAt[p] else e.at
  {
    if e.Edit? && !w.s.dead {
      EditOnState(w.s, e.added, e.removed, e.updated);
    } else if e.Advance? {
      ActStamp(w.s, w.threads[e.thread][0], e.ok, e.at, p);
    }
  }

  lemma ActStamp(s: State, a: Action, ok: bool, at: int, p: int)
    requires IsDegraded(Act(s, a, ok, at).0, p) && (IsDegraded(s, p) || TrackedAt(s, p))
    ensures var t := Act(s, a, ok, at).0;
            && (p in t.degradedAt
                <==> IsDegraded(s, p) ==> p in s.degradedAt && !(!s.dead && StaleSuccess(s, a, ok, p)))
            && (p in t.degradedAt ==> t.degradedAt[p] == if IsDegraded(s, p) then s.degradedAt[p] else at)
  {
    match a
    case CommitSwitch(prev, best, reason) => CommitOnStamp(s, prev, best, reason, at, p);
    case _ =>
  }

  /** p is degraded after every step of the run. */
  ghost predicate StaysDegraded(w: World, es: seq<Event>, p: int)
    requires Runs(w, es)
    decreases |es|
  {
    IsDegraded(After(w, es).s, p) && (es == [] || StaysDegraded(w, es[..|es| - 1], p))
  }

  /** No step of the run untracks p. */
  ghost predicate NeverUntracks(w: World, es: seq<Event>, p: int)
    requires Runs(w, es)
    decreases |es|
  {
    es == [] || (NeverUntracks(w, es[..|es| - 1], p) && !UntracksAt(After(w, es[..|es| - 1]), es[|es| - 1], p))
  }

  /** While an input stays degraded it keeps its stamp, exactly until a step
      untracks it. */
  lemma {:induction false} StampHoldsExactly(w: World, es: seq<Event>, p: int)
    requires Runs(w, es) && StaysDegraded(w, es, p)
    ensures p in After(w, es).s.degradedAt <==> p in w.s.degradedAt && NeverUntracks(w, es, p)
    ensures p in After(w, es).s.degradedAt ==> After(w, es).s.degradedAt[p] == w.s.degradedAt[p]
  {
    if es != [] {
      var prefix := es[..|es| - 1];
      StampHoldsExactly(w, prefix, p);
      DegradedStamp(After(w, prefix), es[|es| - 1], p);
    }
  }

  lemma {:induction false} StaysFirst(w: World, es: seq<Event>, p: int)
    requires Runs(w, es) && StaysDegraded(w, es, p)
    ensures IsDegraded(w.s, p)
  {
    if es != [] {
      StaysFirst(w, es[..|es| - 1], p);
    }
  }

  /** A tick's timeouts change nothing about an input degraded before it. */
  lemma DegradedDueExactly(s: State, at: int, timeout: int, p: int)
    requires IsDegraded(s, p)
    ensures p in CollectDue(s, at, timeout)
            <==> !s.dead && !IsProbing(s, p) && (p != s.active || s.exhausted)
                 && p in s.degradedAt && at - s.degradedAt[p] >= FAILBACK_PROBE_COOLDOWN
  {
  }

  /** An input degraded by step e and degraded ever since is queued by a later
      tick exactly when it is not marked probing, is standby or the stream is
      exhausted, 8 s have passed since e, and nothing untracked it meanwhile. */
  lemma TickQueuesDueProbe(w: World, e: Event, es: seq<Event>, tick: Event, p: int)
    requires Enabled(w, e) && TrackedAt(w.s, p) && !IsDegraded(w.s, p)
    requires Runs(Step(w, e), es) && StaysDegraded(Step(w, e), es, p)
    requires tick.Tick? && Enabled(After(Step(w, e), es), tick)
    ensures var s := After(Step(w, e), es).s;
            Names(tick.tasks, p)
            <==> !s.dead && !IsProbing(s, p) && (p != s.active || s.exhausted)
                 && tick.at - e.at >= FAILBACK_PROBE_COOLDOWN && NeverUntracks(Step(w, e), es, p)
  {
    StaysFirst(Step(w, e), es, p);
    DegradedStamp(w, e, p);
    StampHoldsExactly(Step(w, e), es, p);
    var s := After(Step(w, e), es).s;
    DueNamed(tick.tasks, s, CollectDue(s, tick.at, tick.timeout), p);
    DegradedDueExactly(s, tick.at, tick.timeout, p);
  }

  // ------------------------------------------------------------- a stale success

  const TASK := ProbeTask(1, 1)

  /** Two inputs, the first active and idle, the second the given record, marked
      probing or not and stamped or not. */
  function Standby(a: Input, now: int, h: Health, marked: bool, at: Option<int>): State {
    State(map[0 := Health(0, a, now, Idle), 1 := h], 0, if at.Some? then map[1 := at.value] else map[],
          if marked then map[1 := true] else map[], now, [], [], None, false, false, h.id + 1)
  }

  lemma StandbyFails(a: Input, now: int, h: Health, marked: bool, at: int)
    requires h.status == Idle
    ensures ReportError(Standby(a, now, h, marked, None), 1, false, at)
         == (Standby(a, now, h.(status := Degraded), marked, Some(at)), true)
  {
    var s, t := Standby(a, now, h, marked, None), Standby(a, now, h.(status := Degraded), marked, Some(at));
    assert s.inputs[1 := h.(status := Degraded)] == t.inputs;
    assert s.degradedAt[1 := at] == t.degradedAt;
  }

  lemma StandbyHeals(a: Input, now: int, h: Health, marked: bool, at: int)
    requires h.status == Degraded
    ensures RecordPacket(Standby(a, now, h, marked, Some(now)), 1, at)
         == Standby(a, now, h.(status := Active, lastPacketAt := at), marked, None)
  {
  }

  lemma StandbyReplaced(a: Input, b: Input, now: int, h: Health, marked: bool)
    requires b.priority == 1
    ensures UpdateInputs(Standby(a, now, h, marked, None), [b], [], [])
         == Standby(a, now, Health(h.id + 1, b, ZERO_TIME, Idle), marked, None)
    ensures Follow(UpdateReason(Standby(a, now, h, marked, None), [b], [])) == []
  {
    var s := Standby(a, now, h, marked, None);
    assert RemoveAll(s, []) == s && AddAll(s, []) == s;
    assert [b][..0] == [];
    assert AddAll(s, [b]) == s.(inputs := s.inputs[1 := Health(s.nextId, b, ZERO_TIME, Idle)], nextId := s.nextId + 1);
  }

  lemma StandbyQueued(a: Input, b: Input, now: int, threads: seq<Thread>)
    ensures var w := World(Standby(a, now, Health(1, b, now, Degraded), false, Some(now)), threads, now);
            var t := now + FAILBACK_PROBE_COOLDOWN;
            var tick := Tick(t, FAILBACK_PROBE_COOLDOWN, [TASK]);
            && Enabled(w, tick)
            && Step(w, tick).s == Standby(a, now, Health(1, b, now, Degraded), true, Some(now))
            && Step(w, tick).threads == threads + [[Launch([TASK])]]
  {
    var s, t := Standby(a, now, Health(1, b, now, Degraded), false, Some(now)), now + FAILBACK_PROBE_COOLDOWN;
    assert AfterTimeout(s, t, FAILBACK_PROBE_COOLDOWN) == s;
    assert DueSet(s, t) == {1};
    assert [TASK][0].priority == 1 && TaskFor(s, 1) == TASK;
    assert Marked(s.probing, {1}) == map[1 := true];
    assert TickThread(s, t, FAILBACK_PROBE_COOLDOWN, [TASK]) == [Launch([TASK])] by {
      assert CollectTimedOut(s, t, FAILBACK_PROBE_COOLDOWN) == -1;
      assert [] + [Launch([TASK])] + [] == [Launch([TASK])];
    }
  }

  /** The standby fails and its probe is queued. */
  lemma ProbeQueued(a: Input, b: Input, now: int) returns (es: seq<Event>)
    requires a.priority == 0 && b.priority == 1
    ensures Runs(Start([a, b], now), es) && forall i :: 0 <= i < |es| ==> !es[i].Edit?
    ensures After(Start([a, b], now), es)
         == World(Standby(a, now, Health(1, b, now, Degraded), true, Some(now)),
                  [[InitialStart(0)], [TrySelect(Error)], [Launch([TASK])]], now + FAILBACK_PROBE_COOLDOWN)
  {
    var w0 := Start([a, b], now);
    FailoverCover.TwoInputs(a, b, now);
    assert w0.s == Standby(a, now, Health(1, b, now, Idle), false, None);
    StandbyFails(a, now, Health(1, b, now, Idle), false, now);
    es := FailoverCover.Extend(w0, [], Fault(now, 1, false));
    assert After(w0, es) == World(Standby(a, now, Health(1, b, now, Degraded), false, Some(now)),
                                  [[InitialStart(0)], [TrySelect(Error)]], now);
    StandbyQueued(a, b, now, [[InitialStart(0)], [TrySelect(Error)]]);
    es := FailoverCover.Extend(w0, es, Tick(now + FAILBACK_PROBE_COOLDOWN, FAILBACK_PROBE_COOLDOWN, [TASK]));
  }

  /** A packet heals the standby and it is registered again, while that probe is
      still to run. */
  lemma ReplacedUnderProbe(a: Input, b: Input, now: int) returns (es: seq<Event>)
    requires a.priority == 0 && b.priority == 1
    ensures Runs(Start([a, b], now), es) && forall i :: 0 <= i < |es| && es[i].Edit? ==> es[i].removed == []
    ensures After(Start([a, b], now), es)
         == World(Standby(a, now, Health(2, b, ZERO_TIME, Idle), true, None),
                  [[InitialStart(0)], [TrySelect(Error)], [Launch([TASK])], []], now + FAILBACK_PROBE_COOLDOWN)
  {
    var w0, t := Start([a, b], now), now + FAILBACK_PROBE_COOLDOWN;
    es := ProbeQueued(a, b, now);
    StandbyHeals(a, now, Health(1, b, now, Degraded), true, t);
    es := FailoverCover.Extend(w0, es, Packet(t, 1));
    assert After(w0, es) == World(Standby(a, now, Health(1, b, t, Active), true, None),
                                  [[InitialStart(0)], [TrySelect(Error)], [Launch([TASK])]], t);
    StandbyReplaced(a, b, now, Health(1, b, t, Active), true);
    es := FailoverCover.Extend(w0, es, Edit(t, [b], [], []));
  }

  /** It fails again and the probe is launched. */
  lemma FailsUnderProbe(a: Input, b: Input, now: int) returns (es: seq<Event>)
    requires a.priority == 0 && b.priority == 1
    ensures Runs(Start([a, b], now), es) && forall i :: 0 <= i < |es| && es[i].Edit? ==> es[i].removed == []
    ensures var w := After(Start([a, b], now), es);
            && w.s == Standby(a, now, Health(2, b, ZERO_TIME, Degraded), true, Some(w.clock))
            && |w.threads| == 6 && w.threads[5] == [RunProbe(TASK)]
  {
    var w0, t := Start([a, b], now), now + FAILBACK_PROBE_COOLDOWN;
    es := ReplacedUnderProbe(a, b, now);
    StandbyFails(a, now, Health(2, b, ZERO_TIME, Idle), true, t);
    es := FailoverCover.Extend(w0, es, Fault(t, 1, false));
    LaunchOne(After(w0, es), t);
    es := FailoverCover.Extend(w0, es, Advance(t, 2, true));
  }

  lemma LaunchOne(w: World, t: int)
    requires |w.threads| == 5 && w.threads[2] == [Launch([TASK])] && w.clock <= t
    ensures Enabled(w, Advance(t, 2, true))
    ensures Step(w, Advance(t, 2, true)) == World(w.s, w.threads[2 := []] + [[RunProbe(TASK)]], t)
  {
    assert Probers([TASK]) == [[RunProbe(TASK)]];
    assert [] + w.threads[2][1..] == [];
  }

  /** That probe then succeeds: it takes the stamp of a record it was not sent
      for, and the standby stays degraded with no probe ever due. */
  lemma StaleSuccessUntracks(a: Input, b: Input, now: int) returns (es: seq<Event>, e: Event)
    requires a.priority == 0 && b.priority == 1
    ensures Runs(Start([a, b], now), es) && forall i :: 0 <= i < |es| && es[i].Edit? ==> es[i].removed == []
    ensures var w := After(Start([a, b], now), es);
            && e.Advance? && Enabled(w, e) && TrackedAt(w.s, 1) && UntracksAt(w, e, 1)
            && IsDegraded(Step(w, e).s, 1) && forall t :: !ProbeDue(Step(w, e).s, 1, t)
  {
    es := FailsUnderProbe(a, b, now);
    var w := After(Start([a, b], now), es);
    e := Advance(w.clock, 5, true);
    StaleProbe(w, e);
  }

  lemma StaleProbe(w: World, e: Event)
    requires Enabled(w, e) && e.Advance? && e.ok && w.threads[e.thread][0] == RunProbe(TASK)
    requires !w.s.dead && IsDegraded(w.s, 1) && w.s.inputs[1].id == 2 && 1 in w.s.degradedAt
    ensures UntracksAt(w, e, 1) && IsDegraded(Step(w, e).s, 1) && 1 !in Step(w, e).s.degradedAt
  {
  }
}
