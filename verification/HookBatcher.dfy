/** Per-hook delivery queue: bounded, front re-queue on failure, oldest dropped. */
module HookBatcher {

  /** A queued event with its position in the enqueue order. The batcher never
      looks at the position; it lets the proofs speak about order and loss. */
  datatype Held<E> = Held(place: nat, event: E)

  datatype Limits = Limits(maxItems: nat, maxQueue: nat)

  const DEFAULT_MAX_ITEMS := 100
  const DEFAULT_MAX_QUEUE := 10000

  function FirstPositive(hook: int, global: int, fallback: nat): int {
    if hook > 0 then hook else if global > 0 then global else fallback
  }

  /** Hook value, else global value, else code default. */
  function MergeLimits(hookItems: int, globalItems: int, hookQueue: int, globalQueue: int): (l: Limits)
    ensures l.maxItems > 0 && l.maxQueue > 0
    ensures hookItems > 0 ==> l.maxItems == hookItems
    ensures hookItems <= 0 && globalItems > 0 ==> l.maxItems == globalItems
    ensures hookItems <= 0 && globalItems <= 0 ==> l.maxItems == DEFAULT_MAX_ITEMS
    ensures hookQueue > 0 ==> l.maxQueue == hookQueue
    ensures hookQueue <= 0 && globalQueue > 0 ==> l.maxQueue == globalQueue
    ensures hookQueue <= 0 && globalQueue <= 0 ==> l.maxQueue == DEFAULT_MAX_QUEUE
  {
    Limits(FirstPositive(hookItems, globalItems, DEFAULT_MAX_ITEMS),
           FirstPositive(hookQueue, globalQueue, DEFAULT_MAX_QUEUE))
  }

  datatype State<E> = State(
    queue: seq<Held<E>>,
    inFlight: seq<Held<E>>,   // the batch the flusher is posting
    delivered: seq<Held<E>>,  // in delivery order
    dropped: nat,
    enqueued: nat)

  /** How many of the oldest entries the cap evicts. */
  function Excess<E>(l: Limits, queue: seq<Held<E>>): nat {
    if |queue| > l.maxQueue then |queue| - l.maxQueue else 0
  }

  function Capped<E>(l: Limits, s: State<E>, queue: seq<Held<E>>): State<E> {
    s.(queue := queue[Excess(l, queue)..], dropped := s.dropped + Excess(l, queue))
  }

  function Enqueued<E>(l: Limits, s: State<E>, event: E): State<E> {
    Capped(l, s.(enqueued := s.enqueued + 1), s.queue + [Held(s.enqueued, event)])
  }

  function BatchSize<E>(l: Limits, queue: seq<Held<E>>): nat {
    if |queue| > l.maxItems then l.maxItems else |queue|
  }

  function Taken<E>(l: Limits, s: State<E>): State<E> {
    var n := BatchSize(l, s.queue);
    s.(inFlight := s.queue[..n], queue := s.queue[n..])
  }

  function Succeeded<E>(s: State<E>): State<E> {
    s.(delivered := s.delivered + s.inFlight, inFlight := [])
  }

  function Requeued<E>(l: Limits, s: State<E>): State<E> {
    Capped(l, s.(inFlight := []), s.inFlight + s.queue)
  }

  function Flushed<E>(l: Limits, s: State<E>, ok: bool): State<E> {
    var t := Taken(l, s);
    if t.inFlight == [] then t else if ok then Succeeded(t) else Requeued(l, t)
  }

  /** With nothing in flight and the queue within its cap, a flush ships one
      batch or changes nothing. */
  lemma FlushedSettles<E>(l: Limits, s: State<E>, ok: bool)
    requires s.inFlight == [] && |s.queue| <= l.maxQueue
    ensures Flushed(l, s, ok) == if ok then Drained(s, BatchSize(l, s.queue)) else s
  {
    var n := BatchSize(l, s.queue);
    assert s.queue[..n] + s.queue[n..] == s.queue;
    if s.queue[..n] == [] {
      assert s.queue[n..] == s.queue && s.delivered + [] == s.delivered;
    }
  }

  lemma ShippedOn<T>(before: seq<T>, k: nat, n: nat)
    requires k + n <= |before|
    ensures before[k..][n..] == before[k + n..] && before[..k] + before[k..][..n] == before[..k + n]
  {
  }

  /** Shipping on from n. */
  lemma DrainedOn<E>(s: State<E>, n: nat, m: nat)
    requires n + m <= |s.queue|
    ensures Drained(Drained(s, n), m) == Drained(s, n + m)
  {
    ShippedOn(s.queue, n, m);
    assert (s.delivered + s.queue[..n]) + s.queue[n..][..m] == s.delivered + (s.queue[..n] + s.queue[n..][..m]);
  }

  class HttpBatcher<E> {
    const limits: Limits
    var queue: seq<Held<E>>
    var droppedSize: nat
    ghost var inFlight: seq<Held<E>>
    ghost var delivered: seq<Held<E>>
    var enqueued: nat

    ghost function View(): State<E>
      reads this
    {
      State(queue, inFlight, delivered, droppedSize, enqueued)
    }

    constructor (limits: Limits)
      ensures this.limits == limits && View() == State([], [], [], 0, 0)
    {
      this.limits := limits;
      queue, droppedSize, inFlight, delivered, enqueued := [], 0, [], [], 0;
    }

    method Enqueue(event: E) returns (full: bool)
      modifies this
      ensures View() == Enqueued(limits, old(View()), event)
      ensures full <==> |queue| >= limits.maxItems
    {
      queue := queue + [Held(enqueued, event)];
      enqueued := enqueued + 1;
      if |queue| > limits.maxQueue {
        var dropped := |queue| - limits.maxQueue;
        queue := queue[dropped..];
        droppedSize := droppedSize + dropped;
      }
      full := |queue| >= limits.maxItems;
    }

    method TakeBatch() returns (batch: seq<Held<E>>)
      modifies this
      ensures View() == Taken(limits, old(View())) && batch == inFlight
    {
      if |queue| == 0 {
        inFlight := [];
        return [];
      }
      var n := |queue|;
      if n > limits.maxItems {
        n := limits.maxItems;
      }
      batch := queue[..n];
      inFlight := batch;
      queue := queue[n..];
    }

    method Requeue(batch: seq<Held<E>>)
      requires batch == inFlight
      modifies this
      ensures View() == Requeued(limits, old(View()))
    {
      var combined := batch + queue;
      inFlight := [];
      if |combined| > limits.maxQueue {
        var dropped := |combined| - limits.maxQueue;
        combined := combined[dropped..];
        droppedSize := droppedSize + dropped;
      }
      queue := combined;
    }

    /** One flush with no interference; `ok` is the delivery's outcome. */
    method FlushOnce(ok: bool)
      modifies this
      ensures View() == Flushed(limits, old(View()), ok)
    {
      var batch := TakeBatch();
      if |batch| == 0 { return; }
      if !ok {
        Requeue(batch);
        return;
      }
      delivered := delivered + inFlight;
      inFlight := [];
    }

    /** One attempt of a drain that has shipped n events so far. */
    method Attempt(ok: bool, ghost start: State<E>, ghost n: nat)
      requires start.inFlight == [] && n <= |start.queue| <= limits.maxQueue
      requires View() == Drained(start, n)
      modifies this
      ensures var m := BatchSize(limits, start.queue[n..]);
              n + m <= |start.queue| && View() == Drained(start, if ok then n + m else n)
    {
      ghost var state := View();
      FlushOnce(ok);
      FlushedSettles(limits, state, ok);
      DrainedOn(start, n, BatchSize(limits, state.queue));
    }

    /** Ships the backlog in batches until a delivery fails; `deliver(i)` is the
        outcome of the i-th attempt. What is left is exactly what the successful
        attempts did not cover. */
    method DrainOnShutdown(deliver: nat -> bool) returns (remaining: nat)
      requires inFlight == [] && |queue| <= limits.maxQueue
      modifies this
      ensures var n := Shipped(|old(queue)|, limits.maxItems, deliver);
              View() == Drained(old(View()), n) && remaining == |old(queue)| - n
    {
      var denom := limits.maxItems;
      if denom <= 0 {
        denom := 1;
      }
      ghost var start := View();
      var iters := |queue| / denom + 1;
      ghost var limit := iters;
      var i: nat := 0;
      ghost var n: nat := 0;
      assert Drained(start, 0) == start;
      while iters > 0
        invariant 0 <= iters && i + iters == limit
        invariant forall k: nat :: k < i ==> deliver(k)
        invariant n == Covers(|start.queue|, limits.maxItems, i) && View() == Drained(start, n)
        decreases iters
      {
        var pending := |queue|;
        if pending == 0 {
          CoveredFrom(|start.queue|, limits.maxItems, i, deliver);
          return 0;
        }
        Attempt(deliver(i), start, n);
        if |queue| >= pending {
          StalledDrain(|start.queue|, limits.maxItems, i, deliver);
          return |queue|;
        }
        n := n + BatchSize(limits, start.queue[n..]);
        i := i + 1;
        iters := iters - 1;
      }
      StopsNever(limit, deliver);
      remaining := |queue|;
    }
  }

  /** The batcher once n events of the backlog have been shipped. */
  function Drained<E>(s: State<E>, n: nat): State<E>
    requires n <= |s.queue|
  {
    s.(queue := s.queue[n..], delivered := s.delivered + s.queue[..n])
  }

  // ------------------------------------------------------------------ the drain

  /** How many leading attempts, out of a limit, succeed. */
  function Successes(limit: nat, deliver: nat -> bool): nat {
    if limit == 0 then 0
    else
      var k := Successes(limit - 1, deliver);
      if k == limit - 1 && deliver(limit - 1) then limit else k
  }

  /** How much of a backlog that many full batches cover. */
  function Covers(backlog: nat, maxItems: nat, attempts: nat): (n: nat)
    ensures n <= backlog
  {
    if attempts == 0 then 0
    else
      var n := Covers(backlog, maxItems, attempts - 1) + maxItems;
      if n < backlog then n else backlog
  }

  lemma {:induction false} CoversExactly(backlog: nat, maxItems: nat, attempts: nat)
    ensures Covers(backlog, maxItems, attempts) == if attempts * maxItems < backlog then attempts * maxItems else backlog
  {
    if attempts > 0 {
      CoversExactly(backlog, maxItems, attempts - 1);
      assert attempts * maxItems == (attempts - 1) * maxItems + maxItems;
    }
  }

  /** How many events of a backlog a drain delivers. */
  function Shipped(backlog: nat, maxItems: nat, deliver: nat -> bool): (n: nat)
    ensures n <= backlog
  {
    Covers(backlog, maxItems, Successes(Attempts(backlog, maxItems), deliver))
  }

  /** The drain's bound on attempts. */
  function Attempts(backlog: nat, maxItems: nat): nat {
    backlog / (if maxItems <= 0 then 1 else maxItems) + 1
  }

  lemma {:induction false} CoversNothing(backlog: nat, attempts: nat)
    ensures Covers(backlog, 0, attempts) == 0
  {
    if attempts > 0 {
      CoversNothing(backlog, attempts - 1);
    }
  }

  lemma {:induction false} StopsAt(limit: nat, i: nat, deliver: nat -> bool)
    requires i < limit && !deliver(i) && forall k: nat :: k < i ==> deliver(k)
    ensures Successes(limit, deliver) == i
  {
    if i < limit - 1 {
      StopsAt(limit - 1, i, deliver);
    } else {
      StopsNever(i, deliver);
    }
  }

  lemma {:induction false} StopsNever(limit: nat, deliver: nat -> bool)
    requires forall k: nat :: k < limit ==> deliver(k)
    ensures Successes(limit, deliver) == limit
  {
    if limit > 0 {
      StopsNever(limit - 1, deliver);
    }
  }

  lemma {:induction false} SuccessesAtLeast(limit: nat, i: nat, deliver: nat -> bool)
    requires i <= limit && forall k: nat :: k < i ==> deliver(k)
    ensures i <= Successes(limit, deliver)
  {
    if i < limit {
      SuccessesAtLeast(limit - 1, i, deliver);
    } else {
      StopsNever(limit, deliver);
    }
  }

  lemma {:induction false} CoversMore(backlog: nat, maxItems: nat, i: nat, j: nat)
    requires i <= j
    ensures Covers(backlog, maxItems, i) <= Covers(backlog, maxItems, j)
  {
    if i < j {
      CoversMore(backlog, maxItems, i, j - 1);
    }
  }

  /** Once everything is covered, further attempts do not matter. */
  lemma CoveredFrom(backlog: nat, maxItems: nat, i: nat, deliver: nat -> bool)
    requires i <= Attempts(backlog, maxItems)
    requires Covers(backlog, maxItems, i) == backlog
    requires forall k: nat :: k < i ==> deliver(k)
    ensures Shipped(backlog, maxItems, deliver) == backlog
  {
    SuccessesAtLeast(Attempts(backlog, maxItems), i, deliver);
    CoversMore(backlog, maxItems, i, Successes(Attempts(backlog, maxItems), deliver));
  }

  lemma AttemptsSuffice(backlog: nat, maxItems: nat)
    requires maxItems > 0
    ensures Covers(backlog, maxItems, Attempts(backlog, maxItems)) == backlog
  {
    var q := backlog / maxItems;
    assert backlog < q * maxItems + maxItems;
    assert (q + 1) * maxItems == q * maxItems + maxItems;
    CoversExactly(backlog, maxItems, q + 1);
  }

  /** An attempt that ships nothing ends the drain where it is. */
  lemma StalledDrain(backlog: nat, maxItems: nat, i: nat, deliver: nat -> bool)
    requires i < Attempts(backlog, maxItems) && forall k: nat :: k < i ==> deliver(k)
    requires maxItems == 0 || !deliver(i)
    ensures Shipped(backlog, maxItems, deliver) == Covers(backlog, maxItems, i)
  {
    if maxItems > 0 {
      StopsAt(Attempts(backlog, maxItems), i, deliver);
    } else {
      CoversNothing(backlog, i);
      CoversNothing(backlog, Successes(Attempts(backlog, maxItems), deliver));
    }
  }

  /** A healthy target empties the queue within the drain's bound on attempts. */
  lemma DrainEmptiesQueue(backlog: nat, maxItems: nat, deliver: nat -> bool)
    requires maxItems > 0 && forall k: nat :: k < Attempts(backlog, maxItems) ==> deliver(k)
    ensures Shipped(backlog, maxItems, deliver) == backlog
  {
    StopsNever(Attempts(backlog, maxItems), deliver);
    AttemptsSuffice(backlog, maxItems);
  }

  /** In general the drain ships the backlog up to the first failed attempt. */
  lemma DrainShipsUpToFirstFailure(backlog: nat, maxItems: nat, deliver: nat -> bool, i: nat)
    requires maxItems > 0 && !deliver(i) && forall k: nat :: k < i ==> deliver(k)
    ensures Shipped(backlog, maxItems, deliver) == Covers(backlog, maxItems, i)
  {
    var limit := Attempts(backlog, maxItems);
    if i < limit {
      StopsAt(limit, i, deliver);
    } else {
      DrainEmptiesQueue(backlog, maxItems, deliver);
      AttemptsSuffice(backlog, maxItems);
      CoversMore(backlog, maxItems, limit, i);
    }
  }

  // ------------------------------------------------------------------ interleaving

  /** Producers enqueue at any time; the single flusher takes a batch and later
      sees it succeed or fail. */
  datatype Step<E> = Enqueue(event: E) | Take | Succeed | Fail

  predicate Enabled<E>(s: State<E>, step: Step<E>) {
    match step
    case Enqueue(_) => true
    case Take => s.inFlight == []
    case Succeed => s.inFlight != []
    case Fail => s.inFlight != []
  }

  function Next<E>(l: Limits, s: State<E>, step: Step<E>): State<E>
    requires Enabled(s, step)
  {
    match step
    case Enqueue(event) => Enqueued(l, s, event)
    case Take => Taken(l, s)
    case Succeed => Succeeded(s)
    case Fail => Requeued(l, s)
  }

  function RunTo<E>(l: Limits, steps: seq<Step<E>>): State<E>
    requires Runs(l, steps)
    decreases |steps|, 1
  {
    if steps == [] then State([], [], [], 0, 0)
    else Next(l, RunTo(l, steps[..|steps| - 1]), steps[|steps| - 1])
  }

  predicate Runs<E>(l: Limits, steps: seq<Step<E>>)
    decreases |steps|, 0
  {
    steps == [] ||
    (Runs(l, steps[..|steps| - 1]) && Enabled(RunTo(l, steps[..|steps| - 1]), steps[|steps| - 1]))
  }

  /** The events enqueued by a run, in order. */
  function Arrivals<E>(steps: seq<Step<E>>): seq<E> {
    if steps == [] then []
    else
      var before := Arrivals(steps[..|steps| - 1]);
      match steps[|steps| - 1]
      case Enqueue(event) => before + [event]
      case _ => before
  }

  /** Everything not lost, oldest first. */
  function Kept<E>(s: State<E>): seq<Held<E>> {
    s.delivered + s.inFlight + s.queue
  }

  /** Kept events are a strictly increasing selection of the arrivals. */
  ghost predicate InOrder<E>(held: seq<Held<E>>, arrivals: seq<E>) {
    && (forall i, j :: 0 <= i < j < |held| ==> held[i].place < held[j].place)
    && (forall i :: 0 <= i < |held| ==> held[i].place < |arrivals| && held[i].event == arrivals[held[i].place])
  }

  ghost predicate Accounted<E>(l: Limits, s: State<E>, arrivals: seq<E>) {
    && InOrder(Kept(s), arrivals)
    && s.enqueued == |arrivals|
    && s.enqueued == |s.delivered| + |s.inFlight| + |s.queue| + s.dropped
    && |s.queue| <= l.maxQueue && |s.inFlight| <= l.maxItems
  }

  /** Evicting from the head of the queue part keeps the rest in order. */
  lemma EvictKeepsOrder<E>(front: seq<Held<E>>, queue: seq<Held<E>>, n: nat, arrivals: seq<E>)
    requires n <= |queue| && InOrder(front + queue, arrivals)
    ensures InOrder(front + queue[n..], arrivals)
  {
    var a, b := front + queue, front + queue[n..];
    forall i | 0 <= i < |b| ensures b[i] == a[if i < |front| then i else i + n] {}
  }

  lemma EnqueueAccounted<E>(l: Limits, s: State<E>, event: E, arrivals: seq<E>)
    requires Accounted(l, s, arrivals)
    ensures Accounted(l, Enqueued(l, s, event), arrivals + [event])
  {
    var more := s.queue + [Held(s.enqueued, event)];
    assert (s.delivered + s.inFlight) + more == Kept(s) + [Held(s.enqueued, event)];
    EvictKeepsOrder(s.delivered + s.inFlight, more, Excess(l, more), arrivals + [event]);
  }

  lemma FailAccounted<E>(l: Limits, s: State<E>, arrivals: seq<E>)
    requires Enabled(s, Step<E>.Fail) && Accounted(l, s, arrivals)
    ensures Accounted(l, Requeued(l, s), arrivals)
  {
    var more := s.inFlight + s.queue;
    assert s.delivered + more == Kept(s);
    EvictKeepsOrder(s.delivered, more, Excess(l, more), arrivals);
    assert Kept(Requeued(l, s)) == s.delivered + more[Excess(l, more)..];
  }

  lemma NextAccounted<E>(l: Limits, s: State<E>, step: Step<E>, arrivals: seq<E>)
    requires Enabled(s, step) && Accounted(l, s, arrivals)
    ensures Accounted(l, Next(l, s, step), if step.Enqueue? then arrivals + [step.event] else arrivals)
  {
    match step
    case Enqueue(event) => EnqueueAccounted(l, s, event, arrivals);
    case Fail => FailAccounted(l, s, arrivals);
    case _ => SuccessAndTakeKeepAll(l, s, step);
  }

  /** Over every interleaving of enqueues with takes, successes and failures:
      delivered, in-flight and queued events together are a strictly increasing
      selection of the enqueue order, every event is delivered, in flight, queued
      or counted as dropped, and the queue respects its cap. */
  lemma {:induction false} NothingReorderedOrLost<E>(l: Limits, steps: seq<Step<E>>)
    requires Runs(l, steps)
    ensures Accounted(l, RunTo(l, steps), Arrivals(steps))
  {
    if steps != [] {
      NothingReorderedOrLost(l, steps[..|steps| - 1]);
      NextAccounted(l, RunTo(l, steps[..|steps| - 1]), steps[|steps| - 1], Arrivals(steps[..|steps| - 1]));
    }
  }

  lemma EvictedAreOldest<E>(front: seq<Held<E>>, queue: seq<Held<E>>, n: nat, arrivals: seq<E>, h: Held<E>, q: Held<E>)
    requires n <= |queue| && InOrder(front + queue, arrivals)
    requires h in front + queue && h !in front + queue[n..] && q in queue[n..]
    ensures h.place < q.place
  {
    var a := front + queue;
    var i :| 0 <= i < |a| && a[i] == h;
    var j :| 0 <= j < |queue[n..]| && queue[n..][j] == q;
    assert a[|front| + n + j] == q;
    forall k | |front| + n <= k < |a| ensures a[k] in front + queue[n..] {
      assert (front + queue[n..])[k - n] == a[k];
    }
  }

  /** An eviction only ever loses events older than everything still queued. */
  lemma OnlyOldestDropped<E>(l: Limits, s: State<E>, step: Step<E>, arrivals: seq<E>, h: Held<E>, q: Held<E>)
    requires Enabled(s, step) && Accounted(l, s, arrivals)
    requires h in Kept(s) && h !in Kept(Next(l, s, step)) && q in Next(l, s, step).queue
    ensures h.place < q.place
  {
    SuccessAndTakeKeepAll(l, s, step);
    if step.Enqueue? {
      var more := s.queue + [Held(s.enqueued, step.event)];
      var front := s.delivered + s.inFlight;
      assert front + more == Kept(s) + [Held(s.enqueued, step.event)];
      EvictedAreOldest(front, more, Excess(l, more), arrivals + [step.event], h, q);
    } else if step.Fail? {
      var more := s.inFlight + s.queue;
      assert s.delivered + more == Kept(s);
      assert Kept(Requeued(l, s)) == s.delivered + more[Excess(l, more)..];
      EvictedAreOldest(s.delivered, more, Excess(l, more), arrivals, h, q);
    }
  }

  lemma SuccessAndTakeKeepAll<E>(l: Limits, s: State<E>, step: Step<E>)
    requires Enabled(s, step)
    ensures step.Take? || step.Succeed? ==> Kept(Next(l, s, step)) == Kept(s)
  {
    if step.Take? {
      assert s.queue == s.queue[..BatchSize(l, s.queue)] + s.queue[BatchSize(l, s.queue)..];
    }
  }

  // ---------------------------------------------------------------------- numbers

  datatype Tally = Tally(queued: nat, inFlight: nat, delivered: nat, dropped: nat)

  function Least(a: nat, b: nat): nat {
    if a < b then a else b
  }

  /** How many events are where, told by the steps alone: an event is dropped only
      for want of room, and a batch is as large as it may be. */
  function TallyTo<E>(l: Limits, steps: seq<Step<E>>): Tally {
    if steps == [] then Tally(0, 0, 0, 0)
    else
      var t := TallyTo(l, steps[..|steps| - 1]);
      match steps[|steps| - 1]
      case Enqueue(_) => Refilled(l, t, t.queued + 1)
      case Take =>
        var n := Least(t.queued, l.maxItems);
        t.(queued := t.queued - n, inFlight := n)
      case Succeed => t.(delivered := t.delivered + t.inFlight, inFlight := 0)
      case Fail => Refilled(l, t.(inFlight := 0), t.inFlight + t.queued)
  }

  function Refilled(l: Limits, t: Tally, n: nat): Tally {
    var kept := Least(n, l.maxQueue);
    t.(queued := kept, dropped := t.dropped + (n - kept))
  }

  /** Over every interleaving that is how many there are. */
  lemma {:induction false} TalliesExactly<E>(l: Limits, steps: seq<Step<E>>)
    requires Runs(l, steps)
    ensures var s := RunTo(l, steps);
            TallyTo(l, steps) == Tally(|s.queue|, |s.inFlight|, |s.delivered|, s.dropped)
  {
    if steps != [] {
      TalliesExactly(l, steps[..|steps| - 1]);
    }
  }
}
