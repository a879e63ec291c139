/** Whole runs of one buffer: a write log plus independent subscriber views. */
module BufferRuns {
  import opened Domain
  import opened HubPackets

  /** Subscribers are numbered by the order they attach; `listed` is the fan-out
      list, in order. `joined` and `left` are positions in the log. */
  datatype Buffer = Buffer(
    listed: seq<nat>,
    views: map<nat, View>,
    caps: map<nat, nat>,
    joined: map<nat, nat>,
    left: map<nat, nat>,
    stamper: Stamper,
    log: seq<Packet>,
    panicked: bool)   // a closed channel was sent to or closed again

  datatype Op =
    | Write(pkt: Packet)
    | NewSession(id: nat)
    | Subscribe(sub: nat, capacity: nat)
    | Unsubscribe(sub: nat)
    | UnsubscribeAll
    | Recv(sub: nat)

  function OfferTo(b: Buffer, i: nat, p: Packet): Buffer {
    if i !in b.views || i !in b.caps || !b.views[i].open then b.(panicked := true)
    else b.(views := b.views[i := Offer(b.views[i], b.caps[i], p)])
  }

  /** One pass over the fan-out list. */
  function OfferAll(b: Buffer, listed: seq<nat>, p: Packet): Buffer {
    if listed == [] then b
    else OfferTo(OfferAll(b, listed[..|listed| - 1], p), listed[|listed| - 1], p)
  }

  function CloseOne(b: Buffer, i: nat): Buffer {
    if i !in b.views || !b.views[i].open then b.(panicked := true)
    else b.(views := b.views[i := b.views[i].(open := false)], left := b.left[i := |b.log|])
  }

  function CloseAll(b: Buffer, listed: seq<nat>): Buffer {
    if listed == [] then b else CloseOne(CloseAll(b, listed[..|listed| - 1]), listed[|listed| - 1])
  }

  function Without(listed: seq<nat>, i: nat): seq<nat> {
    if listed == [] then []
    else if listed[0] == i then listed[1..]
    else [listed[0]] + Without(listed[1..], i)
  }

  function Step(b: Buffer, op: Op): Buffer {
    match op
    case Write(pkt) =>
      if Empty(pkt) then b
      else
        var p := Stamp(b.stamper, pkt);
        OfferAll(b, b.listed, p).(stamper := AfterStamp(b.stamper, pkt), log := b.log + [p])
    case NewSession(id) => b.(stamper := Stamper(Some(id), true))
    case Subscribe(i, capacity) =>
      if i in b.views then b
      else b.(listed := b.listed + [i], views := b.views[i := View([], [], [], 0, true)],
              caps := b.caps[i := capacity], joined := b.joined[i := |b.log|])
    case Unsubscribe(i) =>
      if i in b.listed then CloseOne(b, i).(listed := Without(b.listed, i)) else b
    case UnsubscribeAll => CloseAll(b, b.listed).(listed := [])
    case Recv(i) => if i in b.views then b.(views := b.views[i := Received(b.views[i])]) else b
  }

  function RunTo(ops: seq<Op>): Buffer {
    if ops == [] then Buffer([], map[], map[], map[], map[], Stamper(None, false), [], false)
    else Step(RunTo(ops[..|ops| - 1]), ops[|ops| - 1])
  }

  // ------------------------------------------------------------------- the list

  predicate NoRepeat(listed: seq<nat>) {
    forall i, j :: 0 <= i < j < |listed| ==> listed[i] != listed[j]
  }

  /** The list holds exactly the subscribers whose channel is open, once each. */
  ghost predicate ListSound(b: Buffer) {
    && NoRepeat(b.listed) && !b.panicked
    && (forall i :: i in b.listed <==> i in b.views && b.views[i].open)
    && b.caps.Keys == b.views.Keys && b.joined.Keys == b.views.Keys
  }

  lemma {:induction false} OfferAllEffect(b: Buffer, listed: seq<nat>, p: Packet)
    requires NoRepeat(listed) && !b.panicked
    requires forall i :: i in listed ==> i in b.views && i in b.caps && b.views[i].open
    ensures var c := OfferAll(b, listed, p);
            && c == b.(views := c.views) && c.views.Keys == b.views.Keys
            && (forall i :: i in b.views ==>
                  c.views[i] == if i in listed then Offer(b.views[i], b.caps[i], p) else b.views[i])
  {
    if listed != [] {
      var n := |listed| - 1;
      OfferAllEffect(b, listed[..n], p);
      forall i ensures i in listed <==> i in listed[..n] || i == listed[n] {
        assert listed == listed[..n] + [listed[n]];
      }
      assert listed[n] !in listed[..n];
    }
  }

  /** The listed views were offered the packet, the others not. */
  ghost predicate Offered(was: map<nat, View>, now: map<nat, View>, caps: map<nat, nat>, listed: seq<nat>, p: Packet) {
    && now.Keys == was.Keys
    && (forall i :: i in was && i in listed ==> i in caps && was[i].open && now[i] == Offer(was[i], caps[i], p))
    && (forall i :: i in was && i !in listed ==> now[i] == was[i])
  }

  /** That is what the pass leaves. */
  lemma OfferAllIs(b: Buffer, listed: seq<nat>, p: Packet, views: map<nat, View>)
    requires NoRepeat(listed) && !b.panicked && Offered(b.views, views, b.caps, listed, p)
    requires forall i :: i in listed ==> i in b.views
    ensures OfferAll(b, listed, p) == b.(views := views)
  {
    OfferAllEffect(b, listed, p);
    assert OfferAll(b, listed, p).views == views;
  }

  lemma {:induction false} CloseAllEffect(b: Buffer, listed: seq<nat>)
    requires NoRepeat(listed) && !b.panicked
    requires forall i :: i in listed ==> i in b.views && b.views[i].open
    ensures var c := CloseAll(b, listed);
            && c == b.(views := c.views, left := c.left) && c.views.Keys == b.views.Keys
            && (forall i :: i in b.views ==>
                  c.views[i] == if i in listed then b.views[i].(open := false) else b.views[i])
            && (forall i :: i in listed ==> i in c.left && c.left[i] == |b.log|)
            && (forall i :: i !in listed ==> (i in c.left <==> i in b.left) && (i in b.left ==> c.left[i] == b.left[i]))
  {
    if listed != [] {
      var n := |listed| - 1;
      CloseAllEffect(b, listed[..n]);
      forall i ensures i in listed <==> i in listed[..n] || i == listed[n] {
        assert listed == listed[..n] + [listed[n]];
      }
      assert listed[n] !in listed[..n];
    }
  }

  /** The listed views were closed, the others not touched. */
  ghost predicate Closed(was: map<nat, View>, now: map<nat, View>, listed: seq<nat>) {
    && now.Keys == was.Keys
    && (forall i :: i in was && i in listed ==> was[i].open && now[i] == was[i].(open := false))
    && (forall i :: i in was && i !in listed ==> now[i] == was[i])
  }

  /** That is what closing all of them leaves. */
  lemma CloseAllIs(b: Buffer, listed: seq<nat>, views: map<nat, View>)
    requires NoRepeat(listed) && !b.panicked && Closed(b.views, views, listed)
    requires forall i :: i in listed ==> i in b.views
    ensures CloseAll(b, listed) == b.(views := views, left := CloseAll(b, listed).left)
  {
    CloseAllEffect(b, listed);
    assert CloseAll(b, listed).views == views;
  }

  lemma {:induction false} WithoutEffect(listed: seq<nat>, i: nat)
    requires NoRepeat(listed)
    ensures NoRepeat(Without(listed, i))
    ensures forall k :: k in Without(listed, i) <==> k in listed && k != i
  {
    if listed != [] {
      forall k ensures k in listed <==> k == listed[0] || k in listed[1..] {
        assert listed == [listed[0]] + listed[1..];
      }
      assert listed[0] !in listed[1..];
      if listed[0] != i {
        WithoutEffect(listed[1..], i);
        forall j | 0 <= j < |Without(listed[1..], i)| ensures Without(listed[1..], i)[j] in listed[1..] {
          assert Without(listed[1..], i)[j] in Without(listed[1..], i);
        }
      }
    }
  }

  /** Removing by number is removing at its only place. */
  lemma {:induction false} WithoutAt(listed: seq<nat>, k: nat)
    requires NoRepeat(listed) && k < |listed|
    ensures Without(listed, listed[k]) == listed[..k] + listed[k + 1..]
  {
    if k > 0 {
      assert listed[0] != listed[k];
      assert listed[1..][k - 1] == listed[k];
      WithoutAt(listed[1..], k - 1);
      assert listed[..k] == [listed[0]] + listed[1..][..k - 1];
      assert listed[1..][k..] == listed[k + 1..];
    }
  }

  lemma StepListSound(b: Buffer, op: Op)
    requires ListSound(b)
    ensures ListSound(Step(b, op))
  {
    match op
    case Write(pkt) =>
      if !Empty(pkt) {
        OfferAllEffect(b, b.listed, Stamp(b.stamper, pkt));
      }
    case Unsubscribe(i) => WithoutEffect(b.listed, i);
    case UnsubscribeAll => CloseAllEffect(b, b.listed);
    case Subscribe(i, _) =>
      if i !in b.views {
        assert i !in b.listed;
      }
    case _ =>
  }

  /** No run ever sends to a closed channel or closes one again. */
  lemma {:induction false} NeverPanics(ops: seq<Op>)
    ensures ListSound(RunTo(ops))
  {
    if ops != [] {
      NeverPanics(ops[..|ops| - 1]);
      StepListSound(RunTo(ops[..|ops| - 1]), ops[|ops| - 1]);
    }
  }

  // -------------------------------------------------------- steps, by what they leave

  lemma WriteIs(b: Buffer, c: Buffer, pkt: Packet)
    requires !Empty(pkt) && NoRepeat(b.listed) && !b.panicked && forall i :: i in b.listed ==> i in b.views
    requires Offered(b.views, c.views, b.caps, b.listed, Stamp(b.stamper, pkt))
    requires c == b.(views := c.views, stamper := AfterStamp(b.stamper, pkt), log := b.log + [Stamp(b.stamper, pkt)])
    ensures c == Step(b, Write(pkt))
  {
    OfferAllIs(b, b.listed, Stamp(b.stamper, pkt), c.views);
  }

  /** Unsubscribing everybody closes the listed, then empties the list. */
  lemma UnsubscribeAllIs(b: Buffer)
    ensures Step(b, UnsubscribeAll) == CloseAll(b, b.listed).(listed := [])
  {
  }

  // ------------------------------------------------------------ one subscriber

  /** a is obtained from b by deleting packets. */
  predicate Subsequence(a: seq<Packet>, b: seq<Packet>) {
    if a == [] then true
    else if b == [] then false
    else
      (a[|a| - 1] == b[|b| - 1] && Subsequence(a[..|a| - 1], b[..|b| - 1])) || Subsequence(a, b[..|b| - 1])
  }

  /** What a subscriber has seen is an in-order part of what it was offered, and
      nothing is unaccounted for. */
  ghost predicate Faithful(v: View, capacity: nat) {
    && Subsequence(v.received + v.ch, v.offered)
    && |v.received| + |v.ch| + v.dropped == |v.offered|
    && |v.ch| <= capacity
  }

  lemma OfferFaithful(v: View, capacity: nat, p: Packet)
    requires Faithful(v, capacity)
    ensures Faithful(Offer(v, capacity, p), capacity)
  {
    var w := Offer(v, capacity, p);
    assert w.offered[..|w.offered| - 1] == v.offered;
    if |v.ch| < capacity {
      assert w.received + w.ch == (v.received + v.ch) + [p];
      assert (w.received + w.ch)[..|w.received + w.ch| - 1] == v.received + v.ch;
    }
  }

  lemma ReceivedFaithful(v: View, capacity: nat)
    requires Faithful(v, capacity)
    ensures Faithful(Received(v), capacity)
  {
    if v.ch != [] {
      assert Received(v).received + Received(v).ch == v.received + v.ch;
    }
  }

  /** The packets written to the buffer while the subscriber was attached; `to` is
      None while it still is. */
  ghost predicate OfferedIsLog(v: View, from: nat, to: Option<nat>, log: seq<Packet>) {
    match to
    case None => v.open && from <= |log| && v.offered == log[from..]
    case Some(n) => !v.open && from <= n <= |log| && v.offered == log[from..n]
  }

  /** Where the subscriber left, if it has. */
  function LeftAt(b: Buffer, i: nat): Option<nat> {
    if i in b.views && b.views[i].open then None else if i in b.left then Some(b.left[i]) else None
  }

  ghost predicate ViewSound(b: Buffer, i: nat) {
    && i in b.views && i in b.caps && i in b.joined
    && Faithful(b.views[i], b.caps[i]) && OfferedIsLog(b.views[i], b.joined[i], LeftAt(b, i), b.log)
  }

  ghost predicate ViewsSound(b: Buffer) {
    ListSound(b) && forall i :: i in b.views ==> ViewSound(b, i)
  }

  /** A write, seen by one subscriber. */
  lemma WriteSeenBy(b: Buffer, pkt: Packet, i: nat)
    requires ListSound(b) && !Empty(pkt) && i in b.views
    ensures var c := Step(b, Write(pkt));
            && c.joined == b.joined && c.left == b.left && c.caps == b.caps && i in c.caps
            && c.log == b.log + [Stamp(b.stamper, pkt)] && c.views.Keys == b.views.Keys
            && c.views[i] == if b.views[i].open then Offer(b.views[i], b.caps[i], Stamp(b.stamper, pkt)) else b.views[i]
  {
    OfferAllEffect(b, b.listed, Stamp(b.stamper, pkt));
  }

  lemma LogGrows(v: View, from: nat, to: Option<nat>, log: seq<Packet>, p: Packet)
    requires OfferedIsLog(v, from, to, log)
    ensures to.Some? ==> OfferedIsLog(v, from, to, log + [p])
    ensures to.None? ==> OfferedIsLog(v.(offered := v.offered + [p]), from, to, log + [p])
  {
    match to
    case Some(n) => assert (log + [p])[from..n] == log[from..n];
    case None => assert (log + [p])[from..] == log[from..] + [p];
  }

  lemma WriteViewSound(b: Buffer, pkt: Packet, i: nat)
    requires ListSound(b) && !Empty(pkt) && ViewSound(b, i)
    ensures ViewSound(Step(b, Write(pkt)), i)
  {
    WriteSeenBy(b, pkt, i);
    var p := Stamp(b.stamper, pkt);
    OfferFaithful(b.views[i], b.caps[i], p);
    LogGrows(b.views[i], b.joined[i], LeftAt(b, i), b.log, p);
    if b.views[i].open {
      var v := Offer(b.views[i], b.caps[i], p);
      assert OfferedIsLog(b.views[i].(offered := v.offered), b.joined[i], None, b.log + [p]);
    }
  }

  lemma WriteViewsSound(b: Buffer, pkt: Packet)
    requires ViewsSound(b)
    ensures ViewsSound(Step(b, Write(pkt)))
  {
    StepListSound(b, Write(pkt));
    if !Empty(pkt) {
      var c := Step(b, Write(pkt));
      OfferAllEffect(b, b.listed, Stamp(b.stamper, pkt));
      forall i | i in c.views ensures ViewSound(c, i) {
        WriteViewSound(b, pkt, i);
      }
    }
  }

  lemma CloseViewSound(b: Buffer, c: Buffer, i: nat)
    requires ViewSound(b, i) && b.views[i].open && c.log == b.log && c.joined == b.joined && c.caps == b.caps
    requires i in c.views && c.views[i] == b.views[i].(open := false) && i in c.left && c.left[i] == |b.log|
    ensures ViewSound(c, i)
  {
    assert b.log[b.joined[i]..] == b.log[b.joined[i]..|b.log|];
  }

  /** A subscriber a step does not touch. */
  lemma KeptViewSound(b: Buffer, c: Buffer, i: nat)
    requires ViewSound(b, i) && c.log == b.log
    requires i in c.views && c.views[i] == b.views[i] && i in c.caps && c.caps[i] == b.caps[i]
    requires i in c.joined && c.joined[i] == b.joined[i] && LeftAt(c, i) == LeftAt(b, i)
    ensures ViewSound(c, i)
  {
  }

  lemma Unlisted(b: Buffer, listed: seq<nat>, i: nat)
    requires ViewSound(b, i)
    ensures ViewSound(b.(listed := listed), i)
  {
  }

  lemma UnsubscribeViewSound(b: Buffer, j: nat, i: nat)
    requires ViewSound(b, i) && i in b.views && (i == j ==> b.views[i].open)
    ensures ViewSound(CloseOne(b, j), i)
  {
    if i == j {
      CloseViewSound(b, CloseOne(b, j), i);
    } else {
      KeptViewSound(b, CloseOne(b, j), i);
    }
  }

  lemma UnsubscribeViewsSound(b: Buffer, j: nat)
    requires ViewsSound(b)
    ensures ViewsSound(Step(b, Unsubscribe(j)))
  {
    StepListSound(b, Unsubscribe(j));
    if j in b.listed {
      var c := Step(b, Unsubscribe(j));
      forall i | i in c.views ensures ViewSound(c, i) {
        UnsubscribeViewSound(b, j, i);
        Unlisted(CloseOne(b, j), Without(b.listed, j), i);
      }
    }
  }

  lemma CloseAllViewsSound(b: Buffer)
    requires ViewsSound(b)
    ensures ViewsSound(Step(b, UnsubscribeAll))
  {
    StepListSound(b, UnsubscribeAll);
    CloseAllEffect(b, b.listed);
    var c := Step(b, UnsubscribeAll);
    forall i | i in c.views ensures ViewSound(c, i) {
      if i in b.listed {
        CloseViewSound(b, c, i);
      } else {
        KeptViewSound(b, c, i);
      }
    }
  }

  lemma JoinedViewSound(c: Buffer, i: nat)
    requires i in c.views && i in c.caps && i in c.joined
    requires c.views[i] == View([], [], [], 0, true) && c.joined[i] == |c.log|
    ensures ViewSound(c, i)
  {
    assert c.views[i].received + c.views[i].ch == [];
    assert c.log[|c.log|..] == [];
  }

  lemma SubscribeViewsSound(b: Buffer, j: nat, capacity: nat)
    requires ViewsSound(b)
    ensures ViewsSound(Step(b, Subscribe(j, capacity)))
  {
    StepListSound(b, Subscribe(j, capacity));
    var c := Step(b, Subscribe(j, capacity));
    forall i | i in c.views ensures ViewSound(c, i) {
      if i in b.views {
        KeptViewSound(b, c, i);
      } else {
        JoinedViewSound(c, i);
      }
    }
  }

  lemma ReceivedViewSound(b: Buffer, c: Buffer, i: nat)
    requires ViewSound(b, i) && c.log == b.log && c.joined == b.joined && c.caps == b.caps && c.left == b.left
    requires i in c.views && c.views[i] == Received(b.views[i])
    ensures ViewSound(c, i)
  {
    ReceivedFaithful(b.views[i], b.caps[i]);
    assert LeftAt(c, i) == LeftAt(b, i);
  }

  lemma RecvViewsSound(b: Buffer, j: nat)
    requires ViewsSound(b)
    ensures ViewsSound(Step(b, Recv(j)))
  {
    StepListSound(b, Recv(j));
    var c := Step(b, Recv(j));
    forall i | i in c.views ensures ViewSound(c, i) {
      if i == j {
        ReceivedViewSound(b, c, i);
      } else {
        KeptViewSound(b, c, i);
      }
    }
  }

  lemma SessionViewsSound(b: Buffer, id: nat)
    requires ViewsSound(b)
    ensures ViewsSound(Step(b, NewSession(id)))
  {
    forall i | i in b.views ensures ViewSound(Step(b, NewSession(id)), i) {
      KeptViewSound(b, Step(b, NewSession(id)), i);
    }
  }

  lemma StepViewsSound(b: Buffer, op: Op)
    requires ViewsSound(b)
    ensures ViewsSound(Step(b, op))
  {
    match op
    case Write(pkt) => WriteViewsSound(b, pkt);
    case NewSession(id) => SessionViewsSound(b, id);
    case Subscribe(j, capacity) => SubscribeViewsSound(b, j, capacity);
    case Unsubscribe(j) => UnsubscribeViewsSound(b, j);
    case UnsubscribeAll => CloseAllViewsSound(b);
    case Recv(j) => RecvViewsSound(b, j);
  }

  /** In every run each subscriber has received or buffers an in-order part of
      exactly the packets written while it was attached, the rest being counted
      as dropped. */
  lemma {:induction false} ViewsAlwaysSound(ops: seq<Op>)
    ensures ViewsSound(RunTo(ops))
  {
    if ops != [] {
      ViewsAlwaysSound(ops[..|ops| - 1]);
      StepViewsSound(RunTo(ops[..|ops| - 1]), ops[|ops| - 1]);
    }
  }

  // --------------------------------------------------------------- independence

  /** The operation concerns everybody or this subscriber. */
  predicate Concerns(op: Op, i: nat) {
    match op
    case Subscribe(j, _) => j == i
    case Unsubscribe(j) => j == i
    case Recv(j) => j == i
    case _ => true
  }

  function OnlyFor(ops: seq<Op>, i: nat): seq<Op> {
    if ops == [] then []
    else
      var before := OnlyFor(ops[..|ops| - 1], i);
      if Concerns(ops[|ops| - 1], i) then before + [ops[|ops| - 1]] else before
  }

  /** The two buffers look the same to subscriber i. */
  ghost predicate SameTo(b: Buffer, c: Buffer, i: nat) {
    && b.log == c.log && b.stamper == c.stamper
    && (i in b.views <==> i in c.views)
    && (i in b.views && i in c.views ==> b.views[i] == c.views[i] && i in b.caps && i in c.caps && b.caps[i] == c.caps[i])
  }

  lemma ConcernedStep(b: Buffer, c: Buffer, i: nat, op: Op)
    requires ListSound(b) && ListSound(c) && SameTo(b, c, i) && Concerns(op, i)
    ensures SameTo(Step(b, op), Step(c, op), i)
  {
    match op
    case Write(pkt) =>
      if !Empty(pkt) {
        OfferAllEffect(b, b.listed, Stamp(b.stamper, pkt));
        OfferAllEffect(c, c.listed, Stamp(c.stamper, pkt));
      }
    case UnsubscribeAll =>
      CloseAllEffect(b, b.listed);
      CloseAllEffect(c, c.listed);
    case _ =>
  }

  lemma UnconcernedStep(b: Buffer, i: nat, op: Op)
    requires ListSound(b) && !Concerns(op, i)
    ensures SameTo(Step(b, op), b, i)
  {
  }

  /** A subscriber's view depends only on the writes, the sessions and its own
      operations: erasing every other subscriber from the run changes nothing
      for it. */
  lemma {:induction false} OthersAreInvisible(ops: seq<Op>, i: nat)
    ensures SameTo(RunTo(ops), RunTo(OnlyFor(ops, i)), i)
  {
    if ops != [] {
      var (front, op) := (ops[..|ops| - 1], ops[|ops| - 1]);
      OthersAreInvisible(front, i);
      NeverPanics(front);
      NeverPanics(OnlyFor(front, i));
      if Concerns(op, i) {
        ConcernedStep(RunTo(front), RunTo(OnlyFor(front, i)), i, op);
        assert OnlyFor(ops, i)[..|OnlyFor(ops, i)| - 1] == OnlyFor(front, i);
      } else {
        UnconcernedStep(RunTo(front), i, op);
      }
    }
  }
}
