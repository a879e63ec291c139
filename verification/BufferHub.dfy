/** The buffer hub's objects: each method is one step of the runs of BufferRuns. */
module BufferHub {
  import opened Domain
  import opened HubPackets
  import BufferRuns

  class Subscriber {
    const capacity: nat
    var ch: seq<Packet>
    var open: bool
    ghost var received: seq<Packet>
    ghost var offered: seq<Packet>
    var dropped: nat

    ghost function Look(): View
      reads this
    {
      View(ch, received, offered, dropped, open)
    }

    constructor (capacity: nat)
      ensures this.capacity == capacity && Look() == View([], [], [], 0, true)
    {
      this.capacity := capacity;
      ch, received, offered, dropped, open := [], [], [], 0, true;
    }

    /** Non-blocking send; only an open channel may be sent to. */
    method TrySend(p: Packet)
      requires open
      modifies this
      ensures Look() == Offer(old(Look()), capacity, p)
    {
      if |ch| < capacity {
        ch := ch + [p];
      } else {
        dropped := dropped + 1;
      }
      offered := offered + [p];
    }

    /** Only an open channel may be closed. */
    method Close()
      requires open
      modifies this
      ensures Look() == old(Look()).(open := false)
    {
      open := false;
    }

    method Recv() returns (p: Option<Packet>)
      modifies this
      ensures Look() == Received(old(Look()))
      ensures p == if old(ch) == [] then None else Some(old(ch)[0])
    {
      if |ch| == 0 { return None; }
      p := Some(ch[0]);
      received := received + [ch[0]];
      ch := ch[1..];
    }
  }

  ghost function Looks(all: seq<Subscriber>): map<nat, View>
    reads all
  {
    map i: nat | i < |all| :: all[i].Look()
  }

  ghost function Caps(all: seq<Subscriber>): map<nat, nat> {
    map i: nat | i < |all| :: all[i].capacity
  }

  ghost predicate Inside(rb: RingBuffer, objects: set<object>)
    reads rb`all
  {
    rb in objects && forall s :: s in rb.all ==> s in objects
  }

  /** Different buffers have no subscriber in common. */
  ghost predicate Apart(a: RingBuffer, b: RingBuffer)
    reads a`all, b`all
  {
    a != b && forall s :: s in a.all ==> s !in b.all
  }

  /** The numbers name the subscribers, place by place. */
  ghost predicate Aligned(subs: seq<Subscriber>, listed: seq<nat>, all: seq<Subscriber>) {
    |listed| == |subs| && forall k :: 0 <= k < |subs| ==> listed[k] < |all| && subs[k] == all[listed[k]]
  }

  lemma AlignedWithout(subs: seq<Subscriber>, listed: seq<nat>, all: seq<Subscriber>, k: nat)
    requires Aligned(subs, listed, all) && k < |subs|
    ensures Aligned(subs[..k] + subs[k + 1..], listed[..k] + listed[k + 1..], all)
  {
  }

  lemma LooksGrow(all: seq<Subscriber>, s: Subscriber)
    ensures Looks(all + [s]) == Looks(all)[|all| := s.Look()]
  {
  }

  lemma CapsGrow(all: seq<Subscriber>, s: Subscriber)
    ensures Caps(all + [s]) == Caps(all)[|all| := s.capacity]
  {
  }

  /** Every subscriber that ever attached is numbered by its place in `all`. */
  class RingBuffer {
    var subs: seq<Subscriber>
    var session: Option<nat>
    var sessionStartPending: bool
    ghost var log: seq<Packet>  // every packet fanned out, stamped
    ghost var all: seq<Subscriber>
    ghost var listed: seq<nat>  // the numbers of subs
    ghost var joined: map<nat, nat>
    ghost var left: map<nat, nat>

    /** The numbers of the listed subscribers are right, and nobody has two. */
    ghost predicate Numbered()
      reads this`subs, this`all, this`listed
    {
      && Aligned(subs, listed, all) && BufferRuns.NoRepeat(listed)
      && (forall i, j :: 0 <= i < j < |all| ==> all[i] != all[j])
    }

    /** The listed subscribers are distinct, and exactly the open ones. */
    ghost predicate Valid()
      reads this`subs, this`all, this`listed, all
    {
      Numbered() && forall i :: 0 <= i < |all| ==> (all[i].open <==> i in listed)
    }

    ghost function Stamps(): Stamper
      reads this`session, this`sessionStartPending
    {
      Stamper(session, sessionStartPending)
    }

    /** The buffer as the runs see it. */
    ghost function Abs(): BufferRuns.Buffer
      reads this, all
    {
      BufferRuns.Buffer(listed, Looks(all), Caps(all), joined, left, Stamps(), log, false)
    }

    constructor ()
      ensures Valid() && all == [] && Abs() == BufferRuns.RunTo([])
    {
      subs, session, sessionStartPending, log := [], None, false, [];
      all, listed, joined, left := [], [], map[], map[];
    }

    /** Distinct numbers are distinct subscribers. */
    lemma SubsDistinct(k: nat, l: nat)
      requires Valid() && k < l < |subs|
      ensures subs[k] != subs[l]
    {
      assert listed[k] != listed[l];
    }

    /** Sends to every listed subscriber, in order. */
    method OfferEach(p: Packet)
      requires Valid()
      modifies subs
      ensures forall k :: 0 <= k < |subs| ==> subs[k].Look() == Offer(old(subs[k].Look()), subs[k].capacity, p)
    {
      forall k, l | 0 <= k < l < |subs| ensures subs[k] != subs[l] {
        SubsDistinct(k, l);
      }
      for i := 0 to |subs|
        modifies subs
        invariant forall k :: 0 <= k < i ==> subs[k].Look() == Offer(old(subs[k].Look()), subs[k].capacity, p)
        invariant forall k :: i <= k < |subs| ==> subs[k].Look() == old(subs[k].Look())
      {
        assert subs[i].Look() == old(subs[i].Look());
        assert listed[i] in listed;
        subs[i].TrySend(p);
      }
    }

    /** The same, by number. */
    method FanOut(p: Packet)
      requires Valid()
      modifies subs
      ensures Valid() && Abs() == old(Abs()).(views := Abs().views)
      ensures BufferRuns.Offered(old(Abs()).views, Abs().views, Abs().caps, listed, p)
    {
      ghost var was := Looks(all);
      OfferEach(p);
      forall i | 0 <= i < |all|
        ensures all[i].Look() == if i in listed then Offer(was[i], all[i].capacity, p) else was[i]
      {
        if i in listed {
          ListedIsSub(i);
        } else {
          NotListed(i);
        }
      }
    }

    lemma NotListed(i: nat)
      requires Valid() && i < |all| && i !in listed
      ensures all[i] !in subs
    {
      forall k | 0 <= k < |subs| ensures subs[k] != all[i] {
        assert listed[k] in listed;
      }
    }

    lemma ListedIsSub(i: nat)
      requires Valid() && i < |all|
      ensures i in listed ==> all[i] in subs
    {
      if i in listed {
        var k :| 0 <= k < |listed| && listed[k] == i;
        assert subs[k] == all[i];
      }
    }

    /** Gives the packet the session's id and, once, its start marker. */
    method StampPacket(pkt: Packet) returns (p: Packet)
      requires Valid() && !Empty(pkt)
      modifies this`session, this`sessionStartPending, this`log
      ensures Valid() && p == Stamp(old(Stamps()), pkt)
      ensures Abs() == old(Abs()).(stamper := AfterStamp(old(Stamps()), pkt), log := old(log) + [p])
    {
      ghost var b := Abs();
      p := pkt;
      if p.sessionId == 0 && session.Some? {
        p := p.(sessionId := session.value);
        if sessionStartPending {
          p := p.(sessionStart := true);
          sessionStartPending := false;
        }
      }
      log := log + [p];
      assert Looks(all) == b.views;
    }

    method Write(pkt: Packet)
      requires Valid()
      modifies this`session, this`sessionStartPending, this`log, subs
      ensures Valid() && Abs() == BufferRuns.Step(old(Abs()), BufferRuns.Write(pkt))
    {
      if Empty(pkt) { return; }
      ghost var b := Abs();
      var p := StampPacket(pkt);
      FanOut(p);
      BufferRuns.WriteIs(b, Abs(), pkt);
    }

    method Subscribe(capacity: nat) returns (s: Subscriber)
      requires Valid()
      modifies this`subs, this`all, this`listed, this`joined
      ensures Valid() && fresh(s) && all == old(all) + [s] && s.capacity == capacity
      ensures Abs() == BufferRuns.Step(old(Abs()), BufferRuns.Subscribe(|old(all)|, capacity))
    {
      s := new Subscriber(capacity);
      LooksGrow(all, s);
      CapsGrow(all, s);
      Attach(s);
    }

    method Attach(s: Subscriber)
      requires Valid() && s !in all && s.open
      modifies this`subs, this`all, this`listed, this`joined
      ensures Valid() && subs == old(subs) + [s] && all == old(all) + [s] && listed == old(listed) + [|old(all)|]
      ensures joined == old(joined)[|old(all)| := |log|]
    {
      ghost var i := |all|;
      assert i !in listed by {
        NumbersBelow();
      }
      subs := subs + [s];
      all, listed, joined := all + [s], listed + [i], joined[i := |log|];
    }

    /** A buffer whose subscribers nobody opened or closed. */
    twostate lemma StaysValid()
      requires old(Valid()) && unchanged(this)
      requires forall s :: s in all ==> unchanged(s)
      ensures Valid()
    {
      forall i | 0 <= i < |all| ensures all[i].open == old(all[i].open) {
        assert all[i] in all;
      }
    }

    lemma SubsAttached()
      requires Numbered()
      ensures forall s :: s in subs ==> s in all
    {
    }

    lemma NumbersBelow()
      requires Valid()
      ensures forall i :: i in listed ==> i < |all|
    {
    }

    /** Detaches and closes a listed subscriber; any other is left alone. */
    method Unsubscribe(s: Subscriber)
      requires Valid()
      modifies this`subs, this`listed, this`left, s
      ensures Valid()
      ensures s !in all ==> Abs() == old(Abs()) && s.Look() == old(s.Look())
      ensures forall i :: 0 <= i < |all| && all[i] == s ==> Abs() == BufferRuns.Step(old(Abs()), BufferRuns.Unsubscribe(i))
    {
      for i := 0 to |subs|
        invariant subs == old(subs) && listed == old(listed) && left == old(left) && s.Look() == old(s.Look())
        invariant s !in subs[..i]
      {
        if subs[i] == s {
          Detach(i);
          return;
        }
        assert subs[..i + 1] == subs[..i] + [subs[i]];
      }
      assert subs[..|subs|] == subs;
      forall i | 0 <= i < |all| && all[i] == s ensures i !in listed {
        ListedIsSub(i);
      }
    }

    method Detach(k: nat)
      requires Valid() && k < |subs|
      modifies this`subs, this`listed, this`left, subs[k]
      ensures Valid() && Abs() == BufferRuns.Step(old(Abs()), BufferRuns.Unsubscribe(old(listed)[k]))
    {
      assert listed[k] in listed;
      CloseAt(k);
      UnlistAt(k);
    }

    method CloseAt(k: nat)
      requires Valid() && k < |subs|
      modifies subs[k]
      ensures Numbered() && forall i :: 0 <= i < |all| ==> (all[i].open <==> i in listed && i != listed[k])
      ensures var b, i := old(Abs()), listed[k];
              i in b.views && b.views[i].open && Abs() == b.(views := b.views[i := b.views[i].(open := false)])
    {
      ghost var b, i := Abs(), listed[k];
      assert i in listed;
      subs[k].Close();
      assert Looks(all) == b.views[i := b.views[i].(open := false)];
    }

    method UnlistAt(k: nat)
      requires Numbered() && k < |subs|
      requires forall i :: 0 <= i < |all| ==> (all[i].open <==> i in listed && i != listed[k])
      modifies this`subs, this`listed, this`left
      ensures Valid()
      ensures var b, i := old(Abs()), old(listed)[k];
              Abs() == b.(listed := BufferRuns.Without(b.listed, i), left := b.left[i := |b.log|])
    {
      ghost var b, rest := Abs(), BufferRuns.Without(listed, listed[k]);
      BufferRuns.WithoutAt(listed, k);
      BufferRuns.WithoutEffect(listed, listed[k]);
      AlignedWithout(subs, listed, all, k);
      left := left[listed[k] := |log|];
      subs, listed := subs[..k] + subs[k + 1..], rest;
      assert Looks(all) == b.views;
    }

    method UnsubscribeAll()
      requires Valid()
      modifies this`subs, this`listed, this`left, subs
      ensures Valid() && subs == [] && Abs() == BufferRuns.Step(old(Abs()), BufferRuns.UnsubscribeAll)
    {
      ghost var b := Abs();
      CloseListed();
      BufferRuns.CloseAllIs(b, listed, Abs().views);
      Unlist(BufferRuns.CloseAll(b, listed).left);
      BufferRuns.UnsubscribeAllIs(b);
    }

    method Unlist(ghost gone: map<nat, nat>)
      requires Numbered() && forall i :: 0 <= i < |all| ==> !all[i].open
      modifies this`subs, this`listed, this`left
      ensures Valid() && subs == [] && Abs() == old(Abs()).(listed := [], left := gone)
    {
      ghost var b := Abs();
      subs, listed, left := [], [], gone;
      assert Looks(all) == b.views;
    }

    /** Closes every listed subscriber, by number. */
    method CloseListed()
      requires Valid()
      modifies subs
      ensures Numbered() && listed == old(listed) && Abs() == old(Abs()).(views := Abs().views)
      ensures BufferRuns.Closed(old(Abs()).views, Abs().views, listed)
      ensures forall i :: 0 <= i < |all| ==> !all[i].open
    {
      ghost var was := Looks(all);
      CloseEach();
      forall i | 0 <= i < |all|
        ensures all[i].Look() == if i in listed then was[i].(open := false) else was[i]
      {
        if i in listed {
          var k :| 0 <= k < |listed| && listed[k] == i;
          assert subs[k] == all[i];
        } else {
          forall k | 0 <= k < |subs| ensures subs[k] != all[i] {
            assert listed[k] in listed;
          }
        }
      }
    }

    /** The same, in order. */
    method CloseEach()
      requires Valid()
      modifies subs
      ensures forall k :: 0 <= k < |subs| ==> subs[k].Look() == old(subs[k].Look()).(open := false)
    {
      forall k, l | 0 <= k < l < |subs| ensures subs[k] != subs[l] {
        SubsDistinct(k, l);
      }
      for i := 0 to |subs|
        modifies subs
        invariant forall k :: 0 <= k < i ==> subs[k].Look() == old(subs[k].Look()).(open := false)
        invariant forall k :: i <= k < |subs| ==> subs[k].Look() == old(subs[k].Look())
      {
        assert subs[i].Look() == old(subs[i].Look());
        assert listed[i] in listed;
        subs[i].Close();
      }
    }

    method Install(id: nat)
      requires Valid()
      modifies this`session, this`sessionStartPending
      ensures Valid() && Abs() == BufferRuns.Step(old(Abs()), BufferRuns.NewSession(id))
    {
      session := Some(id);
      sessionStartPending := true;
    }
  }

  /** All buffers of the process and the session counter they share. */
  class Service {
    const capacity: nat
    var buffers: map<string, RingBuffer>
    var sessionCounter: nat
    ghost var Repr: set<object>

    /** Each buffer, and each subscriber it ever had, belongs to one id. */
    ghost predicate Laid()
      reads this`buffers, this`Repr, buffers.Values`all
    {
      && this in Repr
      && (forall id :: id in buffers ==> Inside(buffers[id], Repr))
      && (forall i, j :: i in buffers && j in buffers && i != j ==> Apart(buffers[i], buffers[j]))
    }

    ghost predicate Valid()
      reads this`buffers, this`Repr, Repr, buffers.Values`all
      ensures Valid() ==> this in Repr
    {
      Laid() && forall id :: id in buffers ==> buffers[id].Valid()
    }

    constructor (capacity: nat)
      ensures Valid() && fresh(Repr) && this.capacity == capacity && buffers == map[] && sessionCounter == 0
    {
      this.capacity := capacity;
      buffers, sessionCounter := map[], 0;
      Repr := {this};
    }

    method Create(id: string)
      requires Valid()
      modifies this
      ensures Valid() && fresh(Repr - old(Repr)) && sessionCounter == old(sessionCounter)
      ensures buffers.Keys == old(buffers).Keys + {id}
      ensures forall k :: k in old(buffers) ==> buffers[k] == old(buffers[k]) && unchanged(buffers[k])
      ensures id !in old(buffers) ==> fresh(buffers[id]) && buffers[id].Abs() == BufferRuns.RunTo([])
    {
      if id !in buffers {
        var rb := new RingBuffer();
        Install(id, rb);
      }
    }

    method Install(id: string, rb: RingBuffer)
      requires Valid() && id !in buffers && rb.Valid() && rb.all == [] && rb !in Repr
      modifies this`buffers, this`Repr
      ensures Valid() && buffers == old(buffers)[id := rb] && Repr == old(Repr) + {rb}
    {
      buffers := buffers[id := rb];
      Repr := Repr + {rb};
    }

    method Write(id: string, pkt: Packet) returns (found: bool)
      requires Valid()
      modifies Repr
      ensures Valid() && Repr == old(Repr) && buffers == old(buffers) && sessionCounter == old(sessionCounter)
      ensures found == (id in buffers)
      ensures found ==> buffers[id].Abs() == BufferRuns.Step(old(buffers[id].Abs()), BufferRuns.Write(pkt))
      ensures forall k :: k in buffers && k != id ==> unchanged(buffers[k])
      ensures forall k, s :: k in buffers && k != id && s in buffers[k].all ==> unchanged(s)
    {
      if id !in buffers { return false; }
      var rb := buffers[id];
      rb.SubsAttached();
      rb.Write(pkt);
      assert Laid();
      forall k | k in buffers && k != id ensures buffers[k].Valid() {
        assert Apart(buffers[k], rb);
        buffers[k].StaysValid();
      }
      return true;
    }

    /** A new subscriber belongs to the buffer it joins. */
    twostate lemma LaidGrows(id: string, new sub: Subscriber)
      requires old(Laid()) && buffers == old(buffers) && id in buffers && fresh(sub) && Repr == old(Repr) + {sub}
      requires forall k :: k in buffers ==> buffers[k].all == old(buffers[k].all) + (if k == id then [sub] else [])
      ensures Laid()
    {
      forall k, s | k in buffers ensures s in buffers[k].all <==> s in old(buffers[k].all) || (k == id && s == sub) {
      }
    }

    method Subscribe(id: string) returns (s: Option<Subscriber>)
      requires Valid()
      modifies Repr
      ensures Valid() && fresh(Repr - old(Repr)) && buffers == old(buffers) && sessionCounter == old(sessionCounter)
      ensures s.Some? == (id in buffers)
      ensures s.Some? ==> fresh(s.value) && buffers[id].all == old(buffers[id].all) + [s.value]
      ensures s.Some? ==> buffers[id].Abs()
                          == BufferRuns.Step(old(buffers[id].Abs()), BufferRuns.Subscribe(|old(buffers[id].all)|, capacity))
      ensures forall k :: k in buffers && k != id ==> unchanged(buffers[k])
      ensures forall k, s :: k in buffers && k != id && s in buffers[k].all ==> unchanged(s)
    {
      if id !in buffers { return None; }
      var rb := buffers[id];
      var sub := rb.Subscribe(capacity);
      Adopt(rb, sub);
      LaidGrows(id, sub);
      forall k | k in buffers && k != id ensures buffers[k].Valid() {
        assert Apart(buffers[k], rb);
        buffers[k].StaysValid();
      }
      return Some(sub);
    }

    ghost method Adopt(rb: RingBuffer, sub: Subscriber)
      requires rb.Valid()
      modifies this`Repr
      ensures Repr == old(Repr) + {sub} && rb.Valid() && rb.Abs() == old(rb.Abs())
    {
      ghost var b := rb.Abs();
      Repr := Repr + {sub};
      assert Looks(rb.all) == b.views;
    }

    /** Forgets the buffer, then closes every subscriber it had. */
    method Delete(id: string)
      requires Valid()
      modifies Repr
      ensures Valid() && Repr == old(Repr) && buffers == old(buffers) - {id} && sessionCounter == old(sessionCounter)
      ensures id in old(buffers) ==>
                var rb := old(buffers)[id];
                rb.Abs() == BufferRuns.Step(old(buffers[id].Abs()), BufferRuns.UnsubscribeAll)
      ensures forall k :: k in buffers ==> unchanged(buffers[k])
      ensures forall k, s :: k in buffers && s in buffers[k].all ==> unchanged(s)
    {
      if id !in buffers { return; }
      var rb := buffers[id];
      ghost var b := rb.Abs();
      Forget(id);
      assert Looks(rb.all) == b.views && rb.Abs() == b;
      Disband(rb);
    }

    /** Closes the subscribers of a buffer already forgotten. */
    method Disband(rb: RingBuffer)
      requires Valid() && rb.Valid() && Inside(rb, Repr) && forall k :: k in buffers ==> Apart(buffers[k], rb)
      modifies rb`subs, rb`listed, rb`left, rb.subs
      ensures Valid() && rb.Abs() == BufferRuns.Step(old(rb.Abs()), BufferRuns.UnsubscribeAll)
      ensures forall k :: k in buffers ==> unchanged(buffers[k])
      ensures forall k, s :: k in buffers && s in buffers[k].all ==> unchanged(s)
    {
      rb.SubsAttached();
      rb.UnsubscribeAll();
      forall k | k in buffers ensures buffers[k].Valid() {
        assert Apart(buffers[k], rb);
        buffers[k].StaysValid();
      }
    }

    method Forget(id: string)
      requires Valid() && id in buffers
      modifies this`buffers
      ensures Valid() && buffers == old(buffers) - {id} && old(buffers)[id].Valid()
      ensures var rb := old(buffers)[id];
              Inside(rb, Repr) && forall k :: k in buffers ==> Apart(buffers[k], rb)
    {
      buffers := buffers - {id};
    }

    /** Installs a session on one buffer; nobody's subscribers are touched. */
    method Announce(id: string, rb: RingBuffer, session: nat)
      requires Valid() && id in buffers && buffers[id] == rb
      modifies rb`session, rb`sessionStartPending
      ensures Valid() && rb.Abs() == BufferRuns.Step(old(rb.Abs()), BufferRuns.NewSession(session))
    {
      rb.Install(session);
      forall k | k in buffers && k != id ensures buffers[k].Valid() {
        assert Apart(buffers[k], rb);
        buffers[k].StaysValid();
      }
    }

    /** Mints the next id and latches the start marker on the buffer. */
    method SetSession(id: string) returns (minted: Option<nat>)
      requires Valid()
      modifies Repr
      ensures Valid() && Repr == old(Repr) && buffers == old(buffers) && minted.Some? == (id in buffers)
      ensures minted.Some? ==> minted.value == old(sessionCounter) + 1 == sessionCounter
                               && buffers[id].Abs() == BufferRuns.Step(old(buffers[id].Abs()), BufferRuns.NewSession(minted.value))
      ensures minted.None? ==> sessionCounter == old(sessionCounter)
      ensures forall k :: k in buffers && k != id ==> unchanged(buffers[k])
      ensures forall k, s :: k in buffers && k != id && s in buffers[k].all ==> unchanged(s)
    {
      if id !in buffers { return None; }
      sessionCounter := sessionCounter + 1;
      minted := Some(sessionCounter);
      Announce(id, buffers[id], sessionCounter);
    }
  }
}
