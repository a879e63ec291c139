/** Which packets a subscriber of the hub loses, told by the operations alone. */
module BufferLoss {
  import opened Domain
  import opened HubPackets
  import opened BufferRuns

  /** A subscriber as the operations so far have it: not there yet, or with so many
      packets unread and so many lost. */
  datatype Account = Absent | Account(attached: bool, capacity: nat, unread: nat, lost: nat)

  /** A non-empty packet is left unread if there is room, and lost if there is none. */
  function AccountTo(ops: seq<Op>, i: nat): Account {
    if ops == [] then Absent
    else Entered(AccountTo(ops[..|ops| - 1], i), ops[|ops| - 1], i)
  }

  function Entered(a: Account, op: Op, i: nat): Account {
    match a
    case Absent => if op.Subscribe? && op.sub == i then Account(true, op.capacity, 0, 0) else Absent
    case Account(attached, capacity, unread, lost) =>
      match op
      case Write(pkt) =>
        if Empty(pkt) || !attached then a
        else if unread == capacity then a.(lost := lost + 1)
        else a.(unread := unread + 1)
      case Unsubscribe(j) => if j == i then a.(attached := false) else a
      case UnsubscribeAll => a.(attached := false)
      case Recv(j) => if j == i && unread > 0 then a.(unread := unread - 1) else a
      case _ => a
  }

  /** The buffer has exactly that of the subscriber. */
  ghost predicate Tallies(b: Buffer, a: Account, i: nat) {
    match a
    case Absent => i !in b.views
    case Account(attached, capacity, unread, lost) =>
      && i in b.views && i in b.caps
      && b.views[i].open == attached && b.caps[i] == capacity
      && |b.views[i].ch| == unread <= capacity && b.views[i].dropped == lost
  }

  lemma StepTallies(b: Buffer, a: Account, op: Op, i: nat)
    requires ListSound(b) && Tallies(b, a, i)
    ensures Tallies(Step(b, op), Entered(a, op, i), i)
  {
    match op
    case Write(pkt) =>
      if !Empty(pkt) {
        OfferAllEffect(b, b.listed, Stamp(b.stamper, pkt));
      }
    case UnsubscribeAll => CloseAllEffect(b, b.listed);
    case _ =>
  }

  /** Over every run. */
  lemma {:induction false} AlwaysTallies(ops: seq<Op>, i: nat)
    ensures Tallies(RunTo(ops), AccountTo(ops, i), i)
  {
    if ops != [] {
      AlwaysTallies(ops[..|ops| - 1], i);
      NeverPanics(ops[..|ops| - 1]);
      StepTallies(RunTo(ops[..|ops| - 1]), AccountTo(ops[..|ops| - 1], i), ops[|ops| - 1], i);
    }
  }

  /** After any run a write is lost for a subscriber if and only if the packet is not
      empty and the subscriber is attached with as many packets unread as it can
      hold; an attached one with room has it appended. */
  lemma WriteLostExactly(ops: seq<Op>, pkt: Packet, i: nat)
    requires i in RunTo(ops).views
    ensures var (a, v) := (AccountTo(ops, i), RunTo(ops).views[i]);
            var b := Step(RunTo(ops), Write(pkt));
            var carries := pkt.ts != [] || (pkt.av.Some? && pkt.av.value != []);
            && a.Account? && i in b.views
            && (b.views[i].dropped == v.dropped + 1 <==> carries && a.attached && a.unread == a.capacity)
            && (b.views[i].dropped == v.dropped + 1 || b.views[i].dropped == v.dropped)
            && b.views[i].ch == if carries && a.attached && a.unread < a.capacity
                                then v.ch + [Stamp(RunTo(ops).stamper, pkt)] else v.ch
  {
    AlwaysTallies(ops, i);
    NeverPanics(ops);
    var b := RunTo(ops);
    if !Empty(pkt) {
      OfferAllEffect(b, b.listed, Stamp(b.stamper, pkt));
    }
  }

  /** The packets written while the subscriber was attached. */
  ghost function Written(b: Buffer, i: nat): seq<Packet>
    requires ViewSound(b, i)
  {
    if LeftAt(b, i).Some? then b.log[b.joined[i]..LeftAt(b, i).value] else b.log[b.joined[i]..]
  }

  lemma {:induction false} WholeSubsequence(a: seq<Packet>, b: seq<Packet>)
    requires Subsequence(a, b)
    ensures |a| <= |b| && (|a| == |b| ==> a == b)
  {
    if a != [] && b != [] {
      var (m, n) := (|a| - 1, |b| - 1);
      if Subsequence(a, b[..n]) {
        WholeSubsequence(a, b[..n]);
      } else {
        WholeSubsequence(a[..m], b[..n]);
        assert a == a[..m] + [a[m]] && b == b[..n] + [b[n]];
      }
    }
  }

  /** After any run a subscriber has received or still holds every packet written
      while it was attached, in order, if and only if it was never full at one. */
  lemma NothingLostExactly(ops: seq<Op>, i: nat)
    requires i in RunTo(ops).views
    ensures ViewSound(RunTo(ops), i) && AccountTo(ops, i).Account?
    ensures var v := RunTo(ops).views[i];
            && (v.received + v.ch == Written(RunTo(ops), i) <==> AccountTo(ops, i).lost == 0)
            && |v.received| + |v.ch| + AccountTo(ops, i).lost == |Written(RunTo(ops), i)|
  {
    ViewsAlwaysSound(ops);
    AlwaysTallies(ops, i);
    var (b, v) := (RunTo(ops), RunTo(ops).views[i]);
    assert ViewSound(b, i);
    assert v.offered == Written(b, i);
    WholeSubsequence(v.received + v.ch, v.offered);
  }
}
