/** Sessions of one buffer over every interleaving. SetSession mints an id from
    the process-wide counter and installs it later under the buffer's lock, so
    calls can overlap; other buffers mint from the same counter. */
module BufferSessions {
  import opened Domain
  import opened HubPackets

  /** What a packet the hub gave its id to looked like: the id, the start marker
      it left with, and the marker its caller had set. */
  datatype Mark = Mark(id: nat, start: bool, asked: bool)

  /** `minted` holds the ids drawn for this buffer but not yet installed. */
  datatype State = State(counter: nat, minted: seq<nat>, stamper: Stamper, marks: seq<Mark>)

  datatype Event =
    | Mint
    | MintElsewhere
    | Install(call: nat)
    | Write(pkt: Packet)

  predicate Enabled(s: State, e: Event) {
    e.Install? ==> e.call < |s.minted|
  }

  function Step(s: State, e: Event): State
    requires Enabled(s, e)
  {
    match e
    case Mint => s.(counter := s.counter + 1, minted := s.minted + [s.counter + 1])
    case MintElsewhere => s.(counter := s.counter + 1)
    case Install(k) => s.(minted := s.minted[..k] + s.minted[k + 1..], stamper := Stamper(Some(s.minted[k]), true))
    case Write(pkt) =>
      if Empty(pkt) || !HubAssigns(s.stamper, pkt) then s.(stamper := AfterStamp(s.stamper, pkt))
      else
        var p := Stamp(s.stamper, pkt);
        s.(stamper := AfterStamp(s.stamper, pkt), marks := s.marks + [Mark(p.sessionId, p.sessionStart, pkt.sessionStart)])
  }

  const START := State(0, [], Stamper(None, false), [])

  predicate Runs(es: seq<Event>)
    decreases |es|, 0
  {
    es == [] || (Runs(es[..|es| - 1]) && Enabled(After(es[..|es| - 1]), es[|es| - 1]))
  }

  function After(es: seq<Event>): State
    requires Runs(es)
    decreases |es|, 1
  {
    if es == [] then START else Step(After(es[..|es| - 1]), es[|es| - 1])
  }

  // ------------------------------------------------------------------ the claims

  /** A packet that did not ask for the marker carries it exactly when its id is
      not the previous packet's. */
  predicate StartsExact(marks: seq<Mark>) {
    forall i: nat :: i < |marks| ==> StartExactAt(marks, i)
  }

  predicate StartExactAt(marks: seq<Mark>, i: nat)
    requires i < |marks|
  {
    !marks[i].asked ==> (marks[i].start <==> i == 0 || marks[i].id != marks[i - 1].id)
  }

  /** Packets that share an id are consecutive. */
  predicate OneRunEach(marks: seq<Mark>) {
    forall i, j, k :: 0 <= i <= j <= k < |marks| && marks[i].id == marks[k].id ==> marks[j].id == marks[i].id
  }

  predicate Rising(marks: seq<Mark>) {
    forall i, j :: 0 <= i <= j < |marks| ==> marks[i].id <= marks[j].id
  }

  // -------------------------------------------------------------- the invariant

  /** Ids are spent once: drawn, then installed, then stamped. */
  ghost predicate Spent(s: State) {
    && (forall i, j :: 0 <= i < j < |s.minted| ==> s.minted[i] != s.minted[j])
    && (forall i :: 0 <= i < |s.minted| ==> s.minted[i] <= s.counter && s.stamper.session != Some(s.minted[i]))
    && (forall i, j :: 0 <= i < |s.minted| && 0 <= j < |s.marks| ==> s.minted[i] != s.marks[j].id)
    && (forall j :: 0 <= j < |s.marks| ==> s.marks[j].id <= s.counter)
    && (s.stamper.session.Some? ==> s.stamper.session.value <= s.counter)
  }

  /** The latch is up exactly while the session in force has stamped nothing. */
  ghost predicate Latched(s: State) {
    match s.stamper.session
    case None => s.marks == [] && !s.stamper.pending
    case Some(id) =>
      if s.stamper.pending then forall j :: 0 <= j < |s.marks| ==> s.marks[j].id != id
      else s.marks != [] && s.marks[|s.marks| - 1].id == id
  }

  ghost predicate Inv(s: State) {
    Spent(s) && Latched(s) && StartsExact(s.marks) && OneRunEach(s.marks)
  }

  lemma InstallKeeps(s: State, k: nat)
    requires Inv(s) && k < |s.minted|
    ensures Inv(Step(s, Install(k)))
  {
    var t := Step(s, Install(k));
    forall i | 0 <= i < |t.minted| ensures t.minted[i] == s.minted[if i < k then i else i + 1] {}
  }

  lemma StartsExactSnoc(marks: seq<Mark>, m: Mark)
    requires StartsExact(marks)
    requires !m.asked ==> (m.start <==> marks == [] || m.id != marks[|marks| - 1].id)
    ensures StartsExact(marks + [m])
  {
    var more := marks + [m];
    forall i: nat | i < |more| ensures StartExactAt(more, i) {
      if i < |marks| {
        assert StartExactAt(marks, i);
      }
    }
  }

  lemma OneRunEachSnoc(marks: seq<Mark>, m: Mark)
    requires OneRunEach(marks)
    requires (forall j :: 0 <= j < |marks| ==> marks[j].id != m.id) || (marks != [] && marks[|marks| - 1].id == m.id)
    ensures OneRunEach(marks + [m])
  {
    var n := |marks|;
    var more := marks + [m];
    forall i, j | 0 <= i <= j <= n && more[i].id == m.id ensures more[j].id == m.id {
      if i < n && j < n {
        assert marks[i].id == marks[n - 1].id;
      }
    }
  }

  lemma WriteKeeps(s: State, pkt: Packet)
    requires Inv(s)
    ensures Inv(Step(s, Write(pkt)))
  {
    if !Empty(pkt) && HubAssigns(s.stamper, pkt) {
      var m := Mark(s.stamper.session.value, pkt.sessionStart || s.stamper.pending, pkt.sessionStart);
      StartsExactSnoc(s.marks, m);
      OneRunEachSnoc(s.marks, m);
      assert Step(s, Write(pkt)).marks == s.marks + [m];
    }
  }

  /** Every interleaving of any number of SetSession calls, on this buffer and
      others, with writes of every kind. */
  lemma {:induction false} SessionsMarked(es: seq<Event>)
    requires Runs(es)
    ensures StartsExact(After(es).marks) && OneRunEach(After(es).marks)
    ensures Inv(After(es))
  {
    if es != [] {
      var front, e := es[..|es| - 1], es[|es| - 1];
      SessionsMarked(front);
      match e
      case Install(k) => InstallKeeps(After(front), k);
      case Write(pkt) => WriteKeeps(After(front), pkt);
      case _ =>
    }
  }

  /** The latch falls with the first non-empty packet that left its id to the
      hub, and with no other. */
  lemma LatchTakenExactly(es: seq<Event>, pkt: Packet)
    requires Runs(es) && After(es).stamper.pending
    ensures var s, t := After(es), Step(After(es), Write(pkt));
            && (t.stamper.pending <==> Empty(pkt) || pkt.sessionId != 0)
            && (t.stamper.pending ==> t == s)
            && (!t.stamper.pending ==> |t.marks| == |s.marks| + 1 && t.marks[|s.marks|].start)
  {
    SessionsMarked(es);
  }

  // ------------------------------------------- packets that left both to the hub

  /** The packets whose marker, too, was left to the hub. */
  function Own(marks: seq<Mark>): seq<Mark> {
    if marks == [] then []
    else
      var before := Own(marks[..|marks| - 1]);
      if marks[|marks| - 1].asked then before else before + [marks[|marks| - 1]]
  }

  /** Among themselves: each carries the marker exactly when its id is not the one
      before's. */
  predicate OwnExact(marks: seq<Mark>) {
    StartsExact(Own(marks))
  }

  predicate AllAsked(marks: seq<Mark>, id: nat) {
    forall i :: 0 <= i < |marks| && marks[i].id == id ==> marks[i].asked
  }

  /** The first packet of a session left to the hub, coming when packets that asked
      for the marker have taken the latch: it goes without. */
  predicate GoesWithout(s: State, e: Event) {
    e.Write? && !Empty(e.pkt) && HubAssigns(s.stamper, e.pkt) && !e.pkt.sessionStart
    && !s.stamper.pending && AllAsked(s.marks, s.stamper.session.value)
  }

  predicate Leads(marks: seq<Mark>, i: nat)
    requires i < |marks|
  {
    i == 0 || marks[i - 1].id != marks[i].id
  }

  /** Some session starts with a packet that asked and holds a later one that did not. */
  predicate AskedLeads(marks: seq<Mark>) {
    exists i, k :: 0 <= i < k < |marks| && Leads(marks, i) && marks[i].asked && !marks[k].asked && marks[i].id == marks[k].id
  }

  lemma OwnSnoc(marks: seq<Mark>, m: Mark)
    ensures Own(marks + [m]) == if m.asked then Own(marks) else Own(marks) + [m]
  {
    assert (marks + [m])[..|marks + [m]| - 1] == marks;
  }

  lemma {:induction false} OwnMember(marks: seq<Mark>, j: nat)
    requires j < |Own(marks)|
    ensures !Own(marks)[j].asked && exists i :: 0 <= i < |marks| && marks[i] == Own(marks)[j]
  {
    var n := |marks| - 1;
    if j < |Own(marks[..n])| {
      OwnMember(marks[..n], j);
      var i :| 0 <= i < n && marks[..n][i] == Own(marks)[j];
      assert marks[i] == Own(marks)[j];
    }
  }

  lemma OneRunPrefix(marks: seq<Mark>, m: Mark)
    requires OneRunEach(marks + [m])
    ensures OneRunEach(marks)
  {
    var more := marks + [m];
    forall i, j, k | 0 <= i <= j <= k < |marks| && marks[i].id == marks[k].id ensures marks[j].id == marks[i].id {
      assert more[i] == marks[i] && more[j] == marks[j] && more[k] == marks[k];
    }
  }

  lemma NoEarlier(marks: seq<Mark>, m: Mark)
    requires OneRunEach(marks + [m]) && (marks == [] || marks[|marks| - 1].id != m.id)
    ensures forall i :: 0 <= i < |marks| ==> marks[i].id != m.id
  {
    var more := marks + [m];
    forall i | 0 <= i < |marks| ensures marks[i].id != m.id {
      assert more[i] == marks[i] && more[|marks| - 1] == marks[|marks| - 1] && more[|marks|] == m;
    }
  }

  lemma OwnElsewhere(marks: seq<Mark>, id: nat)
    requires forall i :: 0 <= i < |marks| ==> marks[i].id != id
    ensures var o := Own(marks); o == [] || o[|o| - 1].id != id
  {
    if Own(marks) != [] {
      OwnMember(marks, |Own(marks)| - 1);
    }
  }

  lemma AllAskedSnoc(marks: seq<Mark>, m: Mark)
    ensures AllAsked(marks + [m], m.id) <==> AllAsked(marks, m.id) && m.asked
  {
    var more := marks + [m];
    assert more[|marks|] == m;
    assert forall i :: 0 <= i < |marks| ==> more[i] == marks[i];
  }

  /** The packets from the r-th on are all of one session, none before them is. */
  predicate RunFrom(marks: seq<Mark>, r: nat, id: nat) {
    r <= |marks| && forall i :: 0 <= i < |marks| ==> (marks[i].id == id <==> r <= i)
  }

  lemma {:induction false} LeadOf(marks: seq<Mark>) returns (i: nat)
    requires marks != []
    ensures i < |marks| && Leads(marks, i) && marks[i].id == marks[|marks| - 1].id
  {
    var n := |marks| - 1;
    if n == 0 || marks[n - 1].id != marks[n].id {
      i := n;
    } else {
      i := LeadOf(marks[..n]);
      assert Leads(marks, i) == Leads(marks[..n], i);
    }
  }

  lemma LeadIsFirst(marks: seq<Mark>, i: nat, j: nat)
    requires OneRunEach(marks) && i < |marks| && j < |marks| && Leads(marks, i) && marks[j].id == marks[i].id
    ensures i <= j
  {
  }

  lemma LatestRun(marks: seq<Mark>, r: nat)
    requires OneRunEach(marks) && r < |marks| && Leads(marks, r) && marks[r].id == marks[|marks| - 1].id
    ensures RunFrom(marks, r, marks[r].id)
  {
    forall i | 0 <= i < |marks| && marks[i].id == marks[r].id ensures r <= i {
      LeadIsFirst(marks, r, i);
    }
  }

  /** The latest of them belongs to the latest session, unless all of that one's
      packets asked. */
  lemma {:induction false} OwnLast(marks: seq<Mark>, r: nat, id: nat)
    requires RunFrom(marks, r, id)
    ensures var o := Own(marks); AllAsked(marks, id) <==> o == [] || o[|o| - 1].id != id
  {
    if |marks| == r {
      OwnElsewhere(marks, id);
    } else {
      var (front, m) := (marks[..|marks| - 1], marks[|marks| - 1]);
      assert marks == front + [m];
      AllAskedSnoc(front, m);
      OwnLast(front, r, id);
    }
  }

  /** One more packet stamped as every packet is. */
  lemma OwnExactSnoc(marks: seq<Mark>, m: Mark)
    requires StartsExact(marks + [m]) && OneRunEach(marks + [m])
    ensures OneRunEach(marks)
    ensures OwnExact(marks + [m])
            <==> OwnExact(marks) && (m.asked || marks == [] || marks[|marks| - 1].id != m.id || !AllAsked(marks, m.id))
  {
    var (more, o) := (marks + [m], Own(marks));
    OneRunPrefix(marks, m);
    OwnSnoc(marks, m);
    if !m.asked {
      LastExact(o, m);
      assert m.start <==> marks == [] || marks[|marks| - 1].id != m.id by {
        assert StartExactAt(more, |marks|);
      }
      if marks != [] && marks[|marks| - 1].id == m.id {
        var r := LeadOf(marks);
        LatestRun(marks, r);
        OwnLast(marks, r, m.id);
      } else {
        NoEarlier(marks, m);
        OwnElsewhere(marks, m.id);
      }
    }
  }

  lemma LastExact(o: seq<Mark>, m: Mark)
    requires !m.asked
    ensures StartsExact(o + [m]) <==> StartsExact(o) && (m.start <==> o == [] || o[|o| - 1].id != m.id)
  {
    var more := o + [m];
    if StartsExact(more) {
      assert StartExactAt(more, |o|);
      forall i: nat | i < |o| ensures StartExactAt(o, i) {
        assert StartExactAt(more, i);
      }
    } else if StartsExact(o) && (m.start <==> o == [] || o[|o| - 1].id != m.id) {
      StartsExactSnoc(o, m);
    }
  }

  /** Every step keeps the marker exact among those packets, exactly when it is not
      one that goes without. */
  lemma StepOwnExactly(s: State, e: Event)
    requires Enabled(s, e) && Inv(s)
    ensures OwnExact(Step(s, e).marks) <==> OwnExact(s.marks) && !GoesWithout(s, e)
  {
    if e.Write? && !Empty(e.pkt) && HubAssigns(s.stamper, e.pkt) {
      var m := Mark(s.stamper.session.value, e.pkt.sessionStart || s.stamper.pending, e.pkt.sessionStart);
      WriteKeeps(s, e.pkt);
      assert Step(s, e).marks == s.marks + [m];
      OwnExactSnoc(s.marks, m);
    }
  }

  /** No packet of the run goes without. */
  predicate NoneGoesWithout(es: seq<Event>)
    requires Runs(es)
    decreases |es|
  {
    es == [] || (NoneGoesWithout(es[..|es| - 1]) && !GoesWithout(After(es[..|es| - 1]), es[|es| - 1]))
  }

  lemma LeadsCarry(marks: seq<Mark>, m: Mark)
    requires AskedLeads(marks)
    ensures AskedLeads(marks + [m])
  {
    var more := marks + [m];
    var i, k :| 0 <= i < k < |marks| && Leads(marks, i) && marks[i].asked && !marks[k].asked && marks[i].id == marks[k].id;
    assert Leads(more, i) && more[i] == marks[i] && more[k] == marks[k];
  }

  lemma LeadsNew(marks: seq<Mark>, m: Mark)
    requires !m.asked && marks != [] && marks[|marks| - 1].id == m.id && AllAsked(marks, m.id)
    ensures AskedLeads(marks + [m])
  {
    var more := marks + [m];
    var i := LeadOf(marks);
    assert Leads(more, i) && more[i] == marks[i] && more[|marks|] == m;
  }

  /** An unasked packet after the rest of its session: some session is led by an
      asked one exactly when one was, or the latest one's packets all asked. */
  lemma AskedLeadsSnoc(marks: seq<Mark>, m: Mark)
    requires OneRunEach(marks + [m])
    ensures AskedLeads(marks + [m])
            <==> AskedLeads(marks) || (!m.asked && marks != [] && marks[|marks| - 1].id == m.id && AllAsked(marks, m.id))
  {
    var (more, n) := (marks + [m], |marks|);
    if AskedLeads(marks) {
      LeadsCarry(marks, m);
    } else if !m.asked && n > 0 && marks[n - 1].id == m.id && AllAsked(marks, m.id) {
      LeadsNew(marks, m);
    } else if AskedLeads(more) {
      var i, k :| 0 <= i < k <= n && Leads(more, i) && more[i].asked && !more[k].asked && more[i].id == more[k].id;
      assert Leads(marks, i) && marks[i] == more[i] && k == n && more[n - 1].id == m.id;
      var j :| 0 <= j < n && marks[j].id == m.id && !marks[j].asked;
      LeadIsFirst(more, i, j);
      assert false;
    }
  }

  lemma StepLeadsExactly(s: State, e: Event)
    requires Enabled(s, e) && Inv(s)
    ensures AskedLeads(Step(s, e).marks) <==> AskedLeads(s.marks) || GoesWithout(s, e)
  {
    if e.Write? && !Empty(e.pkt) && HubAssigns(s.stamper, e.pkt) {
      var m := Mark(s.stamper.session.value, e.pkt.sessionStart || s.stamper.pending, e.pkt.sessionStart);
      WriteKeeps(s, e.pkt);
      assert Step(s, e).marks == s.marks + [m];
      AskedLeadsSnoc(s.marks, m);
    }
  }

  /** Over every interleaving the marker is exact among the packets that left both
      to the hub, if and only if none of them goes without; that is, if and only if
      no session starts with a packet that asked and has a later one that did not. */
  lemma {:induction false} OwnMarkedExactly(es: seq<Event>)
    requires Runs(es)
    ensures OwnExact(After(es).marks) <==> NoneGoesWithout(es)
    ensures OwnExact(After(es).marks) <==> !AskedLeads(After(es).marks)
  {
    if es != [] {
      var front, e := es[..|es| - 1], es[|es| - 1];
      OwnMarkedExactly(front);
      SessionsMarked(front);
      StepOwnExactly(After(front), e);
      StepLeadsExactly(After(front), e);
    }
  }

  // ----------------------------------------------------------------- the order

  /** No SetSession on this buffer begins before the previous one has installed. */
  predicate NonOverlapping(es: seq<Event>)
    requires Runs(es)
  {
    forall n :: 0 <= n < |es| && es[n].Mint? ==> RunPrefix(es, n) && After(es[..n]).minted == []
  }

  /** A prefix of a run is a run. */
  predicate RunPrefix(es: seq<Event>, n: nat): (r: bool)
    requires Runs(es) && n <= |es|
    ensures r && Runs(es[..n])
    decreases |es|
  {
    if n == |es| then assert es[..n] == es; true
    else assert es[..|es| - 1][..n] == es[..n]; RunPrefix(es[..|es| - 1], n)
  }

  /** The id in force tops every stamped id and any id still to be installed
      tops it. */
  ghost predicate Ordered(s: State) {
    && Rising(s.marks) && |s.minted| <= 1
    && (forall j :: 0 <= j < |s.marks| ==> s.stamper.session.Some? && s.marks[j].id <= s.stamper.session.value)
    && (s.minted != [] && s.stamper.session.Some? ==> s.stamper.session.value < s.minted[0])
  }

  lemma FrontNonOverlapping(es: seq<Event>)
    requires Runs(es) && es != [] && NonOverlapping(es)
    ensures NonOverlapping(es[..|es| - 1])
    ensures es[|es| - 1].Mint? ==> After(es[..|es| - 1]).minted == []
  {
    var front := es[..|es| - 1];
    forall n | 0 <= n < |front| && front[n].Mint? ensures RunPrefix(front, n) && After(front[..n]).minted == [] {
      assert es[n].Mint? && front[..n] == es[..n];
    }
  }

  lemma RisingSnocExactly(marks: seq<Mark>, m: Mark)
    ensures Rising(marks + [m]) <==> Rising(marks) && (marks == [] || marks[|marks| - 1].id <= m.id)
  {
    var (more, n) := (marks + [m], |marks|);
    if Rising(more) {
      forall i, j | 0 <= i <= j < n ensures marks[i].id <= marks[j].id {
        assert more[i].id <= more[j].id;
      }
      if n > 0 {
        assert more[n - 1].id <= more[n].id;
      }
    }
  }

  lemma OrderedWrite(s: State, pkt: Packet)
    requires Ordered(s)
    ensures Ordered(Step(s, Write(pkt)))
  {
    if !Empty(pkt) && HubAssigns(s.stamper, pkt) {
      var p := Stamp(s.stamper, pkt);
      RisingSnocExactly(s.marks, Mark(p.sessionId, p.sessionStart, pkt.sessionStart));
    }
  }

  lemma OrderedInstall(s: State, k: nat)
    requires Ordered(s) && k < |s.minted|
    ensures Ordered(Step(s, Install(k)))
  {
  }

  /** Non-overlapping calls give ids that only ever rise, so each run of packets
      has a larger id than the one before. */
  lemma {:induction false} IdsRise(es: seq<Event>)
    requires Runs(es) && NonOverlapping(es)
    ensures Rising(After(es).marks)
    ensures Ordered(After(es))
  {
    if es != [] {
      var front := es[..|es| - 1];
      FrontNonOverlapping(es);
      IdsRise(front);
      SessionsMarked(front);
      match es[|es| - 1]
      case Write(pkt) => OrderedWrite(After(front), pkt);
      case Install(k) => OrderedInstall(After(front), k);
      case _ =>
    }
  }

  /** With overlapping calls the order is lost by exactly those installs that put
      a lower id in force than one already stamped. */
  lemma InstallKeepsOrderExactly(es: seq<Event>, k: nat, pkt: Packet)
    requires Runs(es) && k < |After(es).minted| && !Empty(pkt) && pkt.sessionId == 0
    ensures var s := After(es);
            Rising(Step(Step(s, Install(k)), Write(pkt)).marks)
            <==> Rising(s.marks) && (s.marks == [] || s.marks[|s.marks| - 1].id < s.minted[k])
  {
    SessionsMarked(es);
    var s := After(es);
    var t := Step(Step(s, Install(k)), Write(pkt));
    assert t.marks == s.marks + [Mark(s.minted[k], true, pkt.sessionStart)];
    RisingSnocExactly(s.marks, Mark(s.minted[k], true, pkt.sessionStart));
  }

  /** A packet stamped with a lower id than the one before it. */
  predicate Regresses(s: State, e: Event) {
    e.Write? && !Empty(e.pkt) && HubAssigns(s.stamper, e.pkt)
    && s.marks != [] && s.stamper.session.value < s.marks[|s.marks| - 1].id
  }

  predicate NeverRegresses(es: seq<Event>)
    requires Runs(es)
    decreases |es|
  {
    es == [] || (NeverRegresses(es[..|es| - 1]) && !Regresses(After(es[..|es| - 1]), es[|es| - 1]))
  }

  /** Over every interleaving the ids rise if and only if no packet is stamped under
      a session whose id lies below the last one stamped. */
  lemma {:induction false} OrderKeptExactly(es: seq<Event>)
    requires Runs(es)
    ensures Rising(After(es).marks) <==> NeverRegresses(es)
  {
    if es != [] {
      var (s, e) := (After(es[..|es| - 1]), es[|es| - 1]);
      OrderKeptExactly(es[..|es| - 1]);
      if e.Write? && !Empty(e.pkt) && HubAssigns(s.stamper, e.pkt) {
        var p := Stamp(s.stamper, e.pkt);
        RisingSnocExactly(s.marks, Mark(p.sessionId, p.sessionStart, e.pkt.sessionStart));
      }
    }
  }

  lemma OneMore(es: seq<Event>, e: Event)
    requires Runs(es) && Enabled(After(es), e)
    ensures Runs(es + [e]) && After(es + [e]) == Step(After(es), e)
  {
    assert (es + [e])[..|es + [e]| - 1] == es;
  }

  /** Two overlapping calls whose installs swap: the second run has a lower id. */
  lemma OverlapLowersIds(pkt: Packet) returns (es: seq<Event>)
    requires !Empty(pkt) && pkt.sessionId == 0
    ensures es == [Mint, Mint, Install(1), Write(pkt), Install(0), Write(pkt)]
    ensures Runs(es) && !Rising(After(es).marks)
  {
    es := [];
    OneMore(es, Mint);
    es := es + [Mint];
    OneMore(es, Mint);
    es := es + [Mint];
    assert After(es) == State(2, [1, 2], Stamper(None, false), []);
    OneMore(es, Install(1));
    es := es + [Install(1)];
    OneMore(es, Write(pkt));
    es := es + [Write(pkt)];
    var m := Mark(2, true, pkt.sessionStart);
    assert After(es) == State(2, [1], Stamper(Some(2), false), [m]);
    OneMore(es, Install(0));
    es := es + [Install(0)];
    OneMore(es, Write(pkt));
    es := es + [Write(pkt)];
    assert After(es).marks[0].id > After(es).marks[1].id;
  }

  /** A packet that asks for the marker itself takes the latch: the next packet of
      the session goes without, although it is the first of it that did not ask. */
  lemma AskedPacketTakesLatch(pkt: Packet) returns (es: seq<Event>)
    requires !Empty(pkt) && pkt.sessionId == 0 && !pkt.sessionStart
    ensures es == [Mint, Install(0), Write(pkt.(sessionStart := true)), Write(pkt)]
    ensures Runs(es) && After(es).marks == [Mark(1, true, true), Mark(1, false, false)]
    ensures !OwnExact(After(es).marks)
  {
    es := [];
    OneMore(es, Mint);
    es := es + [Mint];
    OneMore(es, Install(0));
    es := es + [Install(0)];
    assert After(es) == State(1, [], Stamper(Some(1), true), []);
    OneMore(es, Write(pkt.(sessionStart := true)));
    es := es + [Write(pkt.(sessionStart := true))];
    assert After(es) == State(1, [], Stamper(Some(1), false), [Mark(1, true, true)]);
    OneMore(es, Write(pkt));
    es := es + [Write(pkt)];
    var marks := After(es).marks;
    assert Leads(marks, 0) && marks[0].asked && !marks[1].asked && marks[0].id == marks[1].id;
    OwnMarkedExactly(es);
  }
}
