/** The accumulator's place in the scanner's byte stream, over every run of
    188-byte packets, whatever mix of access units and raw TS it carries. */
module HlsAnchors {
  import opened Domain
  import opened HlsScanner
  import opened HlsPlaylist
  import opened HlsSegmenter
  import opened HlsRuns

  /** Every TS packet is 188 bytes long. */
  predicate Aligned188(es: seq<Event>) {
    forall i :: 0 <= i < |es| && es[i].In? ==> WholePackets(es[i].p.chunks)
  }

  predicate WholePackets(chunks: seq<Chunk>) {
    forall k :: 0 <= k < |chunks| ==> |chunks[k].bytes| == TS_PACKET
  }

  function FedTo(s: Seg): nat {
    match s.scan case None => 0 case Some(scan) => scan.feed
  }

  /** The state once a packet has done its flushing and before its bytes join. */
  function BeforeAppend(c: Config, s: Seg, e: Event): Seg
    requires e.In?
  {
    Admitted(c, Opened(c, s, e), e)
  }

  function Opened(c: Config, s: Seg, e: Event): Seg
    requires e.In?
  {
    if e.p.sessionStart then Bounded(c, s, e.now, e.writes) else s
  }

  function Admitted(c: Config, b: Seg, e: Event): Seg
    requires e.In?
  {
    match e.p.av
    case None => b
    case Some(f) => if Dropped(b, f) then b else AtKeyframe(c, Recorded(Resumed(b, f), f), f, e.now, e.writes)
  }

  /** The bytes of an event that join without the scanner seeing them. */
  function Unscanned(c: Config, s: Seg, e: Event): nat
    requires e.In?
  {
    var b := Opened(c, s, e);
    if e.p.av.Some? && !Dropped(b, e.p.av.value) then |BytesOf(e.p.chunks)| else 0
  }

  /** How many access-unit bytes have joined since the accumulator was last
      emptied, which is when a flush re-anchors it. */
  function Unseen(c: Config, es: seq<Event>): nat {
    if es == [] then 0
    else
      var front, e := es[..|es| - 1], es[|es| - 1];
      match e
      case In(_, _, _) =>
        (if BeforeAppend(c, After(c, front), e).buf == [] then 0 else Unseen(c, front)) + Unscanned(c, After(c, front), e)
      case _ => if After(c, es).buf == [] then 0 else Unseen(c, front)
  }

  // ------------------------------------------------------------------ the invariant

  /** The accumulator starts `unseen` bytes off the end of what was fed; offsets
      are ordered; and with nothing unseen it is that end of the scanner's bytes. */
  ghost predicate Anchored(s: Seg, unseen: nat) {
    && s.bufOffset + |s.buf| == FedTo(s) + unseen && (s.buf == [] ==> unseen == 0)
    && |s.raw| == FedTo(s) && 0 <= s.bufOffset <= s.scanned <= FedTo(s)
    && (s.scan.Some? ==> Sound(s.scan.value) && s.scan.value.feed > 0)
    && (unseen == 0 ==> s.buf == s.raw[s.bufOffset..])
  }

  lemma FlushedAnchored(c: Config, s: Seg, unseen: nat, now: real, writes: Writes, forced: bool)
    requires Anchored(s, unseen)
    ensures Anchored(Flushed(c, s, now, writes, forced), 0)
    ensures Flushed(c, s, now, writes, forced).buf == []
  {
  }

  lemma RawAppended(s: Seg, chunk: Chunk, now: real, unseen: nat)
    requires Anchored(s, unseen) && |chunk.bytes| == TS_PACKET
    ensures Anchored(Appended(s, chunk, true, now), unseen)
  {
    ScannedSound(if s.scan.None? then FRESH else s.scan.value, chunk.kind);
    assert (s.raw + chunk.bytes)[s.bufOffset..] == s.raw[s.bufOffset..] + chunk.bytes;
  }

  lemma {:induction false} RawAnchored(s: Seg, chunks: seq<Chunk>, now: real, unseen: nat)
    requires Anchored(s, unseen) && WholePackets(chunks)
    ensures Anchored(AppendedAll(s, chunks, true, now), unseen)
  {
    if chunks != [] {
      RawAnchored(s, chunks[..|chunks| - 1], now, unseen);
      RawAppended(AppendedAll(s, chunks[..|chunks| - 1], true, now), chunks[|chunks| - 1], now, unseen);
    }
  }

  lemma {:induction false} UnitsAnchored(s: Seg, chunks: seq<Chunk>, now: real, unseen: nat)
    requires Anchored(s, unseen) && WholePackets(chunks)
    ensures Anchored(AppendedAll(s, chunks, false, now), unseen + |BytesOf(chunks)|)
  {
    if chunks != [] {
      UnitsAnchored(s, chunks[..|chunks| - 1], now, unseen);
    }
  }

  lemma BoundedAnchored(c: Config, s: Seg, unseen: nat, now: real, writes: Writes)
    requires Anchored(s, unseen)
    ensures Anchored(Bounded(c, s, now, writes), 0) && Bounded(c, s, now, writes).buf == []
  {
    FlushedAnchored(c, s, unseen, now, writes, false);
  }

  lemma FrameAnchored(c: Config, s: Seg, f: Frame, unseen: nat, now: real, writes: Writes)
    requires Anchored(s, unseen)
    ensures var t := AtKeyframe(c, Recorded(Resumed(s, f), f), f, now, writes);
            Anchored(t, if t.buf == [] then 0 else unseen)
  {
    var r := Recorded(Resumed(s, f), f);
    assert Anchored(r, unseen);
    FlushedAnchored(c, r, unseen, now, writes, false);
  }

  lemma OpenedAnchored(c: Config, s: Seg, e: Event, unseen: nat)
    requires e.In? && Anchored(s, unseen)
    ensures Anchored(Opened(c, s, e), if e.p.sessionStart then 0 else unseen)
    ensures e.p.sessionStart ==> Opened(c, s, e).buf == []
  {
    BoundedAnchored(c, s, unseen, e.now, e.writes);
  }

  lemma AtKeyframeAnchored(c: Config, b: Seg, f: Frame, unseen: nat, now: real, writes: Writes)
    requires Anchored(b, unseen)
    ensures var t := AtKeyframe(c, Recorded(Resumed(b, f), f), f, now, writes);
            Anchored(t, if t.buf == [] then 0 else unseen) && (b.buf == [] ==> t.buf == [])
  {
    FrameAnchored(c, b, f, unseen, now, writes);
    EmptyStaysEmpty(c, b, f, now, writes);
  }

  lemma AdmittedAnchored(c: Config, b: Seg, e: Event, unseen: nat)
    requires e.In? && Anchored(b, unseen)
    ensures var t := Admitted(c, b, e); Anchored(t, if t.buf == [] then 0 else unseen) && (b.buf == [] ==> t.buf == [])
  {
    if e.p.av.Some? && !Dropped(b, e.p.av.value) {
      AtKeyframeAnchored(c, b, e.p.av.value, unseen, e.now, e.writes);
      assert Admitted(c, b, e) ==
             AtKeyframe(c, Recorded(Resumed(b, e.p.av.value), e.p.av.value), e.p.av.value, e.now, e.writes);
    } else {
      assert Admitted(c, b, e) == b;
    }
  }

  lemma BeforeAppendAnchored(c: Config, s: Seg, e: Event, unseen: nat)
    requires e.In? && Anchored(s, unseen)
    ensures var t := BeforeAppend(c, s, e); Anchored(t, if t.buf == [] then 0 else unseen)
  {
    OpenedAnchored(c, s, e, unseen);
    AdmittedAnchored(c, Opened(c, s, e), e, if e.p.sessionStart then 0 else unseen);
  }

  lemma EmptyStaysEmpty(c: Config, s: Seg, f: Frame, now: real, writes: Writes)
    ensures s.buf == [] ==> AtKeyframe(c, Recorded(Resumed(s, f), f), f, now, writes).buf == []
  {
  }

  lemma HandledAnchored(c: Config, s: Seg, e: Event, unseen: nat)
    requires e.In? && Anchored(s, unseen) && WholePackets(e.p.chunks)
    ensures Anchored(Step(c, s, e),
                     (if BeforeAppend(c, s, e).buf == [] then 0 else unseen) + Unscanned(c, s, e))
  {
    BeforeAppendAnchored(c, s, e, unseen);
    var t := BeforeAppend(c, s, e);
    var n := if t.buf == [] then 0 else unseen;
    if e.p.av.None? {
      RawAnchored(t, e.p.chunks, e.now, n);
    } else {
      UnitsAnchored(t, e.p.chunks, e.now, n);
    }
  }

  /** A boundary not considered yet always lies strictly inside the accumulator,
      so it is never given up. */
  lemma FreshSplits(s: Seg, unseen: nat)
    requires Anchored(s, unseen)
    ensures s.scan.Some? && s.scan.value.lastIdr > s.scanned <==> SplitsAtIdr(s)
    ensures GivenUp(s) == s
  {
  }

  lemma SplitAnchored(c: Config, s: Seg, unseen: nat, now: real, writes: Writes)
    requires Anchored(s, unseen) && SplitsAtIdr(s)
    ensures Anchored(SplitAtIdr(c, s, now, writes), unseen) && SplitAtIdr(c, s, now, writes).buf != []
  {
    var p := SplitEffect(c, s, now, writes);
    var idr := s.scan.value.lastIdr;
    if unseen == 0 {
      assert s.raw[s.bufOffset..][idr - s.bufOffset..] == s.raw[idr..];
    }
  }

  lemma TickedAnchored(c: Config, s: Seg, unseen: nat, now: real, writes: Writes)
    requires Anchored(s, unseen)
    ensures var t := Ticked(c, s, now, writes); Anchored(t, if t.buf == [] then 0 else unseen)
  {
    TickedCases(c, s, now, writes);
    FreshSplits(s, unseen);
    if SplitsAtIdr(s) {
      SplitAnchored(c, s, unseen, now, writes);
    }
    FlushedAnchored(c, s, unseen, now, writes, s.scan.None?);
  }

  // ---------------------------------------------------------------------- theorems

  /** Over every run, the accumulator's end is off the scanner's by exactly the
      access-unit bytes it took in since it was last emptied. */
  lemma {:induction false} AlwaysAnchored(c: Config, es: seq<Event>)
    requires Aligned188(es)
    ensures Anchored(After(c, es), Unseen(c, es))
  {
    if es != [] {
      var front, e := es[..|es| - 1], es[|es| - 1];
      AlwaysAnchored(c, front);
      match e
      case In(_, _, _) => HandledAnchored(c, After(c, front), e, Unseen(c, front));
      case Tick(now, writes) => TickedAnchored(c, After(c, front), Unseen(c, front), now, writes);
      case Stop(now, writes) => FlushedAnchored(c, After(c, front), Unseen(c, front), now, writes, false);
    }
  }

  /** So start plus length is the fed offset exactly when there are none. */
  lemma AnchoredExactly(c: Config, es: seq<Event>)
    requires Aligned188(es)
    ensures var s := After(c, es);
            && (s.bufOffset + |s.buf| == FedTo(s) <==> Unseen(c, es) == 0)
            && 0 <= s.bufOffset <= s.scanned <= FedTo(s)
  {
    AlwaysAnchored(c, es);
  }

  /** In any run, mixed or not, a new boundary always splits strictly inside the
      accumulator: the branch that gives it up is never taken. */
  lemma BoundariesNeverGivenUp(c: Config, es: seq<Event>)
    requires Aligned188(es)
    ensures var s := After(c, es);
            && (s.scan.Some? && s.scan.value.lastIdr > s.scanned <==> SplitsAtIdr(s)) && GivenUp(s) == s
  {
    AlwaysAnchored(c, es);
    FreshSplits(After(c, es), Unseen(c, es));
  }

  /** A tick after at least one target duration with a new boundary cuts there:
      the offsets move to it, and with no access-unit bytes in the way the segment
      is the scanner's bytes up to it and the next one starts with it, on a packet
      edge. */
  lemma NextSegmentStartsAtBoundary(c: Config, es: seq<Event>, now: real, writes: Writes)
    requires Aligned188(es)
    requires var s := After(c, es);
             s.scan.Some? && s.scan.value.lastIdr > s.scanned
             && s.segStart.Some? && now - s.segStart.value >= c.segSec as real
    ensures var s := After(c, es);
            var t := Step(c, s, Tick(now, writes));
            var idr := s.scan.value.lastIdr;
            && 0 <= s.bufOffset < idr < |s.raw| && Aligned(idr)
            && |t.shelf.pieces| == |s.shelf.pieces| + 1 && t.bufOffset == idr && t.scanned == idr
            && t.shelf.pieces[|s.shelf.pieces|].bytes + t.buf == s.buf
            && (Unseen(c, es) == 0 ==>
                  t.shelf.pieces[|s.shelf.pieces|].bytes == s.raw[s.bufOffset..idr] && t.buf == s.raw[idr..])
  {
    AlwaysAnchored(c, es);
    var s := After(c, es);
    FreshSplits(s, Unseen(c, es));
    var idr := s.scan.value.lastIdr;
    var p := SplitEffect(c, s, now, writes);
    CutApart(s.buf, idr - s.bufOffset);
    if Unseen(c, es) == 0 {
      CutOfTail(s.raw, s.bufOffset, idr);
    }
  }

  lemma CutApart(b: seq<bv8>, n: nat)
    requires n <= |b|
    ensures b[..n] + b[n..] == b
  {
  }

  lemma CutOfTail(b: seq<bv8>, m: nat, n: nat)
    requires m <= n <= |b|
    ensures b[m..][..n - m] == b[m..n] && b[m..][n - m..] == b[n..]
  {
  }

  // ------------------------------------------------------------------ uniform sessions

  /** What the session in progress carries: nothing yet, access units or raw TS. */
  datatype Mode = Unset | Units | Raw

  function ModeOf(es: seq<Event>): Mode {
    if es == [] then Unset
    else
      var before := ModeOf(es[..|es| - 1]);
      match es[|es| - 1]
      case In(p, _, _) =>
        var base := if p.sessionStart then Unset else before;
        if p.chunks == [] then base else if p.av.Some? then Units else Raw
      case _ => before
  }

  /** No session mixes access units with raw TS. */
  predicate Uniform(es: seq<Event>) {
    if es == [] then true
    else
      var front, e := es[..|es| - 1], es[|es| - 1];
      Uniform(front) &&
      (e.In? ==> e.p.sessionStart || e.p.chunks == [] || ModeOf(front) in {Unset, if e.p.av.Some? then Units else Raw})
  }

  lemma BoundedEmpties(c: Config, s: Seg, e: Event)
    requires e.In? && e.p.sessionStart
    ensures BeforeAppend(c, s, e).buf == []
  {
  }

  /** Such runs are anchored whenever raw TS flows. */
  lemma {:induction false} UniformAnchored(c: Config, es: seq<Event>)
    requires Uniform(es)
    ensures ModeOf(es) != Units ==> Unseen(c, es) == 0
  {
    if es != [] {
      var front, e := es[..|es| - 1], es[|es| - 1];
      UniformAnchored(c, front);
      if e.In? && e.p.sessionStart {
        BoundedEmpties(c, After(c, front), e);
      }
    }
  }

  // -------------------------------------------------------------------- mixed sessions

  lemma OneAppended(s: Seg, chunk: Chunk, raw: bool, now: real)
    ensures AppendedAll(s, [chunk], raw, now) == Appended(s, chunk, raw, now)
    ensures BytesOf([chunk]) == chunk.bytes
  {
    assert [chunk][..0] == [];
    assert BytesOf([]) + chunk.bytes == chunk.bytes;
  }

  lemma UnitFirst(c: Config, f: Frame, a: Chunk, now: real, writes: Writes)
    requires |a.bytes| == TS_PACKET
    ensures var e := In(Incoming(false, Some(f), [a]), now, writes);
            After(c, [e]) == Appended(Recorded(START, f), a, false, now) && Unseen(c, [e]) == TS_PACKET
  {
    var e := In(Incoming(false, Some(f), [a]), now, writes);
    AfterSnoc(c, [], e);
    assert [] + [e] == [e] && [e][..0] == [];
    OneAppended(Recorded(START, f), a, false, now);
  }

  /** An access unit and a raw packet in one session: the anchor is off by the
      unit's bytes. */
  lemma MixedSessionMisaligns(c: Config, f: Frame, a: Chunk, b: Chunk, now: real, writes: Writes)
    requires |a.bytes| == TS_PACKET && |b.bytes| == TS_PACKET
    ensures var es := [In(Incoming(false, Some(f), [a]), now, writes), In(Incoming(false, None, [b]), now, writes)];
            Aligned188(es) && Unseen(c, es) == TS_PACKET
            && After(c, es).bufOffset + |After(c, es).buf| == FedTo(After(c, es)) + TS_PACKET
  {
    var e0, e1 := In(Incoming(false, Some(f), [a]), now, writes), In(Incoming(false, None, [b]), now, writes);
    var es := [e0, e1];
    UnitFirst(c, f, a, now, writes);
    assert es[..1] == [e0];
    AlwaysAnchored(c, es);
  }
}
