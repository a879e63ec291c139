/** Media time of keyframe-cut runs: which segments tile the timeline. */
module HlsTimeline {
  import opened Domain
  import opened HlsPlaylist
  import opened HlsSegmenter
  import opened HlsRuns

  /** A frame of the session in progress, or a tick that finds nothing to do. */
  predicate Steady(c: Config, s: Seg, e: Event) {
    match e
    case In(p, _, _) => p.av.Some? && !p.sessionStart && p.av.value.pts < PTS_MOD
    case Tick(now, writes) => Ticked(c, s, now, writes) == s
    case Stop(_, _) => false
  }

  predicate SteadyRun(c: Config, s: Seg, es: seq<Event>) {
    if es == [] then true
    else SteadyRun(c, s, es[..|es| - 1]) && Steady(c, AfterFrom(c, s, es[..|es| - 1]), es[|es| - 1])
  }

  /** PTS of the first frame. */
  function FirstPts(es: seq<Event>): Option<nat> {
    if es == [] then None
    else
      var before := FirstPts(es[..|es| - 1]);
      if before.None? && es[|es| - 1].In? && es[|es| - 1].p.av.Some? then Some(es[|es| - 1].p.av.value.pts) else before
  }

  predicate IsKey(e: Event) {
    e.In? && e.p.av.Some? && e.p.av.value.key
  }

  /** Keyframes have increasing PTS; the frames around them may come in any order. */
  predicate KeysRise(es: seq<Event>) {
    forall i, j :: 0 <= i < j < |es| && IsKey(es[i]) && IsKey(es[j]) ==> es[i].p.av.value.pts < es[j].p.av.value.pts
  }

  /** PTS of the frames at which the run cut a segment. */
  function Cuts(c: Config, s: Seg, es: seq<Event>): seq<nat> {
    if es == [] then []
    else
      var front, e := es[..|es| - 1], es[|es| - 1];
      Cuts(c, s, front) +
      (if e.In? && e.p.av.Some? && |AfterFrom(c, s, es).shelf.pieces| > |AfterFrom(c, s, front).shelf.pieces|
       then [e.p.av.value.pts] else [])
  }

  /** The i-th segment edge: the first frame, then each cut. */
  function Edge(first: nat, cuts: seq<nat>, i: nat): nat
    requires i <= |cuts|
  {
    if i == 0 then first else cuts[i - 1]
  }

  function TotalDur(pieces: seq<Piece>): real {
    if pieces == [] then 0.0 else TotalDur(pieces[..|pieces| - 1]) + pieces[|pieces| - 1].dur
  }

  predicate Fresh(s: Seg) {
    s.buf == [] && !s.media.started && !s.discarding
  }

  /** Each new segment spans from its edge to the next, and lasts long enough. */
  ghost predicate Tiled(c: Config, pieces: seq<Piece>, from: nat, first: nat, cuts: seq<nat>) {
    |pieces| == from + |cuts| && forall i: nat :: i < |cuts| ==> TileAt(c, pieces, from, first, cuts, i)
  }

  predicate TileAt(c: Config, pieces: seq<Piece>, from: nat, first: nat, cuts: seq<nat>, i: nat)
    requires |pieces| == from + |cuts| && i < |cuts|
  {
    && pieces[from + i].dur == (Edge(first, cuts, i + 1) - Edge(first, cuts, i)) as real / 1000.0
    && pieces[from + i].dur >= c.segSec as real
  }

  /** No edge lies before the one it follows. */
  ghost predicate EdgesRise(first: nat, cuts: seq<nat>) {
    forall i: nat :: i < |cuts| ==> EdgeRises(first, cuts, i)
  }

  predicate EdgeRises(first: nat, cuts: seq<nat>, i: nat)
    requires i < |cuts|
  {
    Edge(first, cuts, i) <= Edge(first, cuts, i + 1)
  }

  // ------------------------------------------------------------------ each segment

  /** The segment lasts, and spans its edges if they are in order. */
  predicate SpanAt(c: Config, pieces: seq<Piece>, from: nat, first: nat, cuts: seq<nat>, i: nat)
    requires |pieces| == from + |cuts| && i < |cuts|
  {
    pieces[from + i].dur > 0.0 && (EdgeRises(first, cuts, i) ==> TileAt(c, pieces, from, first, cuts, i))
  }

  ghost predicate Spanned(c: Config, pieces: seq<Piece>, from: nat, first: nat, cuts: seq<nat>) {
    |pieces| == from + |cuts| && forall i: nat :: i < |cuts| ==> SpanAt(c, pieces, from, first, cuts, i)
  }

  lemma SpannedSnoc(c: Config, pieces: seq<Piece>, from: nat, first: nat, cuts: seq<nat>, p: Piece, pts: nat)
    requires Spanned(c, pieces, from, first, cuts) && p.dur > 0.0
    requires var start := Edge(first, cuts, |cuts|);
             start <= pts ==> p.dur == (pts - start) as real / 1000.0 && p.dur >= c.segSec as real
    ensures Spanned(c, pieces + [p], from, first, cuts + [pts])
  {
    var more := cuts + [pts];
    forall i: nat | i < |more| ensures SpanAt(c, pieces + [p], from, first, more, i) {
      assert Edge(first, more, i) == Edge(first, cuts, i);
      if i < |cuts| {
        assert SpanAt(c, pieces, from, first, cuts, i);
        assert Edge(first, more, i + 1) == Edge(first, cuts, i + 1);
      }
    }
  }

  /** What a keyframe that cuts does: the segment ends at its PTS, long enough,
      unless that lies before the segment's start; then the 64-bit difference has
      wrapped, and the segment lasts as long as it took by the clock. */
  lemma KeyframeCut(c: Config, s: Seg, f: Frame, now: real, writes: Writes)
    requires ValidConfig(c) && s.media.started && s.media.startPts < PTS_MOD && f.pts < PTS_MOD && !s.discarding
    requires DueAtKeyframe(c, Recorded(s, f), f)
    ensures var t := AtKeyframe(c, Recorded(s, f), f, now, writes);
            && t.media == Media(f.pts, f.pts, true) && !t.discarding
            && |t.shelf.pieces| == |s.shelf.pieces| + 1 && t.shelf.pieces[..|s.shelf.pieces|] == s.shelf.pieces
    ensures var p := AtKeyframe(c, Recorded(s, f), f, now, writes).shelf.pieces[|s.shelf.pieces|];
            && p.dur > 0.0
            && (s.media.startPts <= f.pts ==> p.dur == (f.pts - s.media.startPts) as real / 1000.0 >= c.segSec as real)
            && (f.pts < s.media.startPts ==> p.dur == Duration(c, s.(media := NO_MEDIA), now))
  {
    FlushedEffect(c, Recorded(s, f), now, writes, false);
    if s.media.startPts <= f.pts {
      assert (f.pts - s.media.startPts) % PTS_MOD == f.pts - s.media.startPts;
      assert (f.pts - s.media.startPts) as real >= (c.segSec * 1000) as real;
    }
  }

  lemma {:induction false} AppendedMedia(s: Seg, chunks: seq<Chunk>, raw: bool, now: real)
    ensures var t := AppendedAll(s, chunks, raw, now);
            t.media == s.media && t.shelf == s.shelf && t.discarding == s.discarding
  {
    if chunks != [] {
      AppendedMedia(s, chunks[..|chunks| - 1], raw, now);
    }
  }

  /** One frame: it cuts, or keeps the segment and its start. */
  lemma FrameStep(c: Config, t: Seg, p: Incoming, now: real, writes: Writes)
    requires ValidConfig(c) && p.av.Some? && !p.sessionStart && p.av.value.pts < PTS_MOD && !t.discarding
    requires t.buf == [] || t.media.started
    requires t.media.started ==> t.media.startPts < PTS_MOD
    ensures var f := p.av.value;
            var u := Handled(c, t, p, now, writes);
            && !u.discarding && u.media.started
            && (if DueAtKeyframe(c, Recorded(t, f), f)
                then
                  && t.media.started && u.media.startPts == f.pts && f.key
                  && |u.shelf.pieces| == |t.shelf.pieces| + 1 && u.shelf.pieces[..|t.shelf.pieces|] == t.shelf.pieces
                  && u.shelf.pieces[|t.shelf.pieces|].dur > 0.0
                  && (t.media.startPts <= f.pts ==>
                        u.shelf.pieces[|t.shelf.pieces|].dur == (f.pts - t.media.startPts) as real / 1000.0 >= c.segSec as real)
                else
                  u.shelf == t.shelf && u.media.startPts == if t.media.started then t.media.startPts else f.pts)
  {
    var f := p.av.value;
    var k := AtKeyframe(c, Recorded(t, f), f, now, writes);
    AppendedMedia(k, p.chunks, false, now);
    if DueAtKeyframe(c, Recorded(t, f), f) {
      KeyframeCut(c, t, f, now, writes);
    }
  }

  // -------------------------------------------------------------------- each run

  /** The start of the segment in progress is the last edge. */
  ghost predicate OnEdge(c: Config, s: Seg, t: Seg, es: seq<Event>) {
    && !t.discarding && |s.shelf.pieces| <= |t.shelf.pieces|
    && match FirstPts(es)
       case None => t.media == s.media && t.buf == [] && t.shelf == s.shelf && Cuts(c, s, es) == []
       case Some(first) =>
         && t.media.started && t.media.startPts == Edge(first, Cuts(c, s, es), |Cuts(c, s, es)|) < PTS_MOD
         && Spanned(c, t.shelf.pieces, |s.shelf.pieces|, first, Cuts(c, s, es))
  }

  lemma {:induction false} RunOnEdge(c: Config, s: Seg, es: seq<Event>)
    requires ValidConfig(c) && Fresh(s) && SteadyRun(c, s, es)
    ensures OnEdge(c, s, AfterFrom(c, s, es), es)
  {
    if es != [] {
      RunOnEdge(c, s, es[..|es| - 1]);
      if es[|es| - 1].In? {
        FrameOnEdge(c, s, es);
      } else {
        TickOnEdge(c, s, es);
      }
    }
  }

  lemma TickOnEdge(c: Config, s: Seg, es: seq<Event>)
    requires es != [] && es[|es| - 1].Tick? && SteadyRun(c, s, es)
    requires OnEdge(c, s, AfterFrom(c, s, es[..|es| - 1]), es[..|es| - 1])
    ensures OnEdge(c, s, AfterFrom(c, s, es), es)
  {
    var front := es[..|es| - 1];
    assert AfterFrom(c, s, es) == AfterFrom(c, s, front) && Cuts(c, s, es) == Cuts(c, s, front);
  }

  lemma CutPiece(was: seq<Piece>, now: seq<Piece>)
    requires |now| == |was| + 1 && now[..|was|] == was
    ensures now == was + [now[|was|]]
  {
  }

  lemma FrameOnEdge(c: Config, s: Seg, es: seq<Event>)
    requires ValidConfig(c) && Fresh(s) && es != [] && es[|es| - 1].In? && SteadyRun(c, s, es)
    requires OnEdge(c, s, AfterFrom(c, s, es[..|es| - 1]), es[..|es| - 1])
    ensures OnEdge(c, s, AfterFrom(c, s, es), es)
  {
    var (front, e) := (es[..|es| - 1], es[|es| - 1]);
    var t, u := AfterFrom(c, s, front), AfterFrom(c, s, es);
    var f := e.p.av.value;
    FrameStep(c, t, e.p, e.now, e.writes);
    if DueAtKeyframe(c, Recorded(t, f), f) {
      CutPiece(t.shelf.pieces, u.shelf.pieces);
      assert Cuts(c, s, es) == Cuts(c, s, front) + [f.pts] && FirstPts(es) == FirstPts(front);
      SpannedSnoc(c, t.shelf.pieces, |s.shelf.pieces|, FirstPts(front).value, Cuts(c, s, front),
                  u.shelf.pieces[|t.shelf.pieces|], f.pts);
    } else {
      assert Cuts(c, s, es) == Cuts(c, s, front);
    }
  }

  // --------------------------------------------------------------------- theorems

  // ------------------------------------------------------------- which frames cut

  /** A keyframe not below the start of the segment cuts one segment if it comes at
      least the target duration after it, and none otherwise. */
  lemma KeyframeCutsExactly(c: Config, s: Seg, f: Frame, now: real, writes: Writes)
    requires s.buf != [] && s.media.started && s.media.startPts <= f.pts < PTS_MOD && f.key
    ensures |AtKeyframe(c, Recorded(s, f), f, now, writes).shelf.pieces|
         == |s.shelf.pieces| + if f.pts - s.media.startPts >= c.segSec * 1000 then 1 else 0
  {
    assert (f.pts - s.media.startPts) % PTS_MOD == f.pts - s.media.startPts;
    if f.pts - s.media.startPts >= c.segSec * 1000 {
      FlushedEffect(c, Recorded(s, f), now, writes, false);
    }
  }

  /** At least the target duration after the last cut or the first frame, the 64-bit
      difference wrapping if it lies before. */
  predicate Late(c: Config, first: nat, cuts: seq<nat>, pts: nat) {
    (pts - Edge(first, cuts, |cuts|)) % PTS_MOD >= c.segSec * 1000
  }

  /** The frame is a keyframe over a non-empty accumulator, and late enough. */
  predicate LongEnough(c: Config, s: Seg, front: seq<Event>, f: Frame) {
    FirstPts(front).Some? && f.key && AfterFrom(c, s, front).buf != []
    && Late(c, FirstPts(front).value, Cuts(c, s, front), f.pts)
  }

  lemma DueExactly(c: Config, t: Seg, f: Frame)
    requires ValidConfig(c)
    ensures DueAtKeyframe(c, Recorded(t, f), f)
            <==> f.key && t.buf != [] && t.media.started && (f.pts - t.media.startPts) % PTS_MOD >= c.segSec * 1000
  {
  }

  lemma LongEnoughIsDue(c: Config, s: Seg, front: seq<Event>, f: Frame)
    requires ValidConfig(c) && Fresh(s) && OnEdge(c, s, AfterFrom(c, s, front), front)
    ensures LongEnough(c, s, front, f) <==> DueAtKeyframe(c, Recorded(AfterFrom(c, s, front), f), f)
  {
    DueExactly(c, AfterFrom(c, s, front), f);
  }

  lemma CutsSnoc(c: Config, s: Seg, es: seq<Event>)
    requires es != [] && es[|es| - 1].In? && es[|es| - 1].p.av.Some?
    ensures var front := es[..|es| - 1];
            Cuts(c, s, es) == if |AfterFrom(c, s, es).shelf.pieces| > |AfterFrom(c, s, front).shelf.pieces|
                              then Cuts(c, s, front) + [es[|es| - 1].p.av.value.pts] else Cuts(c, s, front)
  {
    assert Cuts(c, s, es[..|es| - 1]) + [] == Cuts(c, s, es[..|es| - 1]);
  }

  /** One more frame cuts at its PTS if and only if it is such a keyframe. */
  lemma FrameCutsExactly(c: Config, s: Seg, es: seq<Event>)
    requires ValidConfig(c) && Fresh(s) && SteadyRun(c, s, es) && es != [] && es[|es| - 1].In?
    ensures var (front, f) := (es[..|es| - 1], es[|es| - 1].p.av.value);
            Cuts(c, s, es) == if LongEnough(c, s, front, f) then Cuts(c, s, front) + [f.pts] else Cuts(c, s, front)
  {
    var (front, e) := (es[..|es| - 1], es[|es| - 1]);
    RunOnEdge(c, s, front);
    LongEnoughIsDue(c, s, front, e.p.av.value);
    FrameStep(c, AfterFrom(c, s, front), e.p, e.now, e.writes);
    CutsSnoc(c, s, es);
  }

  lemma TickCutsNothing(c: Config, s: Seg, es: seq<Event>)
    requires SteadyRun(c, s, es) && es != [] && es[|es| - 1].Tick?
    ensures AfterFrom(c, s, es) == AfterFrom(c, s, es[..|es| - 1]) && Cuts(c, s, es) == Cuts(c, s, es[..|es| - 1])
  {
  }

  /** Every frame carries bytes. */
  predicate Filled(es: seq<Event>) {
    forall i :: 0 <= i < |es| && es[i].In? ==> BytesOf(es[i].p.chunks) != []
  }

  lemma {:induction false} AppendedBytes(s: Seg, chunks: seq<Chunk>, raw: bool, now: real)
    ensures AppendedAll(s, chunks, raw, now).buf == s.buf + BytesOf(chunks)
  {
    if chunks != [] {
      AppendedBytes(s, chunks[..|chunks| - 1], raw, now);
      assert (s.buf + BytesOf(chunks[..|chunks| - 1])) + chunks[|chunks| - 1].bytes == s.buf + BytesOf(chunks);
    }
  }

  lemma {:induction false} FilledBuf(c: Config, s: Seg, es: seq<Event>)
    requires ValidConfig(c) && Fresh(s) && SteadyRun(c, s, es) && Filled(es)
    ensures FirstPts(es).Some? ==> AfterFrom(c, s, es).buf != []
  {
    if es != [] {
      var (front, e) := (es[..|es| - 1], es[|es| - 1]);
      FilledBuf(c, s, front);
      RunOnEdge(c, s, front);
      if e.In? {
        var (t, f) := (AfterFrom(c, s, front), e.p.av.value);
        AppendedBytes(AtKeyframe(c, Recorded(t, f), f, e.now, e.writes), e.p.chunks, false, e.now);
      }
    }
  }

  /** The cuts a run of frames calls for: every keyframe at least the target duration
      after the last one called for, or after the first frame. */
  function Called(c: Config, es: seq<Event>): seq<nat> {
    if es == [] then []
    else
      var (front, e) := (es[..|es| - 1], es[|es| - 1]);
      if IsKey(e) && FirstPts(front).Some? && Late(c, FirstPts(front).value, Called(c, front), e.p.av.value.pts)
      then Called(c, front) + [e.p.av.value.pts] else Called(c, front)
  }

  lemma LateWhenFilled(c: Config, s: Seg, front: seq<Event>, f: Frame)
    requires FirstPts(front).Some? ==> AfterFrom(c, s, front).buf != []
    ensures LongEnough(c, s, front, f)
            <==> f.key && FirstPts(front).Some? && Late(c, FirstPts(front).value, Cuts(c, s, front), f.pts)
  {
  }

  lemma CalledSnoc(c: Config, s: Seg, es: seq<Event>, cuts: seq<nat>)
    requires ValidConfig(c) && Fresh(s) && SteadyRun(c, s, es) && Filled(es) && es != []
    requires cuts == Cuts(c, s, es[..|es| - 1])
    ensures var (front, e) := (es[..|es| - 1], es[|es| - 1]);
            Cuts(c, s, es) == if IsKey(e) && FirstPts(front).Some? && Late(c, FirstPts(front).value, cuts, e.p.av.value.pts)
                              then cuts + [e.p.av.value.pts] else cuts
  {
    var (front, e) := (es[..|es| - 1], es[|es| - 1]);
    if e.Tick? {
      TickCutsNothing(c, s, es);
    } else {
      FilledBuf(c, s, front);
      LateWhenFilled(c, s, front, e.p.av.value);
      FrameCutsExactly(c, s, es);
    }
  }

  /** On a run whose frames carry bytes exactly those are made. */
  lemma {:induction false} CutsAsCalled(c: Config, s: Seg, es: seq<Event>)
    requires ValidConfig(c) && Fresh(s) && SteadyRun(c, s, es) && Filled(es)
    ensures Cuts(c, s, es) == Called(c, es)
  {
    if es != [] {
      CutsAsCalled(c, s, es[..|es| - 1]);
      CalledSnoc(c, s, es, Called(c, es[..|es| - 1]));
    }
  }

  // -------------------------------------------------------------- how long they last

  /** The latest keyframe's PTS, or the first frame's before there is one. */
  function LastKey(es: seq<Event>): Option<nat> {
    if es == [] then None
    else
      var (before, e) := (LastKey(es[..|es| - 1]), es[|es| - 1]);
      if e.In? && e.p.av.Some? && (before.None? || e.p.av.value.key) then Some(e.p.av.value.pts) else before
  }

  /** Each keyframe is at least lo and at most hi after the one before, or after
      the first frame. */
  predicate Gaps(es: seq<Event>, lo: nat, hi: nat) {
    es == [] ||
    (Gaps(es[..|es| - 1], lo, hi) &&
     (IsKey(es[|es| - 1]) && LastKey(es[..|es| - 1]).Some? ==>
        lo <= es[|es| - 1].p.av.value.pts - LastKey(es[..|es| - 1]).value <= hi))
  }

  /** How many keyframes follow the first frame. */
  function KeysAfterFirst(es: seq<Event>): nat {
    if es == [] then 0
    else KeysAfterFirst(es[..|es| - 1]) + if IsKey(es[|es| - 1]) && LastKey(es[..|es| - 1]).Some? then 1 else 0
  }

  predicate InRange(es: seq<Event>) {
    forall i :: 0 <= i < |es| && es[i].In? && es[i].p.av.Some? ==> es[i].p.av.value.pts < PTS_MOD
  }

  lemma {:induction false} SteadyInRange(c: Config, s: Seg, es: seq<Event>)
    requires SteadyRun(c, s, es)
    ensures InRange(es)
  {
    if es != [] {
      SteadyInRange(c, s, es[..|es| - 1]);
    }
  }

  lemma {:induction false} Unstarted(c: Config, es: seq<Event>)
    ensures LastKey(es).Some? <==> FirstPts(es).Some?
    ensures FirstPts(es).None? ==> Called(c, es) == [] && KeysAfterFirst(es) == 0
  {
    if es != [] {
      Unstarted(c, es[..|es| - 1]);
    }
  }

  /** Every edge comes at least the target duration after the one before and less
      than g ms more, and the latest keyframe less than the target duration after
      the last edge. */
  ghost predicate ShortEdges(c: Config, first: nat, cuts: seq<nat>, last: nat, g: nat) {
    && Edge(first, cuts, |cuts|) <= last < Edge(first, cuts, |cuts|) + c.segSec * 1000
    && forall i: nat :: i < |cuts| ==> EdgeShort(c, first, cuts, i, g)
  }

  predicate EdgeShort(c: Config, first: nat, cuts: seq<nat>, i: nat, g: nat)
    requires i < |cuts|
  {
    c.segSec * 1000 <= Edge(first, cuts, i + 1) - Edge(first, cuts, i) < c.segSec * 1000 + g
  }

  lemma EdgesSnoc(c: Config, first: nat, cuts: seq<nat>, pts: nat, g: nat)
    requires forall i: nat :: i < |cuts| ==> EdgeShort(c, first, cuts, i, g)
    requires c.segSec * 1000 <= pts - Edge(first, cuts, |cuts|) < c.segSec * 1000 + g
    ensures forall i: nat :: i < |cuts + [pts]| ==> EdgeShort(c, first, cuts + [pts], i, g)
  {
    var more := cuts + [pts];
    forall i: nat | i < |more| ensures EdgeShort(c, first, more, i, g) {
      assert Edge(first, more, i) == Edge(first, cuts, i);
      if i < |cuts| {
        assert EdgeShort(c, first, cuts, i, g);
        assert Edge(first, more, i + 1) == Edge(first, cuts, i + 1);
      }
    }
  }

  /** A keyframe at pts, at most g after the latest one. */
  lemma KeyStaysShort(c: Config, first: nat, cuts: seq<nat>, last: nat, pts: nat, g: nat)
    requires c.segSec > 0 && last <= pts <= last + g && pts < PTS_MOD && ShortEdges(c, first, cuts, last, g)
    ensures ShortEdges(c, first, if Late(c, first, cuts, pts) then cuts + [pts] else cuts, pts, g)
  {
    var start := Edge(first, cuts, |cuts|);
    assert (pts - start) % PTS_MOD == pts - start;
    if pts - start >= c.segSec * 1000 {
      EdgesSnoc(c, first, cuts, pts, g);
    }
  }

  lemma {:induction false} StaysShort(c: Config, es: seq<Event>, g: nat)
    requires c.segSec > 0 && InRange(es) && Gaps(es, 0, g) && FirstPts(es).Some?
    ensures LastKey(es).Some? && ShortEdges(c, FirstPts(es).value, Called(c, es), LastKey(es).value, g)
  {
    var (front, e) := (es[..|es| - 1], es[|es| - 1]);
    Unstarted(c, front);
    if FirstPts(front).Some? {
      StaysShort(c, front, g);
      if IsKey(e) {
        KeyStaysShort(c, FirstPts(front).value, Called(c, front), LastKey(front).value, e.p.av.value.pts, g);
      }
    }
  }

  /** With keyframes at most g ms apart every segment lasts at least the target
      duration and less than g ms more. */
  lemma SegmentsShort(c: Config, s: Seg, es: seq<Event>, g: nat, i: nat)
    requires ValidConfig(c) && Fresh(s) && SteadyRun(c, s, es) && Filled(es) && Gaps(es, 0, g)
    requires FirstPts(es).Some? && i < |Cuts(c, s, es)|
    ensures var pieces := AfterFrom(c, s, es).shelf.pieces;
            && |pieces| == |s.shelf.pieces| + |Cuts(c, s, es)|
            && c.segSec as real <= pieces[|s.shelf.pieces| + i].dur < (c.segSec * 1000 + g) as real / 1000.0
  {
    var (first, cuts) := (FirstPts(es).value, Cuts(c, s, es));
    assert EdgeShort(c, first, cuts, i, g) by {
      SteadyInRange(c, s, es);
      StaysShort(c, es, g);
      CutsAsCalled(c, s, es);
    }
    SegmentsTileExactly(c, s, es);
    assert EdgeRises(first, cuts, i);
    assert TileAt(c, AfterFrom(c, s, es).shelf.pieces, |s.shelf.pieces|, first, cuts, i);
  }

  predicate EdgeExact(c: Config, first: nat, cuts: seq<nat>, i: nat)
    requires i < |cuts|
  {
    Edge(first, cuts, i + 1) - Edge(first, cuts, i) == c.segSec * 1000
  }

  lemma ExactKey(c: Config, first: nat, cuts: seq<nat>, pts: nat)
    requires pts == Edge(first, cuts, |cuts|) + c.segSec * 1000 < PTS_MOD
    requires forall i: nat :: i < |cuts| ==> EdgeExact(c, first, cuts, i)
    ensures Late(c, first, cuts, pts)
    ensures forall i: nat :: i < |cuts + [pts]| ==> EdgeExact(c, first, cuts + [pts], i)
  {
    var more := cuts + [pts];
    assert (pts - Edge(first, cuts, |cuts|)) % PTS_MOD == c.segSec * 1000;
    forall i: nat | i < |more| ensures EdgeExact(c, first, more, i) {
      assert Edge(first, more, i) == Edge(first, cuts, i);
      if i < |cuts| {
        assert EdgeExact(c, first, cuts, i);
        assert Edge(first, more, i + 1) == Edge(first, cuts, i + 1);
      }
    }
  }

  /** With keyframes exactly the target duration apart, from the first frame on,
      every one of them is called for, and the last cut is the latest. */
  lemma {:induction false} EveryKeyCuts(c: Config, es: seq<Event>)
    requires InRange(es) && Gaps(es, c.segSec * 1000, c.segSec * 1000) && FirstPts(es).Some?
    ensures var (first, cuts) := (FirstPts(es).value, Called(c, es));
            && |cuts| == KeysAfterFirst(es) && LastKey(es) == Some(Edge(first, cuts, |cuts|))
            && forall i: nat :: i < |cuts| ==> EdgeExact(c, first, cuts, i)
  {
    var (front, e) := (es[..|es| - 1], es[|es| - 1]);
    Unstarted(c, front);
    if FirstPts(front).Some? {
      EveryKeyCuts(c, front);
      if IsKey(e) {
        ExactKey(c, FirstPts(front).value, Called(c, front), e.p.av.value.pts);
      }
    }
  }

  /** So a GOP of exactly the target duration gives segments of exactly it, one a
      keyframe. */
  lemma ExactGopExactSegments(c: Config, s: Seg, es: seq<Event>, i: nat)
    requires ValidConfig(c) && Fresh(s) && SteadyRun(c, s, es) && Filled(es)
    requires Gaps(es, c.segSec * 1000, c.segSec * 1000) && FirstPts(es).Some? && i < KeysAfterFirst(es)
    ensures var pieces := AfterFrom(c, s, es).shelf.pieces;
            && |pieces| == |s.shelf.pieces| + KeysAfterFirst(es)
            && pieces[|s.shelf.pieces| + i].dur == c.segSec as real
  {
    var (first, cuts) := (FirstPts(es).value, Cuts(c, s, es));
    assert |cuts| == KeysAfterFirst(es) && EdgeExact(c, first, cuts, i) by {
      SteadyInRange(c, s, es);
      EveryKeyCuts(c, es);
      CutsAsCalled(c, s, es);
    }
    SegmentsTileExactly(c, s, es);
    assert EdgeRises(first, cuts, i);
    assert TileAt(c, AfterFrom(c, s, es).shelf.pieces, |s.shelf.pieces|, first, cuts, i);
  }

  /** A segment that lasts tiles exactly when its edges are in order. */
  lemma TileExactly(c: Config, pieces: seq<Piece>, from: nat, first: nat, cuts: seq<nat>, i: nat)
    requires ValidConfig(c) && Spanned(c, pieces, from, first, cuts) && i < |cuts|
    ensures TileAt(c, pieces, from, first, cuts, i) <==> EdgeRises(first, cuts, i)
    ensures pieces[from + i].dur >= (Edge(first, cuts, i + 1) - Edge(first, cuts, i)) as real / 1000.0
    ensures pieces[from + i].dur == (Edge(first, cuts, i + 1) - Edge(first, cuts, i)) as real / 1000.0
            <==> EdgeRises(first, cuts, i)
  {
    assert SpanAt(c, pieces, from, first, cuts, i);
  }

  /** On every run cut only at keyframes, each segment spans exactly from one edge
      to the next and lasts at least the target duration, if and only if its end
      is not before its start; so the segments tile media time, with no gap or
      overlap, exactly when the edges are in order. */
  lemma SegmentsTileExactly(c: Config, s: Seg, es: seq<Event>)
    requires ValidConfig(c) && Fresh(s) && SteadyRun(c, s, es) && FirstPts(es).Some?
    ensures var (pieces, first, cuts) := (AfterFrom(c, s, es).shelf.pieces, FirstPts(es).value, Cuts(c, s, es));
            && |pieces| == |s.shelf.pieces| + |cuts|
            && (forall i: nat :: i < |cuts| ==>
                  (TileAt(c, pieces, |s.shelf.pieces|, first, cuts, i) <==> EdgeRises(first, cuts, i)))
            && (Tiled(c, pieces, |s.shelf.pieces|, first, cuts) <==> EdgesRise(first, cuts))
  {
    RunOnEdge(c, s, es);
    var (pieces, from, first, cuts) := (AfterFrom(c, s, es).shelf.pieces, |s.shelf.pieces|, FirstPts(es).value, Cuts(c, s, es));
    forall i: nat | i < |cuts| ensures TileAt(c, pieces, from, first, cuts, i) <==> EdgeRises(first, cuts, i) {
      TileExactly(c, pieces, from, first, cuts, i);
    }
  }

  predicate IsKeyPts(es: seq<Event>, pts: nat) {
    exists i :: 0 <= i < |es| && IsKey(es[i]) && es[i].p.av.value.pts == pts
  }

  predicate AllKeys(es: seq<Event>, cuts: seq<nat>) {
    forall i :: 0 <= i < |cuts| ==> IsKeyPts(es, cuts[i])
  }

  predicate Increasing(cuts: seq<nat>) {
    forall i, j :: 0 <= i < j < |cuts| ==> cuts[i] < cuts[j]
  }

  lemma KeysBefore(es: seq<Event>, pts: nat)
    requires es != [] && KeysRise(es) && IsKeyPts(es[..|es| - 1], pts)
    ensures IsKeyPts(es, pts) && (IsKey(es[|es| - 1]) ==> pts < es[|es| - 1].p.av.value.pts)
  {
    var front := es[..|es| - 1];
    var i :| 0 <= i < |front| && IsKey(front[i]) && front[i].p.av.value.pts == pts;
    assert es[i] == front[i];
  }

  /** Cuts are keyframes, in order. */
  lemma {:induction false} CutsAreKeys(c: Config, s: Seg, es: seq<Event>)
    requires ValidConfig(c) && Fresh(s) && SteadyRun(c, s, es) && KeysRise(es)
    ensures AllKeys(es, Cuts(c, s, es)) && Increasing(Cuts(c, s, es))
  {
    if es != [] {
      var (front, e) := (es[..|es| - 1], es[|es| - 1]);
      CutsAreKeys(c, s, front);
      var cuts := Cuts(c, s, front);
      forall i | 0 <= i < |cuts| ensures IsKeyPts(es, cuts[i]) && (IsKey(e) ==> cuts[i] < e.p.av.value.pts) {
        KeysBefore(es, cuts[i]);
      }
      if e.In? {
        RunOnEdge(c, s, front);
        FrameStep(c, AfterFrom(c, s, front), e.p, e.now, e.writes);
        if Cuts(c, s, es) != cuts {
          assert IsKey(e) && Cuts(c, s, es) == cuts + [e.p.av.value.pts];
          assert es[|es| - 1] == e;
        }
      }
    }
  }

  /** With keyframes of increasing PTS every segment but the first tiles, and the
      first does exactly when the first frame is not above the first cut. */
  lemma SegmentsTile(c: Config, s: Seg, es: seq<Event>)
    requires ValidConfig(c) && Fresh(s) && SteadyRun(c, s, es) && KeysRise(es) && FirstPts(es).Some?
    ensures var (pieces, first, cuts) := (AfterFrom(c, s, es).shelf.pieces, FirstPts(es).value, Cuts(c, s, es));
            && |pieces| == |s.shelf.pieces| + |cuts|
            && (forall i: nat :: 1 <= i < |cuts| ==> TileAt(c, pieces, |s.shelf.pieces|, first, cuts, i))
            && (Tiled(c, pieces, |s.shelf.pieces|, first, cuts) <==> cuts == [] || first <= cuts[0])
  {
    SegmentsTileExactly(c, s, es);
    CutsAreKeys(c, s, es);
    var (first, cuts) := (FirstPts(es).value, Cuts(c, s, es));
    assert forall i: nat :: 1 <= i < |cuts| ==> EdgeRises(first, cuts, i);
    if cuts != [] {
      assert EdgeRises(first, cuts, 0) <==> first <= cuts[0];
    }
  }

  /** Durations add up to the distance between the outer edges exactly when every
      segment tiles; otherwise to more. */
  lemma {:induction false} Telescope(c: Config, pieces: seq<Piece>, from: nat, first: nat, cuts: seq<nat>)
    requires ValidConfig(c) && Spanned(c, pieces, from, first, cuts)
    ensures TotalDur(pieces[from..]) >= (Edge(first, cuts, |cuts|) - first) as real / 1000.0
    ensures TotalDur(pieces[from..]) == (Edge(first, cuts, |cuts|) - first) as real / 1000.0 <==> EdgesRise(first, cuts)
  {
    if cuts != [] {
      var n := |cuts| - 1;
      var head, short := pieces[..from + n], cuts[..n];
      forall i: nat | i < n
        ensures SpanAt(c, head, from, first, short, i) && (EdgeRises(first, short, i) <==> EdgeRises(first, cuts, i))
      {
        assert SpanAt(c, pieces, from, first, cuts, i);
        assert Edge(first, short, i) == Edge(first, cuts, i);
        assert Edge(first, short, i + 1) == Edge(first, cuts, i + 1);
      }
      Telescope(c, head, from, first, short);
      TileExactly(c, pieces, from, first, cuts, n);
      assert pieces[from..][..|pieces[from..]| - 1] == head[from..];
      assert Edge(first, short, n) == Edge(first, cuts, n);
      assert pieces[from..][n] == pieces[from + n];
    }
  }

  /** So on every such run the durations add up to the last cut's PTS minus the
      first frame's, if and only if the edges are in order. */
  lemma DurationsTelescope(c: Config, s: Seg, es: seq<Event>)
    requires ValidConfig(c) && Fresh(s) && SteadyRun(c, s, es) && FirstPts(es).Some?
    ensures var (first, cuts) := (FirstPts(es).value, Cuts(c, s, es));
            |s.shelf.pieces| <= |AfterFrom(c, s, es).shelf.pieces| &&
            (TotalDur(AfterFrom(c, s, es).shelf.pieces[|s.shelf.pieces|..])
             == (Edge(first, cuts, |cuts|) - first) as real / 1000.0
             <==> EdgesRise(first, cuts))
  {
    RunOnEdge(c, s, es);
    Telescope(c, AfterFrom(c, s, es).shelf.pieces, |s.shelf.pieces|, FirstPts(es).value, Cuts(c, s, es));
  }

  // -------------------------------------------------------------- a run that fails

  function AudioAt100(a: Chunk, now: real, writes: Writes): Event {
    In(Incoming(false, Some(Frame(100, false, false)), [a]), now, writes)
  }

  function KeyAt50(b: Chunk, now: real, writes: Writes): Event {
    In(Incoming(false, Some(Frame(50, true, true)), [b]), now, writes)
  }

  lemma AudioFirst(c: Config, a: Chunk, now: real, writes: Writes)
    ensures var (es, t) := ([AudioAt100(a, now, writes)], AfterFrom(c, START, [AudioAt100(a, now, writes)]));
            && SteadyRun(c, START, es) && FirstPts(es) == Some(100) && Cuts(c, START, es) == []
            && t.buf == a.bytes && t.segStart == Some(now) && t.media == Media(100, 100, true)
            && !t.discarding && t.shelf == START.shelf
  {
    var (e, r) := (AudioAt100(a, now, writes), Recorded(START, Frame(100, false, false)));
    assert [e][..0] == [] && [a][..0] == [];
    assert AppendedAll(r, [a], false, now) == Appended(AppendedAll(r, [], false, now), a, false, now);
    assert AfterFrom(c, START, []) == START;
    assert AfterFrom(c, START, [e]) == Step(c, START, e) == AppendedAll(r, [a], false, now);
  }

  /** That keyframe wraps the 64-bit difference, so it cuts at once. */
  lemma KeyCutsBelow(c: Config, t: Seg, b: Chunk, now: real, writes: Writes)
    requires ValidConfig(c) && c.segSec * 1000 < PTS_MOD - 50
    requires t.buf != [] && t.segStart == Some(now - 0.02) && t.media == Media(100, 100, true) && !t.discarding
    requires t.shelf.pieces == []
    ensures var u := Step(c, t, KeyAt50(b, now, writes)); |u.shelf.pieces| == 1 && u.shelf.pieces[0].dur == 0.02
  {
    var f := Frame(50, true, true);
    assert (50 - 100) % PTS_MOD == PTS_MOD - 50;
    KeyframeCut(c, t, f, now, writes);
    AppendedMedia(AtKeyframe(c, Recorded(t, f), f, now, writes), [b], false, now);
  }

  /** An audio frame first, then a keyframe 50 ms below it: one segment of the
      20 ms that passed by the clock, which spans no edges. */
  lemma EarlyKeyframeBreaksTiling(c: Config, a: Chunk, b: Chunk, now: real, writes: Writes)
    requires ValidConfig(c) && c.segSec * 1000 < PTS_MOD - 50 && a.bytes != []
    ensures var es := [AudioAt100(a, now, writes), KeyAt50(b, now + 0.02, writes)];
            var pieces := AfterFrom(c, START, es).shelf.pieces;
            && SteadyRun(c, START, es) && KeysRise(es) && FirstPts(es) == Some(100) && Cuts(c, START, es) == [50]
            && |pieces| == 1 && pieces[0].dur == 0.02 && !Tiled(c, pieces, 0, 100, [50])
  {
    var es := [AudioAt100(a, now, writes), KeyAt50(b, now + 0.02, writes)];
    assert es[..1] == [AudioAt100(a, now, writes)];
    AudioFirst(c, a, now, writes);
    KeyCutsBelow(c, AfterFrom(c, START, es[..1]), b, now + 0.02, writes);
    assert Cuts(c, START, es) == [] + [50];
    assert !TileAt(c, AfterFrom(c, START, es).shelf.pieces, 0, 100, [50], 0);
  }
}
