/** When ticks cut, and from when they count. */
module HlsCadence {
  import opened Domain
  import opened HlsScanner
  import opened HlsPlaylist
  import opened HlsSegmenter
  import opened HlsRuns

  /** The scanner has reported a boundary since the last one considered, and it lies
      strictly inside the accumulator. */
  predicate NewBoundaryInside(s: Seg) {
    s.scan.Some? && s.scan.value.lastIdr > s.scanned && s.bufOffset < s.scan.value.lastIdr < s.bufOffset + |s.buf|
  }

  /** How long the segment in progress has been filling. */
  function Age(s: Seg, now: real): real
    requires s.segStart.Some?
  {
    now - s.segStart.value
  }

  /** A tick emits a segment if and only if the accumulator is not empty and has been
      filling for the target duration with a new boundary inside it, or for four; one
      segment then, marked as a deadline cut only where there is no scanner. */
  lemma TickCutsExactly(c: Config, s: Seg, now: real, writes: Writes)
    requires ValidConfig(c)
    ensures var t := Ticked(c, s, now, writes);
            var atBoundary := s.buf != [] && s.segStart.Some? && Age(s, now) >= c.segSec as real && NewBoundaryInside(s);
            var overdue := s.buf != [] && s.segStart.Some? && Age(s, now) >= (4 * c.segSec) as real;
            && |t.shelf.pieces| == |s.shelf.pieces| + (if atBoundary || overdue then 1 else 0)
            && t.shelf.pieces[..|s.shelf.pieces|] == s.shelf.pieces
            && (atBoundary ==> !t.shelf.pieces[|s.shelf.pieces|].forced && t.bufOffset == s.scan.value.lastIdr)
            && (!atBoundary && overdue ==> (t.shelf.pieces[|s.shelf.pieces|].forced <==> s.scan.None?) && t.buf == [])
  {
    if s.buf != [] && s.segStart.Some? {
      if s.scan.Some? && Age(s, now) >= c.segSec as real && SplitsAtIdr(s) {
        var p := SplitEffect(c, s, now, writes);
      } else {
        FlushedEffect(c, s, now, writes, s.scan.None?);
        FlushedEffect(c, GivenUp(s), now, writes, s.scan.None?);
      }
    }
  }

  lemma {:induction false} AppendedClock(s: Seg, chunks: seq<Chunk>, raw: bool, now: real)
    ensures var t := AppendedAll(s, chunks, raw, now);
            && t.segStart == (if chunks != [] && s.segStart.None? then Some(now) else s.segStart) && t.shelf == s.shelf
  {
    if chunks != [] {
      AppendedClock(s, chunks[..|chunks| - 1], raw, now);
    }
  }

  /** A packet that is not dropped starts the clock if it brings TS packets to an
      accumulator nothing has joined since the last segment was emitted; nothing else
      moves it. */
  lemma PacketClock(c: Config, s: Seg, p: Incoming, now: real, writes: Writes)
    ensures var t := Handled(c, s, p, now, writes);
            var emitted := |t.shelf.pieces| > |s.shelf.pieces|;
            var dropped := p.av.Some? && s.discarding && !p.sessionStart && p.av.value.video && !p.av.value.key;
            t.segStart == if !dropped && p.chunks != [] && (emitted || s.segStart.None?) then Some(now)
                          else if emitted then None else s.segStart
  {
    var b := if p.sessionStart then Bounded(c, s, now, writes) else s;
    BoundedClock(c, s, now, writes);
    if p.av.None? {
      AppendedClock(b, p.chunks, true, now);
    } else if !Dropped(b, p.av.value) {
      var r := Recorded(Resumed(b, p.av.value), p.av.value);
      KeyframeClock(c, r, p.av.value, now, writes);
      AppendedClock(AtKeyframe(c, r, p.av.value, now, writes), p.chunks, false, now);
    }
  }

  lemma BoundedClock(c: Config, s: Seg, now: real, writes: Writes)
    ensures var t := Bounded(c, s, now, writes);
            && t.buf == [] && |t.shelf.pieces| == |s.shelf.pieces| + (if s.buf != [] then 1 else 0)
            && t.segStart == if s.buf != [] then None else s.segStart
  {
    if s.buf != [] {
      FlushedEffect(c, s, now, writes, false);
    }
  }

  lemma KeyframeClock(c: Config, s: Seg, f: Frame, now: real, writes: Writes)
    ensures var t := AtKeyframe(c, s, f, now, writes);
            && (t.shelf == s.shelf || (s.buf != [] && |t.shelf.pieces| == |s.shelf.pieces| + 1))
            && t.segStart == (if |t.shelf.pieces| > |s.shelf.pieces| then None else s.segStart)
            && t.media == if |t.shelf.pieces| > |s.shelf.pieces| then Media(f.pts, f.pts, true) else s.media
  {
    if DueAtKeyframe(c, s, f) {
      FlushedEffect(c, s, now, writes, false);
    }
  }

  /** A tick restarts it at a boundary and stops it at a deadline. */
  lemma TickClock(c: Config, s: Seg, now: real, writes: Writes)
    ensures var t := Ticked(c, s, now, writes);
            t.segStart == if |t.shelf.pieces| == |s.shelf.pieces| then s.segStart
                          else if t.buf == [] then None else Some(now)
  {
    if s.buf != [] && s.segStart.Some? {
      if s.scan.Some? && Age(s, now) >= c.segSec as real && SplitsAtIdr(s) {
        var p := SplitEffect(c, s, now, writes);
      } else {
        FlushedEffect(c, s, now, writes, s.scan.None?);
        FlushedEffect(c, GivenUp(s), now, writes, s.scan.None?);
      }
    }
  }

  lemma {:induction false} AppendedKeepsMedia(s: Seg, chunks: seq<Chunk>, raw: bool, now: real)
    ensures AppendedAll(s, chunks, raw, now).media == s.media && AppendedAll(s, chunks, raw, now).shelf == s.shelf
  {
    if chunks != [] {
      AppendedKeepsMedia(s, chunks[..|chunks| - 1], raw, now);
    }
  }

  /** The media time of a segment starts with the first frame accepted since the last
      one was emitted, the frame that cut it included, and runs to the latest. */
  lemma PacketMedia(c: Config, s: Seg, p: Incoming, now: real, writes: Writes)
    ensures var t := Handled(c, s, p, now, writes);
            var emitted := |t.shelf.pieces| > |s.shelf.pieces|;
            t.media == if p.av.Some? && !(s.discarding && !p.sessionStart && p.av.value.video && !p.av.value.key) then
                         Media(if emitted || !s.media.started then p.av.value.pts else s.media.startPts, p.av.value.pts, true)
                       else if emitted then Media(0, 0, false) else s.media
  {
    var b := if p.sessionStart then Bounded(c, s, now, writes) else s;
    BoundedClock(c, s, now, writes);
    BoundedMedia(c, s, now, writes);
    if p.av.None? {
      AppendedKeepsMedia(b, p.chunks, true, now);
    } else if !Dropped(b, p.av.value) {
      var r := Recorded(Resumed(b, p.av.value), p.av.value);
      KeyframeClock(c, r, p.av.value, now, writes);
      AppendedKeepsMedia(AtKeyframe(c, r, p.av.value, now, writes), p.chunks, false, now);
    }
  }

  lemma BoundedMedia(c: Config, s: Seg, now: real, writes: Writes)
    ensures Bounded(c, s, now, writes).media == if s.buf != [] then Media(0, 0, false) else s.media
  {
  }

  /** A tick that emits leaves none. */
  lemma TickMedia(c: Config, s: Seg, now: real, writes: Writes)
    ensures var t := Ticked(c, s, now, writes);
            t.media == if |t.shelf.pieces| > |s.shelf.pieces| then Media(0, 0, false) else s.media
  {
    if s.buf != [] && s.segStart.Some? {
      if s.scan.Some? && Age(s, now) >= c.segSec as real && SplitsAtIdr(s) {
        var p := SplitEffect(c, s, now, writes);
      } else {
        FlushedEffect(c, s, now, writes, s.scan.None?);
        FlushedEffect(c, GivenUp(s), now, writes, s.scan.None?);
      }
    }
  }
}
