/** Whole runs of the segmenter: bytes, marks, anchors and playlists. */
module HlsRuns {
  import opened Domain
  import opened HlsScanner
  import opened HlsPlaylist
  import opened HlsSegmenter

  datatype Event =
    | In(p: Incoming, now: real, writes: Writes)
    | Tick(now: real, writes: Writes)
    | Stop(now: real, writes: Writes)

  function Step(c: Config, s: Seg, e: Event): Seg {
    match e
    case In(p, now, writes) => Handled(c, s, p, now, writes)
    case Tick(now, writes) => Ticked(c, s, now, writes)
    case Stop(now, writes) => Flushed(c, s, now, writes, false)
  }

  function AfterFrom(c: Config, s: Seg, es: seq<Event>): Seg {
    if es == [] then s else Step(c, AfterFrom(c, s, es[..|es| - 1]), es[|es| - 1])
  }

  function After(c: Config, es: seq<Event>): Seg {
    AfterFrom(c, START, es)
  }

  lemma AfterSnoc(c: Config, es: seq<Event>, e: Event)
    ensures After(c, es + [e]) == Step(c, After(c, es), e)
  {
    assert (es + [e])[..|es + [e]| - 1] == es;
  }

  // ------------------------------------------------------------ bytes and marks

  /** The bytes of one session that have been flushed, in order. */
  function Joined(pieces: seq<Piece>, k: nat): seq<bv8> {
    if pieces == [] then []
    else
      var last := pieces[|pieces| - 1];
      Joined(pieces[..|pieces| - 1], k) + (if last.session == k then last.bytes else [])
  }

  function LastSession(pieces: seq<Piece>): nat {
    if pieces == [] then 0 else pieces[|pieces| - 1].session
  }

  predicate StartsSession(pieces: seq<Piece>, i: nat)
    requires i < |pieces|
  {
    LastSession(pieces[..i]) < pieces[i].session
  }

  predicate FollowsForced(pieces: seq<Piece>, i: nat)
    requires i <= |pieces|
  {
    i > 0 && pieces[i - 1].forced
  }

  /** A segment is marked exactly when it opens a session other than the first or
      follows one the deadline cut off. */
  predicate MarkedAt(pieces: seq<Piece>, i: nat)
    requires i < |pieces|
  {
    pieces[i].disc <==> StartsSession(pieces, i) || FollowsForced(pieces, i)
  }

  /** Each session's bytes are its segments in order, then, for the session in
      progress, the accumulator. */
  ghost predicate BytesKept(pieces: seq<Piece>, fed: seq<seq<bv8>>, buf: seq<bv8>) {
    && fed != []
    && (forall k: nat :: k < |fed| - 1 ==> Joined(pieces, k) == fed[k])
    && Joined(pieces, |fed| - 1) + buf == fed[|fed| - 1]
  }

  ghost predicate SessionsInOrder(pieces: seq<Piece>) {
    forall i, j :: 0 <= i <= j < |pieces| ==> pieces[i].session <= pieces[j].session
  }

  ghost predicate AllMarked(pieces: seq<Piece>) {
    forall i: nat :: i < |pieces| ==> MarkedAt(pieces, i) && pieces[i].bytes != []
  }

  /** Sessions come in order, every segment is marked as it should be, and so
      will be the next. */
  ghost predicate MarksKept(pieces: seq<Piece>, session: nat, discNext: bool) {
    && LastSession(pieces) <= session && SessionsInOrder(pieces) && AllMarked(pieces)
    && (discNext <==> LastSession(pieces) < session || FollowsForced(pieces, |pieces|))
  }

  ghost predicate Ledger(s: Seg) {
    BytesKept(s.shelf.pieces, s.fed, s.buf) && MarksKept(s.shelf.pieces, Session(s), s.discNext)
  }

  lemma JoinedSnoc(pieces: seq<Piece>, p: Piece, k: nat)
    ensures Joined(pieces + [p], k) == Joined(pieces, k) + (if p.session == k then p.bytes else [])
  {
    assert (pieces + [p])[..|pieces + [p]| - 1] == pieces;
  }

  lemma {:induction false} JoinedNone(pieces: seq<Piece>, k: nat)
    requires forall i :: 0 <= i < |pieces| ==> pieces[i].session < k
    ensures Joined(pieces, k) == []
  {
    if pieces != [] {
      JoinedNone(pieces[..|pieces| - 1], k);
    }
  }

  /** Flushing a prefix of the accumulator and keeping the rest. */
  lemma BytesOfFlush(pieces: seq<Piece>, fed: seq<seq<bv8>>, buf: seq<bv8>, split: nat, p: Piece)
    requires BytesKept(pieces, fed, buf) && split <= |buf|
    requires p.bytes == buf[..split] && p.session == |fed| - 1
    ensures BytesKept(pieces + [p], fed, buf[split..])
  {
    forall k: nat ensures Joined(pieces + [p], k) == Joined(pieces, k) + (if p.session == k then p.bytes else []) {
      JoinedSnoc(pieces, p, k);
    }
    assert buf[..split] + buf[split..] == buf;
  }

  lemma BytesOfAppend(pieces: seq<Piece>, fed: seq<seq<bv8>>, buf: seq<bv8>, more: seq<bv8>)
    requires BytesKept(pieces, fed, buf)
    ensures BytesKept(pieces, fed[|fed| - 1 := fed[|fed| - 1] + more], buf + more)
  {
    assert (Joined(pieces, |fed| - 1) + buf) + more == Joined(pieces, |fed| - 1) + (buf + more);
  }

  lemma BytesOfSession(pieces: seq<Piece>, fed: seq<seq<bv8>>)
    requires BytesKept(pieces, fed, []) && forall i :: 0 <= i < |pieces| ==> pieces[i].session < |fed|
    ensures BytesKept(pieces, fed + [[]], [])
  {
    JoinedNone(pieces, |fed|);
    var last := |fed| - 1;
    assert Joined(pieces, last) + [] == Joined(pieces, last);
    forall k: nat | k < |fed + [[]]| - 1 ensures Joined(pieces, k) == (fed + [[]])[k] {
      assert k == last || Joined(pieces, k) == fed[k];
    }
  }

  lemma MarksOfFlush(pieces: seq<Piece>, p: Piece)
    requires MarksKept(pieces, p.session, p.disc) && p.bytes != []
    ensures MarksKept(pieces + [p], p.session, p.forced)
  {
    OrderOfFlush(pieces, p);
    NewMark(pieces, p);
    AllMarkedSnoc(pieces, p);
    assert (pieces + [p])[|pieces|] == p;
  }

  lemma AllMarkedSnoc(pieces: seq<Piece>, p: Piece)
    requires AllMarked(pieces) && MarkedAt(pieces + [p], |pieces|) && p.bytes != []
    ensures AllMarked(pieces + [p])
  {
    var more := pieces + [p];
    forall i: nat | i < |more| ensures MarkedAt(more, i) && more[i].bytes != [] {
      if i < |pieces| {
        EarlierMark(pieces, p, i);
      }
    }
  }

  lemma OrderOfFlush(pieces: seq<Piece>, p: Piece)
    requires LastSession(pieces) <= p.session && SessionsInOrder(pieces)
    ensures SessionsInOrder(pieces + [p])
  {
    forall i | 0 <= i < |pieces| ensures pieces[i].session <= p.session {
      assert pieces[i].session <= pieces[|pieces| - 1].session;
    }
  }

  lemma NewMark(pieces: seq<Piece>, p: Piece)
    requires p.disc <==> LastSession(pieces) < p.session || FollowsForced(pieces, |pieces|)
    requires LastSession(pieces) <= p.session
    ensures MarkedAt(pieces + [p], |pieces|)
  {
    assert (pieces + [p])[..|pieces|] == pieces;
    assert |pieces| > 0 ==> (pieces + [p])[|pieces| - 1] == pieces[|pieces| - 1];
  }

  lemma EarlierMark(pieces: seq<Piece>, p: Piece, i: nat)
    requires i < |pieces| && MarkedAt(pieces, i)
    ensures MarkedAt(pieces + [p], i)
  {
    assert (pieces + [p])[..i] == pieces[..i];
  }

  // ------------------------------------------------------------- effects of steps

  lemma FlushedEffect(c: Config, s: Seg, now: real, writes: Writes, forced: bool)
    requires s.buf != []
    ensures var t := Flushed(c, s, now, writes, forced);
            && t.shelf.pieces == s.shelf.pieces + [Cut(c, s, now, writes.segment, forced)]
            && t.fed == s.fed && t.buf == [] && !t.discNext && t.raw == s.raw && t.scan == s.scan
  {
    ShelvedPieces(c, s.shelf, Cut(c, s, now, writes.segment, forced), writes.manifest);
  }

  lemma PieceLedger(s: Seg, p: Piece)
    requires Ledger(s) && p.bytes == s.buf != [] && p.session == Session(s) && p.disc == s.discNext
    ensures BytesKept(s.shelf.pieces + [p], s.fed, []) && MarksKept(s.shelf.pieces + [p], Session(s), p.forced)
  {
    assert s.buf[..|s.buf|] == s.buf && s.buf[|s.buf|..] == [];
    BytesOfFlush(s.shelf.pieces, s.fed, s.buf, |s.buf|, p);
    MarksOfFlush(s.shelf.pieces, p);
  }

  lemma FlushedLedger(c: Config, s: Seg, now: real, writes: Writes)
    requires Ledger(s)
    ensures Ledger(Flushed(c, s, now, writes, false))
  {
    if s.buf != [] {
      FlushedEffect(c, s, now, writes, false);
      PieceLedger(s, Cut(c, s, now, writes.segment, false));
    }
  }

  lemma ForcedLedger(c: Config, s: Seg, now: real, writes: Writes)
    requires Ledger(s) && s.buf != []
    ensures Ledger(Forced(c, s, now, writes))
  {
    var (p, t) := (Cut(c, s, now, writes.segment, s.scan.None?), Forced(c, s, now, writes));
    assert t.shelf.pieces == s.shelf.pieces + [p] && t.fed == s.fed && t.buf == [] && t.discNext == p.forced by {
      FlushedEffect(c, s, now, writes, s.scan.None?);
    }
    PieceLedger(s, p);
  }

  lemma SplitEffect(c: Config, s: Seg, now: real, writes: Writes) returns (p: Piece)
    requires SplitsAtIdr(s)
    ensures var t := SplitAtIdr(c, s, now, writes);
            var split := s.scan.value.lastIdr - s.bufOffset;
            && t.shelf.pieces == s.shelf.pieces + [p] && p.bytes == s.buf[..split]
            && p.session == Session(s) && p.disc == s.discNext && !p.forced
            && t.fed == s.fed && t.buf == s.buf[split..] && !t.discNext && t.raw == s.raw && t.scan == s.scan
            && t.bufOffset == s.scan.value.lastIdr && t.scanned == s.scan.value.lastIdr
  {
    var u := s.(buf := s.buf[..s.scan.value.lastIdr - s.bufOffset]);
    p := Cut(c, u, now, writes.segment, false);
    FlushedEffect(c, u, now, writes, false);
  }

  lemma SplitPieces(pieces: seq<Piece>, fed: seq<seq<bv8>>, buf: seq<bv8>, split: nat, p: Piece)
    requires BytesKept(pieces, fed, buf) && 0 < split <= |buf| && p.bytes == buf[..split] && p.session == |fed| - 1
    requires MarksKept(pieces, p.session, p.disc)
    ensures BytesKept(pieces + [p], fed, buf[split..]) && MarksKept(pieces + [p], p.session, p.forced)
  {
    BytesOfFlush(pieces, fed, buf, split, p);
    MarksOfFlush(pieces, p);
  }

  lemma SplitLedger(c: Config, s: Seg, now: real, writes: Writes)
    requires Ledger(s) && SplitsAtIdr(s)
    ensures Ledger(SplitAtIdr(c, s, now, writes))
  {
    var p := SplitEffect(c, s, now, writes);
    SplitPieces(s.shelf.pieces, s.fed, s.buf, s.scan.value.lastIdr - s.bufOffset, p);
  }

  lemma {:induction false} AppendedLedger(s: Seg, chunks: seq<Chunk>, raw: bool, now: real)
    requires Ledger(s)
    ensures var t := AppendedAll(s, chunks, raw, now);
            Ledger(t) && t.shelf == s.shelf && t.discNext == s.discNext && |t.fed| == |s.fed|
  {
    if chunks != [] {
      AppendedLedger(s, chunks[..|chunks| - 1], raw, now);
      var t := AppendedAll(s, chunks[..|chunks| - 1], raw, now);
      BytesOfAppend(t.shelf.pieces, t.fed, t.buf, chunks[|chunks| - 1].bytes);
    }
  }

  lemma SessionLedger(pieces: seq<Piece>, fed: seq<seq<bv8>>, discNext: bool)
    requires BytesKept(pieces, fed, []) && MarksKept(pieces, |fed| - 1, discNext)
    ensures BytesKept(pieces, fed + [[]], []) && MarksKept(pieces, |fed|, true)
  {
    forall i | 0 <= i < |pieces| ensures pieces[i].session < |fed| {
      assert pieces[i].session <= pieces[|pieces| - 1].session;
    }
    BytesOfSession(pieces, fed);
  }

  lemma FlushedEmpties(c: Config, s: Seg, now: real, writes: Writes)
    ensures Flushed(c, s, now, writes, false).buf == [] && Flushed(c, s, now, writes, false).fed == s.fed
  {
  }

  lemma BoundedLedger(c: Config, s: Seg, now: real, writes: Writes)
    requires Ledger(s)
    ensures Ledger(Bounded(c, s, now, writes))
  {
    FlushedLedger(c, s, now, writes);
    FlushedEmpties(c, s, now, writes);
    var t := Flushed(c, s, now, writes, false);
    SessionLedger(t.shelf.pieces, t.fed, t.discNext);
  }

  lemma FrameLedger(c: Config, s: Seg, f: Frame, now: real, writes: Writes)
    requires Ledger(s)
    ensures Ledger(AtKeyframe(c, Recorded(Resumed(s, f), f), f, now, writes))
  {
    var r := Recorded(Resumed(s, f), f);
    assert Ledger(r) by {
      assert r.shelf == s.shelf && r.fed == s.fed && r.buf == s.buf && r.discNext == s.discNext;
    }
    FlushedLedger(c, r, now, writes);
    assert AtKeyframe(c, r, f, now, writes) == r || SameLedger(AtKeyframe(c, r, f, now, writes), Flushed(c, r, now, writes, false));
  }

  /** All the ledger looks at. */
  predicate SameLedger(s: Seg, t: Seg) {
    t.shelf == s.shelf && t.fed == s.fed && t.buf == s.buf && t.discNext == s.discNext
  }

  lemma HandledLedger(c: Config, s: Seg, p: Incoming, now: real, writes: Writes)
    requires Ledger(s)
    ensures Ledger(Handled(c, s, p, now, writes))
  {
    BoundedLedger(c, s, now, writes);
    var b := if p.sessionStart then Bounded(c, s, now, writes) else s;
    if p.av.None? {
      AppendedLedger(b, p.chunks, true, now);
    } else if !Dropped(b, p.av.value) {
      FrameLedger(c, b, p.av.value, now, writes);
      AppendedLedger(AtKeyframe(c, Recorded(Resumed(b, p.av.value), p.av.value), p.av.value, now, writes),
                     p.chunks, false, now);
    }
  }

  lemma GivenUpLedger(s: Seg)
    requires Ledger(s)
    ensures Ledger(GivenUp(s)) && GivenUp(s).buf == s.buf
  {
  }

  /** The outcomes of a tick. */
  lemma TickedCases(c: Config, s: Seg, now: real, writes: Writes)
    ensures var t := Ticked(c, s, now, writes);
            || t == s || t == GivenUp(s) || (SplitsAtIdr(s) && t == SplitAtIdr(c, s, now, writes))
            || (s.buf != [] && t == Forced(c, s, now, writes))
            || (s.buf != [] && t == Forced(c, GivenUp(s), now, writes))
  {
  }

  lemma TickedLedger(c: Config, s: Seg, now: real, writes: Writes)
    requires Ledger(s)
    ensures Ledger(Ticked(c, s, now, writes))
  {
    TickedCases(c, s, now, writes);
    GivenUpLedger(s);
    if SplitsAtIdr(s) {
      SplitLedger(c, s, now, writes);
    }
    if s.buf != [] {
      ForcedLedger(c, s, now, writes);
      ForcedLedger(c, GivenUp(s), now, writes);
    }
  }

  /** In every run each session's bytes are exactly its own segments followed by
      the accumulator, no segment mixes sessions, and the marked segments are
      exactly those that open a session or follow a deadline cut. */
  lemma {:induction false} SegmentsConserveBytes(c: Config, es: seq<Event>)
    ensures var s := After(c, es);
            BytesKept(s.shelf.pieces, s.fed, s.buf) && MarksKept(s.shelf.pieces, Session(s), s.discNext)
  {
    if es == [] {
      assert Joined([], 0) == [];
    } else {
      SegmentsConserveBytes(c, es[..|es| - 1]);
      match es[|es| - 1]
      case In(p, now, writes) => HandledLedger(c, After(c, es[..|es| - 1]), p, now, writes);
      case Tick(now, writes) => TickedLedger(c, After(c, es[..|es| - 1]), now, writes);
      case Stop(now, writes) => FlushedLedger(c, After(c, es[..|es| - 1]), now, writes);
    }
  }

  // ----------------------------------------------------- what was fed, from inputs

  function BytesOf(chunks: seq<Chunk>): seq<bv8> {
    if chunks == [] then [] else BytesOf(chunks[..|chunks| - 1]) + chunks[|chunks| - 1].bytes
  }

  /** A tick past four target durations over a non-empty accumulator, with no scanner
      to find a boundary. */
  predicate Overdue(c: Config, s: Seg, now: real) {
    s.buf != [] && s.segStart.Some? && now - s.segStart.value >= (4 * c.segSec) as real && s.scan.None?
  }

  /** The last of deadline cuts, video keyframes and session starts was a deadline cut. */
  function Awaits(c: Config, es: seq<Event>): bool {
    if es == [] then false
    else
      var front := es[..|es| - 1];
      match es[|es| - 1]
      case In(p, _, _) =>
        if p.sessionStart || (p.av.Some? && p.av.value.video && p.av.value.key) then false else Awaits(c, front)
      case Tick(now, _) => Overdue(c, After(c, front), now) || Awaits(c, front)
      case Stop(_, _) => Awaits(c, front)
  }

  lemma {:induction false} AppendedDiscarding(s: Seg, chunks: seq<Chunk>, raw: bool, now: real)
    ensures AppendedAll(s, chunks, raw, now).discarding == s.discarding
  {
    if chunks != [] {
      AppendedDiscarding(s, chunks[..|chunks| - 1], raw, now);
    }
  }

  lemma HandledDiscarding(c: Config, s: Seg, p: Incoming, now: real, writes: Writes)
    ensures Handled(c, s, p, now, writes).discarding
            <==> s.discarding && !p.sessionStart && !(p.av.Some? && p.av.value.video && p.av.value.key)
  {
    var b := if p.sessionStart then Bounded(c, s, now, writes) else s;
    if p.av.None? {
      AppendedDiscarding(b, p.chunks, true, now);
    } else {
      var f := p.av.value;
      AppendedDiscarding(AtKeyframe(c, Recorded(Resumed(b, f), f), f, now, writes), p.chunks, false, now);
    }
  }

  lemma TickedDiscarding(c: Config, s: Seg, now: real, writes: Writes)
    ensures Ticked(c, s, now, writes).discarding <==> Overdue(c, s, now) || s.discarding
  {
  }

  /** Over every run a keyframe is awaited exactly since a deadline cut. */
  lemma {:induction false} AwaitsExactly(c: Config, es: seq<Event>)
    ensures After(c, es).discarding == Awaits(c, es)
  {
    if es != [] {
      var front := es[..|es| - 1];
      AwaitsExactly(c, front);
      match es[|es| - 1]
      case In(p, now, writes) => HandledDiscarding(c, After(c, front), p, now, writes);
      case Tick(now, writes) => TickedDiscarding(c, After(c, front), now, writes);
      case Stop(_, _) =>
    }
  }

  /** The bytes of a run's packets, session by session; only video that is not a
      keyframe is left out, and only while a deadline cut awaits a keyframe. */
  function Accepted(c: Config, es: seq<Event>): (fed: seq<seq<bv8>>)
    ensures fed != []
  {
    if es == [] then [[]]
    else
      var front := es[..|es| - 1];
      var before := Accepted(c, front);
      match es[|es| - 1]
      case In(p, _, _) =>
        var fed := if p.sessionStart then before + [[]] else before;
        if p.av.Some? && Awaits(c, front) && !p.sessionStart && p.av.value.video && !p.av.value.key then fed
        else fed[|fed| - 1 := fed[|fed| - 1] + BytesOf(p.chunks)]
      case _ => before
  }

  lemma {:induction false} AppendedFed(s: Seg, chunks: seq<Chunk>, raw: bool, now: real)
    requires s.fed != []
    ensures AppendedAll(s, chunks, raw, now).fed == s.fed[|s.fed| - 1 := s.fed[|s.fed| - 1] + BytesOf(chunks)]
  {
    var last := s.fed[|s.fed| - 1];
    if chunks == [] {
      assert last + [] == last;
    } else {
      var front := chunks[..|chunks| - 1];
      AppendedFed(s, front, raw, now);
      assert (last + BytesOf(front)) + chunks[|chunks| - 1].bytes == last + BytesOf(chunks);
    }
  }

  lemma BoundedFed(c: Config, s: Seg, now: real, writes: Writes)
    ensures Bounded(c, s, now, writes).fed == s.fed + [[]] && !Bounded(c, s, now, writes).discarding
  {
  }

  lemma FrameFed(c: Config, s: Seg, f: Frame, now: real, writes: Writes)
    ensures AtKeyframe(c, Recorded(Resumed(s, f), f), f, now, writes).fed == s.fed
  {
  }

  /** What one packet feeds. */
  lemma HandledFed(c: Config, s: Seg, p: Incoming, now: real, writes: Writes)
    requires s.fed != []
    ensures var fed := if p.sessionStart then s.fed + [[]] else s.fed;
            Handled(c, s, p, now, writes).fed ==
            if p.av.Some? && s.discarding && !p.sessionStart && p.av.value.video && !p.av.value.key then fed
            else fed[|fed| - 1 := fed[|fed| - 1] + BytesOf(p.chunks)]
  {
    BoundedFed(c, s, now, writes);
    var b := if p.sessionStart then Bounded(c, s, now, writes) else s;
    if p.av.None? {
      AppendedFed(b, p.chunks, true, now);
    } else {
      FrameFed(c, b, p.av.value, now, writes);
      AppendedFed(AtKeyframe(c, Recorded(Resumed(b, p.av.value), p.av.value), p.av.value, now, writes),
                  p.chunks, false, now);
    }
  }

  lemma TickedFed(c: Config, s: Seg, now: real, writes: Writes)
    ensures Ticked(c, s, now, writes).fed == s.fed
  {
  }

  /** Nothing else is fed, in any other order. */
  lemma {:induction false} FedIsAccepted(c: Config, es: seq<Event>)
    ensures After(c, es).fed == Accepted(c, es)
  {
    if es != [] {
      var front := es[..|es| - 1];
      FedIsAccepted(c, front);
      AwaitsExactly(c, front);
      match es[|es| - 1]
      case In(p, now, writes) => HandledFed(c, After(c, front), p, now, writes);
      case Tick(now, writes) => TickedFed(c, After(c, front), now, writes);
      case Stop(now, writes) => FlushedEmpties(c, After(c, front), now, writes);
    }
  }

  // ------------------------------------------------------------- marks in playlists

  /** The first segment of a session, once written, is listed with the mark. */
  lemma BoundaryListedMarked(c: Config, es: seq<Event>, i: nat)
    requires var pieces := After(c, es).shelf.pieces; i < |pieces| && StartsSession(pieces, i) && pieces[i].ok
    ensures Entry(i + 1, After(c, es).shelf.pieces[i].dur, true) in Written(After(c, es).shelf.pieces)
  {
    SegmentsConserveBytes(c, es);
    var pieces := After(c, es).shelf.pieces;
    assert MarkedAt(pieces, i);
    WrittenExactly(pieces, Entry(i + 1, pieces[i].dur, true));
  }

  /** If that write fails the mark is lost: the first segment of the session that
      does get written carries it exactly when it is that first one, or follows a
      deadline cut. */
  lemma MarkSurvivesExactly(c: Config, es: seq<Event>, i: nat, j: nat)
    requires var pieces := After(c, es).shelf.pieces;
             i <= j < |pieces| && StartsSession(pieces, i) && pieces[j].session == pieces[i].session
    ensures var pieces := After(c, es).shelf.pieces;
            pieces[j].disc <==> j == i || FollowsForced(pieces, j)
  {
    SegmentsConserveBytes(c, es);
    var pieces := After(c, es).shelf.pieces;
    assert MarkedAt(pieces, j);
    if i < j {
      assert pieces[..j][j - 1] == pieces[j - 1];
      assert pieces[i].session <= pieces[j - 1].session <= pieces[j].session;
    }
  }

  // ---------------------------------------------------------------------- playlists

  /** One packet shelves at most one segment. */
  lemma HandledShelf(c: Config, s: Seg, q: Incoming, now: real, w: Writes) returns (p: Piece)
    ensures var t := Handled(c, s, q, now, w); t.shelf == s.shelf || t.shelf == Shelved(c, s.shelf, p, w.manifest)
    ensures p.ok == w.segment
  {
    var b := if q.sessionStart then Bounded(c, s, now, w) else s;
    if q.av.None? {
      p := Cut(c, s, now, w.segment, false);
      AppendedShelf(b, q.chunks, true, now);
    } else {
      var f := q.av.value;
      var r := Recorded(Resumed(b, f), f);
      p := if q.sessionStart then Cut(c, s, now, w.segment, false) else Cut(c, r, now, w.segment, false);
      AppendedShelf(AtKeyframe(c, r, f, now, w), q.chunks, false, now);
    }
  }

  /** Each step shelves at most one segment. */
  lemma StepShelf(c: Config, s: Seg, e: Event) returns (p: Piece, writes: Writes)
    ensures Step(c, s, e).shelf == s.shelf || Step(c, s, e).shelf == Shelved(c, s.shelf, p, writes.manifest)
    ensures writes == e.writes && p.ok == writes.segment
  {
    writes := e.writes;
    match e
    case In(q, now, w) => p := HandledShelf(c, s, q, now, w);
    case Tick(now, w) =>
      if SplitsAtIdr(s) && s.segStart.Some? && now - s.segStart.value >= c.segSec as real {
        p := Cut(c, s.(buf := s.buf[..s.scan.value.lastIdr - s.bufOffset]), now, w.segment, false);
      } else {
        p := Cut(c, s, now, w.segment, s.scan.None?);
      }
    case Stop(now, w) => p := Cut(c, s, now, w.segment, false);
  }

  lemma {:induction false} AppendedShelf(s: Seg, chunks: seq<Chunk>, raw: bool, now: real)
    ensures AppendedAll(s, chunks, raw, now).shelf == s.shelf
  {
    if chunks != [] {
      AppendedShelf(s, chunks[..|chunks| - 1], raw, now);
    }
  }

  lemma {:induction false} ShelfAlwaysSound(c: Config, es: seq<Event>)
    ensures ShelfSound(c, After(c, es).shelf)
    ensures (forall i :: 0 <= i < |es| ==> es[i].writes.segment) ==>
              forall k :: 0 <= k < |After(c, es).shelf.pieces| ==> After(c, es).shelf.pieces[k].ok
  {
    if es != [] {
      ShelfAlwaysSound(c, es[..|es| - 1]);
      var s := After(c, es[..|es| - 1]);
      var p, writes := StepShelf(c, s, es[|es| - 1]);
      ShelvedSound(c, s.shelf, p, writes.manifest);
      ShelvedPieces(c, s.shelf, p, writes.manifest);
    }
  }

  /** Of the playlists a run writes: the sequence number never falls, every listed
      file exists when the playlist is written, and listed durations round to at
      most the target. */
  lemma PlaylistsServe(c: Config, es: seq<Event>, i: nat, j: nat, e: nat)
    requires var ps := After(c, es).shelf.playlists; i <= j < |ps| && e < |ps[i].entries|
    ensures var ps := After(c, es).shelf.playlists;
            && ps[i].mediaSeq <= ps[j].mediaSeq
            && ps[i].entries[e].n in ps[i].files
            && (ps[i].entries[e].dur + 0.5).Floor <= ps[i].target
  {
    ShelfAlwaysSound(c, es);
    var d := After(c, es).shelf;
    var a, b := d.pieces[..d.playlists[i].made], d.pieces[..d.playlists[j].made];
    assert |a| <= |b|;
    assert b[..|a|] == a;
    MediaSequenceRises(c, b, |a|);
    ListedFilesExist(c, a, e);
    RoundedDurationsFit(c, a, e);
  }

  /** The playlist on disk after a run lists only existing files exactly when the
      segments written since it, for want of a playlist write, fit beside its
      window in what is kept. */
  lemma LastPlaylistServesExactly(c: Config, es: seq<Event>)
    requires After(c, es).shelf.playlists != []
    ensures var d := After(c, es).shelf;
            var last := d.playlists[|d.playlists| - 1];
            last.made <= |d.pieces| &&
            ((forall i :: 0 <= i < |last.entries| ==> last.entries[i].n in d.files)
             <==> last.entries == [] || !c.ephemeral
                  || |last.entries| + (|Written(d.pieces)| - |Written(d.pieces[..last.made])|) <= c.window + c.history)
  {
    ShelfAlwaysSound(c, es);
    var d := After(c, es).shelf;
    StalePlaylistFilesExactly(c, d.pieces, d.playlists[|d.playlists| - 1].made);
  }

  /** When every segment write succeeds, the segment numbered n has sequence
      number n - 1 in every playlist of the run. */
  lemma SegmentsKeepTheirNumbers(c: Config, es: seq<Event>, i: nat, e: nat)
    requires forall k :: 0 <= k < |es| ==> es[k].writes.segment
    requires var ps := After(c, es).shelf.playlists; i < |ps| && e < |ps[i].entries|
    ensures var p := After(c, es).shelf.playlists[i];
            && p.mediaSeq + e == p.entries[e].n - 1
            && p.mediaSeq == if p.made <= c.window then 0 else p.made - c.window
  {
    ShelfAlwaysSound(c, es);
    var d := After(c, es).shelf;
    SequenceNumbersStable(c, d.pieces, d.playlists[i].made, e);
  }

  /** Without that, a playlist numbers the segment n - 1 plus the number of later
      failed writes it was made after. */
  lemma SegmentNumbersExactly(c: Config, es: seq<Event>, i: nat, e: nat)
    requires var ps := After(c, es).shelf.playlists; i < |ps| && e < |ps[i].entries|
    ensures var d := After(c, es).shelf;
            var p := d.playlists[i];
            p.made <= |d.pieces| && p.mediaSeq + e == p.entries[e].n - 1 + FailedAfter(d.pieces[..p.made], p.entries[e].n)
  {
    ShelfAlwaysSound(c, es);
    var d := After(c, es).shelf;
    SequenceNumberLaw(c, d.pieces[..d.playlists[i].made], e);
  }
}
