/** The HLS segmenter: a byte accumulator cut at keyframes, at boundaries the
    scanner reports, at session starts and by deadline. Times are seconds on the
    wall clock; PTS values are 64-bit milliseconds. */
module HlsSegmenter {
  import opened Domain
  import opened HlsScanner
  import opened HlsPlaylist

  const PTS_MOD: nat := 0x1_0000_0000_0000_0000
  const DEADLINE_FACTOR: nat := 4

  datatype Frame = Frame(pts: nat, key: bool, video: bool)

  /** One aligned TS packet and how the scanner would read it. */
  datatype Chunk = Chunk(bytes: seq<bv8>, kind: Kind)

  /** One buffer packet: a session start flag, an access unit or none (then raw
      TS), and the aligned TS packets it turns into. */
  datatype Incoming = Incoming(sessionStart: bool, av: Option<Frame>, chunks: seq<Chunk>)

  /** Whether the writes an operation may make succeed. */
  datatype Writes = Writes(segment: bool, manifest: bool)

  /** Media time of the segment being filled. */
  datatype Media = Media(startPts: nat, lastPts: nat, started: bool)

  const NO_MEDIA := Media(0, 0, false)

  /** `fed` holds the bytes accepted so far, session by session, and `raw` those
      the scanner has seen. */
  datatype Seg = Seg(
    buf: seq<bv8>,
    segStart: Option<real>,
    discNext: bool,
    discarding: bool,
    media: Media,
    bufOffset: int,
    scanned: int,
    scan: Option<Scan>,
    shelf: Shelf,
    fed: seq<seq<bv8>>,
    raw: seq<bv8>)

  const START := Seg([], None, false, false, NO_MEDIA, 0, 0, None, EMPTY, [[]], [])

  // ------------------------------------------------------------- locked sections

  function Duration(c: Config, s: Seg, now: real): real {
    var wall := if s.segStart.Some? then now - s.segStart.value else 0.0;
    var dur := if s.media.started && s.media.lastPts > s.media.startPts
               then (s.media.lastPts - s.media.startPts) as real / 1000.0 else wall;
    if dur <= 0.0 then c.segSec as real else dur
  }

  function Session(s: Seg): nat {
    if s.fed == [] then 0 else |s.fed| - 1
  }

  /** The segment as flushed now. */
  function Cut(c: Config, s: Seg, now: real, ok: bool, forced: bool): Piece {
    Piece(s.buf, Duration(c, s, now), s.discNext, ok, Session(s), forced)
  }

  function Flushed(c: Config, s: Seg, now: real, writes: Writes, forced: bool): Seg {
    if s.buf == [] then s
    else
      Emptied(s).(shelf := Shelved(c, s.shelf, Cut(c, s, now, writes.segment, forced), writes.manifest))
  }

  /** The accumulator reset, its start re-anchored to what the scanner was fed. */
  function Emptied(s: Seg): Seg {
    var t := s.(buf := [], segStart := None, media := NO_MEDIA, discNext := false);
    match s.scan
    case None => t
    case Some(scan) => t.(bufOffset := scan.feed, scanned := scan.feed)
  }

  function Bounded(c: Config, s: Seg, now: real, writes: Writes): Seg {
    Flushed(c, s, now, writes, false).(discNext := true, discarding := false, fed := s.fed + [[]])
  }

  function Dropped(s: Seg, f: Frame): bool {
    s.discarding && f.video && !f.key
  }

  function Resumed(s: Seg, f: Frame): Seg {
    if s.discarding && f.video && f.key then s.(discarding := false) else s
  }

  function Recorded(s: Seg, f: Frame): Seg {
    s.(media := Media(if s.media.started then s.media.startPts else f.pts, f.pts, true))
  }

  predicate DueAtKeyframe(c: Config, s: Seg, f: Frame) {
    f.key && s.buf != [] && s.media.started && (f.pts - s.media.startPts) % PTS_MOD >= c.segSec * 1000
  }

  function AtKeyframe(c: Config, s: Seg, f: Frame, now: real, writes: Writes): Seg {
    if !DueAtKeyframe(c, s, f) then s
    else Flushed(c, s, now, writes, false).(media := Media(f.pts, f.pts, true))
  }

  function Appended(s: Seg, chunk: Chunk, raw: bool, now: real): Seg {
    var t := s.(segStart := if s.segStart.None? then Some(now) else s.segStart, buf := s.buf + chunk.bytes,
                fed := if s.fed == [] then [chunk.bytes] else s.fed[|s.fed| - 1 := s.fed[|s.fed| - 1] + chunk.bytes]);
    if !raw then t
    else t.(scan := Some(Scanned(if s.scan.None? then FRESH else s.scan.value, chunk.kind)), raw := s.raw + chunk.bytes)
  }

  function AppendedAll(s: Seg, chunks: seq<Chunk>, raw: bool, now: real): Seg {
    if chunks == [] then s
    else Appended(AppendedAll(s, chunks[..|chunks| - 1], raw, now), chunks[|chunks| - 1], raw, now)
  }

  function Handled(c: Config, s: Seg, p: Incoming, now: real, writes: Writes): Seg {
    var b := if p.sessionStart then Bounded(c, s, now, writes) else s;
    match p.av
    case None => AppendedAll(b, p.chunks, true, now)
    case Some(f) =>
      if Dropped(b, f) then b
      else AppendedAll(AtKeyframe(c, Recorded(Resumed(b, f), f), f, now, writes), p.chunks, false, now)
  }

  /** A boundary the segmenter has not considered yet lies strictly inside the
      accumulator. */
  predicate SplitsAtIdr(s: Seg) {
    s.scan.Some? && s.scan.value.lastIdr > s.scanned && 0 < s.scan.value.lastIdr - s.bufOffset < |s.buf|
  }

  function SplitAtIdr(c: Config, s: Seg, now: real, writes: Writes): Seg
    requires SplitsAtIdr(s)
  {
    var idr := s.scan.value.lastIdr;
    Flushed(c, s.(buf := s.buf[..idr - s.bufOffset]), now, writes, false)
    .(buf := s.buf[idr - s.bufOffset..], segStart := Some(now), bufOffset := idr, scanned := idr)
  }

  /** A new boundary that cannot be used is given up. */
  function GivenUp(s: Seg): Seg {
    if s.scan.Some? && s.scan.value.lastIdr > s.scanned && !SplitsAtIdr(s) then s.(scanned := s.scan.value.lastIdr) else s
  }

  function Forced(c: Config, s: Seg, now: real, writes: Writes): Seg {
    var t := Flushed(c, s, now, writes, s.scan.None?);
    if s.scan.Some? then t else t.(discarding := true, discNext := true)
  }

  function Ticked(c: Config, s: Seg, now: real, writes: Writes): Seg {
    if s.buf == [] || s.segStart.None? then s
    else
      var elapsed := now - s.segStart.value;
      var due := s.scan.Some? && elapsed >= c.segSec as real;
      if due && SplitsAtIdr(s) then SplitAtIdr(c, s, now, writes)
      else
        var t := if due then GivenUp(s) else s;
        if elapsed >= (DEADLINE_FACTOR * c.segSec) as real then Forced(c, t, now, writes) else t
  }

  // ------------------------------------------------------------------- the object

  class Segmenter {
    const c: Config
    var segBuf: seq<bv8>
    var segStart: Option<real>
    var discNext: bool
    var segStartMediaPTS: nat
    var lastMediaPTS: nat
    var hasMediaStart: bool
    var segBufStartOffset: int
    var scannedOffset: int
    var segN: nat
    var onDisk: seq<Entry>
    var scanner: KeyframeScanner?
    var discardUntilIDR: bool
    ghost var shelf: Shelf  // with the files and playlists on disk
    ghost var fed: seq<seq<bv8>>
    ghost var raw: seq<bv8>

    ghost predicate Valid()
      reads this
    {
      ValidConfig(c) && shelf.segN == segN && shelf.onDisk == onDisk
    }

    ghost function View(): Seg
      reads this, scanner
    {
      Seg(segBuf, segStart, discNext, discardUntilIDR, Media(segStartMediaPTS, lastMediaPTS, hasMediaStart),
          segBufStartOffset, scannedOffset, if scanner == null then None else Some(scanner.View()), shelf, fed, raw)
    }

    constructor (c: Config)
      requires ValidConfig(c)
      ensures Valid() && this.c == c && scanner == null && View() == START
    {
      this.c := c;
      segBuf, segStart, discNext, discardUntilIDR := [], None, false, false;
      segStartMediaPTS, lastMediaPTS, hasMediaStart := 0, 0, false;
      segBufStartOffset, scannedOffset, scanner := 0, 0, null;
      segN, onDisk, shelf := 0, [], EMPTY;
      fed, raw := [[]], [];
    }

    method WindowTailEntries(entries: seq<Entry>, n: int) returns (win: seq<Entry>)
      ensures win == if n <= 0 then entries else Tail(entries, n)
    {
      if n <= 0 || |entries| == 0 { return entries; }
      if |entries| <= n { return entries; }
      return entries[|entries| - n..];
    }

    /** Removes the oldest segments beyond the window and history. */
    method TrimDisk()
      requires Valid()
      modifies this`onDisk, this`shelf
      ensures Valid() && shelf == Trimmed(c, old(shelf))
    {
      var maxKeep := c.window + c.history;
      if !c.ephemeral { return; }
      while |onDisk| > maxKeep
        invariant Valid() && Trimmed(c, shelf) == Trimmed(c, old(shelf))
        decreases |onDisk|
      {
        shelf := shelf.(onDisk := onDisk[1..], files := shelf.files - {onDisk[0].n});
        onDisk := onDisk[1..];
      }
    }

    /** Writes the window; the target duration covers every listed segment. */
    method WriteManifest(ok: bool)
      requires Valid()
      modifies this`shelf
      ensures Valid() && shelf == Published(c, old(shelf), ok)
    {
      if !c.manifest { return; }
      var win := WindowTailEntries(onDisk, c.window);
      var targetDur := c.segSec + 1;
      for i := 0 to |win|
        invariant targetDur == Target(c.segSec, win[..i])
      {
        assert win[..i + 1][..i] == win[..i];
        var d := win[i].dur.Floor + 1;
        if d > targetDur {
          targetDur := d;
        }
      }
      assert win[..|win|] == win;
      var mediaSeq := segN - |win|;
      if mediaSeq < 0 {
        mediaSeq := 0;
      }
      if ok {
        shelf := shelf.(playlists := shelf.playlists + [Playlist(targetDur, mediaSeq, win, |shelf.pieces|, shelf.files)]);
      }
    }

    method FlushLocked(now: real, writes: Writes, ghost forced: bool)
      requires Valid()
      modifies this
      ensures Valid() && View() == Flushed(c, old(View()), now, writes, forced) && scanner == old(scanner)
    {
      if |segBuf| == 0 { return; }
      var dur := SegmentDuration(now);
      var disc := discNext;
      ghost var piece := Cut(c, View(), now, writes.segment, forced);
      ResetAccumulator();
      WriteSegment(dur, disc, writes, piece);
    }

    /** Media time when it advanced, else the wall clock, else the target. */
    method SegmentDuration(now: real) returns (dur: real)
      requires Valid()
      ensures dur == Duration(c, View(), now) > 0.0
    {
      dur := 0.0;
      if segStart.Some? {
        dur := now - segStart.value;
      }
      if hasMediaStart && lastMediaPTS > segStartMediaPTS {
        dur := (lastMediaPTS - segStartMediaPTS) as real / 1000.0;
      }
      if dur <= 0.0 {
        dur := c.segSec as real;
      }
    }

    method ResetAccumulator()
      requires Valid()
      modifies this`segBuf, this`segStart, this`hasMediaStart, this`segStartMediaPTS, this`lastMediaPTS,
               this`segBufStartOffset, this`scannedOffset, this`discNext
      ensures Valid() && View() == Emptied(old(View()))
    {
      segBuf, segStart := [], None;
      ClearMedia();
      if scanner != null {
        segBufStartOffset, scannedOffset := scanner.feedOffset, scanner.feedOffset;
      }
    }

    method ClearMedia()
      requires Valid()
      modifies this`hasMediaStart, this`segStartMediaPTS, this`lastMediaPTS, this`discNext
      ensures Valid() && View() == old(View()).(media := NO_MEDIA, discNext := false)
    {
      hasMediaStart, segStartMediaPTS, lastMediaPTS := false, 0, 0;
      discNext := false;
    }

    /** Writes the file under the next number, then trims and republishes. */
    method WriteSegment(dur: real, disc: bool, writes: Writes, ghost piece: Piece)
      requires Valid() && piece.dur == dur && piece.disc == disc && piece.ok == writes.segment
      modifies this`segN, this`onDisk, this`shelf
      ensures Valid() && shelf == Shelved(c, old(shelf), piece, writes.manifest)
    {
      segN := segN + 1;
      shelf := shelf.(segN := segN, pieces := shelf.pieces + [piece]);
      if !writes.segment { return; }
      onDisk := onDisk + [Entry(segN, dur, disc)];
      shelf := shelf.(onDisk := onDisk, files := shelf.files + {segN});
      TrimDisk();
      WriteManifest(writes.manifest);
    }

    method DoFlush(now: real, writes: Writes)
      requires Valid()
      modifies this
      ensures Valid() && View() == Flushed(c, old(View()), now, writes, false) && scanner == old(scanner)
    {
      if |segBuf| > 0 {
        FlushLocked(now, writes, false);
      }
    }

    method OnSessionBoundary(now: real, writes: Writes)
      requires Valid()
      modifies this
      ensures Valid() && View() == Bounded(c, old(View()), now, writes) && scanner == old(scanner)
    {
      if |segBuf| > 0 {
        FlushLocked(now, writes, false);
      }
      discNext := true;
      discardUntilIDR := false;
      fed := fed + [[]];
    }

    method ShouldDropAVPacket(f: Frame) returns (drop: bool)
      requires Valid()
      modifies this`discardUntilIDR
      ensures drop == Dropped(old(View()), f)
      ensures Valid() && View() == Resumed(old(View()), f)
    {
      if !discardUntilIDR { return false; }
      if !f.video { return false; }
      if f.key {
        discardUntilIDR := false;
        return false;
      }
      return true;
    }

    method RecordMediaTime(f: Frame)
      requires Valid()
      modifies this`segStartMediaPTS, this`lastMediaPTS, this`hasMediaStart
      ensures Valid() && View() == Recorded(old(View()), f)
    {
      if !hasMediaStart {
        segStartMediaPTS := f.pts;
        hasMediaStart := true;
      }
      lastMediaPTS := f.pts;
    }

    method MaybeFlushAtKeyframe(f: Frame, now: real, writes: Writes)
      requires Valid()
      modifies this
      ensures Valid() && View() == AtKeyframe(c, old(View()), f, now, writes) && scanner == old(scanner)
    {
      if !f.key { return; }
      if |segBuf| == 0 || !hasMediaStart { return; }
      if (f.pts - segStartMediaPTS) % PTS_MOD < c.segSec * 1000 { return; }
      FlushLocked(now, writes, false);
      segStartMediaPTS, lastMediaPTS, hasMediaStart := f.pts, f.pts, true;
    }

    method AppendSegment188(chunk: Chunk, rawTS: bool, now: real)
      requires Valid()
      modifies this, scanner
      ensures Valid() && View() == Appended(old(View()), chunk, rawTS, now)
      ensures scanner == old(scanner) || (old(scanner) == null && fresh(scanner))
    {
      if segStart.None? {
        segStart := Some(now);
      }
      segBuf := segBuf + chunk.bytes;
      fed := if fed == [] then [chunk.bytes] else fed[|fed| - 1 := fed[|fed| - 1] + chunk.bytes];
      if rawTS {
        ScanPacket(chunk);
      }
    }

    /** Shows one raw packet to the scanner, created with the first of them. */
    method ScanPacket(chunk: Chunk)
      modifies this`scanner, this`raw, scanner
      ensures scanner != null && (scanner == old(scanner) || (old(scanner) == null && fresh(scanner)))
      ensures View() == old(View()).(scan := View().scan, raw := old(raw) + chunk.bytes)
      ensures scanner.View() == Scanned(if old(scanner) == null then FRESH else old(scanner.View()), chunk.kind)
    {
      if scanner == null {
        scanner := new KeyframeScanner();
      }
      scanner.Process188(chunk.kind);
      raw := raw + chunk.bytes;
    }

    method HandleIncoming(p: Incoming, now: real, writes: Writes)
      requires Valid()
      modifies this, scanner
      ensures Valid() && View() == Handled(c, old(View()), p, now, writes)
      ensures scanner == old(scanner) || (old(scanner) == null && fresh(scanner))
    {
      if p.sessionStart {
        OnSessionBoundary(now, writes);
      }
      if p.av.Some? {
        var drop := ShouldDropAVPacket(p.av.value);
        if drop { return; }
        RecordMediaTime(p.av.value);
        MaybeFlushAtKeyframe(p.av.value, now, writes);
      }
      AppendAll(p.chunks, p.av.None?, now);
    }

    /** Appends the aligned packets in order. */
    method AppendAll(chunks: seq<Chunk>, rawTS: bool, now: real)
      requires Valid()
      modifies this, scanner
      ensures Valid() && View() == AppendedAll(old(View()), chunks, rawTS, now)
      ensures scanner == old(scanner) || (old(scanner) == null && fresh(scanner))
    {
      for i := 0 to |chunks|
        invariant Valid() && View() == AppendedAll(old(View()), chunks[..i], rawTS, now)
        invariant scanner == old(scanner) || (old(scanner) == null && fresh(scanner))
      {
        assert chunks[..i + 1][..i] == chunks[..i];
        AppendSegment188(chunks[i], rawTS, now);
      }
      assert chunks[..|chunks|] == chunks;
    }

    method TryFlushAtIDR(now: real, writes: Writes) returns (flushed: bool)
      requires Valid() && scanner != null
      modifies this
      ensures scanner == old(scanner) && flushed == SplitsAtIdr(old(View()))
      ensures Valid() && View() == if flushed then SplitAtIdr(c, old(View()), now, writes) else GivenUp(old(View()))
    {
      var idrAbs := scanner.lastIDROffset;
      if idrAbs <= scannedOffset { return false; }
      var split := idrAbs - segBufStartOffset;
      if split <= 0 || split >= |segBuf| {
        scannedOffset := idrAbs;
        return false;
      }
      ghost var s := View();
      var carry := segBuf[split..];
      segBuf := segBuf[..split];
      assert View() == s.(buf := s.buf[..split]);
      FlushLocked(now, writes, false);
      assert View() == Flushed(c, s.(buf := s.buf[..split]), now, writes, false);
      CarryOver(carry, now, idrAbs);
      return true;
    }

    /** The carry opens the next segment at the boundary. */
    method CarryOver(carry: seq<bv8>, now: real, idrAbs: int)
      requires Valid()
      modifies this`segBuf, this`segStart, this`segBufStartOffset, this`scannedOffset
      ensures Valid()
      ensures View() == old(View()).(buf := carry, segStart := Some(now), bufOffset := idrAbs, scanned := idrAbs)
    {
      segBuf, segStart := carry, Some(now);
      segBufStartOffset, scannedOffset := idrAbs, idrAbs;
    }

    method TickFlush(now: real, writes: Writes)
      requires Valid()
      modifies this
      ensures Valid() && View() == Ticked(c, old(View()), now, writes) && scanner == old(scanner)
    {
      if |segBuf| == 0 || segStart.None? { return; }
      var elapsed := now - segStart.value;
      if scanner != null && elapsed >= c.segSec as real {
        var flushed := TryFlushAtIDR(now, writes);
        if flushed { return; }
      }
      if elapsed >= (DEADLINE_FACTOR * c.segSec) as real {
        FlushLocked(now, writes, scanner == null);
        if scanner == null {
          discardUntilIDR := true;
          discNext := true;
        }
      }
    }
  }
}
