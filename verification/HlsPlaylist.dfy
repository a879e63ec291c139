/** The sliding playlist and the segment files behind it. */
module HlsPlaylist {

  /** One flushed segment: its bytes, duration in seconds and discontinuity mark,
      whether its file was written, the session its bytes came from, and whether
      the deadline cut it off with no scanner to find a keyframe. */
  datatype Piece = Piece(bytes: seq<bv8>, dur: real, disc: bool, ok: bool, session: nat, forced: bool)

  /** A listed segment; `n` is the number in its file name. */
  datatype Entry = Entry(n: nat, dur: real, disc: bool)

  /** A written playlist; `made` is the number of segments flushed by then and
      `files` the segment files that existed. */
  datatype Playlist = Playlist(target: int, mediaSeq: nat, entries: seq<Entry>, made: nat, files: set<nat>)

  datatype Config = Config(segSec: nat, window: nat, history: nat, ephemeral: bool, manifest: bool)

  predicate ValidConfig(c: Config) {
    c.segSec > 0 && c.window > 0
  }

  const DEFAULT_LIVE_SEGMENT_SEC: nat := 2
  const DEFAULT_LIVE_WINDOW: nat := 12
  const DEFAULT_LIVE_HISTORY: nat := 0

  /** Settings as used: values out of range become the defaults. */
  function Configured(segSec: int, window: int, history: int, ephemeral: bool, manifest: bool): (c: Config)
    ensures ValidConfig(c)
    ensures segSec > 0 && window > 0 && history >= 0 ==> c == Config(segSec, window, history, ephemeral, manifest)
  {
    Config(if segSec <= 0 then DEFAULT_LIVE_SEGMENT_SEC else segSec,
           if window <= 0 then DEFAULT_LIVE_WINDOW else window,
           if history < 0 then DEFAULT_LIVE_HISTORY else history, ephemeral, manifest)
  }

  datatype Shelf = Shelf(segN: nat, onDisk: seq<Entry>, files: set<nat>, playlists: seq<Playlist>, pieces: seq<Piece>)

  const EMPTY := Shelf(0, [], {}, [], [])

  // -------------------------------------------------------------------- one flush

  function Tail<T>(s: seq<T>, n: nat): (r: seq<T>)
    ensures |r| == if |s| <= n then |s| else n
  {
    if |s| <= n then s else s[|s| - n..]
  }

  function Target(segSec: nat, entries: seq<Entry>): int {
    if entries == [] then segSec + 1
    else
      var t := Target(segSec, entries[..|entries| - 1]);
      var c := entries[|entries| - 1].dur.Floor + 1;
      if c > t then c else t
  }

  function Trimmed(c: Config, d: Shelf): Shelf
    decreases |d.onDisk|
  {
    if !c.ephemeral || |d.onDisk| <= c.window + c.history then d
    else Trimmed(c, d.(onDisk := d.onDisk[1..], files := d.files - {d.onDisk[0].n}))
  }

  /** The window is the playlist the flush writes. */
  function Manifest(c: Config, d: Shelf): Playlist {
    var win := Tail(d.onDisk, c.window);
    Playlist(Target(c.segSec, win), if d.segN < |win| then 0 else d.segN - |win|, win, |d.pieces|, d.files)
  }

  function Published(c: Config, d: Shelf, ok: bool): Shelf {
    if c.manifest && ok then d.(playlists := d.playlists + [Manifest(c, d)]) else d
  }

  function Shelved(c: Config, d: Shelf, p: Piece, manifestOk: bool): Shelf {
    var e := d.(segN := d.segN + 1, pieces := d.pieces + [p]);
    if !p.ok then e
    else
      Published(c, Trimmed(c, e.(onDisk := e.onDisk + [Entry(e.segN, p.dur, p.disc)], files := e.files + {e.segN})),
                manifestOk)
  }

  // -------------------------------------------------------------- the reference

  /** Every written segment, in order, numbered by flush. */
  function Written(pieces: seq<Piece>): seq<Entry> {
    if pieces == [] then []
    else
      var last := pieces[|pieces| - 1];
      Written(pieces[..|pieces| - 1]) + (if last.ok then [Entry(|pieces|, last.dur, last.disc)] else [])
  }

  function Numbers(entries: seq<Entry>): set<nat> {
    set e | e in entries :: e.n
  }

  /** How many segments numbered above n were flushed without being written. */
  function FailedAfter(pieces: seq<Piece>, n: nat): nat {
    if |pieces| <= n then 0
    else FailedAfter(pieces[..|pieces| - 1], n) + (if pieces[|pieces| - 1].ok then 0 else 1)
  }

  lemma {:induction false} WrittenCount(pieces: seq<Piece>)
    ensures |Written(pieces)| <= |pieces|
  {
    if pieces != [] {
      WrittenCount(pieces[..|pieces| - 1]);
    }
  }

  lemma {:induction false} WrittenShape(pieces: seq<Piece>)
    ensures |Written(pieces)| <= |pieces|
    ensures forall i :: 0 <= i < |Written(pieces)| ==> 0 < Written(pieces)[i].n <= |pieces|
    ensures forall i, j :: 0 <= i < j < |Written(pieces)| ==> Written(pieces)[i].n < Written(pieces)[j].n
  {
    if pieces != [] {
      WrittenShape(pieces[..|pieces| - 1]);
    }
  }

  /** A written segment is listed under the number of its flush, and only those. */
  lemma {:induction false} WrittenExactly(pieces: seq<Piece>, e: Entry)
    ensures e in Written(pieces) <==>
            0 < e.n <= |pieces| && pieces[e.n - 1].ok && e.dur == pieces[e.n - 1].dur && e.disc == pieces[e.n - 1].disc
  {
    if pieces != [] {
      var front := pieces[..|pieces| - 1];
      WrittenExactly(front, e);
      WrittenShape(front);
      assert e in Written(pieces) <==> e in Written(front) || (pieces[|pieces| - 1].ok && e == Entry(|pieces|, pieces[|pieces| - 1].dur, pieces[|pieces| - 1].disc));
      if 0 < e.n < |pieces| {
        assert front[e.n - 1] == pieces[e.n - 1];
      }
    }
  }

  /** From one written segment to the end, written and failed ones account for
      every number. */
  lemma {:induction false} NumbersAccounted(pieces: seq<Piece>, i: nat)
    requires i < |Written(pieces)|
    ensures var n := Written(pieces)[i].n;
            |pieces| + 1 == n + (|Written(pieces)| - i) + FailedAfter(pieces, n)
  {
    WrittenShape(pieces);
    var front := pieces[..|pieces| - 1];
    if i < |Written(front)| {
      WrittenShape(front);
      NumbersAccounted(front, i);
    }
  }

  // --------------------------------------------------- the shelf is the reference

  predicate Increasing(entries: seq<Entry>) {
    forall i, j :: 0 <= i < j < |entries| ==> entries[i].n < entries[j].n
  }

  lemma NumbersOfTail(entries: seq<Entry>)
    requires entries != [] && Increasing(entries)
    ensures Numbers(entries[1..]) == Numbers(entries) - {entries[0].n}
  {
    forall e | e in entries ensures e.n in Numbers(entries[1..]) || e.n == entries[0].n {
      var i :| 0 <= i < |entries| && entries[i] == e;
      if i > 0 {
        assert entries[1..][i - 1] == e;
      }
    }
    forall e | e in entries[1..] ensures e in entries && e.n != entries[0].n {
      var i :| 0 <= i < |entries[1..]| && entries[1..][i] == e;
      assert entries[i + 1] == e;
    }
  }

  lemma NumbersOfSnoc(entries: seq<Entry>, e: Entry)
    ensures Numbers(entries + [e]) == Numbers(entries) + {e.n}
  {
    forall x ensures x in entries + [e] <==> x in entries || x == e {}
  }

  /** What is kept on disk: everything, or the newest window + history. */
  function Kept(c: Config, entries: seq<Entry>): seq<Entry> {
    if c.ephemeral then Tail(entries, c.window + c.history) else entries
  }

  lemma {:induction false} TrimmedEffect(c: Config, d: Shelf)
    requires Increasing(d.onDisk) && d.files == Numbers(d.onDisk)
    ensures Trimmed(c, d) == d.(onDisk := Kept(c, d.onDisk), files := Numbers(Kept(c, d.onDisk)))
    decreases |d.onDisk|
  {
    if c.ephemeral && |d.onDisk| > c.window + c.history {
      NumbersOfTail(d.onDisk);
      TrimmedEffect(c, d.(onDisk := d.onDisk[1..], files := d.files - {d.onDisk[0].n}));
      assert Kept(c, d.onDisk[1..]) == Kept(c, d.onDisk);
    }
  }

  /** The playlist a flush should leave, from the flushed segments alone. */
  function Reference(c: Config, pieces: seq<Piece>): Playlist {
    var win := Tail(Written(pieces), c.window);
    Playlist(Target(c.segSec, win), if |pieces| < |win| then 0 else |pieces| - |win|, win, |pieces|,
             Numbers(Kept(c, Written(pieces))))
  }

  ghost predicate ShelfSound(c: Config, d: Shelf) {
    && d.segN == |d.pieces|
    && d.onDisk == Kept(c, Written(d.pieces)) && d.files == Numbers(d.onDisk)
    && (forall i :: 0 <= i < |d.playlists| ==>
          d.playlists[i].made <= |d.pieces| && d.playlists[i] == Reference(c, d.pieces[..d.playlists[i].made]))
    && forall i, j :: 0 <= i < j < |d.playlists| ==> d.playlists[i].made < d.playlists[j].made
  }

  lemma KeptSnoc(c: Config, entries: seq<Entry>, e: Entry)
    ensures Kept(c, Kept(c, entries) + [e]) == Kept(c, entries + [e])
  {
    var a, b := Kept(c, Kept(c, entries) + [e]), Kept(c, entries + [e]);
    assert |a| == |b|;
    forall i | 0 <= i < |a| ensures a[i] == b[i] {}
  }

  lemma KeptTail(c: Config, entries: seq<Entry>)
    ensures Tail(Kept(c, entries), c.window) == Tail(entries, c.window)
  {
    var a, b := Tail(Kept(c, entries), c.window), Tail(entries, c.window);
    assert |a| == |b|;
    forall i | 0 <= i < |a| ensures a[i] == b[i] {}
  }

  lemma {:induction false} ShelvedPieces(c: Config, d: Shelf, p: Piece, manifestOk: bool)
    ensures Shelved(c, d, p, manifestOk).pieces == d.pieces + [p]
  {
    var e := d.(segN := d.segN + 1, pieces := d.pieces + [p]);
    TrimmedPieces(c, e.(onDisk := e.onDisk + [Entry(e.segN, p.dur, p.disc)], files := e.files + {e.segN}));
  }

  lemma {:induction false} TrimmedPieces(c: Config, d: Shelf)
    ensures Trimmed(c, d).pieces == d.pieces
    decreases |d.onDisk|
  {
    if c.ephemeral && |d.onDisk| > c.window + c.history {
      TrimmedPieces(c, d.(onDisk := d.onDisk[1..], files := d.files - {d.onDisk[0].n}));
    }
  }

  lemma ListedOnDisk(c: Config, pieces: seq<Piece>, e: Entry, d: Shelf)
    requires d.onDisk == Kept(c, Written(pieces)) + [e] && d.files == Numbers(d.onDisk)
    requires e.n == |pieces| + 1
    ensures Trimmed(c, d) == d.(onDisk := Kept(c, Written(pieces) + [e]), files := Numbers(Kept(c, Written(pieces) + [e])))
  {
    WrittenShape(pieces);
    TrimmedEffect(c, d);
    KeptSnoc(c, Written(pieces), e);
  }

  lemma ManifestIsReference(c: Config, d: Shelf)
    requires d.segN == |d.pieces| && d.onDisk == Kept(c, Written(d.pieces)) && d.files == Numbers(d.onDisk)
    ensures Manifest(c, d) == Reference(c, d.pieces)
  {
    KeptTail(c, Written(d.pieces));
  }

  lemma WrittenSnoc(pieces: seq<Piece>, p: Piece)
    ensures Written(pieces + [p]) == Written(pieces) + (if p.ok then [Entry(|pieces| + 1, p.dur, p.disc)] else [])
  {
    assert (pieces + [p])[..|pieces + [p]| - 1] == pieces;
  }

  lemma ShelvedOnDisk(c: Config, d: Shelf, p: Piece, manifestOk: bool)
    requires ShelfSound(c, d)
    ensures var t := Shelved(c, d, p, manifestOk);
            && t.pieces == d.pieces + [p] && t.segN == |t.pieces|
            && t.onDisk == Kept(c, Written(t.pieces)) && t.files == Numbers(t.onDisk)
            && t.playlists == if p.ok && c.manifest && manifestOk then d.playlists + [Reference(c, t.pieces)] else d.playlists
  {
    WrittenSnoc(d.pieces, p);
    if p.ok {
      var e := Entry(|d.pieces| + 1, p.dur, p.disc);
      NumbersOfSnoc(d.onDisk, e);
      var listed := Shelf(d.segN + 1, d.onDisk + [e], d.files + {e.n}, d.playlists, d.pieces + [p]);
      ListedOnDisk(c, d.pieces, e, listed);
      ManifestIsReference(c, Trimmed(c, listed));
    }
  }

  /** Trimming, windowing and rewriting in place always yield the reference: the
      kept files and every playlist ever written are functions of the flushed
      segments alone. */
  lemma ShelvedSound(c: Config, d: Shelf, p: Piece, manifestOk: bool)
    requires ShelfSound(c, d)
    ensures ShelfSound(c, Shelved(c, d, p, manifestOk))
  {
    ShelvedOnDisk(c, d, p, manifestOk);
    var t := Shelved(c, d, p, manifestOk);
    forall i | 0 <= i < |t.playlists|
      ensures t.playlists[i].made <= |t.pieces| && t.playlists[i] == Reference(c, t.pieces[..t.playlists[i].made])
    {
      if i < |d.playlists| {
        var m := d.playlists[i].made;
        assert t.pieces[..m] == d.pieces[..m];
      } else {
        assert t.pieces[..|t.pieces|] == t.pieces;
      }
    }
  }

  // ------------------------------------------------------ properties of playlists

  /** Section 6.2.2 of RFC 8216, exactly as far as it holds: the sequence number
      of a listed segment is its flush number less one, plus the later failed
      writes; so it is the same in every playlist if and only if no later write
      failed. */
  lemma SequenceNumberLaw(c: Config, pieces: seq<Piece>, i: nat)
    requires i < |Reference(c, pieces).entries|
    ensures var p := Reference(c, pieces);
            p.mediaSeq + i == p.entries[i].n - 1 + FailedAfter(pieces, p.entries[i].n)
  {
    WrittenCount(pieces);
    var skip := |Written(pieces)| - |Reference(c, pieces).entries|;
    NumbersAccounted(pieces, skip + i);
  }

  lemma {:induction false} FailedAfterGrows(pieces: seq<Piece>, m: nat, n: nat)
    requires m <= |pieces|
    ensures FailedAfter(pieces[..m], n) <= FailedAfter(pieces, n)
    ensures (forall k :: 0 <= k < |pieces| ==> pieces[k].ok) ==> FailedAfter(pieces, n) == 0
  {
    if m < |pieces| {
      FailedAfterGrows(pieces[..|pieces| - 1], m, n);
      assert pieces[..|pieces| - 1][..m] == pieces[..m];
    } else {
      assert pieces[..m] == pieces;
      if |pieces| > n {
        FailedAfterGrows(pieces[..|pieces| - 1], |pieces| - 1, n);
      }
    }
  }

  /** When every write so far succeeded, segment n has sequence number n - 1 in
      every playlist and the media sequence is the number of segments no longer
      listed. */
  lemma SequenceNumbersStable(c: Config, pieces: seq<Piece>, m: nat, i: nat)
    requires forall k :: 0 <= k < |pieces| ==> pieces[k].ok
    requires m <= |pieces| && i < |Reference(c, pieces[..m]).entries|
    ensures var p := Reference(c, pieces[..m]);
            && p.mediaSeq + i == p.entries[i].n - 1
            && p.mediaSeq == m - |p.entries|
            && |p.entries| == if m <= c.window then m else c.window
  {
    SequenceNumberLaw(c, pieces[..m], i);
    var n := Reference(c, pieces[..m]).entries[i].n;
    FailedAfterGrows(pieces[..m], m, n);
    AllWritten(pieces[..m]);
  }

  lemma {:induction false} AllWritten(pieces: seq<Piece>)
    requires forall k :: 0 <= k < |pieces| ==> pieces[k].ok
    ensures |Written(pieces)| == |pieces|
  {
    if pieces != [] {
      AllWritten(pieces[..|pieces| - 1]);
    }
  }

  /** The media sequence number never decreases, failed writes included. */
  lemma {:induction false} MediaSequenceRises(c: Config, pieces: seq<Piece>, m: nat)
    requires m <= |pieces|
    ensures Reference(c, pieces[..m]).mediaSeq <= Reference(c, pieces).mediaSeq
  {
    if m == |pieces| {
      assert pieces[..m] == pieces;
    } else {
      var front := pieces[..|pieces| - 1];
      MediaSequenceRises(c, front, m);
      assert front[..m] == pieces[..m];
      WrittenCount(front);
      WrittenCount(pieces);
    }
  }

  /** No playlist, when it is written, lists a segment whose file has been trimmed. */
  lemma ListedFilesExist(c: Config, pieces: seq<Piece>, i: nat)
    requires i < |Reference(c, pieces).entries|
    ensures Reference(c, pieces).entries[i].n in Reference(c, pieces).files
  {
    var e := Reference(c, pieces).entries[i];
    var kept := Kept(c, Written(pieces));
    KeptTail(c, Written(pieces));
    assert e == kept[|kept| - |Reference(c, pieces).entries| + i];
    assert e in kept;
  }

  lemma {:induction false} WrittenPrefix(pieces: seq<Piece>, m: nat)
    requires m <= |pieces|
    ensures Written(pieces[..m]) <= Written(pieces)
  {
    if m < |pieces| {
      WrittenPrefix(pieces[..|pieces| - 1], m);
      assert pieces[..|pieces| - 1][..m] == pieces[..m];
    } else {
      assert pieces[..m] == pieces;
    }
  }

  /** An entry's file is still there exactly when it is among the newest kept. */
  lemma FileKeptExactly(c: Config, pieces: seq<Piece>, k: nat)
    requires k < |Written(pieces)|
    ensures Written(pieces)[k].n in Numbers(Kept(c, Written(pieces)))
            <==> !c.ephemeral || |Written(pieces)| - k <= c.window + c.history
  {
    var (all, kept) := (Written(pieces), Kept(c, Written(pieces)));
    var skip := |all| - |kept|;
    WrittenShape(pieces);
    if k >= skip {
      assert kept[k - skip] == all[k];
      assert all[k] in kept;
    } else {
      forall e | e in kept ensures e.n != all[k].n {
        var i :| 0 <= i < |kept| && kept[i] == e;
        assert e == all[skip + i];
      }
    }
  }

  lemma TailPrefix<T>(before: seq<T>, all: seq<T>, n: nat, i: nat)
    requires before <= all && i < |Tail(before, n)|
    ensures |before| - |Tail(before, n)| + i < |before|
    ensures Tail(before, n)[i] == all[|before| - |Tail(before, n)| + i]
  {
    assert before == all[..|before|];
  }

  lemma WindowFileKept(c: Config, pieces: seq<Piece>, m: nat, i: nat)
    requires m <= |pieces| && i < |Tail(Written(pieces[..m]), c.window)|
    ensures var win := Tail(Written(pieces[..m]), c.window);
            win[i].n in Numbers(Kept(c, Written(pieces)))
            <==> !c.ephemeral || |Written(pieces)| - (|Written(pieces[..m])| - |win| + i) <= c.window + c.history
  {
    var (all, before) := (Written(pieces), Written(pieces[..m]));
    WrittenPrefix(pieces, m);
    TailPrefix(before, all, c.window, i);
    var at := |before| - |Tail(before, c.window)| + i;
    FileKeptExactly(c, pieces, at);
  }

  /** A later flush whose playlist cannot be written still trims. The playlist
      left from earlier lists only existing files exactly when the segments
      written since fit beside its window in what is kept. */
  lemma StalePlaylistFilesExactly(c: Config, pieces: seq<Piece>, m: nat)
    requires m <= |pieces|
    ensures var win := Reference(c, pieces[..m]).entries;
            (forall i :: 0 <= i < |win| ==> win[i].n in Reference(c, pieces).files)
            <==> win == [] || !c.ephemeral
                 || |win| + (|Written(pieces)| - |Written(pieces[..m])|) <= c.window + c.history
  {
    var (all, before, win) := (Written(pieces), Written(pieces[..m]), Reference(c, pieces[..m]).entries);
    WrittenPrefix(pieces, m);
    var first := |before| - |win|;
    forall i | 0 <= i < |win|
      ensures win[i].n in Reference(c, pieces).files <==> !c.ephemeral || |all| - (first + i) <= c.window + c.history
    {
      WindowFileKept(c, pieces, m, i);
    }
    if win != [] {
      assert win[0].n in Reference(c, pieces).files <==> !c.ephemeral || |all| - first <= c.window + c.history;
    }
  }

  /** The target is the least value allowed: nothing listed reaches it, and it is
      the configured one or is forced by a listed segment. */
  lemma {:induction false} TargetExact(segSec: nat, entries: seq<Entry>)
    ensures forall i :: 0 <= i < |entries| ==> entries[i].dur < Target(segSec, entries) as real
    ensures Target(segSec, entries) >= segSec + 1
    ensures Target(segSec, entries) == segSec + 1
            || exists i :: 0 <= i < |entries| && Target(segSec, entries) == entries[i].dur.Floor + 1
  {
    if entries != [] {
      TargetExact(segSec, entries[..|entries| - 1]);
    }
  }

  /** Section 4.3.3.1 of RFC 8216: each listed duration, rounded to the nearest
      integer, is at most EXT-X-TARGETDURATION. */
  lemma RoundedDurationsFit(c: Config, pieces: seq<Piece>, i: nat)
    requires i < |Reference(c, pieces).entries|
    ensures (Reference(c, pieces).entries[i].dur + 0.5).Floor <= Reference(c, pieces).target
  {
    TargetExact(c.segSec, Reference(c, pieces).entries);
  }

  /** One failed write between two playlists renumbers what both list. */
  lemma FailedWriteRenumbers(c: Config, a: Piece, b: Piece, z: Piece)
    requires c.window >= 2 && a.ok && !b.ok && z.ok
    ensures var before, after := Reference(c, [a]), Reference(c, [a, b, z]);
            && before.entries[0].n == 1 && before.mediaSeq == 0
            && after.entries[0].n == 1 && after.mediaSeq == 1
  {
    assert [a, b, z][..2] == [a, b] && [a, b][..1] == [a] && [a][..0] == [];
    assert Written([a]) == [Entry(1, a.dur, a.disc)];
    assert Written([a, b]) == [Entry(1, a.dur, a.disc)];
    assert Written([a, b, z]) == [Entry(1, a.dur, a.disc), Entry(3, z.dur, z.disc)];
  }
}
