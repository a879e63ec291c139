/** From access units to RTMP messages: parameter sets are cached and announced,
    slices are tagged with their composition time. */
module PushCodec {
  import opened Domain
  import opened FlvTag

  const NALU_SPS: nat := 7
  const NALU_PPS: nat := 8
  const NALU_AUD: nat := 9
  const NALU_IDR: nat := 5
  const ADTS_HEADER: nat := 7
  const AAC_TAG: byte := 0xAF
  const AAC_PACKET_RAW: byte := 1
  const MAX_COMPOSITION_TIME: int := 0x7fffff
  const TWO_63: nat := 0x8000_0000_0000_0000
  const TWO_64: nat := 0x1_0000_0000_0000_0000

  /** The media library: Annex-B splitting, the AVC and AAC sequence headers and
      the metadata message, each of which can fail. */
  datatype Library = Library(
    split: seq<byte> -> Option<seq<seq<byte>>>,
    avcHeader: (seq<byte>, seq<byte>) -> Option<seq<byte>>,
    aacHeader: seq<byte> -> Option<seq<byte>>,
    metadata: Option<seq<byte>>)

  /** Whether the session takes the metadata, the header and the media message. */
  datatype Sink = Sink(metadata: bool, header: bool, media: bool)

  /** Accepted messages. A slice message also records the parameter sets cached
      when it was sent. */
  datatype Msg =
    | Metadata(payload: seq<byte>)
    | AvcHeader(ts: nat, payload: seq<byte>, sps: seq<byte>, pps: seq<byte>)
    | AvcSlices(ts: nat, payload: seq<byte>, sps: seq<byte>, pps: seq<byte>)
    | AacHeader(ts: nat, payload: seq<byte>)
    | AacRaw(ts: nat, payload: seq<byte>)

  datatype Codec = Codec(
    sps: seq<byte>,
    pps: seq<byte>,
    seqHeaderSet: bool,
    ascSent: bool,
    metadataSent: bool,
    log: seq<Msg>)

  const START := Codec([], [], false, false, false, [])

  // -------------------------------------------------------------- one access unit

  function NaluType(nal: seq<byte>): nat
    requires nal != []
  {
    nal[0] % 32
  }

  predicate IsSlice(nal: seq<byte>) {
    nal != [] && NaluType(nal) !in {NALU_AUD, NALU_SPS, NALU_PPS}
  }

  function Slices(nals: seq<seq<byte>>): seq<seq<byte>> {
    if nals == [] then []
    else Slices(nals[..|nals| - 1]) + (if IsSlice(nals[|nals| - 1]) then [nals[|nals| - 1]] else [])
  }

  predicate HasIdr(nals: seq<seq<byte>>) {
    exists i :: 0 <= i < |nals| && nals[i] != [] && NaluType(nals[i]) == NALU_IDR
  }

  /** The last unit of a type, or what was cached before. */
  function LastOf(nals: seq<seq<byte>>, kind: nat, before: seq<byte>): seq<byte> {
    if nals == [] then before
    else
      var nal := nals[|nals| - 1];
      if nal != [] && NaluType(nal) == kind then nal else LastOf(nals[..|nals| - 1], kind, before)
  }

  /** Some unit of a type differs from the one before it. */
  predicate Changes(nals: seq<seq<byte>>, kind: nat, before: seq<byte>) {
    if nals == [] then false
    else
      var nal := nals[|nals| - 1];
      Changes(nals[..|nals| - 1], kind, before)
      || (nal != [] && NaluType(nal) == kind && nal != LastOf(nals[..|nals| - 1], kind, before))
  }

  function Cached(c: Codec, nals: seq<seq<byte>>): Codec {
    c.(sps := LastOf(nals, NALU_SPS, c.sps), pps := LastOf(nals, NALU_PPS, c.pps),
       seqHeaderSet := c.seqHeaderSet && !Changes(nals, NALU_SPS, c.sps) && !Changes(nals, NALU_PPS, c.pps))
  }

  /** 64-bit difference of two timestamps. */
  function Minus64(a: int, b: int): int {
    (a - b + TWO_63) % TWO_64 - TWO_63
  }

  function CompositionTime(dts: int, pts: int): int {
    var cts := Minus64(pts, dts);
    if cts < 0 then 0 else if cts > MAX_COMPOSITION_TIME then MAX_COMPOSITION_TIME else cts
  }

  function Stamp32(dts: int): nat {
    dts % TWO_32
  }

  function Announced(lib: Library, c: Codec, sink: Sink): (r: (Codec, bool)) {
    if c.metadataSent then (c, true)
    else if lib.metadata.None? || !sink.metadata then (c, false)
    else (c.(metadataSent := true, log := c.log + [Metadata(lib.metadata.value)]), true)
  }

  datatype Outcome = Done | Dropped | Failed

  /** The sequence header, when both parameter sets are cached and not announced. */
  function Headed(lib: Library, c: Codec, dts: int, sink: Sink): (Codec, Outcome) {
    if c.seqHeaderSet || c.sps == [] || c.pps == [] then (c, Done)
    else
      match lib.avcHeader(c.sps, c.pps)
      case None => (c, Dropped)
      case Some(h) =>
        if !sink.header then (c, Failed)
        else (c.(seqHeaderSet := true, log := c.log + [AvcHeader(Stamp32(dts), h, c.sps, c.pps)]), Done)
  }

  function Sliced(c: Codec, nals: seq<seq<byte>>, dts: int, pts: int, sink: Sink): (Codec, bool) {
    if Slices(nals) == [] then (c, true)
    else if !sink.media then (c, false)
    else
      (c.(log := c.log + [AvcSlices(Stamp32(dts), NaluTag(Slices(nals), HasIdr(nals), CompositionTime(dts, pts)),
                                    c.sps, c.pps)]), true)
  }

  function FedH264(lib: Library, c: Codec, annexB: seq<byte>, dts: int, pts: int, sink: Sink): (Codec, bool) {
    if annexB == [] || lib.split(annexB).None? then (c, true)
    else
      var nals := lib.split(annexB).value;
      var (a, ok) := Announced(lib, Cached(c, nals), sink);
      if !ok then (a, false)
      else
        match Headed(lib, a, dts, sink)
        case (h, Dropped) => (h, true)
        case (h, Failed) => (h, false)
        case (h, Done) => Sliced(h, nals, dts, pts, sink)
  }

  function FedAAC(lib: Library, c: Codec, frame: seq<byte>, dts: int, sink: Sink): (Codec, bool) {
    if |frame| <= ADTS_HEADER then (c, true)
    else
      var (a, ok) := Announced(lib, c, sink);
      if !ok then (a, false)
      else if !a.ascSent && lib.aacHeader(frame).None? then (a, true)
      else if !a.ascSent && !sink.header then (a, false)
      else
        var h := if a.ascSent then a
                 else a.(ascSent := true, log := a.log + [AacHeader(Stamp32(dts), lib.aacHeader(frame).value)]);
        if !sink.media then (h, false)
        else (h.(log := h.log + [AacRaw(Stamp32(dts), [AAC_TAG, AAC_PACKET_RAW] + frame[ADTS_HEADER..])]), true)
  }

  // -------------------------------------------------------------------- the object

  class PushCodecAdapter {
    const lib: Library
    var sps: seq<byte>
    var pps: seq<byte>
    var seqHeaderSet: bool
    var ascSent: bool
    var metadataSent: bool
    ghost var log: seq<Msg>

    ghost function View(): Codec
      reads this
    {
      Codec(sps, pps, seqHeaderSet, ascSent, metadataSent, log)
    }

    constructor (lib: Library)
      ensures this.lib == lib && View() == START
    {
      this.lib := lib;
      sps, pps, seqHeaderSet, ascSent, metadataSent, log := [], [], false, false, false, [];
    }

    /** Caches parameter sets and collects the slices of one access unit. */
    method Scan(nals: seq<seq<byte>>) returns (slices: seq<seq<byte>>, isKey: bool)
      modifies this`sps, this`pps, this`seqHeaderSet
      ensures View() == Cached(old(View()), nals)
      ensures slices == Slices(nals) && isKey == HasIdr(nals)
    {
      slices, isKey := [], false;
      var changed := false;
      for i := 0 to |nals|
        invariant sps == LastOf(nals[..i], NALU_SPS, old(sps)) && pps == LastOf(nals[..i], NALU_PPS, old(pps))
        invariant changed <==> Changes(nals[..i], NALU_SPS, old(sps)) || Changes(nals[..i], NALU_PPS, old(pps))
        invariant slices == Slices(nals[..i])
        invariant isKey <==> exists k :: 0 <= k < i && nals[k] != [] && NaluType(nals[k]) == NALU_IDR
        invariant seqHeaderSet == old(seqHeaderSet)
      {
        var nal := nals[i];
        assert nals[..i + 1][..i] == nals[..i];
        if |nal| != 0 {
          if NaluType(nal) == NALU_AUD {
          } else if NaluType(nal) == NALU_SPS {
            if sps != nal {
              sps := nal;
              changed := true;
            }
          } else if NaluType(nal) == NALU_PPS {
            if pps != nal {
              pps := nal;
              changed := true;
            }
          } else {
            if NaluType(nal) == NALU_IDR {
              isKey := true;
            }
            slices := slices + [nal];
          }
        }
      }
      assert nals[..|nals|] == nals;
      if changed {
        seqHeaderSet := false;
      }
    }

    method EnsureMetadata(sink: Sink) returns (ok: bool)
      modifies this`metadataSent, this`log
      ensures (View(), ok) == Announced(lib, old(View()), sink)
    {
      if metadataSent { return true; }
      if lib.metadata.None? { return false; }
      if !sink.metadata { return false; }
      log := log + [Metadata(lib.metadata.value)];
      metadataSent := true;
      return true;
    }

    method EnsureSeqHeader(dtsMs: int, sink: Sink) returns (out: Outcome)
      modifies this`seqHeaderSet, this`log
      ensures (View(), out) == Headed(lib, old(View()), dtsMs, sink)
    {
      if seqHeaderSet || |sps| == 0 || |pps| == 0 { return Done; }
      var header := lib.avcHeader(sps, pps);
      if header.None? { return Dropped; }
      if !sink.header { return Failed; }
      log := log + [AvcHeader(dtsMs % TWO_32, header.value, sps, pps)];
      seqHeaderSet := true;
      return Done;
    }

    method FeedH264(annexB: seq<byte>, dtsMs: int, ptsMs: int, sink: Sink) returns (ok: bool)
      modifies this
      ensures (View(), ok) == FedH264(lib, old(View()), annexB, dtsMs, ptsMs, sink)
    {
      if |annexB| == 0 { return true; }
      var nals := lib.split(annexB);
      if nals.None? { return true; }
      var slices, isKey := Scan(nals.value);
      ok := EnsureMetadata(sink);
      if !ok { return false; }
      var out := EnsureSeqHeader(dtsMs, sink);
      if out == Dropped { return true; }
      if out == Failed { return false; }
      if |slices| == 0 { return true; }
      var cts := Minus64(ptsMs, dtsMs);
      if cts < 0 {
        cts := 0;
      }
      if cts > MAX_COMPOSITION_TIME {
        cts := MAX_COMPOSITION_TIME;
      }
      var payload := BuildAVCNaluTag(slices, isKey, cts);
      if !sink.media { return false; }
      log := log + [AvcSlices(dtsMs % TWO_32, payload, sps, pps)];
      return true;
    }

    method FeedAAC(adtsFrame: seq<byte>, dtsMs: int, sink: Sink) returns (ok: bool)
      modifies this
      ensures (View(), ok) == FedAAC(lib, old(View()), adtsFrame, dtsMs, sink)
    {
      if |adtsFrame| <= ADTS_HEADER { return true; }
      ok := EnsureMetadata(sink);
      if !ok { return false; }
      if !ascSent {
        var header := lib.aacHeader(adtsFrame);
        if header.None? { return true; }
        if !sink.header { return false; }
        log := log + [AacHeader(dtsMs % TWO_32, header.value)];
        ascSent := true;
      }
      var payload := [AAC_TAG, AAC_PACKET_RAW] + adtsFrame[ADTS_HEADER..];
      if !sink.media { return false; }
      log := log + [AacRaw(dtsMs % TWO_32, payload)];
      return true;
    }
  }

  // --------------------------------------------------------------------- whole runs

  datatype Feed =
    | H264(annexB: seq<byte>, dts: int, pts: int, sink: Sink)
    | AAC(frame: seq<byte>, dts: int, sink: Sink)

  function Fed(lib: Library, c: Codec, f: Feed): Codec {
    match f
    case H264(annexB, dts, pts, sink) => FedH264(lib, c, annexB, dts, pts, sink).0
    case AAC(frame, dts, sink) => FedAAC(lib, c, frame, dts, sink).0
  }

  function After(lib: Library, feeds: seq<Feed>): Codec {
    if feeds == [] then START else Fed(lib, After(lib, feeds[..|feeds| - 1]), feeds[|feeds| - 1])
  }

  /** The parameter sets last announced. */
  function LastHeader(log: seq<Msg>): Option<(seq<byte>, seq<byte>)> {
    if log == [] then None
    else
      match log[|log| - 1]
      case AvcHeader(_, _, sps, pps) => Some((sps, pps))
      case _ => LastHeader(log[..|log| - 1])
  }

  predicate AacAnnounced(log: seq<Msg>) {
    exists i :: 0 <= i < |log| && log[i].AacHeader?
  }

  /** What each message needs of those before it. */
  predicate InPlace(lib: Library, log: seq<Msg>, i: nat)
    requires i < |log|
  {
    && (log[i].Metadata? <==> i == 0)
    && match log[i]
       case AvcSlices(_, _, sps, pps) => sps != [] && pps != [] ==> LastHeader(log[..i]) == Some((sps, pps))
       case AvcHeader(_, payload, sps, pps) => lib.avcHeader(sps, pps) == Some(payload)
       case AacHeader(_, _) => !AacAnnounced(log[..i])
       case AacRaw(_, _) => AacAnnounced(log[..i])
       case Metadata(payload) => lib.metadata == Some(payload)
  }

  ghost predicate Orderly(lib: Library, c: Codec) {
    && (c.metadataSent <==> c.log != [])
    && (forall i: nat :: i < |c.log| ==> InPlace(lib, c.log, i))
    && (c.seqHeaderSet ==> c.sps != [] && c.pps != [] && LastHeader(c.log) == Some((c.sps, c.pps)))
    && (c.ascSent <==> AacAnnounced(c.log))
  }

  /** Appending one message that is in place. */
  lemma OneMore(lib: Library, log: seq<Msg>, m: Msg)
    requires forall i: nat :: i < |log| ==> InPlace(lib, log, i)
    requires InPlace(lib, log + [m], |log|)
    ensures forall i: nat :: i < |log + [m]| ==> InPlace(lib, log + [m], i)
    ensures AacAnnounced(log + [m]) <==> AacAnnounced(log) || m.AacHeader?
    ensures LastHeader(log + [m]) == if m.AvcHeader? then Some((m.sps, m.pps)) else LastHeader(log)
  {
    var more := log + [m];
    assert more[..|more| - 1] == log;
    forall i: nat | i < |more| ensures InPlace(lib, more, i) {
      if i < |log| {
        assert InPlace(lib, log, i);
        assert more[..i] == log[..i];
      }
    }
    if AacAnnounced(log) {
      var i :| 0 <= i < |log| && log[i].AacHeader?;
      assert more[i].AacHeader?;
    }
    assert more[|log|] == m;
  }

  lemma {:induction false} UnchangedSame(nals: seq<seq<byte>>, kind: nat, before: seq<byte>)
    ensures !Changes(nals, kind, before) ==> LastOf(nals, kind, before) == before
    ensures before != [] ==> LastOf(nals, kind, before) != []
  {
    if nals != [] {
      UnchangedSame(nals[..|nals| - 1], kind, before);
    }
  }

  lemma CachedOrderly(lib: Library, c: Codec, nals: seq<seq<byte>>)
    requires Orderly(lib, c)
    ensures Orderly(lib, Cached(c, nals))
  {
    UnchangedSame(nals, NALU_SPS, c.sps);
    UnchangedSame(nals, NALU_PPS, c.pps);
  }

  lemma AnnouncedOrderly(lib: Library, c: Codec, sink: Sink)
    requires Orderly(lib, c)
    ensures Orderly(lib, Announced(lib, c, sink).0) && (Announced(lib, c, sink).1 ==> Announced(lib, c, sink).0.log != [])
  {
    if !c.metadataSent && lib.metadata.Some? {
      OneMore(lib, c.log, Metadata(lib.metadata.value));
    }
  }

  lemma HeadedOrderly(lib: Library, c: Codec, dts: int, sink: Sink)
    requires Orderly(lib, c) && c.log != []
    ensures var (h, out) := Headed(lib, c, dts, sink);
            && Orderly(lib, h) && h.log != [] && h.sps == c.sps && h.pps == c.pps
            && (out == Done && h.sps != [] && h.pps != [] ==> h.seqHeaderSet)
  {
    if !c.seqHeaderSet && c.sps != [] && c.pps != [] && lib.avcHeader(c.sps, c.pps).Some? {
      OneMore(lib, c.log, AvcHeader(Stamp32(dts), lib.avcHeader(c.sps, c.pps).value, c.sps, c.pps));
    }
  }

  lemma SlicedOrderly(lib: Library, c: Codec, nals: seq<seq<byte>>, dts: int, pts: int, sink: Sink)
    requires Orderly(lib, c) && c.log != [] && (c.sps != [] && c.pps != [] ==> c.seqHeaderSet)
    ensures Orderly(lib, Sliced(c, nals, dts, pts, sink).0)
  {
    var m := AvcSlices(Stamp32(dts), NaluTag(Slices(nals), HasIdr(nals), CompositionTime(dts, pts)), c.sps, c.pps);
    assert (c.log + [m])[..|c.log|] == c.log;
    OneMore(lib, c.log, m);
  }

  lemma H264Orderly(lib: Library, c: Codec, annexB: seq<byte>, dts: int, pts: int, sink: Sink)
    requires Orderly(lib, c)
    ensures Orderly(lib, FedH264(lib, c, annexB, dts, pts, sink).0)
  {
    if annexB != [] && lib.split(annexB).Some? {
      var nals := lib.split(annexB).value;
      CachedOrderly(lib, c, nals);
      AnnouncedOrderly(lib, Cached(c, nals), sink);
      var (a, ok) := Announced(lib, Cached(c, nals), sink);
      if ok {
        HeadedOrderly(lib, a, dts, sink);
        var (h, out) := Headed(lib, a, dts, sink);
        if out == Done {
          SlicedOrderly(lib, h, nals, dts, pts, sink);
        }
      }
    }
  }

  lemma AACOrderly(lib: Library, c: Codec, frame: seq<byte>, dts: int, sink: Sink)
    requires Orderly(lib, c)
    ensures Orderly(lib, FedAAC(lib, c, frame, dts, sink).0)
  {
    if |frame| > ADTS_HEADER {
      AnnouncedOrderly(lib, c, sink);
      var (a, ok) := Announced(lib, c, sink);
      if ok && (a.ascSent || (lib.aacHeader(frame).Some? && sink.header)) {
        var h := if a.ascSent then a
                 else a.(ascSent := true, log := a.log + [AacHeader(Stamp32(dts), lib.aacHeader(frame).value)]);
        if !a.ascSent {
          var m := AacHeader(Stamp32(dts), lib.aacHeader(frame).value);
          assert (a.log + [m])[..|a.log|] == a.log;
          OneMore(lib, a.log, m);
        }
        var r := AacRaw(Stamp32(dts), [AAC_TAG, AAC_PACKET_RAW] + frame[ADTS_HEADER..]);
        assert (h.log + [r])[..|h.log|] == h.log;
        OneMore(lib, h.log, r);
      }
    }
  }

  /** Over every sequence of frames and refusals, metadata is the first accepted
      message and the only one of its kind; every slice message sent with both
      parameter sets cached follows a sequence header, and the last one before it
      was built from exactly those; the one AAC header precedes all raw audio. */
  lemma {:induction false} MessagesInOrder(lib: Library, feeds: seq<Feed>)
    ensures var log := After(lib, feeds).log; forall i: nat :: i < |log| ==> InPlace(lib, log, i)
    ensures Orderly(lib, After(lib, feeds))
  {
    if feeds != [] {
      MessagesInOrder(lib, feeds[..|feeds| - 1]);
      match feeds[|feeds| - 1]
      case H264(annexB, dts, pts, sink) => H264Orderly(lib, After(lib, feeds[..|feeds| - 1]), annexB, dts, pts, sink);
      case AAC(frame, dts, sink) => AACOrderly(lib, After(lib, feeds[..|feeds| - 1]), frame, dts, sink);
    }
  }

  lemma {:induction false} SlicesFit(nals: seq<seq<byte>>)
    requires Fits32(nals)
    ensures Fits32(Slices(nals))
  {
    if nals != [] {
      SlicesFit(nals[..|nals| - 1]);
    }
  }

  // --------------------------------------------------------------- what gets sent

  /** Slices are every unit but empty ones, delimiters and parameter sets. */
  lemma {:induction false} SlicesExactly(nals: seq<seq<byte>>, nal: seq<byte>)
    ensures nal in Slices(nals) <==> nal in nals && nal != [] && nal[0] % 32 !in {7, 8, 9}
  {
    if nals != [] {
      SlicesExactly(nals[..|nals| - 1], nal);
      assert nals == nals[..|nals| - 1] + [nals[|nals| - 1]];
    }
  }

  lemma SomeSlice(nals: seq<seq<byte>>)
    ensures Slices(nals) != [] <==> exists nal :: nal in nals && nal != [] && nal[0] % 32 !in {7, 8, 9}
  {
    if Slices(nals) != [] {
      SlicesExactly(nals, Slices(nals)[0]);
    }
    if nal :| nal in nals && nal != [] && nal[0] % 32 !in {7, 8, 9} {
      SlicesExactly(nals, nal);
    }
  }

  /** Metadata was sent, or can be. */
  predicate MetadataReady(lib: Library, c: Codec, sink: Sink) {
    c.metadataSent || (lib.metadata.Some? && sink.metadata)
  }

  /** The parameter sets in force are not both known, or are announced and did not
      change, or can be announced. */
  predicate HeaderReady(lib: Library, c: Codec, nals: seq<seq<byte>>, sink: Sink) {
    var (sps, pps) := (LastOf(nals, NALU_SPS, c.sps), LastOf(nals, NALU_PPS, c.pps));
    sps == [] || pps == []
    || (c.seqHeaderSet && !Changes(nals, NALU_SPS, c.sps) && !Changes(nals, NALU_PPS, c.pps))
    || (lib.avcHeader(sps, pps).Some? && sink.header)
  }

  /** The access unit has a slice and nothing stands in its way. */
  predicate UnitGoes(lib: Library, c: Codec, annexB: seq<byte>, sink: Sink) {
    annexB != [] && lib.split(annexB).Some? &&
    var nals := lib.split(annexB).value;
    && (exists nal :: nal in nals && nal != [] && nal[0] % 32 !in {7, 8, 9})
    && MetadataReady(lib, c, sink) && HeaderReady(lib, c, nals, sink) && sink.media
  }

  predicate Sends(c: Codec, d: Codec, ts: nat) {
    |c.log| < |d.log| && d.log[..|c.log|] == c.log &&
    match d.log[|d.log| - 1]
    case AvcSlices(t, _, _, _) => t == ts
    case AacRaw(t, _) => t == ts
    case _ => false
  }

  /** Only metadata and video headers were added. */
  predicate OnlyHeads(c: Codec, d: Codec) {
    c.log <= d.log && forall i :: |c.log| <= i < |d.log| ==> d.log[i].Metadata? || d.log[i].AvcHeader?
  }

  lemma OnlyHeadsOn(a: Codec, b: Codec, c: Codec)
    requires OnlyHeads(a, b) && OnlyHeads(b, c)
    ensures OnlyHeads(a, c)
  {
    assert forall i :: |a.log| <= i < |b.log| ==> c.log[i] == b.log[i];
  }

  lemma AnnouncedHeads(lib: Library, c: Codec, sink: Sink)
    ensures var (a, ok) := Announced(lib, c, sink);
            && OnlyHeads(c, a) && (ok <==> MetadataReady(lib, c, sink))
            && a.sps == c.sps && a.pps == c.pps && a.seqHeaderSet == c.seqHeaderSet
  {
  }

  lemma HeadedHeads(lib: Library, c: Codec, dts: int, sink: Sink)
    ensures var (h, out) := Headed(lib, c, dts, sink);
            && OnlyHeads(c, h)
            && (out == Done <==> c.seqHeaderSet || c.sps == [] || c.pps == []
                                 || (lib.avcHeader(c.sps, c.pps).Some? && sink.header))
  {
  }

  lemma SlicedSends(c: Codec, nals: seq<seq<byte>>, dts: int, pts: int, sink: Sink)
    ensures var d := Sliced(c, nals, dts, pts, sink).0;
            if Slices(nals) != [] && sink.media
            then |d.log| == |c.log| + 1 && d.log[..|c.log|] == c.log
                 && d.log[|c.log|].AvcSlices? && d.log[|c.log|].ts == dts % 0x1_0000_0000
            else d == c
  {
  }

  /** An access unit's slices are sent, last of its messages and stamped with its
      decoding time modulo 2^32, if and only if it has one and nothing stands in the
      way; no slices or audio are sent otherwise. */
  lemma SlicesSentExactly(lib: Library, c: Codec, annexB: seq<byte>, dts: int, pts: int, sink: Sink)
    ensures var d := FedH264(lib, c, annexB, dts, pts, sink).0;
            if UnitGoes(lib, c, annexB, sink)
            then Sends(c, d, dts % 0x1_0000_0000) && d.log[|d.log| - 1].AvcSlices?
            else OnlyHeads(c, d)
  {
    if annexB != [] && lib.split(annexB).Some? {
      var nals := lib.split(annexB).value;
      var b := Cached(c, nals);
      SomeSlice(nals);
      AnnouncedHeads(lib, b, sink);
      var (a, ok) := Announced(lib, b, sink);
      assert OnlyHeads(c, a);
      if ok {
        HeadedHeads(lib, a, dts, sink);
        var (h, out) := Headed(lib, a, dts, sink);
        OnlyHeadsOn(c, a, h);
        assert out == Done <==> HeaderReady(lib, c, nals, sink);
        if out == Done {
          SlicedSends(h, nals, dts, pts, sink);
        }
      }
    }
  }

  lemma IdrExactly(nals: seq<seq<byte>>)
    ensures HasIdr(nals) <==> exists nal :: nal in nals && nal != [] && nal[0] % 32 == 5
  {
    if nal :| nal in nals && nal != [] && nal[0] % 32 == 5 {
      var i :| 0 <= i < |nals| && nals[i] == nal;
    }
  }

  lemma SlicedPayload(lib: Library, c: Codec, annexB: seq<byte>, dts: int, pts: int, sink: Sink)
    requires UnitGoes(lib, c, annexB, sink)
    ensures var (d, nals) := (FedH264(lib, c, annexB, dts, pts, sink).0, lib.split(annexB).value);
            && d.log != [] && d.log[|d.log| - 1].AvcSlices?
            && d.log[|d.log| - 1].payload == NaluTag(Slices(nals), HasIdr(nals), CompositionTime(dts, pts))
  {
    SlicesSentExactly(lib, c, annexB, dts, pts, sink);
  }

  /** What a receiver reads from the slice message sent for an access unit: its
      slices, whether a unit of it is an IDR, and the clamped composition time. */
  lemma ReceiverReadsSlices(lib: Library, c: Codec, annexB: seq<byte>, dts: int, pts: int, sink: Sink)
    requires UnitGoes(lib, c, annexB, sink) && Fits32(lib.split(annexB).value)
    ensures var (d, nals) := (FedH264(lib, c, annexB, dts, pts, sink).0, lib.split(annexB).value);
            && d.log != [] && d.log[|d.log| - 1].AvcSlices?
            && var tag := ReadTag(d.log[|d.log| - 1].payload);
            && tag.Some? && tag.value.nals == Slices(nals) && tag.value.cts == CompositionTime(dts, pts)
            && (tag.value.key <==> exists nal :: nal in nals && nal != [] && nal[0] % 32 == 5)
  {
    var nals := lib.split(annexB).value;
    SlicedPayload(lib, c, annexB, dts, pts, sink);
    SlicesFit(nals);
    TagRoundTripExactly(Slices(nals), HasIdr(nals), CompositionTime(dts, pts));
    IdrExactly(nals);
  }

  /** Every message of an access unit that has a time carries that one. */
  lemma UnitStamped(lib: Library, c: Codec, annexB: seq<byte>, dts: int, pts: int, sink: Sink, i: nat)
    requires |c.log| <= i < |FedH264(lib, c, annexB, dts, pts, sink).0.log|
    ensures var m := FedH264(lib, c, annexB, dts, pts, sink).0.log[i]; m.Metadata? || m.ts == dts % 0x1_0000_0000
  {
  }

  /** The composition time is the presentation time less the decoding time, between 0
      and the largest 24-bit one. */
  lemma CompositionTimeClamps(dts: int, pts: int)
    requires -0x8000_0000_0000_0000 <= pts - dts < 0x8000_0000_0000_0000
    ensures var d := pts - dts; CompositionTime(dts, pts) == if d < 0 then 0 else if d > 0x7f_ffff then 0x7f_ffff else d
  {
    assert (pts - dts + TWO_63) % TWO_64 == pts - dts + TWO_63;
  }

  /** An audio frame is sent, without its ADTS header and stamped with its decoding
      time modulo 2^32, if and only if it is longer than that header, metadata and
      the AAC header are sent or can be, and the session takes it. */
  lemma AudioSentExactly(lib: Library, c: Codec, frame: seq<byte>, dts: int, sink: Sink)
    ensures var d := FedAAC(lib, c, frame, dts, sink).0;
            && c.log <= d.log
            && (if |frame| > 7 && MetadataReady(lib, c, sink) && sink.media
                   && (c.ascSent || (lib.aacHeader(frame).Some? && sink.header))
                then Sends(c, d, dts % 0x1_0000_0000)
                     && d.log[|d.log| - 1] == AacRaw(dts % 0x1_0000_0000, [0xAF, 1] + frame[7..])
                else forall i :: |c.log| <= i < |d.log| ==> d.log[i].Metadata? || d.log[i].AacHeader?)
  {
  }
}
