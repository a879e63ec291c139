/** Stream lifecycle: which hub buffers Start, Stop and Update create and free. */
module Coordinator {
  import opened Domain
  import opened BufferLayout
  import opened StreamDiff

  const DEFAULT_VIDEO_BITRATE_K := 2500

  // ------------------------------------------------------------------- layouts

  predicate ShouldRunTranscoder(stream: Stream) {
    if stream.transcoder.None? then false
    else !stream.transcoder.value.video.copy || !stream.transcoder.value.audio.copy
  }

  datatype EncodeProfile = EncodeProfile(width: int, height: int, bitrateK: int, knobs: string)

  function EncodeFor(p: VideoProfile): EncodeProfile {
    EncodeProfile(p.width, p.height, if p.bitrate <= 0 then DEFAULT_VIDEO_BITRATE_K else p.bitrate, p.knobs)
  }

  function EncodeLadder(video: VideoTranscode): seq<EncodeProfile> {
    if video.copy || video.profiles == [] then [EncodeProfile(0, 0, DEFAULT_VIDEO_BITRATE_K, "")]
    else seq(|video.profiles|, i requires 0 <= i < |video.profiles| => EncodeFor(video.profiles[i]))
  }

  method TranscoderProfilesFromDomain(video: VideoTranscode) returns (out: seq<EncodeProfile>)
    ensures out == EncodeLadder(video)
  {
    if video.copy || video.profiles == [] { return [EncodeProfile(0, 0, DEFAULT_VIDEO_BITRATE_K, "")]; }
    out := [];
    for i := 0 to |video.profiles|
      invariant out == EncodeLadder(video)[..i]
    {
      var p := video.profiles[i];
      var br := p.bitrate;
      if p.bitrate <= 0 {
        br := DEFAULT_VIDEO_BITRATE_K;
      }
      out := out + [EncodeProfile(p.width, p.height, br, p.knobs)];
    }
  }

  /** One slug per encode profile. */
  function TargetSlugs(stream: Stream): seq<string> {
    if ShouldRunTranscoder(stream)
    then seq(|EncodeLadder(stream.transcoder.value.video)|, i requires 0 <= i => VideoTrackSlug(i))
    else []
  }

  function IngestId(stream: Stream): string {
    if ShouldRunTranscoder(stream) then RawIngestBufferId(stream.code) else stream.code
  }

  function RenditionIds(code: string, slugs: seq<string>): set<string> {
    set i | 0 <= i < |slugs| :: RenditionBufferId(code, slugs[i])
  }

  function RenditionIdSeq(code: string, slugs: seq<string>): seq<string> {
    seq(|slugs|, i requires 0 <= i < |slugs| => RenditionBufferId(code, slugs[i]))
  }

  /** The hub buffers a running stream occupies. */
  function Layout(stream: Stream): set<string> {
    {stream.code, IngestId(stream)} + RenditionIds(stream.code, TargetSlugs(stream))
  }

  /** The two separately written ladders agree rung by rung, hence the publisher
      names exactly the rendition buffers Start creates. */
  lemma LaddersAgree(stream: Stream)
    ensures var rungs := Ladder(stream.code, stream.transcoder);
            var slugs := TargetSlugs(stream);
            && |rungs| == |slugs|
            && (forall i :: 0 <= i < |rungs| ==>
                  rungs[i].slug == slugs[i] && rungs[i].bufferId == RenditionIdSeq(stream.code, slugs)[i])
            && (rungs == [] <==> !ShouldRunTranscoder(stream))
  {
  }

  /** Size and bitrate of a profile, 2500 kbit/s when it has none; nothing when the
      video is copied or has no profiles. */
  predicate AsConfigured(rung: Rung, enc: EncodeProfile, video: VideoTranscode, i: nat) {
    if video.copy || video.profiles == [] then
      (rung.width, rung.height, rung.bitrateKbps) == (0, 0, 0) && enc == EncodeProfile(0, 0, 2500, "")
    else
      && i < |video.profiles|
      && rung.width == enc.width == video.profiles[i].width && rung.height == enc.height == video.profiles[i].height
      && enc.knobs == video.profiles[i].knobs && rung.bitrateKbps == enc.bitrateK
      && enc.bitrateK == if video.profiles[i].bitrate > 0 then video.profiles[i].bitrate else 2500
  }

  /** Each rung is advertised with the size and the bitrate it is encoded with. */
  lemma AdvertisedAsEncoded(stream: Stream, i: nat)
    requires ShouldRunTranscoder(stream) && i < |Ladder(stream.code, stream.transcoder)|
    ensures var (rungs, encodes) := (Ladder(stream.code, stream.transcoder), EncodeLadder(stream.transcoder.value.video));
            i < |encodes| && AsConfigured(rungs[i], encodes[i], stream.transcoder.value.video, i)
  {
    LaddersAgree(stream);
  }

  /** Single-rendition outputs read a buffer Start creates: the main one when
      nothing is transcoded, else a rendition of maximal score. */
  lemma PlaybackNamesCreated(stream: Stream, id: string, b: nat)
    requires var rungs := Ladder(stream.code, stream.transcoder);
             if rungs == [] then id == stream.code
             else IsBestIndex(rungs, b) && id == rungs[b].bufferId
    ensures id in Layout(stream)
    ensures ShouldRunTranscoder(stream) ==> id in RenditionIds(stream.code, TargetSlugs(stream))
  {
    LaddersAgree(stream);
  }

  /** Any pair of configurations with different layouts takes the full reload. */
  lemma LayoutChangeForcesReload(was: Stream, now: Stream)
    requires was.code == now.code
    requires TargetSlugs(was) != TargetSlugs(now) || IngestId(was) != IngestId(now) || Layout(was) != Layout(now)
    ensures FullReload(was, now)
  {
    if !FullReload(was, now) {
      SameLadderWithoutReload(was, now);
    }
  }

  lemma SameLadderWithoutReload(was: Stream, now: Stream)
    requires was.code == now.code && !FullReload(was, now)
    ensures ShouldRunTranscoder(was) == ShouldRunTranscoder(now)
    ensures TargetSlugs(was) == TargetSlugs(now) && IngestId(was) == IngestId(now) && Layout(was) == Layout(now)
  {
    assert NeedsFFmpeg(was.transcoder) == ShouldRunTranscoder(was);
    assert NeedsFFmpeg(now.transcoder) == ShouldRunTranscoder(now);
  }

  // --------------------------------------------------------------------- state

  /** What an encoder was started with. */
  datatype Encoder = Encoder(targets: seq<string>, config: Transcoder, watermark: Option<string>)

  /** What a publisher serves. */
  datatype Outputs = Outputs(protocols: string, push: string, policy: string)

  function EncoderOf(stream: Stream): Encoder
    requires ShouldRunTranscoder(stream)
  {
    Encoder(RenditionIdSeq(stream.code, TargetSlugs(stream)), stream.transcoder.value, stream.watermark)
  }

  function OutputsOf(stream: Stream): Outputs {
    Outputs(stream.protocols, stream.push, stream.playbackPolicy)
  }

  datatype State = State(
    hub: set<string>,                        // ids of the buffers that exist
    registered: map<string, string>,         // manager: stream -> ingest write target
    renditions: map<string, seq<string>>,    // slugs recorded for teardown
    publishing: map<string, Outputs>,
    transcoding: map<string, Encoder>,
    startedAt: map<string, int>)

  /** Which dependency calls succeed. */
  datatype Oracle = Oracle(registerOk: bool, publisherOk: bool, transcoderOk: bool)

  function Stopped(s: State, code: string): State {
    var slugs := if code in s.renditions then s.renditions[code] else [];
    State(s.hub - RenditionIds(code, slugs) - {RawIngestBufferId(code)} - {code},
          s.registered - {code}, s.renditions - {code}, s.publishing - {code},
          s.transcoding - {code}, s.startedAt - {code})
  }

  function Started(s: State, stream: Stream, o: Oracle, at: int): (State, bool) {
    var code := stream.code;
    var slugs := TargetSlugs(stream);
    if code in s.registered then (s, true)
    else if stream.disabled || stream.inputs == [] then (s, false)
    else if !o.registerOk || !o.publisherOk then (s.(hub := s.hub - Layout(stream)), false)
    else if slugs != [] && !o.transcoderOk then
      (s.(hub := s.hub - Layout(stream), publishing := s.publishing - {code}), false)
    else
      (State(s.hub + Layout(stream),
             s.registered[code := IngestId(stream)],
             if slugs != [] then s.renditions[code := slugs] else s.renditions,
             s.publishing[code := OutputsOf(stream)],
             if slugs != [] then s.transcoding[code := EncoderOf(stream)] else s.transcoding,
             s.startedAt[code := at]),
       true)
  }

  /** The hub once reloadTranscoderFull has rebuilt the buffers. */
  function ReloadedHub(s: State, was: Stream, now: Stream): set<string> {
    var oldSlugs := if now.code in s.renditions then s.renditions[now.code] else [];
    var cleared := s.hub - RenditionIds(now.code, oldSlugs);
    var oldId := if ShouldRunTranscoder(was) then RawIngestBufferId(now.code) else now.code;
    if ShouldRunTranscoder(now) then
      (if oldId != IngestId(now) then cleared + {IngestId(now)} else cleared) + RenditionIds(now.code, TargetSlugs(now))
    else if oldId != now.code then cleared - {oldId}
    else cleared
  }

  /** The reload up to where its buffers are in place. */
  function Rebuilt(s: State, was: Stream, now: Stream): State {
    var code := now.code;
    State(ReloadedHub(s, was, now),
          if code in s.registered then s.registered[code := IngestId(now)] else s.registered,
          s.renditions - {code}, s.publishing - {code}, s.transcoding - {code}, s.startedAt)
  }

  function Reloaded(s: State, was: Stream, now: Stream, o: Oracle): (State, bool) {
    Relaunched(Rebuilt(s, was, now), now, o)
  }

  /** The reload from where its buffers are in place. */
  function Relaunched(t: State, now: Stream, o: Oracle): (State, bool) {
    if TargetSlugs(now) != [] && !o.transcoderOk then (Stopped(t, now.code), false)
    else
      var u := Encoding(t, now);
      if !o.publisherOk then (Stopped(u, now.code), false)
      else (u.(publishing := u.publishing[now.code := OutputsOf(now)]), true)
  }

  function Encoding(t: State, now: Stream): State {
    if TargetSlugs(now) == [] then t
    else t.(renditions := t.renditions[now.code := TargetSlugs(now)],
            transcoding := t.transcoding[now.code := EncoderOf(now)])
  }

  function Updated(s: State, was: Stream, now: Stream, o: Oracle): (State, bool) {
    if !was.disabled && now.disabled then (Stopped(s, now.code), true)
    else if FullReload(was, now) then Reloaded(s, was, now, o)
    else if OutputsOf(was) == OutputsOf(now) then (s, true)
    else if !o.publisherOk then (s, false)
    else (s.(publishing := s.publishing[now.code := OutputsOf(now)]), true)
  }

  /** The coordinator and the collaborators' view of each stream. */
  class Coordinator {
    var hub: set<string>
    var registered: map<string, string>
    var renditions: map<string, seq<string>>
    var publishing: map<string, Outputs>
    var transcoding: map<string, Encoder>
    var startedAt: map<string, int>

    ghost function View(): State
      reads this
    {
      State(hub, registered, renditions, publishing, transcoding, startedAt)
    }

    constructor ()
      ensures View() == State({}, map[], map[], map[], map[], map[])
    {
      hub, registered, renditions, publishing, transcoding, startedAt := {}, map[], map[], map[], map[], map[];
    }

    method CreateRenditions(code: string, profiles: seq<EncodeProfile>)
      returns (slugs: seq<string>, targets: seq<string>)
      modifies this`hub
      ensures slugs == seq(|profiles|, i requires 0 <= i => VideoTrackSlug(i))
      ensures targets == RenditionIdSeq(code, slugs)
      ensures hub == old(hub) + RenditionIds(code, slugs)
    {
      slugs, targets := [], [];
      for i := 0 to |profiles|
        invariant slugs == seq(i, k requires 0 <= k => VideoTrackSlug(k))
        invariant targets == RenditionIdSeq(code, slugs)
        invariant hub == old(hub) + RenditionIds(code, slugs)
      {
        var slug := VideoTrackSlug(i);
        RenditionIdsSnoc(code, slugs, slug);
        hub := hub + {RenditionBufferId(code, slug)};
        slugs, targets := slugs + [slug], targets + [RenditionBufferId(code, slug)];
      }
    }

    method DeleteRenditions(code: string, slugs: seq<string>)
      modifies this`hub
      ensures hub == old(hub) - RenditionIds(code, slugs)
    {
      for i := 0 to |slugs|
        invariant hub == old(hub) - RenditionIds(code, slugs[..i])
      {
        RenditionIdsSnoc(code, slugs[..i], slugs[i]);
        assert slugs[..i] + [slugs[i]] == slugs[..i + 1];
        hub := hub - {RenditionBufferId(code, slugs[i])};
      }
      assert slugs[..|slugs|] == slugs;
    }

    /** Creates every buffer of the layout before anything subscribes. */
    method CreateBuffers(stream: Stream) returns (ingestId: string, slugs: seq<string>, targets: seq<string>)
      modifies this`hub
      ensures hub == old(hub) + Layout(stream)
      ensures ingestId == IngestId(stream) && slugs == TargetSlugs(stream)
      ensures targets == RenditionIdSeq(stream.code, slugs)
    {
      var code := stream.code;
      hub := hub + {code};
      ingestId := code;
      if ShouldRunTranscoder(stream) {
        ingestId := RawIngestBufferId(code);
        hub := hub + {ingestId};
      }
      slugs, targets := [], [];
      if ShouldRunTranscoder(stream) {
        var profiles := TranscoderProfilesFromDomain(stream.transcoder.value.video);
        slugs, targets := CreateRenditions(code, profiles);
      }
    }

    /** Undoes CreateBuffers. */
    method Rollback(stream: Stream, slugs: seq<string>, ingestId: string)
      requires ingestId == IngestId(stream) && slugs == TargetSlugs(stream)
      modifies this`hub
      ensures hub == old(hub) - Layout(stream)
    {
      DeleteRenditions(stream.code, slugs);
      hub := hub - {stream.code};
      if ingestId != stream.code {
        hub := hub - {ingestId};
      }
    }

    method StartLocked(stream: Stream, o: Oracle, at: int) returns (ok: bool)
      modifies this
      ensures (View(), ok) == Started(old(View()), stream, o, at)
    {
      var code := stream.code;
      if code in registered { return true; }
      if stream.disabled { return false; }
      if stream.inputs == [] { return false; }
      ghost var layout := Layout(stream);
      assert old(hub) + layout - layout == old(hub) - layout;
      assert old(registered)[code := IngestId(stream)] - {code} == old(registered);
      assert old(publishing)[code := OutputsOf(stream)] - {code} == old(publishing) - {code};
      var ingestId, slugs, targets := CreateBuffers(stream);
      if !o.registerOk {
        Rollback(stream, slugs, ingestId);
        return false;
      }
      registered := registered[code := ingestId];
      if !o.publisherOk {
        registered := registered - {code};
        Rollback(stream, slugs, ingestId);
        return false;
      }
      publishing := publishing[code := OutputsOf(stream)];
      if |targets| > 0 {
        if !o.transcoderOk {
          publishing := publishing - {code};
          registered := registered - {code};
          Rollback(stream, slugs, ingestId);
          return false;
        }
        transcoding := transcoding[code := Encoder(targets, stream.transcoder.value, stream.watermark)];
        renditions := renditions[code := slugs];
      }
      startedAt := startedAt[code := at];
      return true;
    }

    method StopLocked(code: string)
      modifies this
      ensures View() == Stopped(old(View()), code)
    {
      publishing := publishing - {code};
      transcoding := transcoding - {code};
      registered := registered - {code};
      var slugs := if code in renditions then renditions[code] else [];
      renditions := renditions - {code};
      DeleteRenditions(code, slugs);
      hub := hub - {RawIngestBufferId(code)};
      hub := hub - {code};
      startedAt := startedAt - {code};
    }

    method UpdateLocked(was: Stream, now: Stream, o: Oracle) returns (ok: bool)
      modifies this
      ensures (View(), ok) == Updated(old(View()), was, now, o)
    {
      var diff := ComputeDiff(was, now);
      if diff.nowDisabled {
        StopLocked(now.code);
        return true;
      }
      if diff.transcoder.topology || (diff.transcoder.changed && diff.transcoder.profiles.Some?) {
        ok := ReloadTranscoderFull(was, now, o);
        return;
      }
      if diff.protocolsChanged || diff.pushChanged || diff.policyChanged {
        if !o.publisherOk { return false; }
        publishing := publishing[now.code := OutputsOf(now)];
      }
      return true;
    }

    method ReloadTranscoderFull(was: Stream, now: Stream, o: Oracle) returns (ok: bool)
      modifies this
      ensures (View(), ok) == Reloaded(old(View()), was, now, o)
    {
      var code := now.code;
      publishing := publishing - {code};
      transcoding := transcoding - {code};
      var slugs, targets := RebuildBuffers(was, now);
      if code in registered {
        registered := registered[code := IngestId(now)];
      }
      ok := Relaunch(now, slugs, targets, o);
    }

    method Relaunch(now: Stream, slugs: seq<string>, targets: seq<string>, o: Oracle) returns (ok: bool)
      requires slugs == TargetSlugs(now) && targets == RenditionIdSeq(now.code, slugs)
      modifies this
      ensures (View(), ok) == Relaunched(old(View()), now, o)
    {
      var code := now.code;
      if |targets| > 0 {
        if !o.transcoderOk {
          StopLocked(code);
          return false;
        }
        transcoding := transcoding[code := Encoder(targets, now.transcoder.value, now.watermark)];
        renditions := renditions[code := slugs];
      }
      if !o.publisherOk {
        StopLocked(code);
        return false;
      }
      publishing := publishing[code := OutputsOf(now)];
      return true;
    }

    /** Frees the recorded rendition buffers and builds the next layout's. */
    method RebuildBuffers(was: Stream, now: Stream) returns (slugs: seq<string>, targets: seq<string>)
      modifies this`hub, this`renditions
      ensures hub == ReloadedHub(old(View()), was, now)
      ensures renditions == old(renditions) - {now.code}
      ensures slugs == TargetSlugs(now) && targets == RenditionIdSeq(now.code, slugs)
    {
      var code := now.code;
      var oldSlugs := if code in renditions then renditions[code] else [];
      renditions := renditions - {code};
      DeleteRenditions(code, oldSlugs);
      var oldIngestId := code;
      if ShouldRunTranscoder(was) {
        oldIngestId := RawIngestBufferId(code);
      }
      var newIngestId := code;
      slugs, targets := [], [];
      if ShouldRunTranscoder(now) {
        newIngestId := RawIngestBufferId(code);
        if oldIngestId != newIngestId {
          hub := hub + {newIngestId};
        }
        var profiles := TranscoderProfilesFromDomain(now.transcoder.value.video);
        slugs, targets := CreateRenditions(code, profiles);
      } else if oldIngestId != newIngestId {
        hub := hub - {oldIngestId};
      }
    }
  }

  lemma RenditionIdsSnoc(code: string, slugs: seq<string>, slug: string)
    ensures RenditionIds(code, slugs + [slug]) == RenditionIds(code, slugs) + {RenditionBufferId(code, slug)}
    ensures RenditionIdSeq(code, slugs + [slug]) == RenditionIdSeq(code, slugs) + [RenditionBufferId(code, slug)]
  {
    var more := slugs + [slug];
    forall id | id in RenditionIds(code, slugs) + {RenditionBufferId(code, slug)} ensures id in RenditionIds(code, more) {
      if id in RenditionIds(code, slugs) {
        var i :| 0 <= i < |slugs| && RenditionBufferId(code, slugs[i]) == id;
        assert more[i] == slugs[i];
      } else {
        assert more[|slugs|] == slug;
      }
    }
  }

  // ------------------------------------------------------------------ invariant

  /** What the coordinator should hold for a running stream. */
  ghost predicate RunsAs(s: State, stream: Stream) {
    var (code, slugs) := (stream.code, TargetSlugs(stream));
    && (forall id :: OwnedBy(code, id) ==> (id in s.hub <==> id in Layout(stream)))
    && code in s.registered && s.registered[code] == IngestId(stream)
    && (if slugs != [] then code in s.renditions && s.renditions[code] == slugs else code !in s.renditions)
    && (if slugs != [] then code in s.transcoding && s.transcoding[code].targets == RenditionIdSeq(code, slugs)
        else code !in s.transcoding)
    && code in s.publishing && code in s.startedAt
  }

  /** Nothing but the hub still remembers the stream. */
  ghost predicate Forgotten(s: State, code: string) {
    code !in s.registered && code !in s.renditions && code !in s.transcoding &&
    code !in s.publishing && code !in s.startedAt
  }

  ghost predicate GoneFrom(s: State, code: string) {
    Forgotten(s, code) && forall id :: OwnedBy(code, id) ==> id !in s.hub
  }

  /** The running configurations, by stream code. */
  type Fleet = map<string, Stream>

  ghost predicate SettledFor(s: State, fleet: Fleet, code: string) {
    if code in fleet then fleet[code].code == code && !fleet[code].disabled && RunsAs(s, fleet[code])
    else GoneFrom(s, code)
  }

  /** For every stream, the hub holds exactly the buffers of its current layout
      while it runs and none once it is stopped. */
  ghost predicate Settled(s: State, fleet: Fleet) {
    forall code :: PlainCode(code) ==> SettledFor(s, fleet, code)
  }

  datatype Event =
    | StartEvent(stream: Stream, o: Oracle, at: int)
    | StopEvent(code: string)
    | UpdateEvent(now: Stream, o: Oracle)

  function CodeOf(e: Event): string {
    match e
    case StartEvent(stream, _, _) => stream.code
    case StopEvent(code) => code
    case UpdateEvent(now, _) => now.code
  }

  /** Callers validate codes, and update running streams only, against the
      configuration they run with. */
  predicate Enabled(fleet: Fleet, e: Event) {
    PlainCode(CodeOf(e)) && (e.UpdateEvent? ==> e.now.code in fleet)
  }

  function Step(s: State, fleet: Fleet, e: Event): State
    requires Enabled(fleet, e)
  {
    match e
    case StartEvent(stream, o, at) => Started(s, stream, o, at).0
    case StopEvent(code) => Stopped(s, code)
    case UpdateEvent(now, o) => Updated(s, fleet[now.code], now, o).0
  }

  function NextFleet(s: State, fleet: Fleet, e: Event): Fleet
    requires Enabled(fleet, e)
  {
    match e
    case StartEvent(stream, o, at) =>
      if stream.code !in s.registered && Started(s, stream, o, at).1 then fleet[stream.code := stream] else fleet
    case StopEvent(code) => fleet - {code}
    case UpdateEvent(now, o) =>
      if now.disabled || (FullReload(fleet[now.code], now) && !Updated(s, fleet[now.code], now, o).1)
      then fleet - {now.code} else fleet[now.code := now]
  }

  /** The one failure that leaks: the transcoder refuses to start during a full
      reload, before the new slugs are recorded. */
  predicate Leaks(fleet: Fleet, e: Event)
    requires Enabled(fleet, e)
  {
    e.UpdateEvent? && !e.now.disabled && FullReload(fleet[e.now.code], e.now) &&
    ShouldRunTranscoder(e.now) && !e.o.transcoderOk
  }

  lemma LayoutOwned(stream: Stream, id: string)
    requires id in Layout(stream)
    ensures OwnedBy(stream.code, id)
  {
  }

  lemma RenditionOwned(code: string, slugs: seq<string>, id: string)
    requires id in RenditionIds(code, slugs)
    ensures OwnedBy(code, id)
    ensures PlainCode(code) ==> id != code && id != RawIngestBufferId(code)
  {
    assert id[..3] == "$r$";
    assert RawIngestBufferId(code)[..5] == "$raw$";
    assert RawIngestBufferId(code)[2] == 'a' && id[2] == '$';
  }

  /** A step touches only what belongs to its own stream. */
  ghost predicate OnlyTouches(s: State, t: State, code: string) {
    && (forall id :: !OwnedBy(code, id) ==> (id in s.hub <==> id in t.hub))
    && t.registered - {code} == s.registered - {code}
    && t.renditions - {code} == s.renditions - {code}
    && t.transcoding - {code} == s.transcoding - {code}
    && t.publishing - {code} == s.publishing - {code}
    && t.startedAt - {code} == s.startedAt - {code}
  }

  lemma StoppedTouches(s: State, code: string)
    ensures OnlyTouches(s, Stopped(s, code), code)
  {
    var slugs := if code in s.renditions then s.renditions[code] else [];
    forall id | id in RenditionIds(code, slugs) ensures OwnedBy(code, id) {
      RenditionOwned(code, slugs, id);
    }
  }

  lemma LayoutTouches(hub: set<string>, stream: Stream, id: string)
    requires !OwnedBy(stream.code, id)
    ensures id in hub <==> id in hub - Layout(stream)
    ensures id in hub <==> id in hub + Layout(stream)
  {
    if id in Layout(stream) {
      LayoutOwned(stream, id);
    }
  }

  lemma StartedTouches(s: State, stream: Stream, o: Oracle, at: int)
    ensures OnlyTouches(s, Started(s, stream, o, at).0, stream.code)
  {
    StartedHub(s, stream, o, at);
    forall id | !OwnedBy(stream.code, id) ensures id in s.hub <==> id in Started(s, stream, o, at).0.hub {
      LayoutTouches(s.hub, stream, id);
    }
    StartedElsewhere(s, stream, o, at);
  }

  lemma StartedHub(s: State, stream: Stream, o: Oracle, at: int)
    ensures Started(s, stream, o, at).0.hub in [s.hub, s.hub - Layout(stream), s.hub + Layout(stream)]
  {
  }

  lemma StartedElsewhere(s: State, stream: Stream, o: Oracle, at: int)
    ensures var (t, code) := (Started(s, stream, o, at).0, stream.code);
            && t.registered - {code} == s.registered - {code}
            && t.renditions - {code} == s.renditions - {code}
            && t.transcoding - {code} == s.transcoding - {code}
            && t.publishing - {code} == s.publishing - {code}
            && t.startedAt - {code} == s.startedAt - {code}
  {
    var code := stream.code;
    PutElsewhere(s.registered, code, IngestId(stream));
    PutElsewhere(s.renditions, code, TargetSlugs(stream));
    PutElsewhere(s.publishing, code, OutputsOf(stream));
    PutElsewhere(s.startedAt, code, at);
    if TargetSlugs(stream) != [] {
      PutElsewhere(s.transcoding, code, EncoderOf(stream));
    }
  }

  lemma PutElsewhere<V>(m: map<string, V>, code: string, v: V)
    ensures m[code := v] - {code} == m - {code}
  {
  }

  lemma GoneElsewhere<V>(m: map<string, V>, code: string)
    ensures m - {code} - {code} == m - {code}
  {
  }

  lemma TouchesTransitive(s: State, t: State, u: State, code: string)
    requires OnlyTouches(s, t, code) && OnlyTouches(t, u, code)
    ensures OnlyTouches(s, u, code)
  {
  }

  lemma ReloadedHubTouches(s: State, was: Stream, now: Stream, id: string)
    requires !OwnedBy(now.code, id)
    ensures id in ReloadedHub(s, was, now) <==> id in s.hub
  {
    var oldSlugs := if now.code in s.renditions then s.renditions[now.code] else [];
    if id in RenditionIds(now.code, oldSlugs) {
      RenditionOwned(now.code, oldSlugs, id);
    }
    if id in RenditionIds(now.code, TargetSlugs(now)) {
      RenditionOwned(now.code, TargetSlugs(now), id);
    }
  }

  lemma RebuiltTouches(s: State, was: Stream, now: Stream)
    ensures OnlyTouches(s, Rebuilt(s, was, now), now.code)
  {
    forall id | !OwnedBy(now.code, id) ensures id in Rebuilt(s, was, now).hub <==> id in s.hub {
      ReloadedHubTouches(s, was, now, id);
    }
    PutElsewhere(s.registered, now.code, IngestId(now));
    GoneElsewhere(s.renditions, now.code);
    GoneElsewhere(s.publishing, now.code);
    GoneElsewhere(s.transcoding, now.code);
  }

  lemma EncodingTouches(t: State, now: Stream)
    ensures OnlyTouches(t, Encoding(t, now), now.code)
  {
    if TargetSlugs(now) != [] {
      PutElsewhere(t.renditions, now.code, TargetSlugs(now));
      PutElsewhere(t.transcoding, now.code, EncoderOf(now));
    }
  }

  lemma RelaunchedTouches(t: State, now: Stream, o: Oracle)
    ensures OnlyTouches(t, Relaunched(t, now, o).0, now.code)
  {
    var u := Encoding(t, now);
    EncodingTouches(t, now);
    StoppedTouches(t, now.code);
    StoppedTouches(u, now.code);
    TouchesTransitive(t, u, Stopped(u, now.code), now.code);
    PutElsewhere(u.publishing, now.code, OutputsOf(now));
    TouchesTransitive(t, u, u.(publishing := u.publishing[now.code := OutputsOf(now)]), now.code);
  }

  lemma ReloadedTouches(s: State, was: Stream, now: Stream, o: Oracle)
    ensures OnlyTouches(s, Reloaded(s, was, now, o).0, now.code)
  {
    RebuiltTouches(s, was, now);
    RelaunchedTouches(Rebuilt(s, was, now), now, o);
    TouchesTransitive(s, Rebuilt(s, was, now), Reloaded(s, was, now, o).0, now.code);
  }

  lemma UpdatedTouches(s: State, was: Stream, now: Stream, o: Oracle)
    ensures OnlyTouches(s, Updated(s, was, now, o).0, now.code)
  {
    StoppedTouches(s, now.code);
    ReloadedTouches(s, was, now, o);
    PutElsewhere(s.publishing, now.code, OutputsOf(now));
  }

  /** Streams other than the one stepped stay as they were. */
  lemma OthersUndisturbed(s: State, t: State, fleet: Fleet, next: Fleet, code: string, other: string)
    requires OnlyTouches(s, t, code) && next - {code} == fleet - {code}
    requires PlainCode(code) && PlainCode(other) && other != code && SettledFor(s, fleet, other)
    ensures SettledFor(t, next, other)
  {
    forall id | OwnedBy(other, id) ensures id in t.hub <==> id in s.hub {
      if OwnedBy(code, id) {
        OwnersDisjoint(code, other, id);
      }
    }
    assert other in fleet <==> other in fleet - {code};
    assert other in next <==> other in next - {code};
    assert other in s.registered <==> other in s.registered - {code};
    assert other in t.registered <==> other in t.registered - {code};
    assert other in s.renditions <==> other in s.renditions - {code};
    assert other in t.renditions <==> other in t.renditions - {code};
    assert other in s.transcoding <==> other in s.transcoding - {code};
    assert other in t.transcoding <==> other in t.transcoding - {code};
    assert other in s.publishing <==> other in s.publishing - {code};
    assert other in t.publishing <==> other in t.publishing - {code};
    assert other in s.startedAt <==> other in s.startedAt - {code};
    assert other in t.startedAt <==> other in t.startedAt - {code};
  }

  lemma StoppedSettles(s: State, code: string)
    requires PlainCode(code)
    requires var slugs := if code in s.renditions then s.renditions[code] else [];
             forall id :: OwnedBy(code, id) && id in s.hub ==>
               id == code || id == RawIngestBufferId(code) || id in RenditionIds(code, slugs)
    ensures GoneFrom(Stopped(s, code), code)
  {
  }

  lemma StartedSettles(s: State, fleet: Fleet, stream: Stream, o: Oracle, at: int)
    requires PlainCode(stream.code) && SettledFor(s, fleet, stream.code)
    ensures var e := StartEvent(stream, o, at);
            SettledFor(Step(s, fleet, e), NextFleet(s, fleet, e), stream.code)
  {
  }

  /** A reload that gets as far as the publisher has exactly the new layout. */
  lemma ReloadedHubExact(s: State, was: Stream, now: Stream, id: string)
    requires was.code == now.code && PlainCode(now.code) && RunsAs(s, was) && OwnedBy(now.code, id)
    ensures id in ReloadedHub(s, was, now) <==> id in Layout(now)
  {
    var code := now.code;
    if id in RenditionIds(code, TargetSlugs(was)) {
      RenditionOwned(code, TargetSlugs(was), id);
    }
    if id in RenditionIds(code, TargetSlugs(now)) {
      RenditionOwned(code, TargetSlugs(now), id);
    }
    assert code != RawIngestBufferId(code) by {
      assert RawIngestBufferId(code)[0] == '$';
    }
  }

  /** The hub after a reload is the new layout, and its renditions are the stream's own. */
  ghost predicate LaidOut(hub: set<string>, now: Stream) {
    && (forall id :: OwnedBy(now.code, id) ==> (id in hub <==> id in Layout(now)))
    && (forall id :: id in RenditionIds(now.code, TargetSlugs(now)) ==>
          id != now.code && id != RawIngestBufferId(now.code) && OwnedBy(now.code, id))
    && (TargetSlugs(now) == [] <==> RenditionIds(now.code, TargetSlugs(now)) == {})
  }

  /** What the reload's two layouts consist of. */
  lemma ReloadedLayouts(s: State, was: Stream, now: Stream)
    requires was.code == now.code && PlainCode(now.code) && RunsAs(s, was)
    ensures LaidOut(ReloadedHub(s, was, now), now)
  {
    var (code, slugs) := (now.code, TargetSlugs(now));
    forall id | OwnedBy(code, id) ensures id in ReloadedHub(s, was, now) <==> id in Layout(now) {
      ReloadedHubExact(s, was, now, id);
    }
    forall id | id in RenditionIds(code, slugs) ensures id != code && id != RawIngestBufferId(code) && OwnedBy(code, id) {
      RenditionOwned(code, slugs, id);
    }
    if slugs != [] {
      assert RenditionBufferId(code, slugs[0]) in RenditionIds(code, slugs);
    }
    assert RenditionIds(code, []) == {};
  }

  lemma ReloadLeaves(s: State, was: Stream, now: Stream, o: Oracle)
    requires RunsAs(s, was) && was.code == now.code && LaidOut(ReloadedHub(s, was, now), now)
    requires ShouldRunTranscoder(now) && !o.transcoderOk
    ensures var t := Reloaded(s, was, now, o).0;
            && !Reloaded(s, was, now, o).1 && Forgotten(t, now.code)
            && forall id :: OwnedBy(now.code, id) ==> (id in t.hub <==> id in RenditionIds(now.code, TargetSlugs(now)))
  {
  }

  lemma ReloadRuns(s: State, was: Stream, now: Stream, o: Oracle)
    requires RunsAs(s, was) && was.code == now.code && LaidOut(ReloadedHub(s, was, now), now)
    requires ShouldRunTranscoder(now) ==> o.transcoderOk
    ensures var (t, ok) := Reloaded(s, was, now, o); if ok then RunsAs(t, now) else GoneFrom(t, now.code)
  {
  }

  lemma ReloadedSettles(s: State, fleet: Fleet, now: Stream, o: Oracle)
    requires PlainCode(now.code) && now.code in fleet && SettledFor(s, fleet, now.code)
    requires !now.disabled && FullReload(fleet[now.code], now)
    ensures var e := UpdateEvent(now, o);
            SettledFor(Step(s, fleet, e), NextFleet(s, fleet, e), now.code) <==> !Leaks(fleet, e)
    ensures var e := UpdateEvent(now, o);
            Leaks(fleet, e) ==>
              var t := Step(s, fleet, e);
              Forgotten(t, now.code) &&
              forall id :: OwnedBy(now.code, id) ==> (id in t.hub <==> id in RenditionIds(now.code, TargetSlugs(now)))
  {
    var was := fleet[now.code];
    ReloadedLayouts(s, was, now);
    if Leaks(fleet, UpdateEvent(now, o)) {
      ReloadLeaves(s, was, now, o);
      assert RenditionBufferId(now.code, TargetSlugs(now)[0]) in RenditionIds(now.code, TargetSlugs(now));
    } else {
      ReloadRuns(s, was, now, o);
    }
  }

  lemma RefreshedSettles(s: State, fleet: Fleet, now: Stream, o: Oracle)
    requires PlainCode(now.code) && now.code in fleet && SettledFor(s, fleet, now.code)
    requires !now.disabled && !FullReload(fleet[now.code], now)
    ensures var e := UpdateEvent(now, o);
            OnlyTouches(s, Step(s, fleet, e), now.code) && SettledFor(Step(s, fleet, e), NextFleet(s, fleet, e), now.code)
  {
    SameLadderWithoutReload(fleet[now.code], now);
  }

  lemma StepTouches(s: State, fleet: Fleet, e: Event)
    requires Enabled(fleet, e)
    ensures OnlyTouches(s, Step(s, fleet, e), CodeOf(e))
    ensures NextFleet(s, fleet, e) - {CodeOf(e)} == fleet - {CodeOf(e)}
  {
    match e
    case StartEvent(stream, o, at) =>
      StartedTouches(s, stream, o, at);
      PutElsewhere(fleet, stream.code, stream);
    case StopEvent(code) =>
      StoppedTouches(s, code);
      GoneElsewhere(fleet, code);
    case UpdateEvent(now, o) =>
      UpdatedTouches(s, fleet[now.code], now, o);
      PutElsewhere(fleet, now.code, now);
      GoneElsewhere(fleet, now.code);
  }

  /** The stream stepped is settled exactly when the step is not the leaking reload. */
  lemma OwnSettledExactly(s: State, fleet: Fleet, e: Event)
    requires Enabled(fleet, e) && SettledFor(s, fleet, CodeOf(e))
    ensures SettledFor(Step(s, fleet, e), NextFleet(s, fleet, e), CodeOf(e)) <==> !Leaks(fleet, e)
  {
    match e
    case StartEvent(stream, o, at) => StartedSettles(s, fleet, stream, o, at);
    case StopEvent(code) => StoppedSettles(s, code);
    case UpdateEvent(now, o) =>
      if now.disabled {
        StoppedSettles(s, now.code);
      } else if FullReload(fleet[now.code], now) {
        ReloadedSettles(s, fleet, now, o);
      } else {
        RefreshedSettles(s, fleet, now, o);
      }
  }

  /** Every step keeps every stream settled exactly when it is not the leaking
      reload. */
  lemma StepSettledExactly(s: State, fleet: Fleet, e: Event)
    requires Settled(s, fleet) && Enabled(fleet, e)
    ensures Settled(Step(s, fleet, e), NextFleet(s, fleet, e)) <==> !Leaks(fleet, e)
  {
    var (t, next, code) := (Step(s, fleet, e), NextFleet(s, fleet, e), CodeOf(e));
    assert SettledFor(s, fleet, code);
    StepTouches(s, fleet, e);
    OwnSettledExactly(s, fleet, e);
    forall other | PlainCode(other) && other != code ensures SettledFor(t, next, other) {
      assert SettledFor(s, fleet, other);
      OthersUndisturbed(s, t, fleet, next, code, other);
    }
    assert Settled(t, next) <==> SettledFor(t, next, code);
  }

  // ----------------------------------------------------------------------- runs

  function Empty(): State {
    State({}, map[], map[], map[], map[], map[])
  }

  /** A run from the empty coordinator, with every event enabled where it occurs. */
  function RunTo(es: seq<Event>): Option<(State, Fleet)> {
    if es == [] then Some((Empty(), map[]))
    else
      match RunTo(es[..|es| - 1])
      case None => None
      case Some((s, fleet)) =>
        var e := es[|es| - 1];
        if Enabled(fleet, e) then Some((Step(s, fleet, e), NextFleet(s, fleet, e))) else None
  }

  predicate LeakFree(es: seq<Event>) {
    es == [] ||
    (LeakFree(es[..|es| - 1]) &&
     match RunTo(es[..|es| - 1])
     case None => true
     case Some((_, fleet)) => Enabled(fleet, es[|es| - 1]) ==> !Leaks(fleet, es[|es| - 1]))
  }

  /** Settled after every event. */
  ghost predicate SettledThroughout(es: seq<Event>)
    requires RunTo(es).Some?
  {
    Settled(RunTo(es).value.0, RunTo(es).value.1) && (es == [] || SettledThroughout(es[..|es| - 1]))
  }

  /** Over every sequence of Start, Stop and Update with dependencies failing at
      any point, the hub holds exactly the buffers of the streams that run
      throughout, if and only if no reload leaks. */
  lemma {:induction false} HubAlwaysExact(es: seq<Event>)
    requires RunTo(es).Some?
    ensures SettledThroughout(es) <==> LeakFree(es)
  {
    if es != [] {
      var front := es[..|es| - 1];
      HubAlwaysExact(front);
      if SettledThroughout(front) {
        var (s, fleet) := RunTo(front).value;
        assert Settled(s, fleet);
        StepSettledExactly(s, fleet, es[|es| - 1]);
      }
    }
  }

  /** Starting a forgotten stream clears whatever of its layout was left behind. */
  lemma RestartSettles(t: State, f: Fleet, now: Stream, o: Oracle, at: int)
    requires PlainCode(now.code) && now.inputs != [] && !now.disabled && Forgotten(t, now.code) && now.code !in f
    requires forall id :: OwnedBy(now.code, id) && id in t.hub ==> id in Layout(now)
    ensures var restart := StartEvent(now, o, at);
            SettledFor(Step(t, f, restart), NextFleet(t, f, restart), now.code)
  {
  }

  /** The leak heals: restarting the persisted configuration, whether or not the
      start succeeds, brings every stream back to exactly its buffers. */
  lemma RestartHealsLeak(s: State, fleet: Fleet, now: Stream, o: Oracle, o': Oracle, at: int)
    requires Settled(s, fleet) && Enabled(fleet, UpdateEvent(now, o)) && Leaks(fleet, UpdateEvent(now, o))
    requires now.inputs != []
    ensures var (t, f) := (Step(s, fleet, UpdateEvent(now, o)), NextFleet(s, fleet, UpdateEvent(now, o)));
            var restart := StartEvent(now, o', at);
            Settled(Step(t, f, restart), NextFleet(t, f, restart))
  {
    var (code, update, restart) := (now.code, UpdateEvent(now, o), StartEvent(now, o', at));
    var (t, f) := (Step(s, fleet, update), NextFleet(s, fleet, update));
    var (u, g) := (Step(t, f, restart), NextFleet(t, f, restart));
    assert SettledFor(s, fleet, code);
    ReloadedSettles(s, fleet, now, o);
    StepTouches(s, fleet, update);
    StepTouches(t, f, restart);
    TouchesTransitive(s, t, u, code);
    forall other | PlainCode(other) && other != code ensures SettledFor(u, g, other) {
      assert SettledFor(s, fleet, other);
      OthersUndisturbed(s, u, fleet, g, code, other);
    }
    LeakClears(s, fleet, now, o);
    RestartSettles(t, f, now, o', at);
  }

  /** After a leak the stream is forgotten, and what is left of it is in its layout. */
  lemma LeakClears(s: State, fleet: Fleet, now: Stream, o: Oracle)
    requires Enabled(fleet, UpdateEvent(now, o)) && Leaks(fleet, UpdateEvent(now, o))
    requires SettledFor(s, fleet, now.code)
    ensures var (t, f) := (Step(s, fleet, UpdateEvent(now, o)), NextFleet(s, fleet, UpdateEvent(now, o)));
            && Forgotten(t, now.code) && now.code !in f
            && forall id :: OwnedBy(now.code, id) && id in t.hub ==> id in Layout(now)
  {
    ReloadedSettles(s, fleet, now, o);
  }

  /** The leak is real: one running passthrough stream, updated to transcode while
      the transcoder cannot start, leaves a buffer that nothing frees until the
      stream is started again. */
  lemma LeakExample() returns (es: seq<Event>)
    ensures RunTo(es).Some? && !LeakFree(es)
    ensures RunTo(es).value.1 == map[] && RenditionBufferId("s", VideoTrackSlug(0)) in RunTo(es).value.0.hub
  {
    var inp := Input("u", 0, map[], map[], 0, [], InputNet(0, false));
    var was := Stream("s", false, [inp], None, None, "", "", "", "");
    var now := was.(transcoder := Some(Transcoder(VideoTranscode(false, "", []), AudioTranscode(false, ""), "", "")));
    var e0, e1 := StartEvent(was, Oracle(true, true, true), 0), UpdateEvent(now, Oracle(true, true, false));
    es := [e0, e1];
    assert es[..1] == [e0] && [e0][..0] == [];
    assert RunTo([]).value == (Empty(), map[]);
    assert Started(Empty(), was, e0.o, 0).1;
    assert RunTo([e0]) == Some((Started(Empty(), was, e0.o, 0).0, map["s" := was]));
    assert FullReload(was, now) && Leaks(map["s" := was], e1);
    var t := Step(RunTo([e0]).value.0, map["s" := was], e1);
    assert TargetSlugs(now) == [VideoTrackSlug(0)];
    assert RenditionBufferId("s", TargetSlugs(now)[0]) in RenditionIds("s", TargetSlugs(now));
    RenditionOwned("s", TargetSlugs(now), RenditionBufferId("s", VideoTrackSlug(0)));
    assert RenditionBufferId("s", TargetSlugs(now)[0]) in ReloadedHub(RunTo([e0]).value.0, was, now);
  }
}
