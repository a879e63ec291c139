/** Names of the hub buffers a stream occupies, and the ladder the publisher reads. */
module BufferLayout {
  import opened Domain

  const DEFAULT_RUNG_BITRATE := 2500

  function Digit(d: nat): char
    requires d < 10
  {
    ('0' as int + d) as char
  }

  function Itoa(n: nat): (s: string)
    ensures s != []
  {
    if n < 10 then [Digit(n)] else Itoa(n / 10) + [Digit(n % 10)]
  }

  lemma {:induction false} ItoaInjective(m: nat, n: nat)
    requires Itoa(m) == Itoa(n)
    ensures m == n
  {
    assert Itoa(m)[|Itoa(m)| - 1] == Itoa(n)[|Itoa(n)| - 1];
    if m >= 10 && n >= 10 {
      assert Itoa(m)[..|Itoa(m)| - 1] == Itoa(m / 10);
      assert Itoa(n)[..|Itoa(n)| - 1] == Itoa(n / 10);
      ItoaInjective(m / 10, n / 10);
    }
  }

  /** Stable path segment of the profile at a 0-based index. */
  function VideoTrackSlug(index: nat): string {
    "track_" + Itoa(index + 1)
  }

  function RenditionBufferId(code: string, slug: string): string {
    "$r$" + code + "$" + slug
  }

  function RawIngestBufferId(code: string): string {
    "$raw$" + code
  }

  /** Stream codes never contain the '$' that marks internal buffers. */
  predicate PlainCode(code: string) {
    code != "" && '$' !in code
  }

  /** The buffers that belong to a stream, whatever its configuration. */
  predicate OwnedBy(code: string, id: string) {
    id == code || id == RawIngestBufferId(code) || "$r$" + code + "$" <= id
  }

  lemma PrefixNamesCode(c: string, d: string, id: string)
    requires PlainCode(c) && PlainCode(d) && "$r$" + c + "$" <= id && "$r$" + d + "$" <= id
    ensures c == d
  {
    var p, q := "$r$" + c + "$", "$r$" + d + "$";
    assert p[3 + |c|] == '$' && q[3 + |d|] == '$';
    assert forall i :: 0 <= i < |c| ==> p[3 + i] == c[i];
    assert forall i :: 0 <= i < |d| ==> q[3 + i] == d[i];
    assert |c| == |d|;
    forall i | 0 <= i < |c| ensures c[i] == d[i] {
      assert id[3 + i] == p[3 + i] && id[3 + i] == q[3 + i];
    }
  }

  /** No buffer belongs to two streams. */
  lemma OwnersDisjoint(c: string, d: string, id: string)
    requires PlainCode(c) && PlainCode(d) && OwnedBy(c, id) && OwnedBy(d, id)
    ensures c == d
  {
    assert c[0] != '$' && d[0] != '$';
    assert RawIngestBufferId(c)[..5] == "$raw$" && RawIngestBufferId(d)[..5] == "$raw$";
    assert RawIngestBufferId(c)[5..] == c && RawIngestBufferId(d)[5..] == d;
    assert ("$r$" + c + "$")[2] == '$' && ("$r$" + d + "$")[2] == '$';
    assert RawIngestBufferId(c)[2] == 'a' && RawIngestBufferId(d)[2] == 'a';
    if "$r$" + c + "$" <= id && "$r$" + d + "$" <= id {
      PrefixNamesCode(c, d, id);
    }
  }

  lemma RenditionsDistinct(code: string, i: nat, j: nat)
    requires RenditionBufferId(code, VideoTrackSlug(i)) == RenditionBufferId(code, VideoTrackSlug(j))
    ensures i == j
  {
    var n := |"$r$" + code + "$"|;
    assert RenditionBufferId(code, VideoTrackSlug(i))[n..] == VideoTrackSlug(i);
    assert RenditionBufferId(code, VideoTrackSlug(j))[n..] == VideoTrackSlug(j);
    assert VideoTrackSlug(i)[6..] == Itoa(i + 1) && VideoTrackSlug(j)[6..] == Itoa(j + 1);
    ItoaInjective(i + 1, j + 1);
  }

  // ------------------------------------------------------- the publisher's view

  datatype Rung = Rung(slug: string, bufferId: string, width: int, height: int, bitrateKbps: int)

  function RungFor(code: string, i: nat, p: VideoProfile): Rung {
    Rung(VideoTrackSlug(i), RenditionBufferId(code, VideoTrackSlug(i)), p.width, p.height,
         if p.bitrate <= 0 then DEFAULT_RUNG_BITRATE else p.bitrate)
  }

  /** The ladder the publisher routes to; empty when nothing is transcoded. */
  function Ladder(code: string, tc: Option<Transcoder>): seq<Rung> {
    if tc.None? || (tc.value.video.copy && tc.value.audio.copy) then []
    else if tc.value.video.copy || tc.value.video.profiles == [] then
      [Rung(VideoTrackSlug(0), RenditionBufferId(code, VideoTrackSlug(0)), 0, 0, 0)]
    else
      var ps := tc.value.video.profiles;
      seq(|ps|, i requires 0 <= i < |ps| => RungFor(code, i, ps[i]))
  }

  method RenditionsForTranscoder(code: string, tc: Option<Transcoder>) returns (out: seq<Rung>)
    ensures out == Ladder(code, tc)
  {
    if tc.None? { return []; }
    if tc.value.video.copy && tc.value.audio.copy { return []; }
    if tc.value.video.copy || tc.value.video.profiles == [] {
      var slug := VideoTrackSlug(0);
      return [Rung(slug, RenditionBufferId(code, slug), 0, 0, 0)];
    }
    var ps := tc.value.video.profiles;
    out := [];
    for i := 0 to |ps|
      invariant out == Ladder(code, tc)[..i]
    {
      var slug := VideoTrackSlug(i);
      var br := ps[i].bitrate;
      if br <= 0 {
        br := DEFAULT_RUNG_BITRATE;
      }
      out := out + [Rung(slug, RenditionBufferId(code, slug), ps[i].width, ps[i].height, br)];
    }
  }

  /** Two's complement 64-bit wrap of an integer result. */
  function Wrap64(x: int): int {
    (x + 0x8000_0000_0000_0000) % 0x1_0000_0000_0000_0000 - 0x8000_0000_0000_0000
  }

  function Score(r: Rung): int {
    Wrap64(r.width * r.height * 1000 + r.bitrateKbps)
  }

  /** The first rung of maximal score; 0 on an empty ladder. */
  predicate IsBestIndex(rungs: seq<Rung>, b: nat) {
    if rungs == [] then b == 0
    else b < |rungs| && (forall i :: 0 <= i < |rungs| ==> Score(rungs[i]) <= Score(rungs[b]))
                     && (forall i :: 0 <= i < b ==> Score(rungs[i]) < Score(rungs[b]))
  }

  method BestRenditionIndex(rungs: seq<Rung>) returns (best: nat)
    ensures IsBestIndex(rungs, best)
  {
    if rungs == [] { return 0; }
    best := 0;
    var bestScore := Score(rungs[0]);
    for i := 1 to |rungs|
      invariant best < i && bestScore == Score(rungs[best])
      invariant forall k :: 0 <= k < i ==> Score(rungs[k]) <= bestScore
      invariant forall k :: 0 <= k < best ==> Score(rungs[k]) < bestScore
    {
      var sc := Score(rungs[i]);
      if sc > bestScore {
        bestScore := sc;
        best := i;
      }
    }
  }

  /** The buffer single-rendition outputs read. */
  method PlaybackBufferId(code: string, tc: Option<Transcoder>) returns (id: string)
    ensures Ladder(code, tc) == [] ==> id == code
    ensures Ladder(code, tc) != [] ==>
              exists b :: 0 <= b < |Ladder(code, tc)| && IsBestIndex(Ladder(code, tc), b)
                          && id == Ladder(code, tc)[b].bufferId
  {
    var rungs := RenditionsForTranscoder(code, tc);
    if rungs == [] { return code; }
    var b := BestRenditionIndex(rungs);
    return rungs[b].bufferId;
  }

  /** One rung beats another by resolution, then by bitrate. */
  predicate Outranks(a: Rung, b: Rung) {
    a.width * a.height > b.width * b.height ||
    (a.width * a.height == b.width * b.height && a.bitrateKbps > b.bitrateKbps)
  }

  predicate NoOverflow(r: Rung) {
    -0x8000_0000_0000_0000 <= r.width * r.height * 1000 + r.bitrateKbps < 0x8000_0000_0000_0000
  }

  /** A rung's extra pixels are worth more than the bitrate it gives away. */
  predicate PixelsDominate(rungs: seq<Rung>) {
    forall i, j :: 0 <= i < |rungs| && 0 <= j < |rungs| && rungs[i].width * rungs[i].height > rungs[j].width * rungs[j].height
      ==> rungs[j].bitrateKbps - rungs[i].bitrateKbps < 1000 * (rungs[i].width * rungs[i].height - rungs[j].width * rungs[j].height)
  }

  /** The score orders a ladder by resolution then bitrate exactly when pixels dominate. */
  lemma ScoreIsResolutionFirstExactly(rungs: seq<Rung>)
    requires forall i :: 0 <= i < |rungs| ==> NoOverflow(rungs[i])
    ensures PixelsDominate(rungs) <==>
            forall i, j :: 0 <= i < |rungs| && 0 <= j < |rungs| ==>
              (Outranks(rungs[i], rungs[j]) <==> Score(rungs[i]) > Score(rungs[j]))
  {
    forall i | 0 <= i < |rungs|
      ensures Score(rungs[i]) == rungs[i].width * rungs[i].height * 1000 + rungs[i].bitrateKbps
    {
      assert NoOverflow(rungs[i]);
    }
    if PixelsDominate(rungs) {
    } else {
      var i, j :| 0 <= i < |rungs| && 0 <= j < |rungs| && rungs[i].width * rungs[i].height > rungs[j].width * rungs[j].height
        && !(rungs[j].bitrateKbps - rungs[i].bitrateKbps < 1000 * (rungs[i].width * rungs[i].height - rungs[j].width * rungs[j].height));
      assert Outranks(rungs[i], rungs[j]);
    }
  }

  /** How often the score wraps around 64 bits. */
  function Laps(r: Rung): int {
    (r.width * r.height * 1000 + r.bitrateKbps + 0x8000_0000_0000_0000) / 0x1_0000_0000_0000_0000
  }

  /** The score a rung leads by outweighs the laps it is ahead. */
  predicate LeadOutweighsLaps(a: Rung, b: Rung) {
    (a.width * a.height - b.width * b.height) * 1000 + (a.bitrateKbps - b.bitrateKbps)
    > (Laps(a) - Laps(b)) * 0x1_0000_0000_0000_0000
  }

  lemma ScoreUnwraps(a: Rung, b: Rung)
    ensures Score(a) > Score(b) <==> LeadOutweighsLaps(a, b)
  {
  }

  /** Overflowing or not: exactly when no rung's lead over one it outranks is
      outweighed by the laps its score wraps. */
  lemma WrappedScoreExactly(rungs: seq<Rung>)
    ensures (forall i, j :: 0 <= i < |rungs| && 0 <= j < |rungs| ==>
               (Outranks(rungs[i], rungs[j]) <==> Score(rungs[i]) > Score(rungs[j])))
            <==> forall i, j :: 0 <= i < |rungs| && 0 <= j < |rungs| && Outranks(rungs[i], rungs[j]) ==>
                   LeadOutweighsLaps(rungs[i], rungs[j])
  {
    forall i, j | 0 <= i < |rungs| && 0 <= j < |rungs|
      ensures Score(rungs[i]) > Score(rungs[j]) <==> LeadOutweighsLaps(rungs[i], rungs[j])
      ensures !Outranks(rungs[i], rungs[j]) && !Outranks(rungs[j], rungs[i]) ==> Score(rungs[i]) == Score(rungs[j])
    {
      ScoreUnwraps(rungs[i], rungs[j]);
    }
  }

  /** A ladder where the code's choice is not the highest resolution. */
  lemma BestIsNotAlwaysLargest()
    ensures var rungs := Ladder("s", Some(Transcoder(
                VideoTranscode(false, "", [VideoProfile(1, 1, 3000, ""), VideoProfile(2, 1, 500, "")]),
                AudioTranscode(false, ""), "", "")));
            Outranks(rungs[1], rungs[0]) && IsBestIndex(rungs, 0)
  {
  }

  /** Where the score overflows, the wrap can put the larger rung last. */
  lemma WrapInvertsRanking()
    ensures var rungs := Ladder("s", Some(Transcoder(
                VideoTranscode(false, "", [VideoProfile(9223372036854776, 1, 1, ""), VideoProfile(1, 1, 1, "")]),
                AudioTranscode(false, ""), "", "")));
            && !NoOverflow(rungs[0]) && PixelsDominate(rungs) && Outranks(rungs[0], rungs[1])
            && Score(rungs[0]) < Score(rungs[1]) && IsBestIndex(rungs, 1)
  {
    var rungs := Ladder("s", Some(Transcoder(
        VideoTranscode(false, "", [VideoProfile(9223372036854776, 1, 1, ""), VideoProfile(1, 1, 1, "")]),
        AudioTranscode(false, ""), "", "")));
    assert Score(rungs[0]) == -9223372036854775615 && Score(rungs[1]) == 1001;
  }
}
