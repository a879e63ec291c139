/** The raw-TS keyframe scanner, seen by the offsets it reports. What a packet
    parses to is an input: its kind, whether it carries payload, and whether the
    access unit it closes is a random access point. */
module HlsScanner {

  const TS_PACKET: nat := 188
  const PAT_IDR_MAX_GAP: nat := 256 * 1024

  /** How the scanner reads one packet: a section start of the PAT, a packet of
      the video stream, or anything else. */
  datatype Kind = Pat | Video(start: bool, payload: bool, idr: bool) | Other

  datatype Scan = Scan(feed: nat, lastPat: int, held: bool, pesStart: nat, lastIdr: int)

  const FRESH := Scan(0, -1, false, 0, -1)

  /** Where a segment may be cut for the access unit just closed. */
  function Boundary(s: Scan): int {
    if 0 <= s.lastPat <= s.pesStart && s.pesStart - s.lastPat <= PAT_IDR_MAX_GAP then s.lastPat else s.pesStart
  }

  function Scanned(s: Scan, kind: Kind): Scan {
    var fed := s.(feed := s.feed + TS_PACKET);
    match kind
    case Other => fed
    case Pat => fed.(lastPat := s.feed)
    case Video(start, payload, idr) =>
      if !start then fed.(held := s.held || payload)
      else fed.(lastIdr := if s.held && idr then Boundary(s) else s.lastIdr, held := payload, pesStart := s.feed)
  }

  function ScannedAll(s: Scan, kinds: seq<Kind>): Scan {
    if kinds == [] then s else Scanned(ScannedAll(s, kinds[..|kinds| - 1]), kinds[|kinds| - 1])
  }

  class KeyframeScanner {
    var feedOffset: nat
    var lastPATOffset: int
    var pesHeld: bool        // some payload of the open access unit is held
    var pesStartOffset: nat
    var lastIDROffset: int

    ghost function View(): Scan
      reads this
    {
      Scan(feedOffset, lastPATOffset, pesHeld, pesStartOffset, lastIDROffset)
    }

    constructor ()
      ensures View() == FRESH
    {
      feedOffset, lastPATOffset, pesHeld, pesStartOffset, lastIDROffset := 0, -1, false, 0, -1;
    }

    method Process188(kind: Kind)
      modifies this
      ensures View() == Scanned(old(View()), kind)
    {
      match kind {
        case Other =>
        case Pat => lastPATOffset := feedOffset;
        case Video(start, payload, idr) => ProcessVideoPacket(start, payload, idr);
      }
      feedOffset := feedOffset + TS_PACKET;
    }

    method ProcessVideoPacket(start: bool, payload: bool, idr: bool)
      modifies this
      ensures View().(feed := old(feedOffset) + TS_PACKET) == Scanned(old(View()), Video(start, payload, idr))
      ensures feedOffset == old(feedOffset)
    {
      if start {
        if pesHeld && idr {
          var boundary := pesStartOffset;
          if lastPATOffset >= 0 && lastPATOffset <= pesStartOffset && pesStartOffset - lastPATOffset <= PAT_IDR_MAX_GAP {
            boundary := lastPATOffset;
          }
          lastIDROffset := boundary;
        }
        pesHeld := false;
        pesStartOffset := feedOffset;
      }
      if payload {
        pesHeld := true;
      }
    }
  }

  predicate Aligned(offset: int) {
    offset % TS_PACKET == 0
  }

  /** What the segmenter relies on, with what keeps it: the next boundary can
      only lie at or after the last one. */
  ghost predicate Sound(s: Scan) {
    && -1 <= s.lastPat && -1 <= s.lastIdr
    && s.lastPat < (if s.feed == 0 then 1 else s.feed) as int
    && (s.feed == 0 ==> s == FRESH) && Aligned(s.feed) && Aligned(s.pesStart)
    && (s.lastPat >= 0 ==> Aligned(s.lastPat)) && (s.lastIdr >= 0 ==> Aligned(s.lastIdr))
    && (s.feed > 0 ==> s.pesStart < s.feed && s.lastIdr < s.feed)
    && s.lastIdr <= Boundary(s) && (s.lastPat > s.pesStart ==> s.lastIdr <= s.pesStart)
  }

  lemma ScannedSound(s: Scan, kind: Kind)
    requires Sound(s)
    ensures Sound(Scanned(s, kind))
    ensures Scanned(s, kind).lastIdr >= s.lastIdr
  {
  }

  /** Over every stream of packets the fed offset counts bytes, and the reported
      boundary never goes back, starts a packet and lies strictly inside what was
      fed. */
  lemma {:induction false} ScannerContract(kinds: seq<Kind>, more: seq<Kind>)
    ensures var s, t := ScannedAll(FRESH, kinds), ScannedAll(FRESH, kinds + more);
            && s.feed == TS_PACKET * |kinds|
            && s.lastIdr <= t.lastIdr
            && (s.lastIdr >= 0 ==> s.lastIdr < s.feed && Aligned(s.lastIdr))
            && Sound(s) && Sound(t)
    decreases |kinds| + |more|, |more|
  {
    if more != [] {
      var all := kinds + more;
      ScannerContract(kinds, more[..|more| - 1]);
      assert all[..|all| - 1] == kinds + more[..|more| - 1];
      ScannedSound(ScannedAll(FRESH, all[..|all| - 1]), all[|all| - 1]);
    } else {
      assert kinds + more == kinds;
      if kinds != [] {
        ScannerContract(kinds[..|kinds| - 1], []);
        assert kinds[..|kinds| - 1] + [] == kinds[..|kinds| - 1];
        ScannedSound(ScannedAll(FRESH, kinds[..|kinds| - 1]), kinds[|kinds| - 1]);
      }
    }
  }

  // ------------------------------------------------------ which boundary is reported

  predicate Opens(kind: Kind) {
    kind.Video? && kind.start
  }

  /** Some video payload since the latest access unit opened, or since the start. */
  predicate PayloadHeld(kinds: seq<Kind>) {
    if kinds == [] then false
    else
      var k := kinds[|kinds| - 1];
      (k.Video? && k.payload) || (!Opens(k) && PayloadHeld(kinds[..|kinds| - 1]))
  }

  /** Where the latest access unit opened, and where the latest PAT was. */
  function OpenedAt(kinds: seq<Kind>): nat {
    if kinds == [] then 0
    else if Opens(kinds[|kinds| - 1]) then TS_PACKET * (|kinds| - 1)
    else OpenedAt(kinds[..|kinds| - 1])
  }

  function PatAt(kinds: seq<Kind>): int {
    if kinds == [] then -1
    else if kinds[|kinds| - 1].Pat? then TS_PACKET * (|kinds| - 1)
    else PatAt(kinds[..|kinds| - 1])
  }

  /** The packet opens an access unit and so closes a random access point with
      payload; the boundary is then the latest PAT if it came before that unit, at
      most 256 KiB before, else the unit itself. */
  function ReportedAt(kinds: seq<Kind>): int {
    if kinds == [] then -1
    else
      var (front, k) := (kinds[..|kinds| - 1], kinds[|kinds| - 1]);
      if Opens(k) && k.idr && PayloadHeld(front) then
        if 0 <= PatAt(front) <= OpenedAt(front) && OpenedAt(front) - PatAt(front) <= 262144
        then PatAt(front) else OpenedAt(front)
      else ReportedAt(front)
  }

  /** Over every stream of packets the scanner reports exactly that. */
  lemma {:induction false} ReportsExactly(kinds: seq<Kind>)
    ensures ScannedAll(FRESH, kinds)
         == Scan(TS_PACKET * |kinds|, PatAt(kinds), PayloadHeld(kinds), OpenedAt(kinds), ReportedAt(kinds))
  {
    if kinds != [] {
      ReportsExactly(kinds[..|kinds| - 1]);
    }
  }
}
