/** FLV video tags carrying AVC slices, and how a receiver reads them: Annex
    E.4.3.1 and E.4.3.2 of the Adobe Flash Video File Format Specification 10.1. */
module FlvTag {
  import opened Domain

  type byte = n: nat | n < 256

  const AVC_KEY_FRAME: byte := 0x17
  const AVC_INTER_FRAME: byte := 0x27
  const AVC_PACKET_NALU: byte := 1
  const TWO_32: nat := 0x1_0000_0000

  // -------------------------------------------------------------------- writing

  /** The low 24 bits of a 32-bit integer, high byte first. */
  function Int24(n: int): (b: seq<byte>)
    ensures |b| == 3
  {
    [n / 256 / 256 % 256, n / 256 % 256, n % 256]
  }

  /** A length cut to 32 bits, high byte first. */
  function Uint32(n: nat): (b: seq<byte>)
    ensures |b| == 4
  {
    [n / 256 / 256 / 256 % 256, n / 256 / 256 % 256, n / 256 % 256, n % 256]
  }

  function Prefixed(nals: seq<seq<byte>>): seq<byte> {
    if nals == [] then []
    else Prefixed(nals[..|nals| - 1]) + Uint32(|nals[|nals| - 1]|) + nals[|nals| - 1]
  }

  function NaluTag(nals: seq<seq<byte>>, key: bool, cts: int): seq<byte> {
    [if key then AVC_KEY_FRAME else AVC_INTER_FRAME, AVC_PACKET_NALU] + Int24(cts) + Prefixed(nals)
  }

  method BuildAVCNaluTag(slices: seq<seq<byte>>, isKey: bool, ctsMs: int) returns (payload: seq<byte>)
    ensures payload == NaluTag(slices, isKey, ctsMs)
  {
    payload := [if isKey then AVC_KEY_FRAME else AVC_INTER_FRAME, AVC_PACKET_NALU,
                ctsMs / 256 / 256 % 256, ctsMs / 256 % 256, ctsMs % 256];
    ghost var header := payload;
    for i := 0 to |slices|
      invariant payload == header + Prefixed(slices[..i])
    {
      assert slices[..i + 1][..i] == slices[..i];
      payload := payload + Uint32(|slices[i]|);
      payload := payload + slices[i];
    }
    assert slices[..|slices|] == slices;
  }

  // -------------------------------------------------------------------- reading

  datatype Tag = Tag(key: bool, cts: int, nals: seq<seq<byte>>)

  function ReadInt24(a: byte, b: byte, c: byte): int {
    ((if a < 128 then a else a - 256) * 256 + b) * 256 + c
  }

  function ReadUint32(a: byte, b: byte, c: byte, d: byte): nat {
    ((a * 256 + b) * 256 + c) * 256 + d
  }

  /** Length-prefixed units until the end; none may be cut short. */
  function ReadNals(b: seq<byte>): Option<seq<seq<byte>>>
    decreases |b|
  {
    if b == [] then Some([])
    else if |b| < 4 then None
    else
      var n := ReadUint32(b[0], b[1], b[2], b[3]);
      if |b| - 4 < n then None
      else
        match ReadNals(b[4 + n..])
        case None => None
        case Some(rest) => Some([b[4..4 + n]] + rest)
  }

  /** Frame type 1 or 2 and codec 7, AVC packet type 1, signed 24-bit composition
      time, then the units. */
  function ReadTag(b: seq<byte>): Option<Tag> {
    if |b| < 5 || b[0] % 16 != 7 || b[0] / 16 !in {1, 2} || b[1] != 1 then None
    else
      match ReadNals(b[5..])
      case None => None
      case Some(nals) => Some(Tag(b[0] / 16 == 1, ReadInt24(b[2], b[3], b[4]), nals))
  }

  // ----------------------------------------------------------------- round trips

  lemma Shifted(n: int, high: int, low: nat)
    requires n == high * 256 + low && low < 256
    ensures n / 256 == high && n % 256 == low
  {
  }

  lemma Uint32RoundTrip(n: nat)
    requires n < TWO_32
    ensures var b := Uint32(n); ReadUint32(b[0], b[1], b[2], b[3]) == n
  {
    var q3 := n / 256;
    var q2 := q3 / 256;
    var q1 := q2 / 256;
    assert q1 < 256;
  }

  lemma Uint32Unique(a: byte, b: byte, c: byte, d: byte)
    ensures Uint32(ReadUint32(a, b, c, d)) == [a, b, c, d] && ReadUint32(a, b, c, d) < TWO_32
  {
    Shifted(ReadUint32(a, b, c, d), (a * 256 + b) * 256 + c, d);
    Shifted((a * 256 + b) * 256 + c, a * 256 + b, c);
    Shifted(a * 256 + b, a, b);
  }

  lemma Int24RoundTrip(n: int)
    requires -0x800000 <= n < 0x800000
    ensures var b := Int24(n); ReadInt24(b[0], b[1], b[2]) == n
  {
    var q2 := n / 256;
    var q1 := q2 / 256;
    assert -128 <= q1 < 128;
    assert q1 % 256 == if q1 < 0 then q1 + 256 else q1;
  }

  lemma Int24Unique(a: byte, b: byte, c: byte)
    ensures Int24(ReadInt24(a, b, c)) == [a, b, c] && -0x800000 <= ReadInt24(a, b, c) < 0x800000
  {
    var k := if a < 128 then a else a - 256;
    Shifted(ReadInt24(a, b, c), k * 256 + b, c);
    Shifted(k * 256 + b, k, b);
    assert k % 256 == a;
  }

  lemma {:induction false} PrefixedCons(nal: seq<byte>, nals: seq<seq<byte>>)
    ensures Prefixed([nal] + nals) == Uint32(|nal|) + nal + Prefixed(nals)
  {
    var all := [nal] + nals;
    if nals == [] {
      assert all == [nal] && all[..0] == [];
      assert Prefixed([nal]) == Prefixed([]) + Uint32(|nal|) + nal;
    } else {
      var front, last := nals[..|nals| - 1], nals[|nals| - 1];
      PrefixedCons(nal, front);
      assert all[..|all| - 1] == [nal] + front;
      assert Uint32(|nal|) + nal + Prefixed(front) + Uint32(|last|) + last
          == Uint32(|nal|) + nal + (Prefixed(front) + Uint32(|last|) + last);
    }
  }

  lemma {:induction false} NalsRoundTrip(nals: seq<seq<byte>>)
    requires forall i :: 0 <= i < |nals| ==> |nals[i]| < TWO_32
    ensures ReadNals(Prefixed(nals)) == Some(nals)
  {
    if nals != [] {
      var nal, rest := nals[0], nals[1..];
      NalsRoundTrip(rest);
      PrefixedCons(nal, rest);
      Uint32RoundTrip(|nal|);
      var b := Prefixed(nals);
      assert nals == [nal] + rest;
      assert b == Uint32(|nal|) + (nal + Prefixed(rest));
      assert b[4..4 + |nal|] == nal && b[4 + |nal|..] == Prefixed(rest);
    }
  }

  lemma LengthHead(b: seq<byte>)
    requires |b| >= 4
    ensures var n := ReadUint32(b[0], b[1], b[2], b[3]); b[..4] == Uint32(n) && n < TWO_32
  {
    Uint32Unique(b[0], b[1], b[2], b[3]);
    assert b[..4] == [b[0], b[1], b[2], b[3]];
  }

  lemma Split3(b: seq<byte>, n: nat)
    requires 4 + n <= |b|
    ensures b == b[..4] + b[4..4 + n] + b[4 + n..]
  {
  }

  lemma {:induction false} NalsUnique(b: seq<byte>)
    requires ReadNals(b).Some?
    ensures Prefixed(ReadNals(b).value) == b
    ensures forall i :: 0 <= i < |ReadNals(b).value| ==> |ReadNals(b).value[i]| < TWO_32
    decreases |b|
  {
    if b != [] {
      LengthHead(b);
      var n := ReadUint32(b[0], b[1], b[2], b[3]);
      Split3(b, n);
      NalsUnique(b[4 + n..]);
      PrefixedCons(b[4..4 + n], ReadNals(b[4 + n..]).value);
    }
  }

  predicate Fits32(nals: seq<seq<byte>>) {
    forall i :: 0 <= i < |nals| ==> |nals[i]| < TWO_32
  }

  lemma NalsRoundTripExactly(nals: seq<seq<byte>>)
    ensures ReadNals(Prefixed(nals)) == Some(nals) <==> Fits32(nals)
  {
    if Fits32(nals) {
      NalsRoundTrip(nals);
    }
    if ReadNals(Prefixed(nals)).Some? {
      NalsUnique(Prefixed(nals));
    }
  }

  lemma CtsRoundTripExactly(cts: int)
    ensures var b := Int24(cts); ReadInt24(b[0], b[1], b[2]) == cts <==> -0x800000 <= cts < 0x800000
  {
    var b := Int24(cts);
    Int24Unique(b[0], b[1], b[2]);
    if -0x800000 <= cts < 0x800000 {
      Int24RoundTrip(cts);
    }
  }

  lemma HeaderOf(nals: seq<seq<byte>>, key: bool, cts: int)
    ensures var b := NaluTag(nals, key, cts);
            && |b| >= 5 && b[0] % 16 == 7 && b[0] / 16 == (if key then 1 else 2) && b[1] == 1
            && [b[2], b[3], b[4]] == Int24(cts) && b[5..] == Prefixed(nals)
  {
  }

  /** What is sent is what is read, exactly when every unit's length fits 32 bits
      and the composition time 24. */
  lemma TagRoundTripExactly(nals: seq<seq<byte>>, key: bool, cts: int)
    ensures ReadTag(NaluTag(nals, key, cts)) == Some(Tag(key, cts, nals))
            <==> -0x800000 <= cts < 0x800000 && Fits32(nals)
  {
    HeaderOf(nals, key, cts);
    CtsRoundTripExactly(cts);
    NalsRoundTripExactly(nals);
  }

  /** And nothing else reads the same: a readable tag is the one its contents
      build. */
  lemma TagUnique(b: seq<byte>)
    requires ReadTag(b).Some?
    ensures var t := ReadTag(b).value; NaluTag(t.nals, t.key, t.cts) == b
  {
    NalsUnique(b[5..]);
    Int24Unique(b[2], b[3], b[4]);
    assert b == [b[0], b[1]] + [b[2], b[3], b[4]] + b[5..];
  }
}
