/** Packets of the buffer hub, their session stamps, and what a subscriber sees. */
module HubPackets {
  import opened Domain

  /** A raw transport chunk or one access unit; the session fields are the hub's. */
  datatype Packet = Packet(ts: seq<bv8>, av: Option<seq<bv8>>, sessionId: nat, sessionStart: bool)

  predicate Empty(p: Packet) {
    p.ts == [] && (p.av.None? || p.av.value == [])
  }

  /** Session stamp state of one buffer. */
  datatype Stamper = Stamper(session: Option<nat>, pending: bool)

  predicate HubAssigns(st: Stamper, p: Packet) {
    p.sessionId == 0 && st.session.Some?
  }

  function Stamp(st: Stamper, p: Packet): Packet {
    if !HubAssigns(st, p) then p
    else p.(sessionId := st.session.value, sessionStart := p.sessionStart || st.pending)
  }

  function AfterStamp(st: Stamper, p: Packet): Stamper {
    if Empty(p) || !HubAssigns(st, p) then st else st.(pending := false)
  }

  /** One subscriber's view: its channel, what it has taken out, what it was
      offered and how much of that was dropped. */
  datatype View = View(ch: seq<Packet>, received: seq<Packet>, offered: seq<Packet>, dropped: nat, open: bool)

  function Offer(v: View, capacity: nat, p: Packet): View {
    if |v.ch| < capacity then v.(ch := v.ch + [p], offered := v.offered + [p])
    else v.(dropped := v.dropped + 1, offered := v.offered + [p])
  }

  function Received(v: View): View {
    if v.ch == [] then v else v.(ch := v.ch[1..], received := v.received + [v.ch[0]])
  }
}
