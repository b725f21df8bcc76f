/** The relay ring: two packet slots that are both the queue of packets to repeat and the record of
    those already repeated. */
module Relay {
  import opened Bytes
  import opened Packets

  const RELAY_SLOTS := 2

  /** `accepted` and `relayed` are histories kept by no C variable: every packet ever queued, and every
      packet ever sent on, in order. */
  datatype Ring = Ring(
    slots: seq<Packet>,
    start: nat,
    end: nat,
    size: nat,
    lastSent: uint32,
    accepted: seq<Packet>,
    relayed: seq<Packet>)

  function EmptyRing(): Ring {
    Ring([ZeroPacket(), ZeroPacket()], 0, 0, 0, 0, [], [])
  }

  predicate Shaped(r: Ring) {
    |r.slots| == RELAY_SLOTS && r.start < RELAY_SLOTS && r.end < RELAY_SLOTS && r.size <= RELAY_SLOTS
  }

  /** The packet as a relay sends it: verbatim, one hop further. */
  function NextHop(p: Packet): Packet { WithHop(p, Hop(p) + 1) }

  /** A packet is not repeated again while a slot still holds it; JOIN packets always are. */
  predicate AlreadyRelayed(r: Ring, p: Packet) {
    Kind(p) != PKT_JOIN && exists s | s in r.slots :: SameSansHop(p, s)
  }

  predicate Admits(r: Ring, p: Packet) {
    !AlreadyRelayed(r, p) && Hop(p) < MAX_HOP_COUNT && r.size < RELAY_SLOTS
  }

  /** `_Append_Repeat`, behind the two last tests of `_Cache_Packet_For_Repeat`. */
  function Offer(r: Ring, p: Packet): Ring
    requires Shaped(r)
  {
    if !Admits(r, p) then r
    else r.(slots := r.slots[r.end := p], end := (r.end + 1) % RELAY_SLOTS, size := r.size + 1,
            accepted := r.accepted + [p])
  }

  function Outgoing(r: Ring): Packet
    requires Shaped(r)
  {
    NextHop(r.slots[r.start])
  }

  /** `_Pop_Repeat` and the hop increment, made in the popped slot itself. */
  function SendOn(r: Ring, now: uint32): Ring
    requires Shaped(r) && r.size > 0
  {
    r.(slots := r.slots[r.start := Outgoing(r)], start := (r.start + 1) % RELAY_SLOTS, size := r.size - 1,
       lastSent := now, relayed := r.relayed + [Outgoing(r)])
  }

  /** Restarts the relay timer. */
  function Stamp(r: Ring, now: uint32): (q: Ring)
    ensures RingInv(r) ==> RingInv(q)
  {
    r.(lastSent := now)
  }

  /** Accepted packets leave in order, once each, changed only in the hop nibble. */
  predicate Fifo(r: Ring)
    requires Shaped(r)
  {
    |r.accepted| == |r.relayed| + r.size &&
    r.start == |r.relayed| % RELAY_SLOTS && r.end == |r.accepted| % RELAY_SLOTS &&
    (forall i | 0 <= i < |r.relayed| :: r.relayed[i] == NextHop(r.accepted[i])) &&
    (forall i | |r.relayed| <= i < |r.accepted| :: r.slots[i % RELAY_SLOTS] == r.accepted[i]) &&
    (forall i | 0 <= i < |r.accepted| :: Hop(r.accepted[i]) < MAX_HOP_COUNT)
  }

  /** The slots still name the last two accepted packets, queued or already sent on; unused ones are zero. */
  predicate Remembers(r: Ring)
    requires Shaped(r)
  {
    (forall i | 0 <= i < |r.accepted| && |r.accepted| - RELAY_SLOTS <= i ::
       SansHop(r.slots[i % RELAY_SLOTS]) == SansHop(r.accepted[i])) &&
    forall i | |r.accepted| <= i < RELAY_SLOTS :: r.slots[i] == ZeroPacket()
  }

  /** No packet but a JOIN is accepted while it is one of the last two accepted. */
  predicate NoEcho(accepted: seq<Packet>) {
    forall i, j | 0 <= i < j < |accepted| && j <= i + RELAY_SLOTS && Kind(accepted[j]) != PKT_JOIN ::
      SansHop(accepted[i]) != SansHop(accepted[j])
  }

  predicate RingInv(r: Ring) {
    Shaped(r) && Fifo(r) && Remembers(r) && NoEcho(r.accepted)
  }

  lemma OfferKeepsInv(r: Ring, p: Packet)
    requires RingInv(r)
    ensures RingInv(Offer(r, p))
  {
    if Admits(r, p) {
      OfferKeepsNoEcho(r, p);
      OfferKeepsFifo(r, p);
      OfferKeepsMemory(r, p);
    }
  }

  lemma OfferKeepsFifo(r: Ring, p: Packet)
    requires RingInv(r) && Admits(r, p)
    ensures Fifo(Offer(r, p))
  {
    hide Remembers, NoEcho;
    var q, n := Offer(r, p), |r.accepted|;
    assert forall i | 0 <= i < n :: q.accepted[i] == r.accepted[i];
    assert forall i | |r.relayed| <= i < n :: i == n - 1 && i % 2 != n % 2;
  }

  lemma OfferKeepsMemory(r: Ring, p: Packet)
    requires RingInv(r) && Admits(r, p)
    ensures Remembers(Offer(r, p))
  {
    var q, n := Offer(r, p), |r.accepted|;
    assert q.accepted[n] == p && q.slots[n % RELAY_SLOTS] == p;
    if n > 0 {
      assert q.accepted[n - 1] == r.accepted[n - 1];
      assert q.slots[(n - 1) % RELAY_SLOTS] == r.slots[(n - 1) % RELAY_SLOTS];
    }
  }

  lemma OfferKeepsNoEcho(r: Ring, p: Packet)
    requires RingInv(r) && Admits(r, p)
    ensures NoEcho(r.accepted + [p])
  {
    var g, n := r.accepted + [p], |r.accepted|;
    forall i, j | 0 <= i < j < |g| && j <= i + RELAY_SLOTS && Kind(g[j]) != PKT_JOIN
      ensures SansHop(g[i]) != SansHop(g[j])
    {
      if j == n {
        assert r.slots[i % RELAY_SLOTS] in r.slots;
        SameSansHopMeaning(p, r.slots[i % RELAY_SLOTS]);
      }
    }
  }

  lemma SendOnKeepsInv(r: Ring, now: uint32)
    requires RingInv(r) && r.size > 0
    ensures RingInv(SendOn(r, now))
    ensures Outgoing(r) == NextHop(r.accepted[|r.relayed|]) && Hop(Outgoing(r)) == Hop(r.slots[r.start]) + 1
    ensures Kind(Outgoing(r)) == Kind(r.slots[r.start]) && SansHop(Outgoing(r)) == SansHop(r.slots[r.start])
  {
    assert r.slots[|r.relayed| % RELAY_SLOTS] == r.accepted[|r.relayed|];
    WithHopKeeps(r.slots[r.start], Hop(r.slots[r.start]) + 1);
    SendOnKeepsFifo(r, now);
    assert forall i | 0 <= i < RELAY_SLOTS :: SansHop(SendOn(r, now).slots[i]) == SansHop(r.slots[i]);
  }

  lemma SendOnKeepsFifo(r: Ring, now: uint32)
    requires RingInv(r) && r.size > 0
    ensures Fifo(SendOn(r, now))
  {
    hide Remembers, NoEcho;
    var q, n := SendOn(r, now), |r.relayed|;
    assert r.slots[n % RELAY_SLOTS] == r.accepted[n];
    assert forall i | 0 <= i < n :: q.relayed[i] == r.relayed[i];
    assert forall i | n + 1 <= i < |r.accepted| :: i == n + 1 && i % 2 != n % 2;
  }

  /** No two used slots hold the same packet up to the hop count, JOIN packets apart. */
  lemma UsedSlotsDiffer(r: Ring)
    requires RingInv(r) && |r.accepted| >= 2
    requires Kind(r.slots[0]) != PKT_JOIN || Kind(r.slots[1]) != PKT_JOIN
    ensures SansHop(r.slots[0]) != SansHop(r.slots[1])
  {
    var n := |r.accepted|;
    var a, b := r.accepted[n - 2], r.accepted[n - 1];
    assert SansHop(r.slots[(n - 2) % 2]) == SansHop(a) && SansHop(r.slots[(n - 1) % 2]) == SansHop(b);
    if SansHop(a) == SansHop(b) {
      assert Kind(a) == SansHop(a)[TYPE_AT] == SansHop(b)[TYPE_AT] == Kind(b);
      assert forall i | 0 <= i < 2 :: Kind(r.slots[i]) == SansHop(r.slots[i])[TYPE_AT];
    }
  }

  class RelayRing {
    const slots: array<Packet>
    var start: nat
    var end: nat
    var size: nat
    var lastSent: uint32
    ghost var accepted: seq<Packet>
    ghost var relayed: seq<Packet>

    ghost predicate Valid()
      reads this, slots
    {
      RingInv(Contents())
    }

    ghost function Contents(): Ring
      reads this, slots
    {
      Ring(slots[..], start, end, size, lastSent, accepted, relayed)
    }

    constructor ()
      ensures Valid() && fresh(slots)
      ensures Contents() == EmptyRing()
    {
      slots := new Packet[2](i => ZeroPacket());
      start, end, size, lastSent := 0, 0, 0, 0;
      accepted, relayed := [], [];
      new;
      assert slots[..] == EmptyRing().slots;
    }

    method SetLastSent(now: uint32)
      requires Valid()
      modifies this`lastSent
      ensures Valid()
      ensures Contents() == Stamp(old(Contents()), now)
    {
      lastSent := now;
    }

    /** Compares a packet with a slot, byte by byte. */
    static method IsSameSansHop(a: Packet, b: Packet) returns (same: bool)
      ensures same <==> SameSansHop(a, b)
    {
      if Sequence(a) != Sequence(b) { return false; }
      for x := 0 to PACKET_SIZE
        invariant forall i | 0 <= i < x && i != HOP_SEQ_AT :: a[i] == b[i]
      {
        if a[x] != b[x] && x != HOP_SEQ_AT { return false; }
      }
      same := true;
    }

    /** Queues the packet unless a slot holds it already, it has been repeated too often, or the ring
        is full. */
    method OfferPacket(p: Packet)
      requires Valid()
      modifies this, slots
      ensures Valid()
      ensures Contents() == Offer(old(Contents()), p)
    {
      for x := 0 to RELAY_SLOTS
        invariant Kind(p) == PKT_JOIN || forall s | s in slots[..x] :: !SameSansHop(p, s)
        modifies {}
      {
        if Kind(p) != PKT_JOIN {
          var same := IsSameSansHop(p, slots[x]);
          if same {
            assert slots[x] in slots[..];
            return;
          }
        }
      }
      assert slots[..RELAY_SLOTS] == slots[..];
      if Hop(p) >= MAX_HOP_COUNT { return; }
      if size == RELAY_SLOTS { return; }
      OfferKeepsInv(Contents(), p);
      slots[end] := p;
      end := (end + 1) % RELAY_SLOTS;
      size := size + 1;
      accepted := accepted + [p];
    }

    /** Pops the oldest packet, increments its hop count in place, and returns what is sent. */
    method PopForRelay(now: uint32) returns (p: Packet)
      requires Valid() && size > 0
      modifies this, slots
      ensures Valid()
      ensures p == Outgoing(old(Contents()))
      ensures Contents() == SendOn(old(Contents()), now)
    {
      hide Fifo, Remembers, NoEcho;
      SendOnKeepsInv(Contents(), now);
      var at := start;
      start := (start + 1) % RELAY_SLOTS;
      size := size - 1;
      slots[at] := WithHop(slots[at], Hop(slots[at]) + 1);
      lastSent := now;
      p := slots[at];
      relayed := relayed + [p];
    }
  }
}
