/** The 64-byte packet of the mesh: header layout, nibbles, and equality up to the hop count. */
module Packets {
  import opened Bytes

  const PACKET_SIZE := 64

  function ZeroPacket(): Packet { seq(64, i => 0) }

  type Packet = p: seq<byte> | |p| == 64 witness seq(64, i => 0)

  const PKT_CONFLICT_NAME: byte := 0x01
  const PKT_JOIN: byte := 0x03
  const PKT_PING: byte := 0x04
  const PKT_PONG: byte := 0x05
  const PKT_GET_NUM_REGISTERS: byte := 0x06
  const PKT_NUM_REGISTERS: byte := 0x07
  const PKT_GET_REGISTER_NAME: byte := 0x08
  const PKT_REGISTER_NAME: byte := 0x09
  const PKT_GET_REGISTER: byte := 0x0A
  const PKT_REGISTER_VALUE: byte := 0x0B
  const PKT_SET_REGISTER: byte := 0x0C
  const PKT_SET_REGISTER_ACK: byte := 0x0D

  const TYPE_AT := 0
  const HOP_SEQ_AT := 1
  const NODE_ID_AT := 2
  const UNIQUE_ID_AT := 3
  const TARGET_AT := 5
  const DATA_AT := 5
  const NAME_AT := 6
  const REG_INDEX_AT := 6
  const ERR_MSG_AT := 6

  const MAX_HOP_COUNT := 6

  function Kind(p: Packet): byte { p[TYPE_AT] }

  function Sequence(p: Packet): nibble { p[HOP_SEQ_AT] / 16 }

  function Hop(p: Packet): nibble { p[HOP_SEQ_AT] % 16 }

  function Sender(p: Packet): byte { p[NODE_ID_AT] }

  function UniqueId(p: Packet): uint16 { (p[UNIQUE_ID_AT] as int) * 256 + p[UNIQUE_ID_AT + 1] as int }

  function Target(p: Packet): byte { p[TARGET_AT] }

  function WithHop(p: Packet, hop: int): Packet {
    p[HOP_SEQ_AT := p[HOP_SEQ_AT] / 16 * 16 + hop % 16]
  }

  function WithSequence(p: Packet, sequence: int): (q: Packet)
    ensures Kind(q) == Kind(p) && q[DATA_AT] == p[DATA_AT]
  {
    p[HOP_SEQ_AT := sequence % 16 * 16 + p[HOP_SEQ_AT] % 16]
  }

  /** The packet with its hop count cleared: the identity of a packet that relays preserve. */
  function SansHop(p: Packet): Packet { WithHop(p, 0) }

  /** A packet of this type, about `id`, from the node with this unique id. */
  predicate IsAbout(p: Packet, kind: byte, id: byte, uniqueId: uint16) {
    Kind(p) == kind && Sender(p) == id && UniqueId(p) == uniqueId
  }

  predicate AboutIds(p: Packet) { Kind(p) == PKT_JOIN || Kind(p) == PKT_CONFLICT_NAME }

  /** The packet makes a joining node with this id and unique id give up the id. */
  predicate Dislodges(p: Packet, id: byte, uniqueId: uint16) {
    Sender(p) == id &&
    ((Kind(p) == PKT_CONFLICT_NAME && UniqueId(p) != uniqueId) || (Kind(p) == PKT_JOIN && UniqueId(p) > uniqueId))
  }

  /** The byte-by-byte comparison the relay ring makes. */
  predicate SameSansHop(a: Packet, b: Packet) {
    Sequence(a) == Sequence(b) &&
    forall i | 0 <= i < PACKET_SIZE && i != HOP_SEQ_AT :: a[i] == b[i]
  }

  /** A zero-filled packet with the header of its originator: hop count 0, and the target byte. */
  function Header(kind: byte, sequence: nibble, nodeId: byte, uniqueId: uint16, target: byte): (p: Packet)
    ensures Kind(p) == kind && Target(p) == target
  {
    [kind, sequence * 16, nodeId, uniqueId / 256, uniqueId % 256, target] + seq(58, i => 0)
  }

  /** The comparison ignores exactly the hop nibble. */
  lemma SameSansHopMeaning(a: Packet, b: Packet)
    ensures SameSansHop(a, b) <==> SansHop(a) == SansHop(b)
  {
    if SameSansHop(a, b) {
      assert forall i | 0 <= i < PACKET_SIZE :: SansHop(a)[i] == SansHop(b)[i];
    }
    if SansHop(a) == SansHop(b) {
      assert SansHop(a)[HOP_SEQ_AT] == SansHop(b)[HOP_SEQ_AT];
      forall i | 0 <= i < PACKET_SIZE && i != HOP_SEQ_AT ensures a[i] == b[i] {
        assert SansHop(a)[i] == SansHop(b)[i];
      }
    }
  }

  /** A relay's edit of the hop nibble keeps the packet's identity and every header field but the hop. */
  lemma WithHopKeeps(p: Packet, hop: int)
    ensures SansHop(WithHop(p, hop)) == SansHop(p)
    ensures Hop(WithHop(p, hop)) == hop % 16
    ensures Kind(WithHop(p, hop)) == Kind(p) && Sequence(WithHop(p, hop)) == Sequence(p)
    ensures Sender(WithHop(p, hop)) == Sender(p) && UniqueId(WithHop(p, hop)) == UniqueId(p)
  {
  }

  /** A header reads back as it was written. */
  lemma HeaderFields(kind: byte, sequence: nibble, nodeId: byte, uniqueId: uint16, target: byte)
    ensures var p := Header(kind, sequence, nodeId, uniqueId, target);
            Kind(p) == kind && Sequence(p) == sequence && Hop(p) == 0 && Sender(p) == nodeId &&
            UniqueId(p) == uniqueId && Target(p) == target
  {
  }

  /** Zeroes a packet buffer and writes a header into it. */
  method WriteHeader(packet: array<byte>, kind: byte, sequence: nibble, nodeId: byte, uniqueId: uint16, target: byte)
    requires packet.Length == 64
    modifies packet
    ensures packet[..] == Header(kind, sequence, nodeId, uniqueId, target)
  {
    forall i | 0 <= i < 64 { packet[i] := 0; }
    packet[TYPE_AT], packet[HOP_SEQ_AT], packet[NODE_ID_AT] := kind, sequence * 16, nodeId;
    packet[UNIQUE_ID_AT], packet[UNIQUE_ID_AT + 1] := uniqueId / 256, uniqueId % 256;
    packet[TARGET_AT] := target;
  }

  method CopyPacket(dst: array<byte>, src: array<byte>)
    requires dst != src && dst.Length == src.Length == 64
    modifies dst
    ensures dst[..] == src[..]
  {
    forall i | 0 <= i < 64 { dst[i] := src[i]; }
  }

  method LoadPacket(dst: array<byte>, p: Packet)
    requires dst.Length == 64
    modifies dst
    ensures dst[..] == p
  {
    forall i | 0 <= i < 64 { dst[i] := p[i]; }
  }

  method WriteByte(dst: array<byte>, index: nat, b: byte)
    requires index < dst.Length
    modifies dst
    ensures dst[..] == old(dst[..])[index := b]
  {
    dst[index] := b;
  }
}
