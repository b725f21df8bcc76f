/** Repeating a response from its 4-byte summary: which replies the node can rebuild byte for byte. */
module Rebuild {
  import opened Bytes
  import opened Packets
  import opened Registers
  import opened Model
  import Q = Responses

  /** The replies a node sends. An acknowledgement is to node `target`, with the outcome of a SET. */
  datatype ReplyKind =
    | Pong
    | NumRegisters
    | NameOf(index: byte)
    | ValueOf(register: nat)
    | Ack(target: byte, outcome: SetOutcome)

  predicate Sendable(n: Node, k: ReplyKind) {
    |n.registers| <= 255 && WellFormed(n.registers) && (k.ValueOf? ==> k.register < |n.registers|)
  }

  /** The node later on, with its ids and registers unchanged. */
  predicate SameServer(m: Node, n: Node) {
    m.nodeId == n.nodeId && m.uniqueId == n.uniqueId && m.registers == n.registers
  }

  /** The packet as first sent. */
  function PacketOf(n: Node, k: ReplyKind): (p: Packet)
    requires Sendable(n, k)
    ensures IsReply(Kind(p))
  {
    match k
    case Pong => HeaderFor(n, PKT_PONG)
    case NumRegisters => HeaderFor(n, PKT_NUM_REGISTERS)[DATA_AT := |n.registers|]
    case NameOf(index) => NameReply(n, index)
    case ValueOf(i) => RegisterToPacket(HeaderFor(n, PKT_REGISTER_VALUE), n.registers[i], true)
    case Ack(target, o) => SetAck(n, target, o)
  }

  /** The summary kept of a reply: `leftover` is what the slot held where a reply has no data byte. */
  function SummaryOf(n: Node, p: Packet, count: byte, leftover: byte): Q.Summary {
    Q.Summary(Kind(p), count, Sequence(p), if SummaryHasData(Kind(p)) then SummaryData(p, n.registers) else leftover)
  }

  /** The reply fits its summary: it names a register by a good index, and carries no error text. */
  predicate Summarizable(n: Node, k: ReplyKind) {
    match k
    case NameOf(index) => index < |n.registers|
    case Ack(_, o) => !o.error || o.cache.data[0] == 0
    case _ => true
  }

  lemma HeaderRebuilt(n: Node, m: Node, kind: byte)
    requires m.nodeId == n.nodeId && m.uniqueId == n.uniqueId && IsReply(kind)
    ensures WithSequence(HeaderFor(m, kind), n.request.sequence) == HeaderFor(n, kind)
    ensures Sequence(HeaderFor(n, kind)) == n.request.sequence
  {
  }

  /** A packet that carries a register's name finds that register. */
  lemma FindsIndex(p: Packet, registers: seq<Register>, i: nat, x: nat)
    requires WellFormed(registers) && x <= i < |registers| && NameMatches(p, registers[i])
    ensures FindRegister(p, registers, x) == Some(i)
    decreases i - x
  {
    if x < i {
      assert !NameMatches(p, registers[x]);
      FindsIndex(p, registers, i, x + 1);
    }
  }

  /** A name reply is rebuilt exactly when its index is good; to a bad index the repeats carry index 255, and
      whatever register the memory behind the registers makes. */
  lemma NameRebuilt(n: Node, m: Node, index: byte, count: byte, leftover: byte, stray: Register)
    requires Sendable(n, NameOf(index)) && SameServer(m, n)
    ensures Rebuilt(m, SummaryOf(n, NameReply(n, index), count, leftover), stray) == NameReply(n, index) <==>
            index < |n.registers|
    ensures index >= |n.registers| ==>
              Rebuilt(m, SummaryOf(n, NameReply(n, index), count, leftover), stray) ==
              WithRegisterIndex(RegisterToPacket(HeaderFor(n, PKT_REGISTER_NAME), stray, false), 255)
  {
    hide HeaderFor, Rebuilt, SummaryOf, NameReply;
    if index < |n.registers| {
      GoodNameRebuilt(n, m, index, count, leftover, stray);
    } else {
      BadNameRebuilt(n, m, index, count, leftover, stray);
    }
  }

  lemma GoodNameRebuilt(n: Node, m: Node, index: byte, count: byte, leftover: byte, stray: Register)
    requires Sendable(n, NameOf(index)) && SameServer(m, n) && index < |n.registers|
    ensures Rebuilt(m, SummaryOf(n, NameReply(n, index), count, leftover), stray) == NameReply(n, index)
  {
    hide HeaderFor, RegisterToPacket, WellFormed, FindRegister;
    var h, p := HeaderFor(n, PKT_REGISTER_NAME), NameReply(n, index);
    WellFormedAt(n.registers, index);
    HeaderRebuilt(n, m, PKT_REGISTER_NAME);
    RegisterIndexRoundTrip(h, n.registers[index], index, 0);
    FindsIndex(p, n.registers, index, 0);
    NameKeepsSequence(h, n.registers[index], index);
  }

  lemma BadNameRebuilt(n: Node, m: Node, index: byte, count: byte, leftover: byte, stray: Register)
    requires Sendable(n, NameOf(index)) && SameServer(m, n) && index >= |n.registers|
    ensures var q := Rebuilt(m, SummaryOf(n, NameReply(n, index), count, leftover), stray);
            q == WithRegisterIndex(RegisterToPacket(HeaderFor(n, PKT_REGISTER_NAME), stray, false), 255) &&
            q != NameReply(n, index)
  {
    hide HeaderFor, RegisterToPacket, WellFormed, FindRegister;
    var p := HeaderFor(n, PKT_REGISTER_NAME);
    HeaderRebuilt(n, m, PKT_REGISTER_NAME);
    BareHeader(n, PKT_REGISTER_NAME);
    EmptyNameFindsNothing(n, p);
    var q := Rebuilt(m, SummaryOf(n, p, count, leftover), stray);
    assert q[NAME_AT + q[DATA_AT]] == 255;
  }

  lemma NameKeepsSequence(h: Packet, r: Register, index: byte)
    requires Kind(h) == PKT_REGISTER_NAME && Encodable(r, false)
    ensures Sequence(WithRegisterIndex(RegisterToPacket(h, r, false), index)) == Sequence(h)
  {
    EncodedFields(h, r, false);
    assert RegisterToPacket(h, r, false)[..DATA_AT][HOP_SEQ_AT] == h[..DATA_AT][HOP_SEQ_AT];
  }

  lemma BareHeader(n: Node, kind: byte)
    requires IsReply(kind)
    ensures forall i | DATA_AT <= i < PACKET_SIZE :: HeaderFor(n, kind)[i] == 0
  {
  }

  lemma EmptyNameFindsNothing(n: Node, p: Packet)
    requires Sendable(n, Pong) && p == HeaderFor(n, PKT_REGISTER_NAME)
    ensures FindRegister(p, n.registers, 0) == None
  {
    hide WellFormed, HeaderFor;
    BareHeader(n, PKT_REGISTER_NAME);
    forall i | 0 <= i < |n.registers| ensures !NameMatches(p, n.registers[i]) { WellFormedAt(n.registers, i); }
  }

  lemma ValueRebuilt(n: Node, m: Node, i: nat, count: byte, leftover: byte, stray: Register)
    requires Sendable(n, ValueOf(i)) && SameServer(m, n)
    ensures var p := PacketOf(n, ValueOf(i));
            Rebuilt(m, SummaryOf(n, p, count, leftover), stray) == p
  {
    hide HeaderFor, FindRegister, WellFormed;
    WellFormedAt(n.registers, i);
    var h, p := HeaderFor(n, PKT_REGISTER_VALUE), PacketOf(n, ValueOf(i));
    HeaderRebuilt(n, m, PKT_REGISTER_VALUE);
    EncodedFields(h, n.registers[i], true);
    FindsIndex(p, n.registers, i, 0);
    assert p[..DATA_AT][HOP_SEQ_AT] == h[..DATA_AT][HOP_SEQ_AT];
  }

  lemma AckDepends(n: Node, m: Node, target: byte, o: SetOutcome)
    requires m.nodeId == n.nodeId && m.uniqueId == n.uniqueId && m.request == n.request
    ensures SetAck(m, target, o) == SetAck(n, target, o)
  {
  }

  /** An acknowledgement is rebuilt exactly when it carries no error text: its repeats carry none. */
  lemma AckRebuilt(n: Node, m: Node, target: byte, o: SetOutcome, count: byte, leftover: byte, stray: Register)
    requires m.nodeId == n.nodeId && m.uniqueId == n.uniqueId
    ensures var p := SetAck(n, target, o);
            Rebuilt(m, SummaryOf(n, p, count, leftover), stray) == p <==> !o.error || o.cache.data[0] == 0
    ensures Rebuilt(m, SummaryOf(n, SetAck(n, target, o), count, leftover), stray) ==
            HeaderFor(n, PKT_SET_REGISTER_ACK)[TARGET_AT := target]
  {
    hide HeaderFor;
    var h, p := HeaderFor(n, PKT_SET_REGISTER_ACK), SetAck(n, target, o);
    HeaderRebuilt(n, m, PKT_SET_REGISTER_ACK);
    BareHeader(n, PKT_SET_REGISTER_ACK);
    if o.error {
      var text := StrNCpy(o.cache.data, PART_SIZE - 1);
      assert text[0] == o.cache.data[0] && (o.cache.data[0] == 0 ==> text == seq(PART_SIZE - 1, i => 0));
      assert p[ERR_MSG_AT] == text[0];
      if text[0] == 0 { assert p == h[TARGET_AT := target]; }
    }
  }

  /** Rebuilding loses nothing but what the summary has no room for: with the node's ids and registers
      unchanged, whatever else happened since, the repeated packet is the packet first sent, byte for
      byte, exactly when the reply fits its summary. */
  lemma RebuiltExactly(n: Node, m: Node, k: ReplyKind, count: byte, leftover: byte, stray: Register)
    requires Sendable(n, k) && SameServer(m, n)
    ensures Rebuilt(m, SummaryOf(n, PacketOf(n, k), count, leftover), stray) == PacketOf(n, k) <==> Summarizable(n, k)
  {
    hide Rebuilt, HeaderFor, SetAck, NameReply, WellFormed, SummaryOf;
    match k
    case Pong => PlainRebuilt(n, m, k, count, leftover, stray);
    case NumRegisters => PlainRebuilt(n, m, k, count, leftover, stray);
    case NameOf(index) => NameRebuilt(n, m, index, count, leftover, stray);
    case ValueOf(i) => ValueRebuilt(n, m, i, count, leftover, stray);
    case Ack(target, o) => AckRebuilt(n, m, target, o, count, leftover, stray);
  }

  lemma PlainRebuilt(n: Node, m: Node, k: ReplyKind, count: byte, leftover: byte, stray: Register)
    requires Sendable(n, k) && SameServer(m, n)
    requires k.Pong? || k.NumRegisters?
    ensures Rebuilt(m, SummaryOf(n, PacketOf(n, k), count, leftover), stray) == PacketOf(n, k)
  {
    hide HeaderFor, WellFormed;
    HeaderRebuilt(n, m, if k.Pong? then PKT_PONG else PKT_NUM_REGISTERS);
  }

  // ---- broadcasts ----

  /** The value of a register, broadcast: a REGISTER_VALUE packet under node id 0. */
  function BroadcastOf(n: Node, reg: Register): (p: Packet)
    ensures Kind(p) == PKT_REGISTER_VALUE
  {
    RegisterToPacket(HeaderFor(n, PKT_REGISTER_VALUE)[NODE_ID_AT := 0], reg, true)
  }

  /** The register whose value is repeated: the served one of that name, or else the memory behind them all. */
  function Recalled(n: Node, reg: Register, memory: Register): Register {
    match FindRegister(BroadcastOf(n, reg), n.registers, 0)
    case Some(i) => n.registers[i]
    case None => memory
  }

  /** The value reply that is repeated for a broadcast. */
  function Echo(n: Node, reg: Register, memory: Register): Packet {
    RegisterToPacket(HeaderFor(n, PKT_REGISTER_VALUE), Recalled(n, reg, memory), true)
  }

  predicate SameContents(a: Register, b: Register) {
    Encodable(a, true) && Encodable(b, true) && Name(a) == Name(b) && Value(a) == Value(b)
  }

  /** A broadcast is summarized like a reply, and repeated as one, under the node's own id. The repeat is the
      broadcast, byte for byte, exactly if that id is 0 and the register recalled has the contents that were
      broadcast. */
  lemma BroadcastRebuilt(n: Node, m: Node, reg: Register, count: byte, leftover: byte, memory: Register)
    requires |n.registers| <= 255 && SameServer(m, n) && Encodable(reg, true)
    ensures Rebuilt(m, SummaryOf(n, BroadcastOf(n, reg), count, leftover), memory) == Echo(n, reg, memory)
    ensures Echo(n, reg, memory) == BroadcastOf(n, reg) <==> n.nodeId == 0 && SameContents(Recalled(n, reg, memory), reg)
    ensures Sender(Echo(n, reg, memory)) == n.nodeId
  {
    hide HeaderFor, RegisterToPacket, FindRegister, Encodable, SameContents, Recalled;
    EchoIs(n, m, reg, count, leftover, memory);
    var h := HeaderFor(n, PKT_REGISTER_VALUE);
    var x := Recalled(n, reg, memory);
    HeaderStays(h, x);
    HeaderStays(h[NODE_ID_AT := 0], reg);
    OwnId(n);
    BareHeader(n, PKT_REGISTER_VALUE);
    if n.nodeId == 0 {
      assert h[NODE_ID_AT := 0] == h;
      SameEncoding(h, x, reg);
    }
  }

  lemma EchoIs(n: Node, m: Node, reg: Register, count: byte, leftover: byte, memory: Register)
    requires |n.registers| <= 255 && SameServer(m, n) && Encodable(reg, true)
    ensures Rebuilt(m, SummaryOf(n, BroadcastOf(n, reg), count, leftover), memory) == Echo(n, reg, memory)
  {
    hide HeaderFor, RegisterToPacket, FindRegister, Encodable;
    var h := HeaderFor(n, PKT_REGISTER_VALUE);
    HeaderStays(h[NODE_ID_AT := 0], reg);
    HeaderRebuilt(n, m, PKT_REGISTER_VALUE);
    assert Sequence(BroadcastOf(n, reg)) == Sequence(h);
  }

  lemma OwnId(n: Node)
    ensures Sender(HeaderFor(n, PKT_REGISTER_VALUE)) == n.nodeId
  {
  }

  lemma HeaderStays(p: Packet, r: Register)
    ensures var q := RegisterToPacket(p, r, true);
            Sender(q) == Sender(p) && Sequence(q) == Sequence(p)
  {
    var q := RegisterToPacket(p, r, true);
    if Encodable(r, true) {
      EncodedFields(p, r, true);
      assert forall k | 0 <= k < DATA_AT :: q[k] == q[..DATA_AT][k] == p[..DATA_AT][k] == p[k];
    }
  }

  /** Two registers are encoded alike exactly if they have the same contents. */
  lemma SameEncoding(h: Packet, a: Register, b: Register)
    requires Encodable(b, true) && forall i | DATA_AT <= i < PACKET_SIZE :: h[i] == 0
    ensures RegisterToPacket(h, a, true) == RegisterToPacket(h, b, true) <==> SameContents(a, b)
  {
    hide RegisterToPacket;
    EncodedFields(h, b, true);
    if Encodable(a, true) {
      EncodedFields(h, a, true);
      if SameContents(a, b) { SameFields(h, a, b); }
    } else {
      assert RegisterToPacket(h, a, true) == h by { NothingEncoded(h, a); }
    }
  }

  lemma SameFields(h: Packet, a: Register, b: Register)
    requires SameContents(a, b)
    ensures RegisterToPacket(h, a, true) == RegisterToPacket(h, b, true)
  {
    assert a.nameLen == |Name(a)| == b.nameLen;
    assert a.dataLen == |Value(a)| == b.dataLen;
  }

  lemma NothingEncoded(h: Packet, r: Register)
    requires !Encodable(r, true)
    ensures RegisterToPacket(h, r, true) == h
  {
  }

  /** To the listeners on the mesh such a repeat is no broadcast. */
  lemma EchoIsNoBroadcast(n: Node, reg: Register, memory: Register, listener: Node, behind: Behind)
    requires n.nodeId != 0 && Inv(listener) && SansHop(listener.packet) == SansHop(Echo(n, reg, memory))
    ensures HandleBroadcast(listener, behind) == listener
  {
    hide Inv, HeaderFor, RegisterToPacket, Recalled;
    HeaderStays(HeaderFor(n, PKT_REGISTER_VALUE), Recalled(n, reg, memory));
    OwnId(n);
    SameSansHopMeaning(listener.packet, Echo(n, reg, memory));
  }

  /** A reply that is sent while the ring has room leaves that summary as its newest entry. */
  lemma ReplyIsSummarized(n: Node, p: Packet, now: uint32)
    requires Inv(n) && IsReply(Kind(p)) && n.responses.size < Q.RESPONSE_CAP
    ensures var q, r := n.responses, Reply(n, p, now).responses;
            Q.Shaped(q) && Q.Shaped(r) && r.size == q.size + 1 && r.popped == q.popped &&
            Q.Live(r, q.size) == SummaryOf(n, p, 0, Q.Live(q, q.size).data) &&
            (forall k | 0 <= k < q.size :: Q.Live(r, k) == Q.Live(q, k))
  {
    hide GenuineAir, GenuineSlots, RepliesOnly;
  }
}
