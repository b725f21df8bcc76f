/** Asking one node about its registers: how many it has, and the name of one of them. */
module Queries {
  import opened Bytes
  import opened Packets
  import opened Registers
  import opened Model
  import opened Operations
  import F = Filter
  import B = Rebuild
  import S = Server

  /** The node's answer to a request of this kind about register `index`. */
  function AnswerTo(n: Node, kind: byte, index: byte): Packet
    requires |n.registers| <= 255
  {
    if kind == PKT_GET_NUM_REGISTERS then HeaderFor(n, PKT_NUM_REGISTERS)[DATA_AT := |n.registers|]
    else NameReply(n, index)
  }

  predicate IsQuery(kind: byte) { kind == PKT_GET_NUM_REGISTERS || kind == PKT_GET_REGISTER_NAME }

  lemma HandlersAnswer(n: Node, env: Env)
    requires Inv(n) && OnMesh(n.state) && Passes(n, Kind(n.packet)) && IsQuery(Kind(n.packet))
    requires Target(n.packet) == n.nodeId && |n.registers| <= 255
    ensures S.Answered(ServeDirectory(n, env).history.air, AnswerTo(n, Kind(n.packet), n.packet[REG_INDEX_AT]))
  {
    hide Inv, NameReply, HeaderFor, F.Seen;
    assert HandlePong(HandlePing(n, env.rxTime)) == n;
    var p := AnswerTo(n, Kind(n.packet), n.packet[REG_INDEX_AT]);
    if Kind(n.packet) == PKT_GET_NUM_REGISTERS {
      var r := HandleGetNumRegisters(n, env.rxTime);
      assert r.history.air[|n.history.air|] == Tx(Originated, p);
      S.AnsweredGrows(r.history.air, ServeDirectory(n, env).history.air, p);
    } else {
      var r := HandleGetRegisterName(n, env.rxTime);
      assert r.history.air[|n.history.air|] == Tx(Originated, p);
      S.AnsweredGrows(r.history.air, ServeDirectory(n, env).history.air, p);
    }
  }

  /** A fresh query addressed to this node is answered. */
  lemma QueryIsAnswered(n: Node, env: Env)
    requires Inv(n) && env.rx.Received? && IsQuery(Kind(env.rx.packet)) && |n.registers| <= 255
    requires S.Reaches(n, env.rx.packet, Kind(env.rx.packet)) && Target(env.rx.packet) == n.nodeId
    ensures var p := env.rx.packet;
            S.Answered(Update(n, env).history.air, AnswerTo(n, Kind(p), p[REG_INDEX_AT]))
  {
    hide Inv, Receive, Regard, ServeDirectory, ServeRegisters, SendConflict, UpdateAfterRx, AnswerTo, S.Answered,
         F.Hear, F.Seen;
    var p := env.rx.packet;
    var n1 := Receive(n, p, env.rxTime);
    var n2 := Regard(n1, env.rxTime);
    S.HandlersSee(n, p, env.rxTime);
    HandlersAnswer(n2, env);
    SameAnswer(n, n1, n2, env, Kind(p), p[REG_INDEX_AT]);
    S.AnsweredGrows(ServeDirectory(n2, env).history.air, Update(n, env).history.air, AnswerTo(n, Kind(p), p[REG_INDEX_AT]));
  }

  lemma SameAnswer(n: Node, n1: Node, n2: Node, env: Env, kind: byte, index: byte)
    requires Inv(n) && OnMesh(n.state) && env.rx.Received?
    requires n1 == Receive(n, env.rx.packet, env.rxTime) && n2 == Regard(n1, env.rxTime)
    ensures |n.registers| <= 255 && |n2.registers| <= 255 && AnswerTo(n2, kind, index) == AnswerTo(n, kind, index)
  {
    hide Inv, Receive, Regard;
    FewRegisters(n);
    S.RegardKeepsAsking(n1, env.rxTime);
  }

  // ---- the asking node ----

  /** The packet comes from the node asked. */
  predicate FromTarget(n: Node, p: Packet) {
    (n.request.targetNodeId == 0 || Sender(p) == n.request.targetNodeId) &&
    (n.request.targetUniqueId == 0 || UniqueId(p) == n.request.targetUniqueId) &&
    !(Sender(p) == n.nodeId && UniqueId(p) != n.uniqueId)
  }

  /** The operation has ended with this status, told by the sender of `p`. */
  ghost predicate EndedBy(n: Node, r: Node, p: Packet, status: Status) {
    r.state == Idle && r.history.completions == n.history.completions + [status] &&
    r.client.responderNodeId == Sender(p) && r.client.responderUniqueId == UniqueId(p)
  }

  /** The register handlers have no use for such a packet. */
  lemma RegistersIgnore(n: Node, env: Env)
    requires Inv(n) && n.state == Idle && (Kind(n.packet) == PKT_NUM_REGISTERS || Kind(n.packet) == PKT_REGISTER_NAME)
    ensures ServeRegisters(n, env) == n
  {
    hide Inv;
  }

  lemma ServeTakesCount(n: Node, env: Env)
    requires Inv(n) && n.state == GettingNumRegisters && Kind(n.packet) == PKT_NUM_REGISTERS && FromTarget(n, n.packet)
    ensures var r := Serve(n, env);
            EndedBy(n, r, n.packet, StatusOk) && r.client.numRegisters == n.packet[DATA_AT]
  {
    hide Inv;
    var c := HandleNumRegisters(n);
    assert ServeDirectory(n, env) == c;
    RegistersIgnore(c, env);
  }

  lemma ServeTakesName(n: Node, env: Env)
    requires Inv(n) && n.state == GettingRegisterName && Kind(n.packet) == PKT_REGISTER_NAME && FromTarget(n, n.packet)
    ensures var r := Serve(n, env);
            if RegisterIndex(n.packet, env.strayByte) != n.request.targetIndex then r == n
            else EndedBy(n, r, n.packet, if Decodable(n.packet, false) then StatusOk else InvalidRegisterIndex) &&
                 r.client.register == PacketToRegister(n.packet, n.client.register, false)
  {
    hide Inv, PacketToRegister, Decodable, RegisterIndex, ServeDirectory;
    var c := HandleRegisterName(n, env.strayByte);
    OnlyNamesServed(n, env);
    if RegisterIndex(n.packet, env.strayByte) == n.request.targetIndex {
      RegistersIgnore(c, env);
    } else {
      assert c == n;
      NameWaits(n, env);
    }
  }

  lemma OnlyNamesServed(n: Node, env: Env)
    requires Inv(n) && n.state == GettingRegisterName && Kind(n.packet) == PKT_REGISTER_NAME
    ensures ServeDirectory(n, env) == HandleRegisterName(n, env.strayByte)
  {
    hide Inv, HandleRegisterName;
  }

  lemma NameWaits(n: Node, env: Env)
    requires Inv(n) && n.state == GettingRegisterName && Kind(n.packet) == PKT_REGISTER_NAME
    ensures ServeRegisters(n, env) == n
  {
    hide Inv;
  }

  /** The node waiting for a count takes the first one from the node it asked. */
  lemma CountEndsQuery(n: Node, env: Env)
    requires Inv(n) && n.state == GettingNumRegisters && env.rx.Received?
    requires Kind(env.rx.packet) == PKT_NUM_REGISTERS && FromTarget(n, env.rx.packet)
    ensures var r := Update(n, env);
            EndedBy(n, r, env.rx.packet, StatusOk) && r.client.numRegisters == env.rx.packet[DATA_AT]
  {
    hide Inv, Receive, Regard, Serve, SendConflict, UpdateAfterRx;
    var n1 := Receive(n, env.rx.packet, env.rxTime);
    var n2 := Regard(n1, env.rxTime);
    S.HandlersSee(n, env.rx.packet, env.rxTime);
    S.RegardKeepsAsking(n1, env.rxTime);
    ServeTakesCount(n2, env);
    S.IdleUpdateKeepsResult(HandleRx(n, env), env);
  }

  /** The node waiting for the name of a register takes the first reply with its index. */
  lemma NameEndsQuery(n: Node, env: Env)
    requires Inv(n) && n.state == GettingRegisterName && env.rx.Received?
    requires Kind(env.rx.packet) == PKT_REGISTER_NAME && FromTarget(n, env.rx.packet)
    requires RegisterIndex(env.rx.packet, env.strayByte) == n.request.targetIndex
    ensures var p, r := env.rx.packet, Update(n, env);
            EndedBy(n, r, p, if Decodable(p, false) then StatusOk else InvalidRegisterIndex) &&
            r.client.register == PacketToRegister(p, n.client.register, false)
  {
    hide Inv, Receive, Regard, Serve, SendConflict, UpdateAfterRx, PacketToRegister, Decodable, RegisterIndex;
    var n1 := Receive(n, env.rx.packet, env.rxTime);
    var n2 := Regard(n1, env.rxTime);
    S.HandlersSee(n, env.rx.packet, env.rxTime);
    S.RegardKeepsAsking(n1, env.rxTime);
    ServeTakesName(n2, env);
    S.IdleUpdateKeepsResult(HandleRx(n, env), env);
  }

  // ---- question and answer ----

  /** A copy of `p`, relayed any number of times. */
  predicate IsCopy(q: Packet, p: Packet) { SansHop(q) == SansHop(p) }

  lemma CopySays(q: Packet, p: Packet)
    requires IsCopy(q, p)
    ensures Kind(q) == Kind(p) && Sender(q) == Sender(p) && UniqueId(q) == UniqueId(p) && q[DATA_AT..] == p[DATA_AT..]
  {
    SameSansHopMeaning(q, p);
  }

  lemma CountQuery(m: Node, target: byte, uniqueId: uint16, user: Callback, now: uint32)
    requires Inv(m) && m.state == Idle
    ensures var r := Act(m, DoGetNumRegisters(target, uniqueId, user, now));
            r.state == GettingNumRegisters && r.request.targetNodeId == target && r.request.targetUniqueId == uniqueId &&
            r.nodeId == m.nodeId && r.uniqueId == m.uniqueId && |r.history.air| == 1 &&
            Kind(r.history.air[0].packet) == PKT_GET_NUM_REGISTERS && Target(r.history.air[0].packet) == target
  {
    hide Inv;
  }

  lemma NameQuery(m: Node, target: byte, index: byte, uniqueId: uint16, user: Callback, now: uint32)
    requires Inv(m) && m.state == Idle
    ensures var r := Act(m, DoGetRegisterName(target, index, uniqueId, user, now));
            r.state == GettingRegisterName && r.request.targetNodeId == target && r.request.targetUniqueId == uniqueId &&
            r.request.targetIndex == index && r.nodeId == m.nodeId && r.uniqueId == m.uniqueId && |r.history.air| == 1 &&
            Kind(r.history.air[0].packet) == PKT_GET_REGISTER_NAME && Target(r.history.air[0].packet) == target &&
            r.history.air[0].packet[REG_INDEX_AT] == index
  {
    hide Inv;
  }

  /** A name reply to a good index carries it and the name; to a bad index it carries index 0 and no name. */
  lemma NameReplySays(n: Node, index: byte, q: Packet, stray: byte)
    requires WellFormed(n.registers) && IsCopy(q, NameReply(n, index))
    ensures index < |n.registers| ==>
              RegisterIndex(q, stray) == index && NameMatches(q, n.registers[index]) && Decodable(q, false)
    ensures index >= |n.registers| ==> RegisterIndex(q, stray) == 0 && !Decodable(q, false)
    ensures Kind(q) == PKT_REGISTER_NAME && Sender(q) == n.nodeId && UniqueId(q) == n.uniqueId
  {
    hide WellFormed, RegisterToPacket;
    var h, p := HeaderFor(n, PKT_REGISTER_NAME), NameReply(n, index);
    CopySays(q, p);
    SameSansHopMeaning(q, p);
    if index < |n.registers| {
      WellFormedAt(n.registers, index);
      RegisterIndexRoundTrip(h, n.registers[index], index, stray);
      NameReplyHeader(h, n.registers[index], index);
    }
  }

  lemma NameReplyHeader(h: Packet, r: Register, index: byte)
    requires Kind(h) == PKT_REGISTER_NAME && Encodable(r, false)
    ensures var p := WithRegisterIndex(RegisterToPacket(h, r, false), index);
            Sender(p) == Sender(h) && UniqueId(p) == UniqueId(h)
  {
    EncodedFields(h, r, false);
    var p := RegisterToPacket(h, r, false);
    assert forall k | 0 <= k < DATA_AT :: p[k] == p[..DATA_AT][k] == h[..DATA_AT][k] == h[k];
  }

  /** A repeat of the reply to a bad index carries index 255, and the name of the memory behind the
      registers, if that makes one. */
  lemma RepeatSays(n: Node, m: Node, index: byte, count: byte, leftover: byte, memory: Register, q: Packet, stray: byte)
    requires B.Sendable(n, B.NameOf(index)) && B.SameServer(m, n) && index >= |n.registers|
    requires IsCopy(q, Rebuilt(m, B.SummaryOf(n, NameReply(n, index), count, leftover), memory))
    ensures RegisterIndex(q, stray) == 255 && (Decodable(q, false) <==> Encodable(memory, false) && memory.nameLen > 0)
    ensures Kind(q) == PKT_REGISTER_NAME && Sender(q) == n.nodeId && UniqueId(q) == n.uniqueId
  {
    hide B.SummaryOf, NameReply, Rebuilt, RegisterToPacket;
    var h := HeaderFor(n, PKT_REGISTER_NAME);
    B.NameRebuilt(n, m, index, count, leftover, memory);
    var p := WithRegisterIndex(RegisterToPacket(h, memory, false), 255);
    CopySays(q, p);
    SameSansHopMeaning(q, p);
    MemoryName(h, memory);
    B.BareHeader(n, PKT_REGISTER_NAME);
  }

  lemma MemoryName(h: Packet, r: Register)
    requires Kind(h) == PKT_REGISTER_NAME && h[DATA_AT] == 0
    ensures var p := WithRegisterIndex(RegisterToPacket(h, r, false), 255);
            RegisterIndex(p, 0) == 255 && Sender(p) == Sender(h) && UniqueId(p) == UniqueId(h) &&
            p[DATA_AT] == if Encodable(r, false) then r.nameLen else 0
  {
    if Encodable(r, false) {
      RegisterIndexRoundTrip(h, r, 255, 0);
      NameReplyHeader(h, r, 255);
    }
  }

  /** The reply as first sent, or as repeated later by the same server; `memory` is what then lies behind
      its registers. */
  datatype ReplyForm = First | Repeat(later: Node, count: byte, leftover: byte, memory: Register)

  predicate Plausible(s: Node, f: ReplyForm) { f.Repeat? ==> B.SameServer(f.later, s) }

  function ReplyIn(s: Node, index: byte, f: ReplyForm): Packet {
    match f
    case First => NameReply(s, index)
    case Repeat(later, count, leftover, memory) =>
      Rebuilt(later, B.SummaryOf(s, NameReply(s, index), count, leftover), memory)
  }

  /** The asking node knows the reply by its index: 0 in the first reply to a bad index, 255 in its repeats. */
  predicate Recognized(s: Node, index: byte, f: ReplyForm) {
    index < |s.registers| || index == (if f.First? then 0 else 255)
  }

  function NameStatus(s: Node, index: byte, f: ReplyForm): Status {
    if index < |s.registers| || (f.Repeat? && Encodable(f.memory, false) && f.memory.nameLen > 0) then StatusOk
    else InvalidRegisterIndex
  }

  lemma ReplyFormSays(s: Node, index: byte, f: ReplyForm, q: Packet, stray: byte)
    requires |s.registers| <= 255 && WellFormed(s.registers) && Plausible(s, f) && IsCopy(q, ReplyIn(s, index, f))
    ensures Recognized(s, index, f) <==> RegisterIndex(q, stray) == index
    ensures Decodable(q, false) <==> NameStatus(s, index, f) == StatusOk
    ensures index < |s.registers| ==> NameMatches(q, s.registers[index])
    ensures Kind(q) == PKT_REGISTER_NAME && Sender(q) == s.nodeId && UniqueId(q) == s.uniqueId
  {
    hide NameReply, Rebuilt, B.SummaryOf, NameMatches, Decodable, RegisterIndex, WellFormed;
    if index < |s.registers| || f.First? {
      if f.Repeat? { B.NameRebuilt(s, f.later, index, f.count, f.leftover, f.memory); }
      NameReplySays(s, index, q, stray);
    } else {
      RepeatSays(s, f.later, index, f.count, f.leftover, f.memory, q, stray);
    }
  }

  lemma GoodIndex(s: Node, index: byte, f: ReplyForm)
    ensures index < |s.registers| ==> Recognized(s, index, f) && NameStatus(s, index, f) == StatusOk
  {
  }

  lemma StatusIsOneOf(s: Node, index: byte, f: ReplyForm)
    ensures NameStatus(s, index, f) == StatusOk || NameStatus(s, index, f) == InvalidRegisterIndex
  {
  }

  lemma TakesName(p: Packet, cache: Register, r: Register)
    requires NameMatches(p, r) && Decodable(p, false)
    ensures Name(PacketToRegister(p, cache, false)) == Name(r)
  {
  }
}
