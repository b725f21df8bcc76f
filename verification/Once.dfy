/** Every request is answered once: exactly what a node on the mesh sends on receiving a packet, and that it answers
    no copy of a request while its filter remembers it. */
module Once {
  import opened Bytes
  import opened Packets
  import opened Registers
  import opened Model
  import opened Operations
  import opened Joining
  import F = Filter
  import Q = Responses
  import R = Relay
  import S = Server
  import E = Settings
  import T = Traffic
  import P = Persistence
  import C = Broadcasts
  import U = Queries
  import V = Survey
  import Y = Sequences

  /** The request is one this node has to answer. */
  predicate Concerns(n: Node, p: Packet) {
    (Kind(p) == PKT_PING && UniqueId(p) != n.uniqueId) ||
    ((Kind(p) == PKT_GET_NUM_REGISTERS || Kind(p) == PKT_GET_REGISTER_NAME) && Target(p) == n.nodeId) ||
    ((Kind(p) == PKT_GET_REGISTER || Kind(p) == PKT_SET_REGISTER) && FindRegister(p, n.registers, 0).Some?)
  }

  /** The node answers the packet received: a request that concerns it and was not handled before. */
  predicate IsAnswered(n: Node, rx: Rx) {
    rx.Received? && S.Reaches(n, rx.packet, Kind(rx.packet)) && Concerns(n, rx.packet)
  }

  /** The reply that tells how many registers there are; a node has at most 255. */
  function CountReply(n: Node): (q: Packet)
    ensures Kind(q) == PKT_NUM_REGISTERS
  {
    HeaderFor(n, PKT_NUM_REGISTERS)[DATA_AT := |n.registers| % 0x100]
  }

  /** The answer to it. */
  function Answer(n: Node, p: Packet, env: Env): (q: Packet)
    requires Concerns(n, p)
    ensures IsReply(Kind(q))
  {
    var i := FindRegister(p, n.registers, 0);
    if Kind(p) == PKT_PING then HeaderFor(n, PKT_PONG)
    else if Kind(p) == PKT_GET_NUM_REGISTERS then CountReply(n)
    else if Kind(p) == PKT_GET_REGISTER_NAME then NameReply(n, p[REG_INDEX_AT])
    else if Kind(p) == PKT_GET_REGISTER then S.ValueReply(n, i.value, env.getReply)
    else SetAck(n, Sender(p), E.Outcome(n, p, i.value, env.setReply))
  }

  /** The node has sent this one reply, queued it to be repeated, and marked the request; or sent nothing. */
  ghost predicate Responds(n: Node, r: Node, answered: bool, request: Packet, reply: Packet, now: uint32) {
    Q.Shaped(n.responses) &&
    if answered then
      r.history.air == n.history.air + [Tx(Originated, reply)] && F.Seen(r.filter, HeaderOf(request)) &&
      r.responses == Q.Stamp(Q.Append(n.responses, Kind(reply), Sequence(reply), SummaryData(reply, r.registers),
                                      SummaryHasData(Kind(reply))), now)
    else r.history.air == n.history.air && r.responses == n.responses
  }

  // ---- the handlers ----

  /** A handler that sends nothing. */
  ghost predicate Quiet(n: Node, r: Node) {
    r.history.air == n.history.air && r.responses == n.responses && r.filter == n.filter && r.registers == n.registers &&
    r.packet == n.packet && r.nodeId == n.nodeId && r.uniqueId == n.uniqueId && OnMesh(r.state) == OnMesh(n.state) &&
    r.request == n.request
  }

  /** The request is in the slot before the one written next. */
  predicate JustMarked(n: Node, request: Packet) {
    |n.filter.entries| == 8 && n.filter.next < 8 && n.filter.entries[(n.filter.next + 7) % 8] == HeaderOf(request)
  }

  lemma MarkIsJust(n: Node, r: Node)
    requires Inv(n) && n.filter.next < |n.filter.entries| && r.filter == F.Mark(n.filter, HeaderOf(n.packet))
    ensures JustMarked(r, n.packet)
  {
    hide F.AtMostOnce, R.RingInv, Q.QueueInv, F.SlotRemembers;
  }

  lemma ReplyResponds(n: Node, p: Packet, now: uint32)
    requires Inv(n) && IsReply(Kind(p))
    ensures var r := Reply(n, p, now);
            Q.Shaped(n.responses) && r.packet == p &&
            r.responses == Q.Stamp(Q.Append(n.responses, Kind(p), Sequence(p), SummaryData(p, n.registers),
                                            SummaryHasData(Kind(p))), now)
  {
    hide Inv, Q.Append;
    P.ShapedQueue(n);
  }

  lemma PingResponds(n: Node, env: Env)
    requires Inv(n) && OnMesh(n.state) && Passes(n, PKT_PING) && UniqueId(n.packet) != n.uniqueId
    ensures var r := HandlePing(n, env.rxTime);
            JustMarked(r, n.packet) && Responds(n, r, true, n.packet, HeaderFor(n, PKT_PONG), env.rxTime) && Kind(r.packet) == PKT_PONG &&
            r.registers == n.registers
  {
    hide Inv, F.Seen, F.Mark, Reply, HeaderFor, Q.Append;
    C.MarkIsSeen(n);
    MarkIsJust(n, HandlePing(n, env.rxTime));
    ReplyResponds(MarkHandled(n), HeaderFor(n, PKT_PONG), env.rxTime);
  }

  lemma CountResponds(n: Node, env: Env)
    requires Inv(n) && OnMesh(n.state) && Passes(n, PKT_GET_NUM_REGISTERS) && Target(n.packet) == n.nodeId
    ensures var r := HandleGetNumRegisters(n, env.rxTime);
            JustMarked(r, n.packet) && Responds(n, r, true, n.packet, CountReply(n), env.rxTime) &&
            Kind(r.packet) == PKT_NUM_REGISTERS && r.registers == n.registers
  {
    hide Inv, F.Seen, F.Mark, Reply, HeaderFor, Q.Append;
    FewRegisters(n);
    C.MarkIsSeen(n);
    MarkIsJust(n, HandleGetNumRegisters(n, env.rxTime));
    ReplyResponds(MarkHandled(n), CountReply(n), env.rxTime);
  }

  lemma NameResponds(n: Node, env: Env)
    requires Inv(n) && OnMesh(n.state) && Passes(n, PKT_GET_REGISTER_NAME) && Target(n.packet) == n.nodeId
    ensures var r := HandleGetRegisterName(n, env.rxTime);
            JustMarked(r, n.packet) && Responds(n, r, true, n.packet, NameReply(n, n.packet[REG_INDEX_AT]), env.rxTime) &&
            Kind(r.packet) == PKT_REGISTER_NAME && r.registers == n.registers
  {
    hide Inv, F.Seen, F.Mark, Reply, NameReply, Q.Append;
    C.MarkIsSeen(n);
    MarkIsJust(n, HandleGetRegisterName(n, env.rxTime));
    ReplyResponds(MarkHandled(n), NameReply(n, n.packet[REG_INDEX_AT]), env.rxTime);
  }

  lemma GetResponds(n: Node, env: Env, i: nat)
    requires Inv(n) && OnMesh(n.state) && Passes(n, PKT_GET_REGISTER) && S.IsNamedBy(n, i, n.packet)
    ensures var r := HandleGetRegister(n, env.getReply, env.rxTime);
            JustMarked(r, n.packet) && Responds(n, r, true, n.packet, S.ValueReply(n, i, env.getReply), env.rxTime) &&
            Kind(r.packet) == PKT_REGISTER_VALUE && r.registers == n.registers[i := Refreshed(n.registers[i], env.getReply)]
  {
    hide Inv, F.Seen, F.Mark, Reply, RegisterToPacket, FindRegister, Refreshed, Q.Append;
    C.MarkIsSeen(n);
    MarkIsJust(n, HandleGetRegister(n, env.getReply, env.rxTime));
    var m := MarkHandled(n).(registers := n.registers[i := Refreshed(n.registers[i], env.getReply)]);
    RegistersAreFree(MarkHandled(n), m.registers);
    ReplyResponds(m, S.ValueReply(n, i, env.getReply), env.rxTime);
  }

  lemma SetResponds(n: Node, env: Env, i: nat)
    requires Inv(n) && OnMesh(n.state) && Passes(n, PKT_SET_REGISTER) && S.IsNamedBy(n, i, n.packet)
    ensures var r := HandleSetRegister(n, env.setReply, env.rxTime);
            JustMarked(r, n.packet) && Responds(n, r, true, n.packet, SetAck(n, Sender(n.packet), E.Outcome(n, n.packet, i, env.setReply)), env.rxTime) &&
            Kind(r.packet) == PKT_SET_REGISTER_ACK
  {
    hide Inv, F.Seen, F.Mark, Reply, SetAck, FindRegister, SetRequested, Q.Append, StoreOutcome;
    C.MarkIsSeen(n);
    MarkIsJust(n, HandleSetRegister(n, env.setReply, env.rxTime));
    var o := E.Outcome(n, n.packet, i, env.setReply);
    var m := StoreOutcome(MarkHandled(n), i, o);
    ReplyResponds(m, SetAck(n, Sender(n.packet), o), env.rxTime);
  }

  // ---- all of them ----

  lemma PresenceIsQuiet(n: Node, now: uint32)
    requires Inv(n) && !(Passes(n, PKT_PING) && UniqueId(n.packet) != n.uniqueId)
    ensures Quiet(n, HandlePong(HandlePing(n, now)))
  {
    hide Inv, F.Seen;
  }

  lemma NumbersAreQuiet(n: Node, now: uint32)
    requires Inv(n) && !(Passes(n, PKT_GET_NUM_REGISTERS) && Target(n.packet) == n.nodeId)
    ensures Quiet(n, HandleNumRegisters(HandleGetNumRegisters(n, now)))
  {
    hide Inv, F.Seen;
  }

  lemma NamesAreQuiet(n: Node, strayByte: byte, now: uint32)
    requires Inv(n) && !(Passes(n, PKT_GET_REGISTER_NAME) && Target(n.packet) == n.nodeId)
    ensures Quiet(n, HandleRegisterName(HandleGetRegisterName(n, now), strayByte))
  {
    hide Inv, F.Seen, PacketToRegister, RegisterIndex;
  }

  lemma ValuesAreQuiet(n: Node, getReply: Register, now: uint32)
    requires Inv(n) && !(Passes(n, PKT_GET_REGISTER) && FindRegister(n.packet, n.registers, 0).Some?)
    ensures Quiet(n, HandleRegisterValue(HandleGetRegister(n, getReply, now)))
  {
    hide Inv, F.Seen, FindRegister, PacketToRegister, NameMatches;
  }

  lemma SettingIsQuiet(n: Node, reply: SetReply, now: uint32)
    requires Inv(n) && !(Passes(n, PKT_SET_REGISTER) && FindRegister(n.packet, n.registers, 0).Some?)
    ensures HandleSetRegister(n, reply, now) == n
  {
    hide Inv, F.Seen, FindRegister;
  }

  /** The last two handlers send nothing, but may mark a broadcast as handled. */
  lemma OutcomesAreQuiet(n: Node, behind: Behind)
    requires Inv(n)
    ensures var r := HandleBroadcast(HandleSetRegisterAck(n), behind);
            r.history.air == n.history.air && r.responses == n.responses && r.registers == n.registers &&
            (r.filter == n.filter || (Kind(n.packet) == PKT_REGISTER_VALUE && n.filter.next < |n.filter.entries| &&
                                      r.filter == F.Mark(n.filter, HeaderOf(n.packet))))
  {
    hide Inv, F.Seen, F.Mark, NameAndValueMatch, PacketToRegister, StrNCpy, Patch;
    C.MarkIsSeen(n);
  }

  /** A quiet step behind. */
  lemma QuietBehind(n: Node, m: Node, r: Node, answered: bool, request: Packet, reply: Packet, now: uint32)
    requires Responds(n, m, answered, request, reply, now) && Quiet(m, r)
    ensures Responds(n, r, answered, request, reply, now)
  {
    hide F.Seen, Q.Append;
  }

  lemma QuietChains(a: Node, b: Node, c: Node)
    requires Quiet(a, b) && Quiet(b, c)
    ensures Quiet(a, c)
  {
  }

  lemma PongIsQuiet(n: Node)
    requires Inv(n)
    ensures Quiet(n, HandlePong(n))
  {
    hide Inv;
  }

  lemma CountTakenIsQuiet(n: Node)
    requires Inv(n)
    ensures Quiet(n, HandleNumRegisters(n))
  {
    hide Inv;
  }

  lemma NameTakenIsQuiet(n: Node, strayByte: byte)
    requires Inv(n)
    ensures Quiet(n, HandleRegisterName(n, strayByte))
  {
    hide Inv, PacketToRegister, RegisterIndex;
  }

  lemma ValueTakenIsQuiet(n: Node)
    requires Inv(n)
    ensures Quiet(n, HandleRegisterValue(n))
  {
    hide Inv, PacketToRegister, NameMatches;
  }

  /** What the last two handlers mark does not displace the request just marked. */
  lemma LastBehind(n: Node, m: Node, behind: Behind, answered: bool, request: Packet, reply: Packet, now: uint32)
    requires Inv(m) && Responds(n, m, answered, request, reply, now)
    requires answered ==> JustMarked(m, request)
    ensures Responds(n, HandleBroadcast(HandleSetRegisterAck(m), behind), answered, request, reply, now)
  {
    hide Inv, Q.Append, HandleSetRegisterAck, HandleBroadcast, F.Mark;
    OutcomesAreQuiet(m, behind);
    var r := HandleBroadcast(HandleSetRegisterAck(m), behind);
    if answered && r.filter != m.filter { MarkSpares(m.filter, HeaderOf(request), HeaderOf(m.packet)); }
  }

  lemma MarkSpares(c: F.Cache, header: F.Header, other: F.Header)
    requires |c.entries| == 8 && c.next < 8 && c.entries[(c.next + 7) % 8] == header
    ensures F.Seen(F.Mark(c, other), header)
  {
    assert F.Mark(c, other).entries[(c.next + 7) % 8] == header;
  }

  // ---- serving ----

  /** The handlers one after the other. */
  lemma ServePhases(n: Node, env: Env)
    requires Inv(n)
    ensures var n1 := HandlePong(HandlePing(n, env.rxTime));
            var n2 := HandleNumRegisters(HandleGetNumRegisters(n1, env.rxTime));
            var n3 := HandleRegisterName(HandleGetRegisterName(n2, env.rxTime), env.strayByte);
            var n4 := HandleRegisterValue(HandleGetRegister(n3, env.getReply, env.rxTime));
            var n5 := HandleSetRegister(n4, env.setReply, env.rxTime);
            Serve(n, env) == HandleBroadcast(HandleSetRegisterAck(n5), env.behind)
  {
    hide Inv, HandlePing, HandlePong, HandleGetNumRegisters, HandleNumRegisters, HandleGetRegisterName, HandleRegisterName,
         HandleGetRegister, HandleRegisterValue, HandleSetRegister, HandleSetRegisterAck, HandleBroadcast;
  }

  /** Whatever is in the buffer, the handlers behind the PING handlers send nothing if it is no request for them. */
  lemma RestIsQuiet(n: Node, env: Env)
    requires Inv(n)
    requires !(Kind(n.packet) in {PKT_GET_NUM_REGISTERS, PKT_GET_REGISTER_NAME, PKT_GET_REGISTER, PKT_SET_REGISTER})
    ensures var n2 := HandleNumRegisters(HandleGetNumRegisters(n, env.rxTime));
            var n3 := HandleRegisterName(HandleGetRegisterName(n2, env.rxTime), env.strayByte);
            var n4 := HandleRegisterValue(HandleGetRegister(n3, env.getReply, env.rxTime));
            Quiet(n, n2) && Quiet(n, n3) && Quiet(n, n4) && HandleSetRegister(n4, env.setReply, env.rxTime) == n4
  {
    hide Inv, HandlePing, HandlePong, HandleGetNumRegisters, HandleNumRegisters, HandleGetRegisterName, HandleRegisterName,
         HandleGetRegister, HandleRegisterValue, HandleSetRegister, HandleSetRegisterAck, HandleBroadcast;
    NumbersAreQuiet(n, env.rxTime);
    var n2 := HandleNumRegisters(HandleGetNumRegisters(n, env.rxTime));
    NamesAreQuiet(n2, env.strayByte, env.rxTime);
    var n3 := HandleRegisterName(HandleGetRegisterName(n2, env.rxTime), env.strayByte);
    ValuesAreQuiet(n3, env.getReply, env.rxTime);
    SettingIsQuiet(HandleRegisterValue(HandleGetRegister(n3, env.getReply, env.rxTime)), env.setReply, env.rxTime);
  }

  lemma PingIsServed(n: Node, env: Env)
    requires Inv(n) && OnMesh(n.state) && Passes(n, PKT_PING) && UniqueId(n.packet) != n.uniqueId
    ensures Responds(n, Serve(n, env), true, n.packet, HeaderFor(n, PKT_PONG), env.rxTime)
  {
    hide Inv, Serve, HandlePing, HandlePong, HandleGetNumRegisters, HandleNumRegisters, HandleGetRegisterName, HandleRegisterName,
         HandleGetRegister, HandleRegisterValue, HandleSetRegister, HandleSetRegisterAck, HandleBroadcast, Responds, F.Seen, HeaderFor;
    ServePhases(n, env);
    var g := HandlePing(n, env.rxTime);
    PingResponds(n, env);
    PongIsQuiet(g);
    RestIsQuiet(HandlePong(g), env);
    var n2 := HandleNumRegisters(HandleGetNumRegisters(HandlePong(g), env.rxTime));
    var n3 := HandleRegisterName(HandleGetRegisterName(n2, env.rxTime), env.strayByte);
    var n4 := HandleRegisterValue(HandleGetRegister(n3, env.getReply, env.rxTime));
    QuietChains(g, HandlePong(g), n4);
    QuietBehind(n, g, n4, true, n.packet, HeaderFor(n, PKT_PONG), env.rxTime);
    LastBehind(n, n4, env.behind, true, n.packet, HeaderFor(n, PKT_PONG), env.rxTime);
  }

  lemma CountIsServed(n: Node, env: Env)
    requires Inv(n) && OnMesh(n.state) && Passes(n, PKT_GET_NUM_REGISTERS) && Target(n.packet) == n.nodeId
    ensures Responds(n, Serve(n, env), true, n.packet, CountReply(n), env.rxTime)
  {
    hide Inv, Serve, HandlePing, HandlePong, HandleGetNumRegisters, HandleNumRegisters, HandleGetRegisterName, HandleRegisterName,
         HandleGetRegister, HandleRegisterValue, HandleSetRegister, HandleSetRegisterAck, HandleBroadcast, Responds, F.Seen, CountReply;
    ServePhases(n, env);
    FewRegisters(n);
    PresenceIsQuiet(n, env.rxTime);
    var n1 := HandlePong(HandlePing(n, env.rxTime));
    assert n1 == n by { OtherThanPing(n, env.rxTime); }
    CountResponds(n, env);
    var g := HandleGetNumRegisters(n, env.rxTime);
    CountTakenIsQuiet(g);
    var n2 := HandleNumRegisters(g);
    RestIsQuiet(n2, env);
    AnsweredPasses(n2, env);
    var p := CountReply(n);
    var n3 := HandleRegisterName(HandleGetRegisterName(n2, env.rxTime), env.strayByte);
    var n4 := HandleRegisterValue(HandleGetRegister(n3, env.getReply, env.rxTime));
    QuietChains(g, n2, n4);
    QuietBehind(n, g, n4, true, n.packet, p, env.rxTime);
    LastBehind(n, n4, env.behind, true, n.packet, p, env.rxTime);
  }

  lemma OtherThanPing(n: Node, now: uint32)
    requires Inv(n) && Kind(n.packet) != PKT_PING && Kind(n.packet) != PKT_PONG
    ensures HandlePong(HandlePing(n, now)) == n
  {
    hide Inv;
  }

  /** A reply in the buffer is no request. */
  lemma AnsweredPasses(n: Node, env: Env)
    requires Inv(n) && !(Kind(n.packet) in {PKT_GET_REGISTER_NAME, PKT_GET_REGISTER, PKT_SET_REGISTER})
    ensures var n3 := HandleRegisterName(HandleGetRegisterName(n, env.rxTime), env.strayByte);
            var n4 := HandleRegisterValue(HandleGetRegister(n3, env.getReply, env.rxTime));
            Quiet(n, n3) && Quiet(n, n4) && HandleSetRegister(n4, env.setReply, env.rxTime) == n4
  {
    hide Inv, HandleGetRegisterName, HandleRegisterName, HandleGetRegister, HandleRegisterValue, HandleSetRegister;
    NamesAreQuiet(n, env.strayByte, env.rxTime);
    var n3 := HandleRegisterName(HandleGetRegisterName(n, env.rxTime), env.strayByte);
    ValuesAreQuiet(n3, env.getReply, env.rxTime);
    SettingIsQuiet(HandleRegisterValue(HandleGetRegister(n3, env.getReply, env.rxTime)), env.setReply, env.rxTime);
  }

  lemma NameIsServed(n: Node, env: Env)
    requires Inv(n) && OnMesh(n.state) && Passes(n, PKT_GET_REGISTER_NAME) && Target(n.packet) == n.nodeId
    ensures Responds(n, Serve(n, env), true, n.packet, NameReply(n, n.packet[REG_INDEX_AT]), env.rxTime)
  {
    hide Inv, Serve, HandlePing, HandlePong, HandleGetNumRegisters, HandleNumRegisters, HandleGetRegisterName, HandleRegisterName,
         HandleGetRegister, HandleRegisterValue, HandleSetRegister, HandleSetRegisterAck, HandleBroadcast, Responds, F.Seen, NameReply;
    ServePhases(n, env);
    OtherThanPing(n, env.rxTime);
    OtherThanCount(n, env.rxTime);
    NameResponds(n, env);
    var g := HandleGetRegisterName(n, env.rxTime);
    NameTakenIsQuiet(g, env.strayByte);
    var n3 := HandleRegisterName(g, env.strayByte);
    ValuesAreQuiet(n3, env.getReply, env.rxTime);
    var n4 := HandleRegisterValue(HandleGetRegister(n3, env.getReply, env.rxTime));
    SettingIsQuiet(n4, env.setReply, env.rxTime);
    var p := NameReply(n, n.packet[REG_INDEX_AT]);
    QuietChains(g, n3, n4);
    QuietBehind(n, g, n4, true, n.packet, p, env.rxTime);
    LastBehind(n, n4, env.behind, true, n.packet, p, env.rxTime);
  }

  lemma OtherThanCount(n: Node, now: uint32)
    requires Inv(n) && Kind(n.packet) != PKT_GET_NUM_REGISTERS && Kind(n.packet) != PKT_NUM_REGISTERS
    ensures HandleNumRegisters(HandleGetNumRegisters(n, now)) == n
  {
    hide Inv;
  }

  lemma GetIsServed(n: Node, env: Env, i: nat)
    requires Inv(n) && OnMesh(n.state) && Passes(n, PKT_GET_REGISTER) && S.IsNamedBy(n, i, n.packet)
    ensures Responds(n, Serve(n, env), true, n.packet, S.ValueReply(n, i, env.getReply), env.rxTime)
  {
    hide Inv, Serve, ServeDirectory, HandleGetRegister, HandleRegisterValue, HandleSetRegister, HandleSetRegisterAck, HandleBroadcast,
         Responds, F.Seen, S.ValueReply, FindRegister, Refreshed;
    S.DirectoryPassesOn(n, env);
    RegisterPhases(n, env);
    GetResponds(n, env, i);
    var g := HandleGetRegister(n, env.getReply, env.rxTime);
    ValueTakenIsQuiet(g);
    var n4 := HandleRegisterValue(g);
    SettingIsQuiet(n4, env.setReply, env.rxTime);
    var p := S.ValueReply(n, i, env.getReply);
    QuietBehind(n, g, n4, true, n.packet, p, env.rxTime);
    LastBehind(n, n4, env.behind, true, n.packet, p, env.rxTime);
  }

  lemma RegisterPhases(n: Node, env: Env)
    requires Inv(n)
    ensures var m := ServeDirectory(n, env);
            var n4 := HandleRegisterValue(HandleGetRegister(m, env.getReply, env.rxTime));
            Serve(n, env) ==
            HandleBroadcast(HandleSetRegisterAck(HandleSetRegister(n4, env.setReply, env.rxTime)), env.behind)
  {
    hide Inv, ServeDirectory, HandleGetRegister, HandleRegisterValue, HandleSetRegister, HandleSetRegisterAck, HandleBroadcast;
  }

  lemma SetIsServed(n: Node, env: Env, i: nat)
    requires Inv(n) && OnMesh(n.state) && Passes(n, PKT_SET_REGISTER) && S.IsNamedBy(n, i, n.packet)
    ensures Responds(n, Serve(n, env), true, n.packet, SetAck(n, Sender(n.packet), E.Outcome(n, n.packet, i, env.setReply)),
                     env.rxTime)
  {
    hide Inv, Serve, ServeDirectory, HandleGetRegister, HandleRegisterValue, HandleSetRegister, HandleSetRegisterAck, HandleBroadcast,
         Responds, F.Seen, SetAck, E.Outcome, FindRegister;
    S.DirectoryPassesOn(n, env);
    RegisterPhases(n, env);
    OtherThanGet(n, env);
    SetResponds(n, env, i);
    var g := HandleSetRegister(n, env.setReply, env.rxTime);
    LastBehind(n, g, env.behind, true, n.packet, SetAck(n, Sender(n.packet), E.Outcome(n, n.packet, i, env.setReply)), env.rxTime);
  }

  lemma OtherThanGet(n: Node, env: Env)
    requires Inv(n) && Kind(n.packet) == PKT_SET_REGISTER
    ensures HandleRegisterValue(HandleGetRegister(n, env.getReply, env.rxTime)) == n
  {
    hide Inv;
  }

  /** No answer to anything else. */
  lemma NothingIsServed(n: Node, env: Env)
    requires Inv(n) && !(Passes(n, Kind(n.packet)) && Concerns(n, n.packet))
    ensures Responds(n, Serve(n, env), false, n.packet, n.packet, env.rxTime)
  {
    hide Inv, Serve, HandlePing, HandlePong, HandleGetNumRegisters, HandleNumRegisters, HandleGetRegisterName, HandleRegisterName,
         HandleGetRegister, HandleRegisterValue, HandleSetRegister, HandleSetRegisterAck, HandleBroadcast, F.Seen, FindRegister;
    ServePhases(n, env);
    P.ShapedQueue(n);
    PresenceIsQuiet(n, env.rxTime);
    var n1 := HandlePong(HandlePing(n, env.rxTime));
    NumbersAreQuiet(n1, env.rxTime);
    var n2 := HandleNumRegisters(HandleGetNumRegisters(n1, env.rxTime));
    NamesAreQuiet(n2, env.strayByte, env.rxTime);
    var n3 := HandleRegisterName(HandleGetRegisterName(n2, env.rxTime), env.strayByte);
    ValuesAreQuiet(n3, env.getReply, env.rxTime);
    var n4 := HandleRegisterValue(HandleGetRegister(n3, env.getReply, env.rxTime));
    SettingIsQuiet(n4, env.setReply, env.rxTime);
    OutcomesAreQuiet(n4, env.behind);
  }

  lemma ServingResponds(n: Node, env: Env)
    requires Inv(n) && OnMesh(n.state)
    ensures var answered := Passes(n, Kind(n.packet)) && Concerns(n, n.packet);
            Responds(n, Serve(n, env), answered, n.packet, if answered then Answer(n, n.packet, env) else n.packet, env.rxTime)
  {
    hide Inv, Serve, F.Seen, FindRegister, SetAck, NameReply, S.ValueReply, E.Outcome, HeaderFor, CountReply, Responds;
    FewRegisters(n);
    var p := n.packet;
    if Passes(n, Kind(p)) && Concerns(n, p) {
      if Kind(p) == PKT_PING { PingIsServed(n, env); }
      else if Kind(p) == PKT_GET_NUM_REGISTERS { CountIsServed(n, env); }
      else if Kind(p) == PKT_GET_REGISTER_NAME { NameIsServed(n, env); }
      else if Kind(p) == PKT_GET_REGISTER { GetIsServed(n, env, FindRegister(p, n.registers, 0).value); }
      else { SetIsServed(n, env, FindRegister(p, n.registers, 0).value); }
    } else {
      NothingIsServed(n, env);
    }
  }

  // ---- receiving ----

  /** The answer is decided by what the node was when the packet came. */
  lemma SameAnswer(n: Node, m: Node, env: Env)
    requires env.rx.Received? && m.packet == env.rx.packet && OnMesh(n.state) && m.state == n.state
    requires m.nodeId == n.nodeId && m.uniqueId == n.uniqueId && m.registers == n.registers && m.client == n.client
    requires m.request == n.request && m.filter == F.Hear(n.filter, Sequence(m.packet), UniqueId(m.packet))
    requires !T.IsDuplicate(n, env.rx)
    ensures IsAnswered(n, env.rx) <==> Passes(m, Kind(m.packet)) && Concerns(m, m.packet)
    ensures Concerns(n, m.packet) ==> Concerns(m, m.packet) && Answer(m, m.packet, env) == Answer(n, m.packet, env)
  {
    hide F.Hear, F.Seen, FindRegister, RegisterToPacket, SetRequested;
  }

  /** Receiving, on the mesh, exactly: a request that concerns the node and was not handled before is answered by one
      reply, which is queued to be repeated behind the others if there is room, and the request is marked; nothing
      else is sent. */
  lemma ReceivingResponds(n: Node, env: Env)
    requires Inv(n) && OnMesh(n.state) && env.rx.Received? && !T.IsDuplicate(n, env.rx)
    ensures var p, answered := env.rx.packet, IsAnswered(n, env.rx);
            Responds(n, HandleRx(n, env), answered, p, if answered then Answer(n, p, env) else p, env.rxTime)
  {
    hide Inv, Receive, Regard, Serve, SendConflict, Responds, Answer, IsAnswered, Concerns, Passes, F.Hear;
    var n1 := Receive(n, env.rx.packet, env.rxTime);
    var n2 := Regard(n1, env.rxTime);
    T.DuplicateIsSeen(n, env);
    S.HandlersSee(n, env.rx.packet, env.rxTime);
    S.RegardKeepsAsking(n1, env.rxTime);
    V.ReceiveKeepsQueue(n, env.rx.packet, env.rxTime);
    V.RegardKeepsQueue(n1, env.rxTime);
    SameAnswer(n, n2, env);
    ServingResponds(n2, env);
    SameResponds(n, n2, Serve(n2, env), env);
  }

  lemma SameResponds(n: Node, m: Node, r: Node, env: Env)
    requires env.rx.Received? && m.responses == n.responses && m.history.air == n.history.air
    requires IsAnswered(n, env.rx) <==> Passes(m, Kind(m.packet)) && Concerns(m, m.packet)
    requires Concerns(n, m.packet) ==> Concerns(m, m.packet) && Answer(m, m.packet, env) == Answer(n, m.packet, env)
    requires m.packet == env.rx.packet
    requires var answered := Passes(m, Kind(m.packet)) && Concerns(m, m.packet);
             Responds(m, r, answered, m.packet, if answered then Answer(m, m.packet, env) else m.packet, env.rxTime)
    ensures var p, answered := env.rx.packet, IsAnswered(n, env.rx);
            Responds(n, r, answered, p, if answered then Answer(n, p, env) else p, env.rxTime)
  {
    hide Answer, Concerns, F.Seen, F.Hear, Q.Append, Passes;
  }

  /** All that a node on the mesh sends on receiving. */
  lemma ReceivingSends(n: Node, env: Env)
    requires Inv(n) && OnMesh(n.state)
    ensures HandleRx(n, env).history.air == n.history.air +
              if T.IsDuplicate(n, env.rx) then [Tx(Originated, HeaderFor(n, PKT_CONFLICT_NAME))]
              else if IsAnswered(n, env.rx) then [Tx(Originated, Answer(n, env.rx.packet, env))]
              else []
  {
    hide Inv, Receive, Regard, Serve, SendConflict, Answer, IsAnswered, HeaderFor, Q.Append, HandleRx, F.Seen;
    if T.IsDuplicate(n, env.rx) {
      DuplicateIsAnswered(n, env);
    } else if env.rx.Received? {
      ReceivingResponds(n, env);
    } else {
      NothingReceived(n, env);
    }
  }

  lemma NothingReceived(n: Node, env: Env)
    requires Inv(n) && !env.rx.Received?
    ensures HandleRx(n, env).history.air == n.history.air && !IsAnswered(n, env.rx)
  {
    hide Inv;
  }

  // ---- once ----

  /** An answered request is remembered by the filter at first. */
  lemma AnswerIsRemembered(n: Node, env: Env)
    requires Inv(n) && IsAnswered(n, env.rx)
    ensures F.Remembers(Update(n, env).filter.history, HeaderOf(env.rx.packet))
  {
    hide Inv, HandleRx, UpdateAfterRx, Concerns, Answer, F.Hear, F.Seen, F.Remembers, F.Tracks, Q.Append;
    ReceivingResponds(n, env);
    Y.AfterRxKeepsFilter(HandleRx(n, env), env);
    C.FilterTracks(Update(n, env));
    assert HeaderOf(env.rx.packet) != F.EMPTY by { RequestIsNoBlank(n, env); }
    F.SeenIsRemembered(Update(n, env).filter, HeaderOf(env.rx.packet));
  }

  lemma RequestIsNoBlank(n: Node, env: Env)
    requires IsAnswered(n, env.rx)
    ensures Kind(env.rx.packet) != 0
  {
  }

  /** While the filter remembers it, no copy of a request is answered again, whatever its hop count. */
  lemma AnsweredOnce(n: Node, env: Env, between: seq<Action>, back: Env)
    requires Inv(n) && IsAnswered(n, env.rx) && AllowedRun(Act(n, DoUpdate(env)), between)
    requires back.rx.Received? && U.IsCopy(back.rx.packet, env.rx.packet)
    requires F.Remembers(Run(Act(n, DoUpdate(env)), between).filter.history, HeaderOf(env.rx.packet))
    ensures !IsAnswered(Run(Act(n, DoUpdate(env)), between), back.rx)
  {
    hide Inv, Act, Run, AllowedRun, Concerns, F.Remembers, F.Tracks, F.Hear, F.Seen;
    var b := Run(Act(n, DoUpdate(env)), between);
    SameSansHopMeaning(back.rx.packet, env.rx.packet);
    C.FilterTracks(b);
    RequestIsNoBlank(n, env);
    F.SeenIsRemembered(b.filter, HeaderOf(back.rx.packet));
    C.OwnNumberStays(b.filter, Sequence(back.rx.packet), UniqueId(back.rx.packet), HeaderOf(back.rx.packet));
  }
}
