/** Setting a remote register, at either end: what the server stores and acknowledges, what the requester is
    told, and exactly when being told of success means that the value was stored. */
module Settings {
  import opened Bytes
  import opened Packets
  import opened Registers
  import opened Model
  import opened Operations
  import F = Filter
  import B = Rebuild
  import S = Server
  import U = Queries

  // ---- the server ----

  /** What a SET request does to register `i`. */
  function Outcome(n: Node, p: Packet, i: nat, reply: SetReply): SetOutcome
    requires i < |n.registers|
  {
    SetRequested(p, n.registers[i], n.client.register, reply)
  }

  /** The outcome has been stored, and is acknowledged to node `to`. */
  ghost predicate Carried(n: Node, r: Node, i: nat, o: SetOutcome, to: byte)
    requires i < |n.registers|
  {
    r.registers == n.registers[i := o.register.(errorSet := false)] && S.Answered(r.history.air, SetAck(n, to, o))
  }

  lemma ServeSets(n: Node, env: Env, i: nat)
    requires Inv(n) && OnMesh(n.state) && Passes(n, PKT_SET_REGISTER) && S.IsNamedBy(n, i, n.packet)
    ensures Carried(n, Serve(n, env), i, Outcome(n, n.packet, i, env.setReply), Sender(n.packet))
  {
    hide Inv, ServeDirectory, HandleGetRegister, HandleRegisterValue, HandleSetRegisterAck, HandleBroadcast, Acknowledge,
         SetRequested, SetAck, FindRegister, F.Seen;
    S.DirectoryPassesOn(n, env);
    S.GetKeepsRegisters(n, env, env.rxTime);
    S.ValueAndAckKeepRegisters(n, env);
    var r := HandleSetRegister(n, env.setReply, env.rxTime);
    var ack := SetAck(n, Sender(n.packet), Outcome(n, n.packet, i, env.setReply));
    assert r.history.air[|n.history.air|] == Tx(Originated, ack);
    S.AnsweredGrows(r.history.air, Serve(n, env).history.air, ack);
  }

  /** A fresh SET of a register served here is carried out and acknowledged to its sender. */
  lemma SetIsServed(n: Node, env: Env, i: nat)
    requires Inv(n) && env.rx.Received? && S.Reaches(n, env.rx.packet, PKT_SET_REGISTER) && S.IsNamedBy(n, i, env.rx.packet)
    ensures Carried(n, Update(n, env), i, Outcome(n, env.rx.packet, i, env.setReply), Sender(env.rx.packet))
  {
    hide Inv, Receive, Regard, Serve, SendConflict, UpdateAfterRx, SetRequested, SetAck, FindRegister, S.Answered, F.Hear,
         F.Seen;
    var p := env.rx.packet;
    var n1 := Receive(n, p, env.rxTime);
    var n2 := Regard(n1, env.rxTime);
    S.HandlersSee(n, p, env.rxTime);
    S.RegardKeepsAsking(n1, env.rxTime);
    ServeSets(n2, env, i);
    S.AfterRxKeepsRegisters(HandleRx(n, env), env);
    var o := Outcome(n, p, i, env.setReply);
    B.AckDepends(n, n2, Sender(p), o);
    S.AnsweredGrows(HandleRx(n, env).history.air, Update(n, env).history.air, SetAck(n, Sender(p), o));
  }

  // ---- the requester ----

  /** A requester waiting for the acknowledgement of a SET, from whichever node gives it. */
  predicate AwaitsAck(n: Node) {
    n.state == SettingRegister && n.request.targetNodeId == 0 && n.request.targetUniqueId == 0
  }

  lemma AckPassesOn(n: Node, env: Env)
    requires Inv(n) && Kind(n.packet) == PKT_SET_REGISTER_ACK
    ensures ServeDirectory(n, env) == n
  {
    hide Inv;
  }

  lemma ServeTakesAck(n: Node, env: Env)
    requires Inv(n) && AwaitsAck(n) && Kind(n.packet) == PKT_SET_REGISTER_ACK && Target(n.packet) == n.nodeId
    ensures var r := Serve(n, env);
            U.EndedBy(n, r, n.packet, if n.packet[ERR_MSG_AT] != 0 then InvalidRegisterValue else StatusOk)
  {
    hide Inv, ServeDirectory, StrNCpy, Patch;
    AckPassesOn(n, env);
  }

  /** Any acknowledgement addressed to a waiting requester ends its SET, whichever node sent it and whichever
      request it answers; the SET is told to have failed exactly if it carries an error text. */
  lemma AckEndsSet(n: Node, env: Env)
    requires Inv(n) && AwaitsAck(n) && env.rx.Received?
    requires Kind(env.rx.packet) == PKT_SET_REGISTER_ACK && Target(env.rx.packet) == n.nodeId
    requires !(Sender(env.rx.packet) == n.nodeId && UniqueId(env.rx.packet) != n.uniqueId)
    ensures var p := env.rx.packet;
            U.EndedBy(n, Update(n, env), p, if p[ERR_MSG_AT] != 0 then InvalidRegisterValue else StatusOk)
  {
    hide Inv, Receive, Regard, Serve, SendConflict, UpdateAfterRx;
    var n1 := Receive(n, env.rx.packet, env.rxTime);
    var n2 := Regard(n1, env.rxTime);
    S.HandlersSee(n, env.rx.packet, env.rxTime);
    S.RegardKeepsAsking(n1, env.rxTime);
    ServeTakesAck(n2, env);
    S.IdleUpdateKeepsResult(HandleRx(n, env), env);
  }

  lemma AckText(s: Node, target: byte, o: SetOutcome)
    ensures Kind(SetAck(s, target, o)) == PKT_SET_REGISTER_ACK && Target(SetAck(s, target, o)) == target
    ensures Sender(SetAck(s, target, o)) == s.nodeId && UniqueId(SetAck(s, target, o)) == s.uniqueId
    ensures SetAck(s, target, o)[ERR_MSG_AT] == if o.error then o.cache.data[0] else 0
  {
  }

  /** The verdict that reaches the requester with the acknowledgement itself. */
  function Verdict(o: SetOutcome): Status {
    if o.error && o.cache.data[0] != 0 then InvalidRegisterValue else StatusOk
  }

  /** A copy of the acknowledgement of `s`, relayed any number of times, tells the requester the verdict. */
  lemma AckTellsVerdict(n: Node, s: Node, o: SetOutcome, env: Env)
    requires Inv(n) && AwaitsAck(n) && env.rx.Received? && s.nodeId != n.nodeId
    requires U.IsCopy(env.rx.packet, SetAck(s, n.nodeId, o))
    ensures U.EndedBy(n, Update(n, env), env.rx.packet, Verdict(o))
  {
    hide Inv, Update, SetAck, U.EndedBy, U.IsCopy;
    var p, q := env.rx.packet, SetAck(s, n.nodeId, o);
    U.CopySays(p, q);
    AckText(s, n.nodeId, o);
    assert p[DATA_AT..][0] == q[DATA_AT..][0] && p[DATA_AT..][1] == q[DATA_AT..][1];
    AckEndsSet(n, env);
  }

  /** A repeat of it tells of success, whatever the outcome was. */
  lemma RepeatTellsSuccess(n: Node, s: Node, later: Node, o: SetOutcome, count: byte, leftover: byte, memory: Register, env: Env)
    requires Inv(n) && AwaitsAck(n) && env.rx.Received? && s.nodeId != n.nodeId && B.SameServer(later, s)
    requires U.IsCopy(env.rx.packet, Rebuilt(later, B.SummaryOf(s, SetAck(s, n.nodeId, o), count, leftover), memory))
    ensures U.EndedBy(n, Update(n, env), env.rx.packet, StatusOk)
  {
    hide Inv, Update, SetAck, Rebuilt, B.SummaryOf, U.EndedBy, U.IsCopy;
    var p := env.rx.packet;
    B.AckRebuilt(s, later, n.nodeId, o, count, leftover, memory);
    var q := HeaderFor(s, PKT_SET_REGISTER_ACK)[TARGET_AT := n.nodeId];
    HeaderFields(PKT_SET_REGISTER_ACK, s.request.sequence, s.nodeId, s.uniqueId, 0);
    assert q[ERR_MSG_AT] == 0;
    U.CopySays(p, q);
    assert p[DATA_AT..][0] == q[DATA_AT..][0] && p[DATA_AT..][1] == q[DATA_AT..][1];
    AckEndsSet(n, env);
  }

  // ---- the round trip ----

  /** The register has the name and value the requester wants it to have. */
  predicate IsSet(r: Register, reg: Register)
    requires Fits(reg)
  {
    Fits(r) && Name(r) == Name(reg) && Value(r) == Value(reg)
  }

  /** The server stores the value itself: there is no callback, or the callback asks for it. */
  predicate StoresItself(r: Register, reply: SetReply) { !r.hasSetCallback || reply.status == AutoSetRegister }

  /** The callback fails the SET and says why. */
  predicate Protests(cache: Register, reply: SetReply) {
    reply.status == InvalidRegisterValue && SetByCallback(Blank(true, false), cache, reply).cache.data[0] != 0
  }

  /** What the outcome of a SET of a servable register is worth: the server stores the value and reports
      success, or its callback decides both, one apart from the other. */
  lemma OutcomeIs(p: Packet, r: Register, cache: Register, reply: SetReply, reg: Register)
    requires Servable(reg) && Decodable(p, true) && PacketName(p) == Name(reg) && PacketValue(p) == Value(reg)
    ensures var o := SetRequested(p, r, cache, reply);
            (StoresItself(r, reply) ==> IsSet(o.register, reg) && Verdict(o) == StatusOk) &&
            (!StoresItself(r, reply) ==>
               o.register == Rewritten(r, reply.register) &&
               (Verdict(o) == InvalidRegisterValue <==> Protests(cache, reply)))
  {
    hide PacketToRegister, PacketName, PacketValue, WithError, WithText;
    if StoresItself(r, reply) {
      var before := if r.hasSetCallback then Rewritten(r, reply.register) else r;
      DecodedFields(p, before);
      assert !SetRequested(p, r, cache, reply).error;
    }
  }

  /** A copy of the one request the call sent. */
  predicate IsRequestOf(p: Packet, asking: Node) {
    |asking.history.air| == 1 && U.IsCopy(p, asking.history.air[0].packet)
  }

  predicate SuccessMeansStored(o: SetOutcome, reg: Register)
    requires Fits(reg)
  {
    Verdict(o) == StatusOk ==> IsSet(o.register, reg)
  }

  lemma ServerCarries(s: Node, env: Env, i: nat)
    requires Inv(s) && env.rx.Received? && S.Reaches(s, env.rx.packet, PKT_SET_REGISTER) && S.IsNamedBy(s, i, env.rx.packet)
    ensures Carried(s, Act(s, DoUpdate(env)), i, Outcome(s, env.rx.packet, i, env.setReply), Sender(env.rx.packet))
  {
    hide Inv, Update, Outcome, FindRegister, F.Seen, F.Hear, S.Answered;
    var b, o := Begin(s), Outcome(s, env.rx.packet, i, env.setReply);
    assert S.IsNamedBy(b, i, env.rx.packet) && Outcome(b, env.rx.packet, i, env.setReply) == o by {
      BeginServes(s, env.rx.packet, i, env.setReply);
    }
    SetIsServed(b, env, i);
    B.AckDepends(s, b, Sender(env.rx.packet), o);
  }

  lemma BeginServes(s: Node, p: Packet, i: nat, reply: SetReply)
    requires Inv(s) && S.IsNamedBy(s, i, p)
    ensures S.IsNamedBy(Begin(s), i, p) && Outcome(Begin(s), p, i, reply) == Outcome(s, p, i, reply)
  {
    hide Inv, FindRegister, SetRequested;
  }

  lemma VerdictIsOneOf(o: SetOutcome)
    ensures Verdict(o) == StatusOk || Verdict(o) == InvalidRegisterValue
  {
  }

  lemma SetQuery(m: Node, reg: Register, user: Callback, now: uint32)
    requires Inv(m) && m.state == Idle && Servable(reg)
    ensures var r := Act(m, DoSetRegister(reg, user, now));
            AwaitsAck(r) && r.nodeId == m.nodeId && r.uniqueId == m.uniqueId && |r.history.air| == 1 &&
            var p := r.history.air[0].packet;
            Sender(p) == m.nodeId && Decodable(p, true) && PacketName(p) == Name(reg) && PacketValue(p) == Value(reg)
  {
    hide Inv, RegisterToPacket, PacketName, PacketValue, Decodable;
    S.SetRequestCarries(m, reg, user, now);
    SetHeader(m, reg, user, now);
  }

  lemma SetHeader(m: Node, reg: Register, user: Callback, now: uint32)
    requires Inv(m) && m.state == Idle && Servable(reg)
    ensures var r := Act(m, DoSetRegister(reg, user, now));
            AwaitsAck(r) && r.nodeId == m.nodeId && r.uniqueId == m.uniqueId && |r.history.air| == 1 &&
            Sender(r.history.air[0].packet) == m.nodeId
  {
    hide Inv, RegisterToPacket;
    var h := HeaderFor(Begin(m), PKT_SET_REGISTER);
    EncodedFields(h, reg, true);
    assert RegisterToPacket(h, reg, true)[..DATA_AT][NODE_ID_AT] == h[..DATA_AT][NODE_ID_AT];
  }
}
