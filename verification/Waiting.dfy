/** A node that has asked for something, until it is told: exactly when its wait ends, in any run, what the
    wait keeps of the question, and how a node can forget which register it asked for. */
module Waiting {
  import opened Bytes
  import opened Packets
  import opened Registers
  import opened Model
  import opened Operations
  import opened Joining
  import F = Filter
  import S = Server
  import E = Settings
  import U = Queries
  import R = Refused

  predicate Queries(n: Node) { n.state == GettingNumRegisters || n.state == GettingRegisterName }

  /** The node waits for a count or a name, or, from whichever node gives it, for the outcome of a GET or SET. */
  predicate Asks(n: Node) { Queries(n) || R.Waits(n) }

  /** The node's own replies would count as answers. */
  predicate AsksItself(n: Node) {
    (n.request.targetNodeId == 0 || n.request.targetNodeId == n.nodeId) &&
    (n.request.targetUniqueId == 0 || n.request.targetUniqueId == n.uniqueId)
  }

  /** What a name reply tells the node: nothing, unless it has the index asked for. */
  function NameStatus(n: Node, p: Packet, strayByte: byte): Option<Status> {
    if RegisterIndex(p, strayByte) == n.request.targetIndex then
      Some(if Decodable(p, false) then StatusOk else InvalidRegisterIndex)
    else None
  }

  /** The packet is a request of this kind, and addressed to this node. */
  predicate AskedHere(n: Node, p: Packet, kind: byte) { S.Reaches(n, p, kind) && Target(p) == n.nodeId }

  /** The status with which a received packet ends a query, if it does: a reply of the node asked; or, the
      handlers sharing one packet buffer, the node's own reply, if that counts as an answer. */
  function QueryEnded(n: Node, env: Env): Option<Status> {
    if !env.rx.Received? then None
    else
      var p := env.rx.packet;
      if n.state == GettingNumRegisters then
        if AskedHere(n, p, PKT_GET_NUM_REGISTERS) && AsksItself(n) then Some(StatusOk)
        else if Kind(p) == PKT_NUM_REGISTERS && U.FromTarget(n, p) then Some(StatusOk)
        else None
      else if n.state == GettingRegisterName then
        if AskedHere(n, p, PKT_GET_REGISTER_NAME) && AsksItself(n) then
          NameStatus(n, NameReply(n, p[REG_INDEX_AT]), env.strayByte)
        else if Kind(p) == PKT_REGISTER_NAME && U.FromTarget(n, p) then NameStatus(n, p, env.strayByte)
        else None
      else None
  }

  /** The status with which a received packet ends the operation, if it does. */
  function Ended(n: Node, env: Env): Option<Status> {
    if Queries(n) then QueryEnded(n, env) else R.EndedEarly(n, env)
  }

  /** The node waits for the same answer to the same question. */
  ghost predicate SameQuestion(n: Node, r: Node) {
    r.state == n.state && r.history.completions == n.history.completions && r.nodeId == n.nodeId &&
    r.uniqueId == n.uniqueId && r.request.targetNodeId == n.request.targetNodeId &&
    r.request.targetUniqueId == n.request.targetUniqueId && r.request.targetIndex == n.request.targetIndex
  }

  // ---- one update of a querying node ----

  /** As `QueryEnded`, for the packet that reaches the handlers. */
  function EndedByServing(n: Node, env: Env): Option<Status> {
    var p := n.packet;
    if n.state == GettingNumRegisters then
      if Passes(n, PKT_GET_NUM_REGISTERS) && Target(p) == n.nodeId && AsksItself(n) then Some(StatusOk)
      else if Answers(n, PKT_NUM_REGISTERS) then Some(StatusOk)
      else None
    else if n.state == GettingRegisterName then
      if Passes(n, PKT_GET_REGISTER_NAME) && Target(p) == n.nodeId && AsksItself(n) then
        NameStatus(n, NameReply(n, p[REG_INDEX_AT]), env.strayByte)
      else if Answers(n, PKT_REGISTER_NAME) then NameStatus(n, p, env.strayByte)
      else None
    else None
  }

  /** A handler has left the query, and the packet too unless it has answered a request of this kind. */
  ghost predicate LeavesQuery(n: Node, r: Node, request: byte, reply: byte) {
    r.state == n.state && r.history.completions == n.history.completions && r.request == n.request &&
    r.nodeId == n.nodeId && r.uniqueId == n.uniqueId && r.registers == n.registers &&
    (r == n || (Kind(n.packet) == request && Kind(r.packet) == reply))
  }

  lemma PresenceLeavesQuery(n: Node, now: uint32)
    requires Inv(n) && Queries(n)
    ensures LeavesQuery(n, HandlePong(HandlePing(n, now)), PKT_PING, PKT_PONG)
  {
    hide Inv, F.Seen, F.Mark;
  }

  /** Answering a count leaves the node's own reply in the packet buffer. */
  lemma CountLeavesReply(n: Node, now: uint32)
    requires Inv(n) && Queries(n)
    ensures LeavesQuery(n, HandleGetNumRegisters(n, now), PKT_GET_NUM_REGISTERS, PKT_NUM_REGISTERS)
    ensures if Passes(n, PKT_GET_NUM_REGISTERS) && Target(n.packet) == n.nodeId
            then Answers(HandleGetNumRegisters(n, now), PKT_NUM_REGISTERS) <==> AsksItself(n)
            else HandleGetNumRegisters(n, now) == n
  {
    hide Inv, F.Seen, F.Mark;
  }

  lemma NameLeavesReply(n: Node, now: uint32)
    requires Inv(n) && Queries(n)
    ensures LeavesQuery(n, HandleGetRegisterName(n, now), PKT_GET_REGISTER_NAME, PKT_REGISTER_NAME)
    ensures if Passes(n, PKT_GET_REGISTER_NAME) && Target(n.packet) == n.nodeId
            then HandleGetRegisterName(n, now).packet == NameReply(n, n.packet[REG_INDEX_AT])
            else HandleGetRegisterName(n, now) == n
  {
    hide Inv, F.Seen, F.Mark, NameReply;
  }

  lemma OwnNameReply(n: Node, r: Node, index: byte)
    requires |n.registers| <= 255 && r.packet == NameReply(n, index)
    requires r.request == n.request && r.nodeId == n.nodeId && r.uniqueId == n.uniqueId
    ensures Answers(r, PKT_REGISTER_NAME) <==> AsksItself(n)
  {
    hide RegisterToPacket;
    var h := HeaderFor(n, PKT_REGISTER_NAME);
    HeaderFields(PKT_REGISTER_NAME, n.request.sequence, n.nodeId, n.uniqueId, 0);
    if index < |n.registers| && Encodable(n.registers[index], false) {
      U.NameReplyHeader(h, n.registers[index], index);
    } else if index < |n.registers| {
      assert RegisterToPacket(h, n.registers[index], false) == h by { Unencoded(h, n.registers[index]); }
    }
  }

  lemma Unencoded(p: Packet, r: Register)
    requires !Encodable(r, false)
    ensures RegisterToPacket(p, r, false) == p
  {
  }

  lemma NumbersEndQuery(n: Node)
    requires Inv(n) && Queries(n)
    ensures R.Ends(n, HandleNumRegisters(n),
                   if n.state == GettingNumRegisters && Answers(n, PKT_NUM_REGISTERS) then Some(StatusOk) else None)
    ensures n.state == GettingRegisterName ==> HandleNumRegisters(n) == n
  {
    hide Inv;
  }

  lemma NamesEndQuery(n: Node, strayByte: byte)
    requires Inv(n) && n.state == GettingRegisterName
    ensures R.Ends(n, HandleRegisterName(n, strayByte),
                   if Answers(n, PKT_REGISTER_NAME) then NameStatus(n, n.packet, strayByte) else None)
  {
    hide Inv, PacketToRegister, Decodable, RegisterIndex;
  }

  /** The handlers of names end nothing else. */
  lemma NamesLeaveCounts(n: Node, strayByte: byte, now: uint32)
    requires Inv(n) && (n.state == GettingNumRegisters || n.state == Idle)
    ensures R.Ends(n, HandleRegisterName(HandleGetRegisterName(n, now), strayByte), None)
  {
    hide Inv, F.Seen, F.Mark, NameReply;
  }

  /** Nor do those of registers. */
  lemma RegistersLeaveQuery(n: Node, env: Env)
    requires Inv(n) && (Queries(n) || n.state == Idle)
    ensures R.Ends(n, ServeRegisters(n, env), None)
  {
    hide Inv, HandleGetRegister, HandleRegisterValue, HandleSetRegister, HandleSetRegisterAck, HandleBroadcast;
    GetLeavesQuery(n, env);
    var g := HandleGetRegister(n, env.getReply, env.rxTime);
    ValueLeavesQuery(g);
    R.SettingEndsNoGet(HandleRegisterValue(g), env);
    R.BroadcastsEndNothing(HandleSetRegisterAck(HandleSetRegister(HandleRegisterValue(g), env.setReply, env.rxTime)), env.behind);
  }

  lemma GetLeavesQuery(n: Node, env: Env)
    requires Inv(n) && (Queries(n) || n.state == Idle)
    ensures R.Ends(n, HandleGetRegister(n, env.getReply, env.rxTime), None)
  {
    hide Inv, F.Seen, F.Mark, RegisterToPacket, FindRegister;
  }

  lemma ValueLeavesQuery(n: Node)
    requires Inv(n) && (Queries(n) || n.state == Idle)
    ensures HandleRegisterValue(n) == n
  {
    hide Inv;
  }

  lemma ServingEndsCount(n: Node, env: Env)
    requires Inv(n) && n.state == GettingNumRegisters
    ensures R.Ends(n, ServeDirectory(n, env), EndedByServing(n, env))
  {
    hide Inv, HandlePing, HandlePong, HandleGetNumRegisters, HandleNumRegisters, HandleGetRegisterName, HandleRegisterName,
         F.Seen;
    PresenceLeavesQuery(n, env.rxTime);
    var n1 := HandlePong(HandlePing(n, env.rxTime));
    CountLeavesReply(n1, env.rxTime);
    var n2 := HandleGetNumRegisters(n1, env.rxTime);
    NumbersEndQuery(n2);
    NamesLeaveCounts(HandleNumRegisters(n2), env.strayByte, env.rxTime);
  }

  lemma ServingEndsName(n: Node, env: Env)
    requires Inv(n) && n.state == GettingRegisterName
    ensures R.Ends(n, ServeDirectory(n, env), EndedByServing(n, env))
  {
    hide Inv, HandlePing, HandlePong, HandleGetNumRegisters, HandleNumRegisters, HandleGetRegisterName, HandleRegisterName,
         F.Seen, NameReply, RegisterIndex, Decodable;
    PresenceLeavesQuery(n, env.rxTime);
    var n1 := HandlePong(HandlePing(n, env.rxTime));
    CountLeavesReply(n1, env.rxTime);
    var n2 := HandleGetNumRegisters(n1, env.rxTime);
    NumbersEndQuery(n2);
    NameLeavesReply(n2, env.rxTime);
    var n3 := HandleGetRegisterName(n2, env.rxTime);
    NamesEndQuery(n3, env.strayByte);
    if Passes(n2, PKT_GET_REGISTER_NAME) && Target(n2.packet) == n2.nodeId {
      FewRegisters(n2);
      OwnNameReply(n2, n3, n2.packet[REG_INDEX_AT]);
    }
  }

  lemma AllServingEnds(n: Node, env: Env)
    requires Inv(n) && Queries(n)
    ensures R.Ends(n, Serve(n, env), EndedByServing(n, env))
  {
    hide Inv, ServeDirectory, ServeRegisters, EndedByServing;
    if n.state == GettingNumRegisters { ServingEndsCount(n, env); } else { ServingEndsName(n, env); }
    QueriesOrIdle(n, env);
    RegistersLeaveQuery(ServeDirectory(n, env), env);
  }

  lemma QueriesOrIdle(n: Node, env: Env)
    requires Inv(n) && Queries(n)
    ensures Queries(ServeDirectory(n, env)) || ServeDirectory(n, env).state == Idle
  {
    hide Inv, ServeDirectory;
  }

  lemma SameView(n: Node, m: Node, env: Env)
    requires env.rx.Received? && m.packet == env.rx.packet && Queries(n) && m.state == n.state && m.nodeId == n.nodeId
    requires m.uniqueId == n.uniqueId && m.registers == n.registers && m.request == n.request
    requires m.filter == F.Hear(n.filter, Sequence(m.packet), UniqueId(m.packet))
    requires !(Sender(m.packet) == n.nodeId && UniqueId(m.packet) != n.uniqueId)
    ensures EndedByServing(m, env) == QueryEnded(n, env)
  {
    hide F.Hear, F.Seen, Decodable, RegisterToPacket, RegisterIndex;
  }

  /** The receive phase ends a query exactly as `QueryEnded` says. */
  lemma ReceivingEnds(n: Node, env: Env)
    requires Inv(n) && Queries(n)
    ensures var r := HandleRx(n, env);
            match QueryEnded(n, env)
            case Some(s) => r.state == Idle && r.history.completions == n.history.completions + [s]
            case None => r.state == n.state && r.history.completions == n.history.completions
  {
    hide Inv, Receive, Regard, Serve, QueryEnded, EndedByServing, F.Hear;
    if env.rx.Received? {
      var n1 := Receive(n, env.rx.packet, env.rxTime);
      if SeesDuplicateId(n1) {
        DuplicateEndsNothing(n, env);
      } else {
        var n2 := Regard(n1, env.rxTime);
        S.HandlersSee(n, env.rx.packet, env.rxTime);
        S.RegardKeepsAsking(n1, env.rxTime);
        SameView(n, n2, env);
        AllServingEnds(n2, env);
      }
    } else {
      assert QueryEnded(n, env) == None by { NothingEndsNothing(n, env); }
    }
  }

  lemma NothingEndsNothing(n: Node, env: Env)
    requires !env.rx.Received? || (Sender(env.rx.packet) == n.nodeId && UniqueId(env.rx.packet) != n.uniqueId)
    ensures QueryEnded(n, env) == None
  {
  }

  lemma DuplicateEndsNothing(n: Node, env: Env)
    requires Inv(n) && Queries(n) && env.rx.Received?
    requires Sender(env.rx.packet) == n.nodeId && UniqueId(env.rx.packet) != n.uniqueId
    ensures QueryEnded(n, env) == None
    ensures HandleRx(n, env).state == n.state && HandleRx(n, env).history.completions == n.history.completions
  {
    hide Inv, QueryEnded, Regard, Serve;
    NothingEndsNothing(n, env);
  }

  // ---- one update of any asking node ----

  lemma ReceivingKeepsTargets(n: Node, env: Env)
    requires Inv(n) && OnMesh(n.state)
    ensures var r := HandleRx(n, env);
            r.request.targetNodeId == n.request.targetNodeId && r.request.targetUniqueId == n.request.targetUniqueId &&
            r.request.targetIndex == n.request.targetIndex
  {
    hide Inv, Receive, Regard, Serve;
    if env.rx.Received? { S.RegardKeepsAsking(Receive(n, env.rx.packet, env.rxTime), env.rxTime); }
  }

  lemma AfterRxKeepsTargets(n: Node, env: Env)
    requires Inv(n) && OnMesh(n.state)
    ensures var r := UpdateAfterRx(n, env);
            r.request.targetNodeId == n.request.targetNodeId && r.request.targetUniqueId == n.request.targetUniqueId &&
            r.request.targetIndex == n.request.targetIndex
  {
    hide Inv, UpdatePing, CheckTimeouts, UpdateRepeats, UpdateResponseRepeats;
  }

  /** What one update makes of an asking node: a received packet ends its operation, or else the limit does,
      or else it goes on waiting for the same answer. */
  lemma UpdateEnds(n: Node, env: Env)
    requires Inv(n) && Asks(n)
    ensures var r, ended := Update(n, env), Ended(n, env);
            if ended.Some? then r.state == Idle && r.history.completions == n.history.completions + [ended.value]
            else if R.Late(n, env) then r.state == Idle && r.history.completions == n.history.completions + [Timeout]
            else Asks(r) && SameQuestion(n, r)
  {
    hide Inv, HandleRx, UpdateAfterRx, QueryEnded, R.EndedEarly;
    ReceivingKeepsTargets(n, env);
    AfterRxKeepsTargets(HandleRx(n, env), env);
    if Queries(n) {
      ReceivingEnds(n, env);
      if QueryEnded(n, env).Some? {
        S.IdleUpdateKeepsResult(HandleRx(n, env), env);
      } else {
        OperationEndsOnTime(n, env);
      }
    } else {
      R.UpdateEnds(n, env);
      StateStaysOrEnds(n, env);
    }
  }

  lemma StateStaysOrEnds(n: Node, env: Env)
    requires Inv(n) && OnMesh(n.state)
    ensures Update(n, env).state == n.state || Update(n, env).state == Idle
  {
    hide Inv, UpdateRepeaters, UpdatePing, CheckTimeouts;
    ReceivingKeepsRequestTime(n, env);
  }

  // ---- forgetting the register asked for ----

  /** The register cache as a SET served meanwhile leaves it: it carried the error text, if any, and is
      blanked after an error. */
  function CacheAfter(n: Node, env: Env): Register {
    if !env.rx.Received? || !S.Reaches(n, env.rx.packet, PKT_SET_REGISTER) then n.client.register
    else
      match FindRegister(env.rx.packet, n.registers, 0)
      case None => n.client.register
      case Some(i) =>
        var o := E.Outcome(n, env.rx.packet, i, env.setReply);
        if o.error then Blank(false, false) else o.cache
  }

  lemma ValueIsIgnored(n: Node)
    requires Inv(n) && R.ValueStatus(n, n.packet).None?
    ensures HandleRegisterValue(n) == n
  {
    hide Inv, NameMatches;
  }

  lemma SetLeavesCache(n: Node, env: Env)
    requires Inv(n) && OnMesh(n.state)
    ensures var r, f := HandleSetRegister(n, env.setReply, env.rxTime), FindRegister(n.packet, n.registers, 0);
            r.client.register ==
            if Passes(n, PKT_SET_REGISTER) && f.Some? then
              var o := E.Outcome(n, n.packet, f.value, env.setReply);
              if o.error then Blank(false, false) else o.cache
            else n.client.register
  {
    hide Inv, F.Seen, F.Mark, SetRequested, SetAck, FindRegister, SendResponse;
  }

  lemma LastHandlersLeaveCache(n: Node, behind: Behind)
    requires Inv(n) && n.state != SettingRegister
    ensures HandleBroadcast(HandleSetRegisterAck(n), behind).client.register == n.client.register
  {
    hide Inv, NameAndValueMatch, PacketToRegister, F.Mark, F.Seen;
  }

  lemma DirectoryLeavesCache(n: Node, env: Env)
    requires Inv(n) && R.Waits(n) && Kind(n.packet) != PKT_SET_REGISTER
    ensures var r := ServeDirectory(n, env);
            r.client.register == n.client.register && Kind(r.packet) != PKT_SET_REGISTER && r.state == n.state
  {
    hide Inv, ServeDirectory;
    R.DirectoryKeepsWaiting(n, env);
  }

  lemma GetLeavesNoSet(n: Node, env: Env)
    requires Inv(n) && R.Waits(n)
    ensures var r := HandleGetRegister(n, env.getReply, env.rxTime);
            r.client == n.client && r.state == n.state && (r == n || Kind(r.packet) == PKT_REGISTER_VALUE) &&
            (Kind(n.packet) == PKT_SET_REGISTER ==> r == n)
  {
    hide Inv, F.Seen, F.Mark, RegisterToPacket, FindRegister;
  }

  /** As `CacheAfter`, for the packet that reaches the register handlers. */
  lemma ServingLeavesCache(n: Node, env: Env)
    requires Inv(n) && R.Waits(n) && n.state == GettingRegister && R.EndedByServing(n, env).None?
    ensures var r, f := ServeRegisters(n, env), FindRegister(n.packet, n.registers, 0);
            r.client.register ==
            if Passes(n, PKT_SET_REGISTER) && f.Some? then
              var o := E.Outcome(n, n.packet, f.value, env.setReply);
              if o.error then Blank(false, false) else o.cache
            else n.client.register
  {
    hide Inv, HandleGetRegister, HandleRegisterValue, HandleSetRegister, HandleSetRegisterAck, HandleBroadcast,
         FindRegister, F.Seen, S.ValueReply, NameMatches, Decodable, E.Outcome;
    R.GetLeavesValue(n, env);
    GetLeavesNoSet(n, env);
    var g := HandleGetRegister(n, env.getReply, env.rxTime);
    ValueIsIgnored(g);
    SetLeavesCache(g, env);
    R.SettingEndsNoGet(g, env);
    LastHandlersLeaveCache(HandleSetRegister(g, env.setReply, env.rxTime), env.behind);
  }

  lemma AllServingLeavesCache(n: Node, env: Env)
    requires Inv(n) && R.Waits(n) && n.state == GettingRegister && R.EndedByServing(n, env).None?
    ensures var f := FindRegister(n.packet, n.registers, 0);
            Serve(n, env).client.register ==
            if Passes(n, PKT_SET_REGISTER) && f.Some? then
              var o := E.Outcome(n, n.packet, f.value, env.setReply);
              if o.error then Blank(false, false) else o.cache
            else n.client.register
  {
    hide Inv, ServeDirectory, ServeRegisters, FindRegister, F.Seen, S.ValueReply, NameMatches, Decodable, E.Outcome;
    var m := ServeDirectory(n, env);
    R.DirectoryKeepsWaiting(n, env);
    if S.IsRegisterRequest(Kind(n.packet)) || Kind(n.packet) == PKT_REGISTER_VALUE {
      S.DirectoryPassesOn(n, env);
    } else {
      DirectoryLeavesCache(n, env);
    }
    ServingLeavesCache(m, env);
  }

  lemma ReceivingLeavesCache(n: Node, env: Env)
    requires Inv(n) && R.Waits(n) && n.state == GettingRegister && R.EndedEarly(n, env).None?
    ensures HandleRx(n, env).client.register == CacheAfter(n, env)
  {
    hide Inv, Receive, Regard, Serve, R.EndedEarly, R.EndedByServing, F.Hear, F.Seen, FindRegister, E.Outcome;
    if env.rx.Received? {
      var n1 := Receive(n, env.rx.packet, env.rxTime);
      if !SeesDuplicateId(n1) {
        var n2 := Regard(n1, env.rxTime);
        S.HandlersSee(n, env.rx.packet, env.rxTime);
        S.RegardKeepsAsking(n1, env.rxTime);
        R.SameView(n, n2, env);
        AllServingLeavesCache(n2, env);
        SameOutcome(n, n2, env);
      }
    }
  }

  lemma SameOutcome(n: Node, m: Node, env: Env)
    requires env.rx.Received? && m.registers == n.registers && m.client == n.client
    ensures forall i | 0 <= i < |n.registers| ::
              E.Outcome(m, env.rx.packet, i, env.setReply) == E.Outcome(n, env.rx.packet, i, env.setReply)
  {
    hide SetRequested;
  }

  lemma AfterRxLeavesCache(n: Node, env: Env)
    requires Inv(n) && OnMesh(n.state)
    ensures UpdateAfterRx(n, env).client.register == n.client.register
  {
    hide Inv, UpdateRepeaters;
    S.RepeatersKeepClient(UpdateTimers(n, env), env);
  }

  /** What an update that does not answer a GET leaves in the register cache. */
  lemma UpdateLeavesCache(n: Node, env: Env)
    requires Inv(n) && R.Waits(n) && n.state == GettingRegister && R.EndedEarly(n, env).None?
    ensures Update(n, env).client.register == CacheAfter(n, env)
  {
    hide Inv, HandleRx, UpdateAfterRx, R.EndedEarly, CacheAfter;
    ReceivingLeavesCache(n, env);
    R.ReceivingEnds(n, env);
    AfterRxLeavesCache(HandleRx(n, env), env);
  }

  /** The node serves a SET whose error, or whose error text, takes the place of this name in its cache. */
  predicate Erases(n: Node, env: Env, name: seq<byte>) {
    env.rx.Received? && S.Reaches(n, env.rx.packet, PKT_SET_REGISTER) &&
    var f := FindRegister(env.rx.packet, n.registers, 0);
    f.Some? &&
    var o := E.Outcome(n, env.rx.packet, f.value, env.setReply);
    if o.error then name != [] else Name(o.cache) != name
  }

  /** An update that does not end a GET leaves the node asking for the same register, exactly if it does not
      serve a SET that erases the name. */
  lemma GetIsKept(n: Node, env: Env, name: seq<byte>)
    requires Inv(n) && S.Asks(n, name) && R.EndedEarly(n, env).None? && !R.Late(n, env)
    ensures S.Asks(Update(n, env), name) <==> !Erases(n, env, name)
  {
    hide Inv, Update, R.EndedEarly, R.Late, FindRegister, E.Outcome, F.Seen, F.Hear;
    UpdateEnds(n, env);
    UpdateLeavesCache(n, env);
  }

  /** Such a SET is one that does not fit, for any of the node's own registers without a callback: the GET
      under way is forgotten. It is not ended by it, nor by any value of the register asked for, but only
      by its time limit. */
  lemma GetCanBeForgotten(n: Node, env: Env, name: seq<byte>, i: nat, back: Env, value: seq<byte>)
    requires Inv(n) && S.Asks(n, name) && name != [] && !R.Late(n, env)
    requires env.rx.Received? && S.Reaches(n, env.rx.packet, PKT_SET_REGISTER) && S.IsNamedBy(n, i, env.rx.packet)
    requires !n.registers[i].hasSetCallback && !Decodable(env.rx.packet, true)
    requires back.rx.Received? && S.IsValueOf(back.rx.packet, name, value)
    ensures var r := Update(n, env);
            Erases(n, env, name) && SameQuestion(n, r) && r.client.register == Blank(false, false) &&
            if R.Late(r, back) then
              Update(r, back).state == Idle && Update(r, back).history.completions == n.history.completions + [Timeout]
            else SameQuestion(n, Update(r, back))
  {
    hide Inv, Update, R.Late, F.Seen, F.Hear, FindRegister;
    assert R.EndedEarly(n, env).None?;
    assert Erases(n, env, name);
    UpdateEnds(n, env);
    UpdateLeavesCache(n, env);
    BlankIsNotNamed(back.rx.packet, name, value);
    UpdateEnds(Update(n, env), back);
  }

  lemma BlankIsNotNamed(p: Packet, name: seq<byte>, value: seq<byte>)
    requires name != [] && S.IsValueOf(p, name, value)
    ensures !NameMatches(p, Blank(false, false))
  {
  }

  // ---- runs ----

  lemma CallKeepsQuestion(n: Node, a: Action)
    requires Inv(n) && Asks(n) && Allowed(n, a) && !a.DoUpdate?
    ensures Asks(Act(n, a)) && SameQuestion(n, Act(n, a)) && Act(n, a).client.register == n.client.register
  {
    hide Inv, RegisterToPacket, Encodable, SendResponse, Ping, GetNumRegisters, GetRegisterName, GetRegister, SetRegister,
         StartJoin;
  }

  /** Nothing that ends the operation depends on the record of packets sent. */
  lemma BeginningChangesNothing(n: Node, env: Env)
    requires Inv(n)
    ensures Ended(Begin(n), env) == Ended(n, env) && CacheAfter(Begin(n), env) == CacheAfter(n, env)
    ensures (R.Late(Begin(n), env) <==> R.Late(n, env)) && Asks(Begin(n)) == Asks(n)
  {
    hide Inv, FindRegister, SetRequested, NameMatches, Decodable, RegisterToPacket, RegisterIndex, F.Hear, F.Seen;
  }

  /** Nothing in the run ends the operation: no packet does, and no update is past its limit. */
  ghost predicate Waited(n: Node, actions: seq<Action>)
    requires Inv(n) && AllowedRun(n, actions)
    decreases |actions|
  {
    actions == [] ||
    ((actions[0].DoUpdate? ==> Ended(n, actions[0].env).None? && !R.Late(n, actions[0].env)) &&
     Waited(Act(n, actions[0]), actions[1..]))
  }

  /** What one action makes of an asking node: it ends its operation, with one report, or leaves the question. */
  lemma ActEnds(n: Node, a: Action)
    requires Inv(n) && Asks(n) && Allowed(n, a)
    ensures if a.DoUpdate? ==> Ended(n, a.env).None? && !R.Late(n, a.env)
            then Asks(Act(n, a)) && SameQuestion(n, Act(n, a))
            else |Act(n, a).history.completions| == |n.history.completions| + 1
  {
    hide Inv, Update, Begin, Ended, R.Late, Asks;
    if a.DoUpdate? {
      BeginningChangesNothing(n, a.env);
      UpdateEnds(Begin(n), a.env);
      assert Begin(n) == n.(history := n.history.(air := []));
    } else {
      CallKeepsQuestion(n, a);
    }
  }

  /** Reports are never withdrawn. */
  lemma {:induction false} ReportsStay(n: Node, actions: seq<Action>)
    requires Inv(n) && AllowedRun(n, actions)
    ensures |Run(n, actions).history.completions| >= |n.history.completions|
    decreases |actions|
  {
    hide Inv, Act;
    if actions != [] {
      ActReports(n, actions[0]);
      ReportsStay(Act(n, actions[0]), actions[1..]);
    }
  }

  lemma ActReports(n: Node, a: Action)
    requires Inv(n) && Allowed(n, a)
    ensures |Act(n, a).history.completions| >= |n.history.completions|
  {
    hide Inv, Update;
  }

  /** In every run, whatever else its client calls meanwhile: an operation has not been reported on exactly if
      nothing has ended it; and then the node still waits for the answer to the same question. */
  lemma {:induction false} WaitEndsExactly(n: Node, actions: seq<Action>)
    requires Inv(n) && Asks(n) && AllowedRun(n, actions)
    ensures Waited(n, actions) <==> |Run(n, actions).history.completions| == |n.history.completions|
    ensures Waited(n, actions) ==> Asks(Run(n, actions)) && SameQuestion(n, Run(n, actions))
    decreases |actions|
  {
    hide Inv, Act, Asks, Ended, R.Late;
    if actions != [] {
      var r := Act(n, actions[0]);
      ActEnds(n, actions[0]);
      if actions[0].DoUpdate? ==> Ended(n, actions[0].env).None? && !R.Late(n, actions[0].env) {
        WaitEndsExactly(r, actions[1..]);
      } else {
        ReportsStay(r, actions[1..]);
      }
    }
  }

  /** The name left in the cache by the last SET served in the run, or `held` if none is. */
  function HeldName(n: Node, actions: seq<Action>, held: seq<byte>): seq<byte>
    requires Inv(n) && AllowedRun(n, actions)
    decreases |actions|
  {
    if actions == [] then held
    else HeldName(Act(n, actions[0]), actions[1..],
                  if actions[0].DoUpdate? then HeldAfter(n, actions[0].env, held) else held)
  }

  function HeldAfter(n: Node, env: Env, held: seq<byte>): seq<byte> {
    if env.rx.Received? && S.Reaches(n, env.rx.packet, PKT_SET_REGISTER) &&
       FindRegister(env.rx.packet, n.registers, 0).Some?
    then Name(CacheAfter(n, env)) else held
  }

  lemma ActHolds(n: Node, a: Action)
    requires Inv(n) && R.Waits(n) && n.state == GettingRegister && Allowed(n, a)
    requires a.DoUpdate? ==> R.EndedEarly(n, a.env).None?
    ensures Name(Act(n, a).client.register) ==
            if a.DoUpdate? then HeldAfter(n, a.env, Name(n.client.register)) else Name(n.client.register)
  {
    hide Inv, Update, Begin, FindRegister, R.EndedEarly, E.Outcome, F.Hear, F.Seen, Name;
    if a.DoUpdate? {
      BeginningChangesNothing(n, a.env);
      assert Begin(n) == n.(history := n.history.(air := []));
      UpdateLeavesCache(Begin(n), a.env);
    } else {
      CallKeepsQuestion(n, a);
    }
  }

  /** While it waits, a node asks for the register whose name it holds. */
  lemma {:induction false} RunHolds(n: Node, actions: seq<Action>)
    requires Inv(n) && R.Waits(n) && n.state == GettingRegister && AllowedRun(n, actions) && Waited(n, actions)
    ensures S.Asks(Run(n, actions), HeldName(n, actions, Name(n.client.register)))
    decreases |actions|
  {
    hide Inv, Act, R.EndedEarly, R.Late, HeldAfter, Name;
    if actions != [] {
      ActEnds(n, actions[0]);
      ActHolds(n, actions[0]);
      RunHolds(Act(n, actions[0]), actions[1..]);
    }
  }

  /** No SET served in the run erases the name. */
  ghost predicate ErasesNothing(n: Node, actions: seq<Action>, name: seq<byte>)
    requires Inv(n) && AllowedRun(n, actions)
    decreases |actions|
  {
    actions == [] ||
    ((actions[0].DoUpdate? ==> !Erases(n, actions[0].env, name)) && ErasesNothing(Act(n, actions[0]), actions[1..], name))
  }

  lemma {:induction false} NameIsHeld(n: Node, actions: seq<Action>, name: seq<byte>)
    requires Inv(n) && AllowedRun(n, actions) && ErasesNothing(n, actions, name)
    ensures HeldName(n, actions, name) == name
    decreases |actions|
  {
    hide Inv, Act, Erases, HeldAfter;
    if actions != [] {
      if actions[0].DoUpdate? { HeldUnlessErased(n, actions[0].env, name); }
      NameIsHeld(Act(n, actions[0]), actions[1..], name);
    }
  }

  lemma HeldUnlessErased(n: Node, env: Env, name: seq<byte>)
    ensures HeldAfter(n, env, name) == name <==> !Erases(n, env, name)
  {
    hide FindRegister, E.Outcome, F.Hear, F.Seen;
  }
}
