/** A register operation that is refused for its lengths leaves the node busy with it, although nothing was
    sent. When it then ends by its timeout, and what else may end it. */
module Refused {
  import opened Bytes
  import opened Packets
  import opened Registers
  import opened Model
  import opened Operations
  import opened Joining
  import F = Filter
  import S = Server
  import E = Settings
  import U = Queries
  import V = Survey

  /** The node waits for the outcome of a GET or SET, from whichever node gives it. */
  predicate Waits(n: Node) {
    (n.state == GettingRegister || n.state == SettingRegister) &&
    n.request.targetNodeId == 0 && n.request.targetUniqueId == 0
  }

  /** The packet is a value of the register the node last cached, or the node's own reply is. */
  function ValueStatus(n: Node, p: Packet): Option<Status> {
    if Kind(p) == PKT_REGISTER_VALUE && NameMatches(p, n.client.register) then
      Some(if Decodable(p, true) then StatusOk else InvalidRegisterReturned)
    else None
  }

  /** The status with which a received packet ends the operation, if it does: an acknowledgement to this
      node, or a value of the cached name; or, the handlers sharing one packet buffer, the node's own answer
      to a request for a register it serves itself. */
  function EndedEarly(n: Node, env: Env): Option<Status> {
    if !env.rx.Received? || (Sender(env.rx.packet) == n.nodeId && UniqueId(env.rx.packet) != n.uniqueId) then None
    else
      var p := env.rx.packet;
      var f := FindRegister(p, n.registers, 0);
      if n.state == SettingRegister then
        if Kind(p) == PKT_SET_REGISTER_ACK && Target(p) == n.nodeId then
          Some(if p[ERR_MSG_AT] != 0 then InvalidRegisterValue else StatusOk)
        else if S.Reaches(n, p, PKT_SET_REGISTER) && f.Some? && Sender(p) == n.nodeId then
          Some(E.Verdict(E.Outcome(n, p, f.value, env.setReply)))
        else None
      else if n.state == GettingRegister then
        if S.Reaches(n, p, PKT_GET_REGISTER) && f.Some? then ValueStatus(n, S.ValueReply(n, f.value, env.getReply))
        else ValueStatus(n, p)
      else None
  }

  /** The operation has ended so, or is still waited for. */
  ghost predicate Ends(n: Node, r: Node, status: Option<Status>) {
    match status
    case Some(s) => r.state == Idle && r.history.completions == n.history.completions + [s]
    case None => r.state == n.state && r.history.completions == n.history.completions && r.request == n.request
  }

  // ---- one update ----

  lemma DirectoryKeepsWaiting(n: Node, env: Env)
    requires Inv(n) && Waits(n)
    ensures var r := ServeDirectory(n, env);
            r.state == n.state && r.history.completions == n.history.completions && r.client == n.client &&
            (Kind(r.packet) == Kind(n.packet) || Kind(r.packet) == PKT_PONG || Kind(r.packet) == PKT_NUM_REGISTERS ||
             Kind(r.packet) == PKT_REGISTER_NAME)
  {
    hide Inv, HandlePing, HandlePong, HandleGetNumRegisters, HandleNumRegisters, HandleGetRegisterName, HandleRegisterName;
    PresenceKeepsWaiting(n, env.rxTime);
    var n1 := HandlePong(HandlePing(n, env.rxTime));
    NumbersKeepWaiting(n1, env.rxTime);
    NamesKeepWaiting(HandleNumRegisters(HandleGetNumRegisters(n1, env.rxTime)), env.strayByte, env.rxTime);
  }

  lemma PresenceKeepsWaiting(n: Node, now: uint32)
    requires Inv(n) && Waits(n)
    ensures var r := HandlePong(HandlePing(n, now));
            Waits(r) && r.state == n.state && r.history.completions == n.history.completions && r.client == n.client &&
            (Kind(r.packet) == Kind(n.packet) || Kind(r.packet) == PKT_PONG)
  {
    hide Inv, F.Seen, F.Mark;
  }

  lemma NumbersKeepWaiting(n: Node, now: uint32)
    requires Inv(n) && Waits(n)
    ensures var r := HandleNumRegisters(HandleGetNumRegisters(n, now));
            Waits(r) && r.state == n.state && r.history.completions == n.history.completions && r.client == n.client &&
            (Kind(r.packet) == Kind(n.packet) || Kind(r.packet) == PKT_NUM_REGISTERS)
  {
    hide Inv, F.Seen, F.Mark;
  }

  lemma NamesKeepWaiting(n: Node, strayByte: byte, now: uint32)
    requires Inv(n) && Waits(n)
    ensures var r := HandleRegisterName(HandleGetRegisterName(n, now), strayByte);
            Waits(r) && r.state == n.state && r.history.completions == n.history.completions && r.client == n.client &&
            (Kind(r.packet) == Kind(n.packet) || Kind(r.packet) == PKT_REGISTER_NAME)
  {
    hide Inv, F.Seen, F.Mark, NameReply;
  }

  /** As `EndedEarly`, for the packet that reaches the register handlers. */
  function EndedByServing(n: Node, env: Env): Option<Status> {
    var p := n.packet;
    var f := FindRegister(p, n.registers, 0);
    if n.state == SettingRegister then
      if Kind(p) == PKT_SET_REGISTER_ACK && Target(p) == n.nodeId then
        Some(if p[ERR_MSG_AT] != 0 then InvalidRegisterValue else StatusOk)
      else if Passes(n, PKT_SET_REGISTER) && f.Some? && Sender(p) == n.nodeId then
        Some(E.Verdict(E.Outcome(n, p, f.value, env.setReply)))
      else None
    else if n.state == GettingRegister then
      if Passes(n, PKT_GET_REGISTER) && f.Some? then ValueStatus(n, S.ValueReply(n, f.value, env.getReply))
      else ValueStatus(n, p)
    else None
  }

  lemma SettingPassesValues(n: Node, env: Env)
    requires Inv(n) && Waits(n) && n.state == SettingRegister
    ensures var r := HandleRegisterValue(HandleGetRegister(n, env.getReply, env.rxTime));
            Waits(r) && r.state == n.state && r.history.completions == n.history.completions && r.request == n.request &&
            r.nodeId == n.nodeId && (r == n || Kind(r.packet) == PKT_REGISTER_VALUE) &&
            (Kind(n.packet) != PKT_GET_REGISTER ==> r == n)
  {
    hide Inv, F.Seen, F.Mark, RegisterToPacket, FindRegister;
  }

  /** Serving a SET leaves the acknowledgement in the packet buffer. */
  lemma SetLeavesAck(n: Node, env: Env)
    requires Inv(n) && Waits(n)
    ensures var r, f := HandleSetRegister(n, env.setReply, env.rxTime), FindRegister(n.packet, n.registers, 0);
            Waits(r) && r.state == n.state && r.history.completions == n.history.completions && r.request == n.request &&
            r.nodeId == n.nodeId &&
            if Passes(n, PKT_SET_REGISTER) && f.Some?
            then r.packet == SetAck(n, Sender(n.packet), E.Outcome(n, n.packet, f.value, env.setReply)) else r == n
  {
    hide Inv, F.Seen, F.Mark, SetRequested, SetAck, FindRegister;
  }

  lemma AckHandlerEnds(n: Node)
    requires Inv(n) && Waits(n)
    ensures Ends(n, HandleSetRegisterAck(n),
                 if n.state == SettingRegister && Kind(n.packet) == PKT_SET_REGISTER_ACK && Target(n.packet) == n.nodeId
                 then Some(if n.packet[ERR_MSG_AT] != 0 then InvalidRegisterValue else StatusOk) else None)
  {
    hide Inv, StrNCpy, Patch;
  }

  lemma BroadcastsEndNothing(n: Node, behind: Behind)
    requires Inv(n)
    ensures var r := HandleBroadcast(n, behind);
            r.state == n.state && r.history.completions == n.history.completions && r.request == n.request
  {
    hide Inv, NameAndValueMatch, PacketToRegister, F.Mark, F.Seen;
  }

  lemma ServingEndsSet(n: Node, env: Env)
    requires Inv(n) && Waits(n) && n.state == SettingRegister
    ensures Ends(n, ServeRegisters(n, env), EndedByServing(n, env))
  {
    hide Inv, HandleGetRegister, HandleRegisterValue, HandleSetRegister, HandleSetRegisterAck, HandleBroadcast, SetAck,
         FindRegister, F.Seen, E.Outcome;
    SettingPassesValues(n, env);
    var g := HandleRegisterValue(HandleGetRegister(n, env.getReply, env.rxTime));
    SetLeavesAck(g, env);
    var s := HandleSetRegister(g, env.setReply, env.rxTime);
    AckHandlerEnds(s);
    BroadcastsEndNothing(HandleSetRegisterAck(s), env.behind);
    var f := FindRegister(g.packet, g.registers, 0);
    if Passes(g, PKT_SET_REGISTER) && f.Some? {
      E.AckText(g, Sender(g.packet), E.Outcome(g, g.packet, f.value, env.setReply));
    }
  }

  lemma GetLeavesValue(n: Node, env: Env)
    requires Inv(n) && Waits(n)
    ensures var r, f := HandleGetRegister(n, env.getReply, env.rxTime), FindRegister(n.packet, n.registers, 0);
            Waits(r) && r.state == n.state && r.history.completions == n.history.completions && r.request == n.request &&
            r.client == n.client &&
            if Passes(n, PKT_GET_REGISTER) && f.Some? then r.packet == S.ValueReply(n, f.value, env.getReply) else r == n
  {
    hide Inv, F.Seen, F.Mark, RegisterToPacket, FindRegister;
  }

  lemma ValueHandlerEnds(n: Node)
    requires Inv(n) && Waits(n) && n.state == GettingRegister
    ensures Ends(n, HandleRegisterValue(n), ValueStatus(n, n.packet))
    ensures HandleRegisterValue(n).state != SettingRegister
  {
    hide Inv, NameMatches, PacketToRegister, Decodable;
  }

  lemma SettingEndsNoGet(n: Node, env: Env)
    requires Inv(n) && n.state != SettingRegister
    ensures var r := HandleSetRegisterAck(HandleSetRegister(n, env.setReply, env.rxTime));
            r.state == n.state && r.history.completions == n.history.completions && r.request == n.request
  {
    hide Inv, F.Seen, F.Mark, SetRequested, SetAck, FindRegister;
  }

  lemma ServingEndsGet(n: Node, env: Env)
    requires Inv(n) && Waits(n) && n.state == GettingRegister
    ensures Ends(n, ServeRegisters(n, env), EndedByServing(n, env))
  {
    hide Inv, HandleGetRegister, HandleRegisterValue, HandleSetRegister, HandleSetRegisterAck, HandleBroadcast,
         FindRegister, F.Seen, S.ValueReply, NameMatches, Decodable;
    GetLeavesValue(n, env);
    var g := HandleGetRegister(n, env.getReply, env.rxTime);
    ValueHandlerEnds(g);
    SettingEndsNoGet(HandleRegisterValue(g), env);
    BroadcastsEndNothing(HandleSetRegisterAck(HandleSetRegister(HandleRegisterValue(g), env.setReply, env.rxTime)), env.behind);
  }

  /** All handlers: those of the directory leave no packet that could end the operation. */
  lemma AllServingEnds(n: Node, env: Env)
    requires Inv(n) && Waits(n)
    ensures Ends(n, Serve(n, env), EndedByServing(n, env))
  {
    hide Inv, ServeDirectory, ServeRegisters, FindRegister, F.Seen, S.ValueReply, NameMatches, Decodable, E.Outcome;
    var m := ServeDirectory(n, env);
    DirectoryKeepsWaiting(n, env);
    if S.IsRegisterRequest(Kind(n.packet)) || Kind(n.packet) == PKT_REGISTER_VALUE {
      S.DirectoryPassesOn(n, env);
    } else if Kind(n.packet) == PKT_SET_REGISTER_ACK {
      E.AckPassesOn(n, env);
    }
    if m.state == SettingRegister { ServingEndsSet(m, env); } else { ServingEndsGet(m, env); }
  }

  lemma SameView(n: Node, m: Node, env: Env)
    requires env.rx.Received? && m.packet == env.rx.packet && Waits(n) && m.state == n.state && m.nodeId == n.nodeId
    requires m.uniqueId == n.uniqueId && m.registers == n.registers && m.client == n.client && m.request == n.request
    requires m.filter == F.Hear(n.filter, Sequence(m.packet), UniqueId(m.packet))
    requires !(Sender(m.packet) == n.nodeId && UniqueId(m.packet) != n.uniqueId)
    ensures EndedByServing(m, env) == EndedEarly(n, env)
  {
    hide F.Hear, F.Seen, FindRegister, NameMatches, Decodable, SetRequested, RegisterToPacket;
  }

  /** The receive phase ends the operation exactly as `EndedEarly` says. */
  lemma ReceivingEnds(n: Node, env: Env)
    requires Inv(n) && Waits(n)
    ensures var r := HandleRx(n, env);
            match EndedEarly(n, env)
            case Some(s) => r.state == Idle && r.history.completions == n.history.completions + [s]
            case None => Waits(r) && r.state == n.state && r.history.completions == n.history.completions
  {
    hide Inv, Receive, Regard, Serve, EndedEarly, EndedByServing, F.Hear;
    if env.rx.Received? {
      var n1 := Receive(n, env.rx.packet, env.rxTime);
      if SeesDuplicateId(n1) {
        DuplicateEndsNothing(n, env);
      } else {
        var n2 := Regard(n1, env.rxTime);
        S.HandlersSee(n, env.rx.packet, env.rxTime);
        S.RegardKeepsAsking(n1, env.rxTime);
        SameView(n, n2, env);
        AllServingEnds(n2, env);
      }
    } else {
      assert EndedEarly(n, env) == None by { NothingEndsNothing(n, env); }
    }
  }

  lemma NothingEndsNothing(n: Node, env: Env)
    requires !env.rx.Received? || (Sender(env.rx.packet) == n.nodeId && UniqueId(env.rx.packet) != n.uniqueId)
    ensures EndedEarly(n, env) == None
  {
  }

  lemma DuplicateEndsNothing(n: Node, env: Env)
    requires Inv(n) && Waits(n) && env.rx.Received?
    requires Sender(env.rx.packet) == n.nodeId && UniqueId(env.rx.packet) != n.uniqueId
    ensures EndedEarly(n, env) == None
    ensures var r := HandleRx(n, env);
            Waits(r) && r.state == n.state && r.history.completions == n.history.completions
  {
    hide Inv, EndedEarly, Regard, Serve;
    NothingEndsNothing(n, env);
  }

  /** The update is past the limit of the operation. */
  predicate Late(n: Node, env: Env) { Elapsed(env.timeoutTime, LastRequest(n, env)) > REQUEST_TIMEOUT }

  /** What one update makes of a waiting node: a received packet ends the operation, or else its limit does,
      or else the node goes on waiting. */
  lemma UpdateEnds(n: Node, env: Env)
    requires Inv(n) && Waits(n)
    ensures var r, early := Update(n, env), EndedEarly(n, env);
            if early.Some? then r.state == Idle && r.history.completions == n.history.completions + [early.value]
            else if Late(n, env) then r.state == Idle && r.history.completions == n.history.completions + [Timeout]
            else Waits(r) && r.history.completions == n.history.completions
  {
    hide Inv, HandleRx, UpdateAfterRx, EndedEarly;
    ReceivingEnds(n, env);
    if EndedEarly(n, env).Some? {
      S.IdleUpdateKeepsResult(HandleRx(n, env), env);
    } else {
      OperationEndsOnTime(n, env);
      TargetsStay(HandleRx(n, env), env);
    }
  }

  lemma TargetsStay(n: Node, env: Env)
    requires Inv(n) && Waits(n)
    ensures UpdateAfterRx(n, env).request.targetNodeId == 0 && UpdateAfterRx(n, env).request.targetUniqueId == 0
  {
    hide Inv, UpdatePing, CheckTimeouts, UpdateRepeats, UpdateResponseRepeats;
  }

  // ---- any number of updates ----

  /** No packet ends the operation up to and with the first update past its limit. */
  ghost predicate Unanswered(n: Node, envs: seq<Env>)
    requires Inv(n)
    decreases |envs|
  {
    envs != [] && EndedEarly(n, envs[0]).None? && (Late(n, envs[0]) || Unanswered(Update(n, envs[0]), envs[1..]))
  }

  lemma {:induction false} IdleStays(n: Node, envs: seq<Env>)
    requires Inv(n) && n.state == Idle
    ensures V.Updates(n, envs).state == Idle && V.Updates(n, envs).history.completions == n.history.completions
    decreases |envs|
  {
    hide Inv, Update;
    if envs != [] {
      IdleUpdate(n, envs[0]);
      IdleStays(Update(n, envs[0]), envs[1..]);
    }
  }

  lemma IdleUpdate(n: Node, env: Env)
    requires Inv(n) && n.state == Idle
    ensures Update(n, env).state == Idle && Update(n, env).history.completions == n.history.completions
  {
    hide Inv, HandleRx, UpdateAfterRx;
    ReceivingKeepsRequestTime(n, env);
    assert HandleRx(n, env).history.completions == n.history.completions;
    S.IdleUpdateKeepsResult(HandleRx(n, env), env);
  }

  /** A waiting node's operation, once over, was ended by its timeout exactly if no packet ended it up to and
      with the first update past its limit. */
  lemma {:induction false} WaitingEnds(n: Node, envs: seq<Env>)
    requires Inv(n) && Waits(n) && V.Updates(n, envs).state == Idle
    ensures var done := V.Updates(n, envs).history.completions;
            |done| == |n.history.completions| + 1 && n.history.completions <= done &&
            (done[|n.history.completions|] == Timeout <==> Unanswered(n, envs))
    decreases |envs|
  {
    hide Inv, Update, EndedEarly, Late;
    if envs != [] {
      var r := Update(n, envs[0]);
      UpdateEnds(n, envs[0]);
      EarlyIsNoTimeout(n, envs[0]);
      if r.state == Idle { IdleStays(r, envs[1..]); } else { WaitingEnds(r, envs[1..]); }
    }
  }

  lemma EarlyIsNoTimeout(n: Node, env: Env)
    ensures EndedEarly(n, env) != Some(Timeout)
  {
    hide FindRegister, F.Seen, F.Hear, SetRequested, NameMatches, Decodable, RegisterToPacket;
  }

  // ---- refused operations ----

  /** A call refused for the lengths of its register, GET or SET. */
  predicate IsRefused(a: Action) {
    (a.DoGetRegister? && !Encodable(a.register, false)) || (a.DoSetRegister? && !Encodable(a.register, true))
  }

  lemma RefusedWaits(n: Node, a: Action)
    requires Inv(n) && n.state == Idle && IsRefused(a)
    ensures var r := Act(n, a);
            Waits(r) && r.history.air == [] && r.history.completions == n.history.completions && r.nodeId == n.nodeId &&
            r.uniqueId == n.uniqueId && r.client.register == n.client.register &&
            r.request == n.request.(targetNodeId := 0, targetUniqueId := 0) &&
            r.state == if a.DoGetRegister? then GettingRegister else SettingRegister
  {
    hide Inv, RegisterToPacket, Encodable;
  }

  /** A refused operation sends nothing, but is waited for. However many updates it takes: it ends by its
      timeout exactly if, up to and with the first update past the limit since the node's last request,
      nothing else ends it: for a SET an acknowledgement to this node, for a GET a value of the register that an
      earlier operation cached, or, for either, the node's own answer to a request it serves. */
  lemma RefusedOperationEnds(n: Node, a: Action, envs: seq<Env>)
    requires Inv(n) && n.state == Idle && IsRefused(a) && V.Updates(Act(n, a), envs).state == Idle
    ensures var refused := Act(n, a);
            var done := V.Updates(refused, envs).history.completions;
            refused.history.air == [] && |done| == |n.history.completions| + 1 &&
            (done[|n.history.completions|] == Timeout <==> Unanswered(refused, envs))
  {
    hide Inv, Act, V.Updates, Unanswered;
    RefusedWaits(n, a);
    WaitingEnds(Act(n, a), envs);
  }

  /** So a refused SET can be told of success: by an acknowledgement that repeats the answer to an earlier one. */
  lemma RefusedSetCanSucceed(n: Node, a: Action, env: Env)
    requires Inv(n) && n.state == Idle && IsRefused(a) && a.DoSetRegister? && env.rx.Received?
    requires Kind(env.rx.packet) == PKT_SET_REGISTER_ACK && Target(env.rx.packet) == n.nodeId
    requires Sender(env.rx.packet) != n.nodeId && env.rx.packet[ERR_MSG_AT] == 0
    ensures U.EndedBy(Act(n, a), Update(Act(n, a), env), env.rx.packet, StatusOk)
  {
    hide Inv, Act, Update, U.EndedBy;
    RefusedWaits(n, a);
    E.AckEndsSet(Act(n, a), env);
  }

  /** And a refused GET: by a value of the register that was asked for before. */
  lemma RefusedGetCanSucceed(n: Node, a: Action, env: Env, name: seq<byte>, value: seq<byte>)
    requires Inv(n) && n.state == Idle && IsRefused(a) && a.DoGetRegister? && env.rx.Received?
    requires Name(n.client.register) == name && S.IsValueOf(env.rx.packet, name, value) && Sender(env.rx.packet) != n.nodeId
    ensures S.Got(Act(n, a), Update(Act(n, a), env), name, value)
  {
    hide Inv, Act, Update, S.Got, S.IsValueOf, Name;
    RefusedWaits(n, a);
    S.ValueEndsGet(Act(n, a), env, name, value);
  }

  /** What its updates repeat meanwhile is the request of an earlier operation. */
  lemma RefusedRepeatsEarlierRequest(n: Node, a: Action, now: uint32, delay: uint16)
    requires Inv(n) && n.state == Idle && IsRefused(a) && MayRepeatRequest(Act(n, a), now)
    ensures UpdateRequestRepeats(Act(n, a), now, delay).history.air == [Tx(Repeated, n.request.pending)]
  {
    hide Inv, Act;
    RefusedWaits(n, a);
  }
}
