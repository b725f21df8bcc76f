/** Requests and their replies from end to end, over any run of the requester between its call and the reply. */
module RoundTrips {
  import opened Bytes
  import opened Packets
  import opened Registers
  import opened Model
  import opened Operations
  import opened Joining
  import F = Filter
  import P = Presence
  import S = Server
  import E = Settings
  import U = Queries
  import R = Refused
  import V = Survey
  import W = Waiting

  /** The requester has called, and done anything else since, and nothing has ended its operation. */
  ghost predicate Waits(asking: Node, between: seq<Action>)
    requires Inv(asking)
  {
    AllowedRun(asking, between) && W.Waited(asking, between)
  }

  /** It then receives this. */
  function Hearing(asking: Node, between: seq<Action>, back: Env): (r: Node)
    requires Inv(asking) && AllowedRun(asking, between)
    ensures Inv(r)
  {
    hide Inv, Act, Update;
    Act(Run(asking, between), DoUpdate(back))
  }

  /** What hears the reply is the node that asked, its record of packets sent cleared. */
  lemma StillAsks(asking: Node, between: seq<Action>, back: Env) returns (b: Node)
    requires Inv(asking) && W.Asks(asking) && Waits(asking, between)
    ensures Inv(b) && W.Asks(b) && W.SameQuestion(asking, b) && Hearing(asking, between, back) == Update(b, back)
    ensures b.client == Run(asking, between).client && (R.Late(b, back) <==> R.Late(Run(asking, between), back))
  {
    hide Inv, Update, W.Asks, W.Waited;
    W.WaitEndsExactly(asking, between);
    b := Begin(Run(asking, between));
    W.BeginningChangesNothing(Run(asking, between), back);
  }

  // ---- the number of registers ----

  /** Asking a node for its number of registers. When the request, relayed any number of times, reaches it,
      it answers; and when its answer, relayed any number of times, comes back before the operation has ended,
      it ends the operation well with that number. */
  lemma RemoteCount(m: Node, uniqueId: uint16, user: Callback, now: uint32, s: Node, env: Env, between: seq<Action>, back: Env)
    requires Inv(m) && m.state == Idle && Inv(s) && env.rx.Received? && back.rx.Received?
    requires |s.registers| <= 255 && (uniqueId == 0 || uniqueId == s.uniqueId) && s.nodeId != m.nodeId
    requires E.IsRequestOf(env.rx.packet, Act(m, DoGetNumRegisters(s.nodeId, uniqueId, user, now)))
    requires S.Reaches(s, env.rx.packet, PKT_GET_NUM_REGISTERS)
    requires Waits(Act(m, DoGetNumRegisters(s.nodeId, uniqueId, user, now)), between)
    requires U.IsCopy(back.rx.packet, U.AnswerTo(s, PKT_GET_NUM_REGISTERS, env.rx.packet[REG_INDEX_AT]))
    ensures S.Answered(Act(s, DoUpdate(env)).history.air, U.AnswerTo(s, PKT_GET_NUM_REGISTERS, env.rx.packet[REG_INDEX_AT]))
    ensures var asking := Act(m, DoGetNumRegisters(s.nodeId, uniqueId, user, now));
            var r := Hearing(asking, between, back);
            U.EndedBy(asking, r, back.rx.packet, StatusOk) && r.client.numRegisters == |s.registers| &&
            r.client.responderNodeId == s.nodeId
  {
    hide Inv, Act, Update, Run, Waits, AllowedRun, Hearing, F.Hear, F.Seen, S.Answered;
    var asking := Act(m, DoGetNumRegisters(s.nodeId, uniqueId, user, now));
    U.CountQuery(m, s.nodeId, uniqueId, user, now);
    U.CopySays(env.rx.packet, asking.history.air[0].packet);
    assert Target(env.rx.packet) == env.rx.packet[DATA_AT..][0];
    ServerAnswers(s, env);
    var p := U.AnswerTo(s, PKT_GET_NUM_REGISTERS, env.rx.packet[REG_INDEX_AT]);
    U.CopySays(back.rx.packet, p);
    assert back.rx.packet[DATA_AT] == back.rx.packet[DATA_AT..][0] == p[DATA_AT];
    var b := StillAsks(asking, between, back);
    U.CountEndsQuery(b, back);
  }

  lemma ServerAnswers(s: Node, env: Env)
    requires Inv(s) && env.rx.Received? && U.IsQuery(Kind(env.rx.packet)) && |s.registers| <= 255
    requires S.Reaches(s, env.rx.packet, Kind(env.rx.packet)) && Target(env.rx.packet) == s.nodeId
    ensures var p := env.rx.packet;
            S.Answered(Act(s, DoUpdate(env)).history.air, U.AnswerTo(s, Kind(p), p[REG_INDEX_AT]))
  {
    hide Inv, Update, S.Answered, F.Hear, F.Seen;
    U.QueryIsAnswered(Begin(s), env);
    SameAnswer(s, Kind(env.rx.packet), env.rx.packet[REG_INDEX_AT]);
  }

  lemma SameAnswer(s: Node, kind: byte, index: byte)
    requires Inv(s) && |s.registers| <= 255
    ensures U.AnswerTo(Begin(s), kind, index) == U.AnswerTo(s, kind, index)
  {
    hide Inv, RegisterToPacket;
  }

  // ---- the name of a register ----

  /** Asking a node for the name of its register `index`, over both forms of its reply, relayed any number of
      times, if it comes before the operation has ended. A good index ends the operation well with that name.
      A bad one ends it exactly when it is 0, by the first reply, or 255, by a repeat: as an invalid index,
      or, by a repeat, well with the name the memory behind the registers makes. An unrecognized reply leaves
      the operation to its timeout. */
  lemma RemoteName(m: Node, index: byte, uniqueId: uint16, user: Callback, now: uint32, s: Node, f: U.ReplyForm,
                   between: seq<Action>, back: Env)
    requires Inv(m) && m.state == Idle && Inv(s) && WellFormed(s.registers) && s.nodeId != m.nodeId && back.rx.Received?
    requires uniqueId == 0 || uniqueId == s.uniqueId
    requires Waits(Act(m, DoGetRegisterName(s.nodeId, index, uniqueId, user, now)), between)
    requires U.Plausible(s, f) && U.IsCopy(back.rx.packet, U.ReplyIn(s, index, f))
    ensures var asking := Act(m, DoGetRegisterName(s.nodeId, index, uniqueId, user, now));
            var r := Hearing(asking, between, back);
            if U.Recognized(s, index, f) then U.EndedBy(asking, r, back.rx.packet, U.NameStatus(s, index, f))
            else if R.Late(Run(asking, between), back) then
              r.state == Idle && r.history.completions == asking.history.completions + [Timeout]
            else W.SameQuestion(asking, r)
    ensures index < |s.registers| ==>
              Name(Hearing(Act(m, DoGetRegisterName(s.nodeId, index, uniqueId, user, now)), between, back).client.register) ==
              Name(s.registers[index])
  {
    hide Inv, Act, Update, Run, Waits, AllowedRun, Hearing, NameReply, Name, WellFormed, U.ReplyIn, U.Recognized, U.NameStatus, Decodable,
         RegisterIndex;
    var asking := Act(m, DoGetRegisterName(s.nodeId, index, uniqueId, user, now));
    U.NameQuery(m, s.nodeId, index, uniqueId, user, now);
    FewRegisters(s);
    U.ReplyFormSays(s, index, f, back.rx.packet, back.strayByte);
    U.GoodIndex(s, index, f);
    var b := StillAsks(asking, between, back);
    if U.Recognized(s, index, f) {
      U.NameEndsQuery(b, back);
      U.StatusIsOneOf(s, index, f);
      if index < |s.registers| { U.TakesName(back.rx.packet, b.client.register, s.registers[index]); }
    } else {
      assert W.Ended(b, back).None?;
      W.UpdateEnds(b, back);
    }
  }

  /** No node has a register 255, but asking for it can end well: by a repeat of the reply, with a name made
      of whatever lies behind the registers. */
  lemma Register255CanBeNamed(m: Node, user: Callback, now: uint32, s: Node, f: U.ReplyForm, between: seq<Action>, back: Env)
    requires Inv(m) && m.state == Idle && Inv(s) && WellFormed(s.registers) && s.nodeId != m.nodeId && back.rx.Received?
    requires Waits(Act(m, DoGetRegisterName(s.nodeId, 255, 0, user, now)), between)
    requires f.Repeat? && U.Plausible(s, f) && U.IsCopy(back.rx.packet, U.ReplyIn(s, 255, f))
    requires Encodable(f.memory, false) && f.memory.nameLen > 0
    ensures var asking := Act(m, DoGetRegisterName(s.nodeId, 255, 0, user, now));
            U.EndedBy(asking, Hearing(asking, between, back), back.rx.packet, StatusOk)
  {
    hide Inv, Act, Run, Waits, AllowedRun, Hearing, U.ReplyIn, WellFormed, Encodable, U.EndedBy;
    FewRegisters(s);
    RemoteName(m, 255, 0, user, now, s, f, between, back);
  }

  // ---- GET ----

  /** A remote GET. When the request, relayed any number of times, reaches a server of that name, the server
      replies with the value its map has for the name, its get-callback having had its say. When the reply,
      relayed any number of times, comes back before the operation has ended, it ends the operation well with
      that value, exactly if the requester still holds the name it asked for: no SET that it served meanwhile
      has left another one. Else the operation is left to its timeout. */
  lemma RemoteGet(m: Node, reg: Register, user: Callback, now: uint32, s: Node, env: Env, i: nat,
                  between: seq<Action>, back: Env)
    requires Inv(m) && m.state == Idle && Encodable(reg, false)
    requires Inv(s) && WellFormed(s.registers) && env.rx.Received?
    requires E.IsRequestOf(env.rx.packet, Act(m, DoGetRegister(reg, user, now)))
    requires S.Reaches(s, env.rx.packet, PKT_GET_REGISTER) && S.IsNamedBy(s, i, env.rx.packet)
    requires S.KeepsName(s.registers[i], env.getReply)
    requires Waits(Act(m, DoGetRegister(reg, user, now)), between)
    requires S.ComesBack(back, S.ValueReply(s, i, env.getReply), m)
    ensures S.Answered(Act(s, DoUpdate(env)).history.air, S.ValueReply(s, i, env.getReply))
    ensures var served := Act(s, DoUpdate(env)).registers;
            WellFormed(served) && Name(reg) in S.Directory(served) && Name(reg) in S.Directory(s.registers) &&
            S.Directory(served)[Name(reg)] ==
              if s.registers[i].hasGetCallback then Value(env.getReply) else S.Directory(s.registers)[Name(reg)]
    ensures var asking, served := Act(m, DoGetRegister(reg, user, now)), Act(s, DoUpdate(env)).registers;
            var r := Hearing(asking, between, back);
            if W.HeldName(asking, between, Name(reg)) == Name(reg) then
              S.Got(asking, r, Name(reg), S.Directory(served)[Name(reg)]) && S.ToldBy(r, back.rx.packet)
            else if R.Late(Run(asking, between), back) then
              r.state == Idle && r.history.completions == asking.history.completions + [Timeout]
            else W.SameQuestion(asking, r)
  {
    hide Inv, Act, Update, Run, Waits, AllowedRun, Hearing, S.Got, WellFormed, S.Directory, PacketName, PacketValue, Name, Value,
         FindRegister, Refreshed, F.Seen, F.Hear, S.Answered, S.ValueReply;
    var asking := Act(m, DoGetRegister(reg, user, now));
    S.GetRequestCarries(m, reg, user, now);
    S.HopKeepsRegister(asking.history.air[0].packet, env.rx.packet);
    S.NamesIt(env.rx.packet, s.registers[i]);
    ServerReplies(s, env, i);
    S.ReplyCarries(s, i, env.getReply);
    var value := Value(Refreshed(s.registers[i], env.getReply));
    S.HopKeepsRegister(S.ValueReply(s, i, env.getReply), back.rx.packet);
    GettingEnds(m, asking, between, back, Name(reg), value);
  }

  /** The server's side of a GET. */
  lemma ServerReplies(s: Node, env: Env, i: nat)
    requires Inv(s) && WellFormed(s.registers) && env.rx.Received?
    requires S.Reaches(s, env.rx.packet, PKT_GET_REGISTER) && S.IsNamedBy(s, i, env.rx.packet)
    requires S.KeepsName(s.registers[i], env.getReply)
    ensures S.Answered(Act(s, DoUpdate(env)).history.air, S.ValueReply(s, i, env.getReply))
    ensures var served := Act(s, DoUpdate(env)).registers;
            WellFormed(served) && Name(s.registers[i]) in S.Directory(served) &&
            S.Directory(served)[Name(s.registers[i])] == Value(Refreshed(s.registers[i], env.getReply)) &&
            Name(s.registers[i]) in S.Directory(s.registers) &&
            S.Directory(served)[Name(s.registers[i])] ==
              if s.registers[i].hasGetCallback then Value(env.getReply) else S.Directory(s.registers)[Name(s.registers[i])]
  {
    hide Inv, Update, WellFormed, S.Directory, Name, Value, FindRegister, Refreshed, F.Seen, F.Hear, S.Answered, RegisterToPacket;
    var refreshed := Refreshed(s.registers[i], env.getReply);
    S.GetIsAnswered(Begin(s), env, i);
    assert S.AnswersGet(s, Act(s, DoUpdate(env)), i, env.getReply);
    S.OneValueChanges(s.registers, i, refreshed);
    S.DirectoryMaps(s.registers[i := refreshed], i);
    S.DirectoryMaps(s.registers, i);
    CallbackDecides(s.registers[i], env.getReply);
  }

  /** The value served is the one the get-callback leaves, if there is one. */
  lemma CallbackDecides(r: Register, getReply: Register)
    requires S.KeepsName(r, getReply)
    ensures Fits(Refreshed(r, getReply)) && (if r.hasGetCallback then Fits(getReply) else Fits(r))
    ensures Value(Refreshed(r, getReply)) == if r.hasGetCallback then Value(getReply) else Value(r)
  {
  }

  /** The requester's side. */
  lemma GettingEnds(m: Node, asking: Node, between: seq<Action>, back: Env, name: seq<byte>, value: seq<byte>)
    requires Inv(asking) && S.Asks(asking, name) && asking.nodeId == m.nodeId && asking.uniqueId == m.uniqueId
    requires Waits(asking, between) && back.rx.Received? && S.IsValueOf(back.rx.packet, name, value)
    requires !(Sender(back.rx.packet) == m.nodeId && UniqueId(back.rx.packet) != m.uniqueId)
    ensures var r := Hearing(asking, between, back);
            if W.HeldName(asking, between, name) == name then S.Got(asking, r, name, value) && S.ToldBy(r, back.rx.packet)
            else if R.Late(Run(asking, between), back) then
              r.state == Idle && r.history.completions == asking.history.completions + [Timeout]
            else W.SameQuestion(asking, r)
  {
    hide Inv, Act, Update, Run, AllowedRun, Hearing, PacketName, PacketValue, W.HeldName, W.Waited;
    W.RunHolds(asking, between);
    var b := StillAsks(asking, between, back);
    if W.HeldName(asking, between, name) == name {
      S.ValueEndsGet(b, back, name, value);
    } else {
      S.NamesIt(back.rx.packet, b.client.register);
      assert W.Ended(b, back).None?;
      W.UpdateEnds(b, back);
    }
  }

  /** So a GET succeeds whenever the reply is in time and no SET served meanwhile erases the name. */
  lemma GetSucceeds(m: Node, reg: Register, user: Callback, now: uint32, s: Node, env: Env, i: nat,
                    between: seq<Action>, back: Env)
    requires Inv(m) && m.state == Idle && Encodable(reg, false)
    requires Inv(s) && WellFormed(s.registers) && env.rx.Received?
    requires E.IsRequestOf(env.rx.packet, Act(m, DoGetRegister(reg, user, now)))
    requires S.Reaches(s, env.rx.packet, PKT_GET_REGISTER) && S.IsNamedBy(s, i, env.rx.packet)
    requires S.KeepsName(s.registers[i], env.getReply)
    requires Waits(Act(m, DoGetRegister(reg, user, now)), between)
    requires W.ErasesNothing(Act(m, DoGetRegister(reg, user, now)), between, Name(reg))
    requires S.ComesBack(back, S.ValueReply(s, i, env.getReply), m)
    ensures var asking, served := Act(m, DoGetRegister(reg, user, now)), Act(s, DoUpdate(env)).registers;
            WellFormed(served) && Name(reg) in S.Directory(served) &&
            S.Got(asking, Hearing(asking, between, back), Name(reg), S.Directory(served)[Name(reg)])
  {
    hide Inv, Act, Run, S.Got, WellFormed, S.Directory, Name, FindRegister, Refreshed, S.Reaches, S.ValueReply, W.Waited,
         Encodable, S.KeepsName;
    RemoteGet(m, reg, user, now, s, env, i, between, back);
    W.NameIsHeld(Act(m, DoGetRegister(reg, user, now)), between, Name(reg));
  }

  // ---- SET ----

  /** A SET round trip: the request, relayed any number of times, reaches a server of the name; the
      acknowledgement, relayed any number of times, comes back before the operation has ended. The register has
      become what the outcome says, and the requester is told the verdict. Success means that the value was
      stored exactly if the server stores values itself, or its callback left the value there, or failed the
      SET and said why. */
  lemma RemoteSetRoundTrip(m: Node, reg: Register, user: Callback, now: uint32, s: Node, env: Env, i: nat,
                           between: seq<Action>, back: Env)
    requires Inv(m) && m.state == Idle && Servable(reg) && Inv(s) && env.rx.Received? && back.rx.Received?
    requires s.nodeId != m.nodeId && S.Reaches(s, env.rx.packet, PKT_SET_REGISTER) && S.IsNamedBy(s, i, env.rx.packet)
    requires E.IsRequestOf(env.rx.packet, Act(m, DoSetRegister(reg, user, now)))
    requires Waits(Act(m, DoSetRegister(reg, user, now)), between)
    requires U.IsCopy(back.rx.packet, SetAck(s, m.nodeId, E.Outcome(s, env.rx.packet, i, env.setReply)))
    ensures E.Carried(s, Act(s, DoUpdate(env)), i, E.Outcome(s, env.rx.packet, i, env.setReply), m.nodeId)
    ensures var asking := Act(m, DoSetRegister(reg, user, now));
            U.EndedBy(asking, Hearing(asking, between, back), back.rx.packet,
                      E.Verdict(E.Outcome(s, env.rx.packet, i, env.setReply)))
    ensures E.SuccessMeansStored(E.Outcome(s, env.rx.packet, i, env.setReply), reg) <==>
              E.StoresItself(s.registers[i], env.setReply) ||
              E.IsSet(Rewritten(s.registers[i], env.setReply.register), reg) ||
              E.Protests(s.client.register, env.setReply)
  {
    hide Inv, Act, Update, Run, Waits, AllowedRun, Hearing, SetAck, SetRequested, FindRegister, E.Carried, E.Verdict, E.StoresItself,
         E.Protests, E.IsSet, F.Seen, F.Hear, PacketName, PacketValue, Decodable, Servable, S.Reaches;
    var asking, p := Act(m, DoSetRegister(reg, user, now)), env.rx.packet;
    E.SetQuery(m, reg, user, now);
    U.CopySays(p, asking.history.air[0].packet);
    S.HopKeepsRegister(p, asking.history.air[0].packet);
    E.ServerCarries(s, env, i);
    var b := StillAsks(asking, between, back);
    E.AckTellsVerdict(b, s, E.Outcome(s, p, i, env.setReply), back);
    E.OutcomeIs(p, s.registers[i], s.client.register, env.setReply, reg);
    E.VerdictIsOneOf(E.Outcome(s, p, i, env.setReply));
  }

  // ---- PING ----

  /** A ping, end to end. Every other node that its PING reaches, relayed any number of times, answers it by a PONG;
      and when that PONG, relayed any number of times, reaches the pinging node before its ping is over, that
      node's id is found when its client iterates over the nodes present, until it pings again. */
  lemma RemotePing(m: Node, user: Callback, now: uint32, s: Node, env: Env, between: seq<Action>, back: Env, after: seq<Action>)
    requires Inv(m) && m.state == Idle && Inv(s) && env.rx.Received? && back.rx.Received?
    requires E.IsRequestOf(env.rx.packet, Act(m, DoPing(user, now)))
    requires S.Reaches(s, env.rx.packet, PKT_PING) && s.uniqueId != m.uniqueId && s.nodeId != m.nodeId
    requires AllowedRun(Act(m, DoPing(user, now)), between) && V.PingLasts(Act(m, DoPing(user, now)), between)
    requires U.IsCopy(back.rx.packet, HeaderFor(s, PKT_PONG))
    requires AllowedRun(Hearing(Act(m, DoPing(user, now)), between, back), after) && V.NoPing(after)
    ensures S.Answered(Act(s, DoUpdate(env)).history.air, HeaderFor(s, PKT_PONG))
    ensures var found := Run(Hearing(Act(m, DoPing(user, now)), between, back), after).presence;
            |found| == P.TABLE_BYTES && s.nodeId in P.Members(found) &&
            (1 <= s.nodeId <= 254 ==> s.nodeId in P.Iterate(found, 0))
  {
    hide Inv, Update, Run, AllowedRun, Hearing, F.Hear, F.Seen, S.Answered, HeaderFor, V.PingLasts, P.Members, P.IsPresent, P.Iterate,
         V.NoPing, V.PongTaken, Act;
    var asking := Act(m, DoPing(user, now));
    PingQuery(m, user, now);
    U.CopySays(env.rx.packet, asking.history.air[0].packet);
    PingedAnswers(s, env);
    PongHeader(s);
    U.CopySays(back.rx.packet, HeaderFor(s, PKT_PONG));
    V.PingSurveys(m, user, now);
    V.PingRun(asking, between);
    var heard := Hearing(asking, between, back);
    PongIsRecorded(Run(asking, between), back);
    HearingIs(asking, between, back);
    V.TableStays(heard, after);
    Found(Run(heard, after).presence, s.nodeId);
  }

  lemma HearingIs(asking: Node, between: seq<Action>, back: Env)
    requires Inv(asking) && AllowedRun(asking, between)
    ensures Hearing(asking, between, back) == Act(Run(asking, between), DoUpdate(back))
  {
    hide Inv, Act, Run, AllowedRun;
  }

  lemma PingQuery(m: Node, user: Callback, now: uint32)
    requires Inv(m) && m.state == Idle
    ensures var r := Act(m, DoPing(user, now));
            r.state == Pinging && r.nodeId == m.nodeId && r.uniqueId == m.uniqueId && |r.history.air| == 1 &&
            Kind(r.history.air[0].packet) == PKT_PING && UniqueId(r.history.air[0].packet) == m.uniqueId
  {
    hide Inv, HeaderFor;
    HeaderFields(PKT_PING, m.request.sequence, m.nodeId, m.uniqueId, 0);
    PingHeader(Begin(m));
  }

  lemma PingHeader(m: Node)
    ensures UniqueId(HeaderFor(m, PKT_PING)) == m.uniqueId
  {
  }

  lemma PingedAnswers(s: Node, env: Env)
    requires Inv(s) && env.rx.Received? && S.Reaches(s, env.rx.packet, PKT_PING) && UniqueId(env.rx.packet) != s.uniqueId
    ensures S.Answered(Act(s, DoUpdate(env)).history.air, HeaderFor(s, PKT_PONG))
  {
    hide Inv, Update, S.Answered, F.Hear, F.Seen;
    V.PingIsAnswered(Begin(s), env);
  }

  lemma PongHeader(s: Node)
    ensures Kind(HeaderFor(s, PKT_PONG)) == PKT_PONG && Sender(HeaderFor(s, PKT_PONG)) == s.nodeId
  {
  }

  lemma PongIsRecorded(n: Node, back: Env)
    requires Inv(n) && n.state == Pinging && V.Surveys(n) && back.rx.Received?
    requires Kind(back.rx.packet) == PKT_PONG && Sender(back.rx.packet) != n.nodeId
    ensures var r := Act(n, DoUpdate(back));
            V.Surveys(r) && |r.presence| == P.TABLE_BYTES && Sender(back.rx.packet) in P.Members(r.presence)
  {
    hide Inv, Update, P.Members, F.Hear, F.Seen;
    V.TableFits(n);
    V.TableFits(Act(n, DoUpdate(back)));
    V.UpdateRecords(Begin(n), back);
  }

  lemma Found(table: seq<bv8>, id: byte)
    requires |table| == P.TABLE_BYTES && id in P.Members(table)
    ensures 1 <= id <= 254 ==> id in P.Iterate(table, 0)
  {
    hide P.Iterate, P.IsPresent;
    P.IterateIsSortedMembers(table, 0);
  }
}
