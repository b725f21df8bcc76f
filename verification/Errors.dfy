/** Error texts: which text the acknowledgement of a failed SET carries, and that it is what the requester's client
    then reads. */
module Errors {
  import opened Bytes
  import opened Packets
  import opened Registers
  import opened Model
  import opened Operations
  import opened Joining
  import F = Filter
  import S = Server
  import E = Settings
  import U = Queries
  import N = RoundTrips

  const TEXT_SIZE := 54

  /** A C string cut off and padded to the room there is for it. */
  function Padded(text: seq<byte>): (s: seq<byte>)
    ensures |s| == TEXT_SIZE
  {
    StrNCpy(text, TEXT_SIZE)
  }

  /** Copying a string that was copied before yields the same. */
  lemma {:induction false} CopiedAgain(text: seq<byte>, n: nat, rest: seq<byte>)
    ensures StrNCpy(StrNCpy(text, n) + rest, n) == StrNCpy(text, n)
    decreases n
  {
    if n > 0 {
      if text == [] || text[0] == 0 {
        assert (StrNCpy(text, n) + rest)[0] == 0;
      } else {
        assert (StrNCpy(text, n) + rest)[1..] == StrNCpy(text[1..], n - 1) + rest;
        CopiedAgain(text[1..], n - 1, rest);
      }
    }
  }

  /** The text of a SET that fails: the one its callback set; or, if it set none, one left in the cache from
      before, or the library's; or, if the value was to be stored and did not fit, the library's for that. */
  function FailureText(reg: Register, cache: Register, reply: SetReply): seq<byte> {
    if reg.hasSetCallback && reply.status == InvalidRegisterValue then
      if reply.error.Some? then reply.error.value
      else if cache.errorSet then cache.data
      else Text("Unknown Error (not set)")
    else Text("Invalid Value Size")
  }

  /** A failed SET leaves its text where the acknowledgement takes it from. */
  lemma FailureTextIs(p: Packet, reg: Register, cache: Register, reply: SetReply)
    requires SetRequested(p, reg, cache, reply).error
    ensures Padded(SetRequested(p, reg, cache, reply).cache.data) == Padded(FailureText(reg, cache, reply))
  {
    hide PacketToRegister, Decodable, StrNCpy, Text;
    var text := FailureText(reg, cache, reply);
    var data := SetRequested(p, reg, cache, reply).cache.data;
    if !(reg.hasSetCallback && reply.status == InvalidRegisterValue && reply.error.None? && cache.errorSet) {
      assert data == Padded(text) + data[TEXT_SIZE..];
      CopiedAgain(text, TEXT_SIZE, data[TEXT_SIZE..]);
    }
  }

  /** A callback that answers anything unexpected leaves the library's text for that, but no failure. */
  lemma UnexpectedTextIs(p: Packet, reg: Register, cache: Register, reply: SetReply)
    requires reg.hasSetCallback && reply.status !in {StatusOk, AutoSetRegister, InvalidRegisterValue}
    ensures var o := SetRequested(p, reg, cache, reply);
            !o.error && Padded(o.cache.data) == Padded(Text("Remote Callback Error"))
  {
    hide StrNCpy, Text;
    var data := SetRequested(p, reg, cache, reply).cache.data;
    assert data == Padded(Text("Remote Callback Error")) + data[TEXT_SIZE..];
    CopiedAgain(Text("Remote Callback Error"), TEXT_SIZE, data[TEXT_SIZE..]);
  }

  /** A SET that succeeds leaves the cache alone, unless its callback sets a text all the same. */
  lemma SuccessLeavesCache(p: Packet, reg: Register, cache: Register, reply: SetReply)
    requires reg.hasSetCallback ==> (reply.status == StatusOk || reply.status == AutoSetRegister) && reply.error.None?
    requires (reg.hasSetCallback && reply.status == StatusOk) || Decodable(p, true)
    ensures var o := SetRequested(p, reg, cache, reply);
            !o.error && o.cache == cache
  {
    hide PacketToRegister;
  }

  /** The acknowledgement carries it. */
  lemma AckCarries(s: Node, target: byte, o: SetOutcome)
    requires o.error
    ensures SetAck(s, target, o)[ERR_MSG_AT..ERR_MSG_AT + TEXT_SIZE] == Padded(o.cache.data)
  {
    hide StrNCpy, HeaderFor;
  }

  lemma TextStarts(text: seq<byte>)
    requires |text| > 0
    ensures Padded(text)[0] == text[0]
  {
  }

  /** What the acknowledgement handler leaves in the register cache. */
  lemma HandlerTells(n: Node)
    requires Inv(n) && E.AwaitsAck(n) && Kind(n.packet) == PKT_SET_REGISTER_ACK && Target(n.packet) == n.nodeId
    ensures var r := HandleSetRegisterAck(n).client.register;
            if n.packet[ERR_MSG_AT] != 0 then r.errorSet && r.data[..TEXT_SIZE] == Padded(n.packet[ERR_MSG_AT..])
            else r == n.client.register
  {
    hide Inv, StrNCpy;
  }

  lemma ServingTells(n: Node, env: Env)
    requires Inv(n) && E.AwaitsAck(n) && Kind(n.packet) == PKT_SET_REGISTER_ACK && Target(n.packet) == n.nodeId
    ensures var r := Serve(n, env).client.register;
            if n.packet[ERR_MSG_AT] != 0 then r.errorSet && r.data[..TEXT_SIZE] == Padded(n.packet[ERR_MSG_AT..])
            else r == n.client.register
  {
    hide Inv, ServeDirectory, HandleSetRegisterAck, StrNCpy;
    E.AckPassesOn(n, env);
    HandlerTells(n);
    OthersIgnoreAck(n, env);
    BroadcastKeepsCache(HandleSetRegisterAck(n), env.behind);
  }

  lemma OthersIgnoreAck(n: Node, env: Env)
    requires Inv(n) && Kind(n.packet) == PKT_SET_REGISTER_ACK
    ensures HandleSetRegister(HandleRegisterValue(HandleGetRegister(n, env.getReply, env.rxTime)), env.setReply, env.rxTime) == n
  {
    hide Inv;
  }

  lemma BroadcastKeepsCache(n: Node, behind: Behind)
    requires Inv(n)
    ensures HandleBroadcast(n, behind).client.register == n.client.register
  {
    hide Inv, NameAndValueMatch, PacketToRegister, F.Mark, F.Seen;
  }

  /** An acknowledgement to a waiting requester leaves its error text where the client reads it, or, without one,
      the cache as it was. */
  lemma AckTells(n: Node, env: Env)
    requires Inv(n) && E.AwaitsAck(n) && env.rx.Received?
    requires Kind(env.rx.packet) == PKT_SET_REGISTER_ACK && Target(env.rx.packet) == n.nodeId
    requires !(Sender(env.rx.packet) == n.nodeId && UniqueId(env.rx.packet) != n.uniqueId)
    ensures var p, r := env.rx.packet, Update(n, env).client.register;
            if p[ERR_MSG_AT] != 0 then r.errorSet && r.data[..TEXT_SIZE] == Padded(p[ERR_MSG_AT..]) else r == n.client.register
  {
    hide Inv, Receive, Regard, Serve, SendConflict, UpdateAfterRx, StrNCpy, HandleRx;
    E.AckEndsSet(n, env);
    ReceivingTells(n, env);
    EndsWhileReceiving(n, env);
    S.IdleUpdateKeepsResult(HandleRx(n, env), env);
  }

  lemma ReceivingTells(n: Node, env: Env)
    requires Inv(n) && E.AwaitsAck(n) && env.rx.Received?
    requires Kind(env.rx.packet) == PKT_SET_REGISTER_ACK && Target(env.rx.packet) == n.nodeId
    requires !(Sender(env.rx.packet) == n.nodeId && UniqueId(env.rx.packet) != n.uniqueId)
    ensures var p, r := env.rx.packet, HandleRx(n, env).client.register;
            if p[ERR_MSG_AT] != 0 then r.errorSet && r.data[..TEXT_SIZE] == Padded(p[ERR_MSG_AT..]) else r == n.client.register
  {
    hide Inv, Receive, Regard, Serve, SendConflict, StrNCpy;
    var n1 := Receive(n, env.rx.packet, env.rxTime);
    var n2 := Regard(n1, env.rxTime);
    S.HandlersSee(n, env.rx.packet, env.rxTime);
    S.RegardKeepsAsking(n1, env.rxTime);
    ServingTells(n2, env);
  }

  lemma EndsWhileReceiving(n: Node, env: Env)
    requires Inv(n) && E.AwaitsAck(n) && env.rx.Received?
    requires Kind(env.rx.packet) == PKT_SET_REGISTER_ACK && Target(env.rx.packet) == n.nodeId
    requires !(Sender(env.rx.packet) == n.nodeId && UniqueId(env.rx.packet) != n.uniqueId)
    ensures HandleRx(n, env).state == Idle
  {
    hide Inv, Receive, Regard, Serve, SendConflict;
    var n1 := Receive(n, env.rx.packet, env.rxTime);
    var n2 := Regard(n1, env.rxTime);
    S.HandlersSee(n, env.rx.packet, env.rxTime);
    S.RegardKeepsAsking(n1, env.rxTime);
    E.ServeTakesAck(n2, env);
  }

  /** An error text, from end to end. A SET fails at the server; its acknowledgement, relayed any number of times,
      comes back before the operation has ended. Then the requester's client reads the failure's text, cut off
      behind 54 bytes, unless that text is empty. */
  lemma RemoteErrorText(m: Node, reg: Register, user: Callback, now: uint32, s: Node, env: Env, i: nat,
                        between: seq<Action>, back: Env)
    requires Inv(m) && m.state == Idle && Servable(reg) && Inv(s) && env.rx.Received? && back.rx.Received?
    requires s.nodeId != m.nodeId && i < |s.registers|
    requires N.Waits(Act(m, DoSetRegister(reg, user, now)), between)
    requires E.Outcome(s, env.rx.packet, i, env.setReply).error
    requires U.IsCopy(back.rx.packet, SetAck(s, m.nodeId, E.Outcome(s, env.rx.packet, i, env.setReply)))
    ensures var text := Padded(FailureText(s.registers[i], s.client.register, env.setReply));
            var told := N.Hearing(Act(m, DoSetRegister(reg, user, now)), between, back).client.register;
            text[0] != 0 ==> told.errorSet && told.data[..TEXT_SIZE] == text
  {
    hide Inv, Act, Update, N.Waits, N.Hearing, SetAck, SetRequested, StrNCpy, Servable, FailureText, Text;
    var asking := Act(m, DoSetRegister(reg, user, now));
    var o := E.Outcome(s, env.rx.packet, i, env.setReply);
    var p, ack := back.rx.packet, SetAck(s, m.nodeId, o);
    E.SetQuery(m, reg, user, now);
    var b := N.StillAsks(asking, between, back);
    U.CopySays(p, ack);
    E.AckText(s, m.nodeId, o);
    AckCarries(s, m.nodeId, o);
    FailureTextIs(env.rx.packet, s.registers[i], s.client.register, env.setReply);
    TextStarts(o.cache.data);
    CopyCarries(p, ack);
    AckTells(b, back);
    CopiedAgain(o.cache.data, TEXT_SIZE, p[ERR_MSG_AT + TEXT_SIZE..]);
    assert p[ERR_MSG_AT..] == p[ERR_MSG_AT..ERR_MSG_AT + TEXT_SIZE] + p[ERR_MSG_AT + TEXT_SIZE..];
  }

  lemma CopyCarries(p: Packet, q: Packet)
    requires p[DATA_AT..] == q[DATA_AT..]
    ensures Target(p) == Target(q) && p[ERR_MSG_AT] == q[ERR_MSG_AT] && p[ERR_MSG_AT..] == q[ERR_MSG_AT..]
    ensures p[ERR_MSG_AT..ERR_MSG_AT + TEXT_SIZE] == q[ERR_MSG_AT..ERR_MSG_AT + TEXT_SIZE]
  {
    assert p[DATA_AT] == p[DATA_AT..][0] == q[DATA_AT..][0] == q[DATA_AT];
    assert p[DATA_AT..][1..] == p[ERR_MSG_AT..] && q[DATA_AT..][1..] == q[ERR_MSG_AT..];
    assert p[ERR_MSG_AT..][..TEXT_SIZE] == p[ERR_MSG_AT..ERR_MSG_AT + TEXT_SIZE];
    assert q[ERR_MSG_AT..][..TEXT_SIZE] == q[ERR_MSG_AT..ERR_MSG_AT + TEXT_SIZE];
    assert p[ERR_MSG_AT] == p[ERR_MSG_AT..][0] == q[ERR_MSG_AT..][0];
  }
}
