/** The register server refines a finite map from names to values: what SET and GET requests do to it,
    over any run, and what the requester gets back. */
module Server {
  import opened Bytes
  import opened Packets
  import opened Registers
  import opened Model
  import opened Operations
  import opened Joining
  import F = Filter

  predicate IsNamed(rs: seq<Register>, name: seq<byte>) { exists i | 0 <= i < |rs| :: Name(rs[i]) == name }

  /** The registers as a map from names to values. */
  function Directory(rs: seq<Register>): map<seq<byte>, seq<byte>>
    requires WellFormed(rs)
  {
    if rs == [] then map[]
    else
      InitNames(rs);
      Directory(rs[..|rs| - 1])[Name(rs[|rs| - 1]) := Value(rs[|rs| - 1])]
  }

  lemma {:induction false} DirectoryMaps(rs: seq<Register>, i: nat)
    requires WellFormed(rs) && i < |rs|
    ensures Name(rs[i]) in Directory(rs) && Directory(rs)[Name(rs[i])] == Value(rs[i])
  {
    hide WellFormed, Name, Value;
    var k := |rs| - 1;
    InitNames(rs);
    if i < k {
      assert rs[..k][i] == rs[i];
      DirectoryMaps(rs[..k], i);
    }
  }

  lemma {:induction false} DirectoryNames(rs: seq<Register>, name: seq<byte>)
    requires WellFormed(rs)
    ensures name in Directory(rs) <==> IsNamed(rs, name)
  {
    hide WellFormed, Name, Value;
    if rs != [] {
      InitNames(rs);
      DirectoryNames(rs[..|rs| - 1], name);
    }
  }

  lemma InitNames(rs: seq<Register>)
    requires WellFormed(rs) && rs != []
    ensures WellFormed(rs[..|rs| - 1]) && Fits(rs[|rs| - 1])
    ensures forall i | 0 <= i < |rs| - 1 :: Name(rs[i]) != Name(rs[|rs| - 1])
    ensures forall name :: IsNamed(rs, name) <==> IsNamed(rs[..|rs| - 1], name) || name == Name(rs[|rs| - 1])
  {
    var k := |rs| - 1;
    forall name ensures IsNamed(rs, name) <==> IsNamed(rs[..k], name) || name == Name(rs[k]) {
      if IsNamed(rs[..k], name) {
        var i :| 0 <= i < k && Name(rs[..k][i]) == name;
        assert Name(rs[i]) == name;
      }
      if IsNamed(rs, name) && name != Name(rs[k]) {
        var i :| 0 <= i < |rs| && Name(rs[i]) == name;
        assert Name(rs[..k][i]) == name;
      }
    }
  }

  lemma DirectoryIs(rs: seq<Register>, m: map<seq<byte>, seq<byte>>)
    requires WellFormed(rs)
    requires forall i | 0 <= i < |rs| :: Name(rs[i]) in m && m[Name(rs[i])] == Value(rs[i])
    requires forall name | name in m :: IsNamed(rs, name)
    ensures Directory(rs) == m
  {
    hide WellFormed, Directory, Name, Value;
    forall name ensures name in Directory(rs) <==> name in m {
      DirectoryNames(rs, name);
    }
    forall name | name in m ensures name in Directory(rs) && Directory(rs)[name] == m[name] {
      var i :| 0 <= i < |rs| && Name(rs[i]) == name;
      DirectoryMaps(rs, i);
    }
  }

  /** A register may change its value, and nothing else, without spoiling the others. */
  lemma OneValueChanges(rs: seq<Register>, i: nat, r: Register)
    requires WellFormed(rs) && i < |rs| && Servable(r) && Name(r) == Name(rs[i])
    ensures WellFormed(rs[i := r]) && Directory(rs[i := r]) == Directory(rs)[Name(rs[i]) := Value(r)]
  {
    hide Directory, Name, Value;
    var qs, m := rs[i := r], Directory(rs)[Name(rs[i]) := Value(r)];
    assert forall j | 0 <= j < |qs| :: Servable(qs[j]) && Name(qs[j]) == Name(rs[j]);
    forall j | 0 <= j < |qs| ensures Name(qs[j]) in m && m[Name(qs[j])] == Value(qs[j]) { DirectoryMaps(rs, j); }
    forall name | name in m ensures IsNamed(qs, name) {
      DirectoryNames(rs, name);
      if name == Name(rs[i]) {
        assert Name(qs[i]) == name;
      } else {
        var j :| 0 <= j < |rs| && Name(rs[j]) == name;
        assert Name(qs[j]) == name;
      }
    }
    DirectoryIs(qs, m);
  }

  // ---- which requests are served ----

  /** The register's callbacks, if it has any and the packet names it, leave it alone: a set-callback
      asks for the value to be stored, a get-callback changes nothing. */
  predicate Obliging(r: Register, p: Packet, env: Env) {
    NameMatches(p, r) ==>
      (r.hasSetCallback && Kind(p) == PKT_SET_REGISTER ==>
         env.setReply.status == AutoSetRegister && Rewritten(r, env.setReply.register) == r) &&
      (r.hasGetCallback && Kind(p) == PKT_GET_REGISTER ==> Rewritten(r, env.getReply) == r)
  }

  predicate ObligingCallbacks(n: Node, a: Action) {
    a.DoUpdate? && a.env.rx.Received? ==> forall r | r in n.registers :: Obliging(r, a.env.rx.packet, a.env)
  }

  /** A request that reaches the handlers and was not handled before. */
  predicate Reaches(n: Node, p: Packet, kind: byte) {
    OnMesh(n.state) && Kind(p) == kind && !(Sender(p) == n.nodeId && UniqueId(p) != n.uniqueId) &&
    !F.Seen(F.Hear(n.filter, Sequence(p), UniqueId(p)), HeaderOf(p))
  }

  /** The action receives a fresh, well-sized SET for one of these names. */
  predicate Stores(n: Node, a: Action, m: map<seq<byte>, seq<byte>>) {
    a.DoUpdate? && a.env.rx.Received? && Reaches(n, a.env.rx.packet, PKT_SET_REGISTER) &&
    Decodable(a.env.rx.packet, true) && PacketName(a.env.rx.packet) in m
  }

  /** The map as the action should leave it. */
  function Stored(n: Node, a: Action, m: map<seq<byte>, seq<byte>>): map<seq<byte>, seq<byte>> {
    if Stores(n, a, m) then m[PacketName(a.env.rx.packet) := PacketValue(a.env.rx.packet)] else m
  }

  // ---- the handlers ----

  predicate IsRegisterRequest(kind: byte) { kind == PKT_GET_REGISTER || kind == PKT_SET_REGISTER }

  /** The directory handlers leave register requests and values to the register handlers. */
  lemma DirectoryPassesOn(n: Node, env: Env)
    requires Inv(n) && (IsRegisterRequest(Kind(n.packet)) || Kind(n.packet) == PKT_REGISTER_VALUE)
    ensures ServeDirectory(n, env) == n
  {
    hide Inv, HandlePing, HandlePong, HandleGetNumRegisters, HandleNumRegisters, HandleGetRegisterName, HandleRegisterName;
    PresencePassesOn(n, env.rxTime);
    NumbersPassOn(n, env.rxTime);
    NamesPassOn(n, env.strayByte, env.rxTime);
  }

  lemma PresencePassesOn(n: Node, now: uint32)
    requires Inv(n) && (IsRegisterRequest(Kind(n.packet)) || Kind(n.packet) == PKT_REGISTER_VALUE)
    ensures HandlePing(n, now) == n && HandlePong(n) == n
  {
    hide Inv;
  }

  lemma NumbersPassOn(n: Node, now: uint32)
    requires Inv(n) && (IsRegisterRequest(Kind(n.packet)) || Kind(n.packet) == PKT_REGISTER_VALUE)
    ensures HandleGetNumRegisters(n, now) == n && HandleNumRegisters(n) == n
  {
    hide Inv;
  }

  lemma NamesPassOn(n: Node, strayByte: byte, now: uint32)
    requires Inv(n) && (IsRegisterRequest(Kind(n.packet)) || Kind(n.packet) == PKT_REGISTER_VALUE)
    ensures HandleGetRegisterName(n, now) == n && HandleRegisterName(n, strayByte) == n
  {
    hide Inv;
  }

  lemma PingPong(n: Node, now: uint32)
    requires Inv(n) && !IsRegisterRequest(Kind(n.packet))
    ensures !IsRegisterRequest(Kind(HandlePong(HandlePing(n, now)).packet))
  {
    hide Inv;
  }

  lemma NumRegistersReply(n: Node, now: uint32)
    requires Inv(n) && !IsRegisterRequest(Kind(n.packet))
    ensures !IsRegisterRequest(Kind(HandleNumRegisters(HandleGetNumRegisters(n, now)).packet))
  {
    hide Inv;
  }

  lemma RegisterNameReply(n: Node, strayByte: byte, now: uint32)
    requires Inv(n) && !IsRegisterRequest(Kind(n.packet))
    ensures !IsRegisterRequest(Kind(HandleRegisterName(HandleGetRegisterName(n, now), strayByte).packet))
  {
    hide Inv, NameReply;
  }

  lemma DirectoryMakesNoRequest(n: Node, env: Env)
    requires Inv(n) && !IsRegisterRequest(Kind(n.packet))
    ensures !IsRegisterRequest(Kind(ServeDirectory(n, env).packet))
  {
    hide Inv, HandlePing, HandlePong, HandleGetNumRegisters, HandleNumRegisters, HandleGetRegisterName,
         HandleRegisterName;
    PingPong(n, env.rxTime);
    var n1 := HandlePong(HandlePing(n, env.rxTime));
    NumRegistersReply(n1, env.rxTime);
    RegisterNameReply(HandleNumRegisters(HandleGetNumRegisters(n1, env.rxTime)), env.strayByte, env.rxTime);
  }

  /** A packet names a register exactly by carrying its name. */
  lemma NamesIt(p: Packet, r: Register)
    requires p[DATA_AT] <= ARRAY_SIZE
    ensures NameMatches(p, r) <==> Name(r) == PacketName(p)
  {
  }

  /** Setting a register whose callback does not interfere: the value in the packet is stored, or, when
      it does not fit, an error is reported and the value stays. */
  lemma SetStoresValue(p: Packet, reg: Register, cache: Register, env: Env)
    requires Servable(reg) && NameMatches(p, reg) && Obliging(reg, p, env) && Kind(p) == PKT_SET_REGISTER
    ensures var o := SetRequested(p, reg, cache, env.setReply);
            Servable(o.register) && Name(o.register) == Name(reg) && (o.error <==> !Decodable(p, true)) &&
            Value(o.register) == if Decodable(p, true) then PacketValue(p) else Value(reg)
  {
    hide PacketToRegister, WithText, WithError;
    DecodedFields(p, reg);
    if Decodable(p, true) { NamesIt(p, reg); }
  }

  /** The SET handler as a step of the map. */
  lemma SetIsMapUpdate(n: Node, env: Env, now: uint32)
    requires Inv(n) && WellFormed(n.registers) && forall r | r in n.registers :: Obliging(r, n.packet, env)
    ensures var rs, p := HandleSetRegister(n, env.setReply, now).registers, n.packet;
            WellFormed(rs) && Directory(rs) ==
              if OnMesh(n.state) && Passes(n, PKT_SET_REGISTER) && Decodable(p, true) &&
                 PacketName(p) in Directory(n.registers)
              then Directory(n.registers)[PacketName(p) := PacketValue(p)] else Directory(n.registers)
  {
    hide Inv, Directory, Name, Value, SetRequested, FindRegister, WellFormed, PacketValue, PacketName, NameMatches,
         Obliging;
    var rs, p := n.registers, n.packet;
    if OnMesh(n.state) && Passes(n, PKT_SET_REGISTER) {
      if FindRegister(p, rs, 0).None? {
        if Decodable(p, true) { UnmatchedIsUnnamed(p, rs); }
      } else {
        var i := FindRegister(p, rs, 0).value;
        WellFormedAt(rs, i);
        assert rs[i] in rs;
        SetStoresValue(p, rs[i], n.client.register, env);
        StoringOne(rs, i, SetRequested(p, rs[i], n.client.register, env.setReply).register, p);
      }
    }
  }

  lemma UnmatchedIsUnnamed(p: Packet, rs: seq<Register>)
    requires WellFormed(rs) && p[DATA_AT] <= ARRAY_SIZE && forall j | 0 <= j < |rs| :: !NameMatches(p, rs[j])
    ensures PacketName(p) !in Directory(rs)
  {
    hide WellFormed, Directory, Name, NameMatches, PacketName;
    DirectoryNames(rs, PacketName(p));
    forall j | 0 <= j < |rs| ensures Name(rs[j]) != PacketName(p) { NamesIt(p, rs[j]); }
  }

  lemma StoringOne(rs: seq<Register>, i: nat, r: Register, p: Packet)
    requires WellFormed(rs) && i < |rs| && NameMatches(p, rs[i]) && Servable(r) && Name(r) == Name(rs[i])
    requires Servable(rs[i]) && Value(r) == if Decodable(p, true) then PacketValue(p) else Value(rs[i])
    ensures var qs := rs[i := r.(errorSet := false)];
            WellFormed(qs) && Directory(qs) ==
              if Decodable(p, true) then Directory(rs)[PacketName(p) := PacketValue(p)] else Directory(rs)
    ensures Decodable(p, true) ==> PacketName(p) in Directory(rs)
  {
    hide WellFormed, Directory, PacketValue, PacketName, NameMatches;
    OneValueChanges(rs, i, r.(errorSet := false));
    DirectoryMaps(rs, i);
    if Decodable(p, true) { NamesIt(p, rs[i]); }
  }

  /** The GET handler leaves the registers alone and turns the request into a reply, or leaves it. */
  lemma GetKeepsRegisters(n: Node, env: Env, now: uint32)
    requires Inv(n) && (Kind(n.packet) == PKT_GET_REGISTER ==> forall r | r in n.registers :: Obliging(r, n.packet, env))
    ensures HandleGetRegister(n, env.getReply, now).registers == n.registers
    ensures HandleGetRegister(n, env.getReply, now).packet == n.packet ||
            Kind(HandleGetRegister(n, env.getReply, now).packet) == PKT_REGISTER_VALUE
    ensures Kind(n.packet) != PKT_GET_REGISTER ==> HandleGetRegister(n, env.getReply, now) == n
  {
    hide Inv, FindRegister, NameMatches;
    if OnMesh(n.state) && Passes(n, PKT_GET_REGISTER) && FindRegister(n.packet, n.registers, 0).Some? {
      assert n.registers[FindRegister(n.packet, n.registers, 0).value] in n.registers;
    }
  }

  lemma ValueAndAckKeepRegisters(n: Node, env: Env)
    requires Inv(n)
    ensures HandleRegisterValue(n).registers == n.registers && HandleRegisterValue(n).packet == n.packet
    ensures Kind(n.packet) == PKT_SET_REGISTER ==> HandleRegisterValue(n) == n
  {
    hide Inv;
  }

  /** The register handlers, all together, as a step of the map. */
  lemma ServingIsMapUpdate(n: Node, env: Env)
    requires Inv(n) && WellFormed(n.registers) && forall r | r in n.registers :: Obliging(r, n.packet, env)
    ensures var rs, p := ServeRegisters(n, env).registers, n.packet;
            WellFormed(rs) && Directory(rs) ==
              if OnMesh(n.state) && Passes(n, PKT_SET_REGISTER) && Decodable(p, true) &&
                 PacketName(p) in Directory(n.registers)
              then Directory(n.registers)[PacketName(p) := PacketValue(p)] else Directory(n.registers)
  {
    hide Inv, Directory, WellFormed, HandleGetRegister, HandleRegisterValue, HandleSetRegister, HandleSetRegisterAck,
         HandleBroadcast, PacketValue, PacketName, Decodable, Obliging;
    GetKeepsRegisters(n, env, env.rxTime);
    var n1 := HandleGetRegister(n, env.getReply, env.rxTime);
    ValueAndAckKeepRegisters(n1, env);
    var n2 := HandleRegisterValue(n1);
    if Kind(n.packet) == PKT_SET_REGISTER {
      SetIsMapUpdate(n, env, env.rxTime);
    } else {
      OnlySetsSet(n2, env);
    }
  }

  lemma OnlySetsSet(n: Node, env: Env)
    requires Inv(n) && Kind(n.packet) != PKT_SET_REGISTER
    ensures HandleSetRegister(n, env.setReply, env.rxTime) == n
  {
    hide Inv;
  }

  // ---- an update ----

  /** What the register handlers get to see of a packet received on the mesh. */
  lemma HandlersSee(n: Node, p: Packet, now: uint32)
    requires Inv(n)
    ensures var r := Regard(Receive(n, p, now), now);
            r.registers == n.registers && r.state == n.state &&
            (OnMesh(n.state) ==> r.packet == p && r.filter == F.Hear(n.filter, Sequence(p), UniqueId(p)))
  {
    hide Inv, F.Hear;
    if OnMesh(n.state) { RegardOnMesh(Receive(n, p, now), now); }
  }

  lemma RegardOnMesh(n: Node, now: uint32)
    requires Inv(n) && Genuine(Id(n), n.packet) && OnMesh(n.state)
    ensures Regard(n, now).packet == n.packet
    ensures Regard(n, now).filter == F.Hear(n.filter, Sequence(n.packet), UniqueId(n.packet))
  {
    hide Inv, HandleConflictName, HandleDeferredJoining, F.Hear;
  }

  lemma ReceivingIsMapUpdate(n: Node, a: Action)
    requires Inv(n) && a.DoUpdate? && WellFormed(n.registers) && ObligingCallbacks(n, a)
    ensures var rs := HandleRx(n, a.env).registers;
            WellFormed(rs) && Directory(rs) == Stored(n, a, Directory(n.registers))
  {
    hide Inv, Directory, WellFormed, Receive, Regard, ServeDirectory, ServeRegisters, SendConflict, PacketValue,
         PacketName, Decodable, Obliging, F.Hear, F.Seen;
    if a.env.rx.Received? {
      var p := a.env.rx.packet;
      var n1 := Receive(n, p, a.env.rxTime);
      if !SeesDuplicateId(n1) {
        var n2 := Regard(n1, a.env.rxTime);
        HandlersSee(n, p, a.env.rxTime);
        if OnMesh(n.state) { ServeIsMapUpdate(n2, a.env); } else { OffMeshIsDeaf(n2, a.env); }
      }
    }
  }

  lemma ServeIsMapUpdate(n: Node, env: Env)
    requires Inv(n) && WellFormed(n.registers) && forall r | r in n.registers :: Obliging(r, n.packet, env)
    ensures var rs, p := Serve(n, env).registers, n.packet;
            WellFormed(rs) && Directory(rs) ==
              if OnMesh(n.state) && Passes(n, PKT_SET_REGISTER) && Decodable(p, true) &&
                 PacketName(p) in Directory(n.registers)
              then Directory(n.registers)[PacketName(p) := PacketValue(p)] else Directory(n.registers)
  {
    hide Inv, Directory, WellFormed, ServeDirectory, ServeRegisters, PacketValue, PacketName, Decodable;
    var m := ServeDirectory(n, env);
    if IsRegisterRequest(Kind(n.packet)) {
      DirectoryPassesOn(n, env);
    } else {
      DirectoryMakesNoRequest(n, env);
      assert forall r | r in m.registers :: Obliging(r, m.packet, env);
    }
    ServingIsMapUpdate(m, env);
  }

  lemma AfterRxKeepsRegisters(n: Node, env: Env)
    requires Inv(n)
    ensures UpdateAfterRx(n, env).registers == n.registers
  {
    hide Inv, UpdateJoin, UpdatePing, CheckTimeouts, UpdateRepeaters;
  }

  /** The register server is a finite map: as long as callbacks do not interfere, an action stores the
      value of a fresh, well-sized SET of a name served here, and changes nothing else; the registers
      stay well formed and distinctly named. */
  lemma ServerIsAMap(n: Node, a: Action)
    requires Inv(n) && Allowed(n, a) && WellFormed(n.registers) && ObligingCallbacks(n, a)
    ensures WellFormed(Act(n, a).registers) && Directory(Act(n, a).registers) == Stored(n, a, Directory(n.registers))
  {
    hide Inv, Directory, WellFormed, HandleRx, UpdateAfterRx, PacketValue, PacketName, Decodable, Obliging, F.Hear,
         F.Seen;
    if a.DoUpdate? {
      var b := Begin(n);
      ReceivingIsMapUpdate(b, a);
      AfterRxKeepsRegisters(HandleRx(b, a.env), a.env);
    } else {
      CallKeepsRegisters(n, a);
    }
  }

  lemma CallKeepsRegisters(n: Node, a: Action)
    requires Inv(n) && Allowed(n, a) && !a.DoUpdate?
    ensures Act(n, a).registers == n.registers
  {
    hide Inv;
  }

  // ---- runs ----

  ghost predicate ObligingRun(n: Node, actions: seq<Action>)
    requires Inv(n) && AllowedRun(n, actions)
    decreases |actions|
  {
    actions == [] || (ObligingCallbacks(n, actions[0]) && ObligingRun(Act(n, actions[0]), actions[1..]))
  }

  /** The map after all SETs of a run, each stored in turn. */
  function StoredByRun(n: Node, actions: seq<Action>, m: map<seq<byte>, seq<byte>>): map<seq<byte>, seq<byte>>
    requires Inv(n) && AllowedRun(n, actions)
    decreases |actions|
  {
    if actions == [] then m else StoredByRun(Act(n, actions[0]), actions[1..], Stored(n, actions[0], m))
  }

  /** Over every run, the registers are the map that the SETs received make of the initial one. */
  lemma {:induction false} RunIsAMap(n: Node, actions: seq<Action>)
    requires Inv(n) && AllowedRun(n, actions) && WellFormed(n.registers) && ObligingRun(n, actions)
    ensures WellFormed(Run(n, actions).registers)
    ensures Directory(Run(n, actions).registers) == StoredByRun(n, actions, Directory(n.registers))
    decreases |actions|
  {
    hide Inv, Act, WellFormed, Directory, Stored, ObligingCallbacks;
    if actions != [] {
      ServerIsAMap(n, actions[0]);
      RunIsAMap(Act(n, actions[0]), actions[1..]);
    }
  }

  // ---- requests and replies ----

  /** The node has sent this packet of its own. */
  ghost predicate Answered(air: seq<Tx>, p: Packet) { exists k | 0 <= k < |air| :: air[k] == Tx(Originated, p) }

  lemma AnsweredGrows(air: seq<Tx>, more: seq<Tx>, p: Packet)
    requires Answered(air, p) && air <= more
    ensures Answered(more, p)
  {
    var k :| 0 <= k < |air| && air[k] == Tx(Originated, p);
    assert more[k] == air[k];
  }

  /** A REGISTER_VALUE packet for this name, with this value. */
  predicate IsValueOf(p: Packet, name: seq<byte>, value: seq<byte>) {
    Kind(p) == PKT_REGISTER_VALUE && Decodable(p, true) && PacketName(p) == name && PacketValue(p) == value
  }

  lemma EncodesValue(p: Packet, r: Register)
    requires Servable(r) && Kind(p) == PKT_REGISTER_VALUE
    ensures IsValueOf(RegisterToPacket(p, r, true), Name(r), Value(r))
  {
    hide RegisterToPacket;
    EncodedFields(p, r, true);
    PrintThenParse(p, r, Blank(false, false));
    NamesIt(RegisterToPacket(p, r, true), r);
  }

  /** The get-callback of the register, if it has one, may change its value, but keeps its name. */
  predicate KeepsName(r: Register, getReply: Register) {
    Servable(Refreshed(r, getReply)) && Name(Refreshed(r, getReply)) == Name(r)
  }

  /** Register `i` is the one the packet names. */
  predicate IsNamedBy(n: Node, i: nat, p: Packet) { i < |n.registers| && FindRegister(p, n.registers, 0) == Some(i) }

  /** The node's reply to a GET of register `i`. */
  function ValueReply(n: Node, i: nat, getReply: Register): Packet
    requires i < |n.registers|
  {
    RegisterToPacket(HeaderFor(n, PKT_REGISTER_VALUE), Refreshed(n.registers[i], getReply), true)
  }

  /** Register `i` has been refreshed, and its value sent. */
  ghost predicate AnswersGet(n: Node, r: Node, i: nat, getReply: Register)
    requires i < |n.registers|
  {
    r.registers == n.registers[i := Refreshed(n.registers[i], getReply)] &&
    Answered(r.history.air, ValueReply(n, i, getReply))
  }

  lemma GetHandlerAnswers(n: Node, env: Env, i: nat)
    requires Inv(n) && OnMesh(n.state) && Passes(n, PKT_GET_REGISTER) && IsNamedBy(n, i, n.packet)
    ensures var r := HandleGetRegister(n, env.getReply, env.rxTime);
            AnswersGet(n, r, i, env.getReply) && Kind(r.packet) == PKT_REGISTER_VALUE
  {
    hide Inv, FindRegister, RegisterToPacket, Refreshed, F.Seen, F.Mark;
    var q := ValueReply(n, i, env.getReply);
    assert HandleGetRegister(n, env.getReply, env.rxTime).history.air[|n.history.air|] == Tx(Originated, q);
  }

  lemma ServeAnswers(n: Node, env: Env, i: nat)
    requires Inv(n) && OnMesh(n.state) && Passes(n, PKT_GET_REGISTER) && IsNamedBy(n, i, n.packet)
    ensures AnswersGet(n, Serve(n, env), i, env.getReply)
  {
    hide Inv, ServeDirectory, HandleGetRegister, HandleRegisterValue, HandleSetRegister, HandleSetRegisterAck, HandleBroadcast,
         Answered, FindRegister, Refreshed, ValueReply, F.Seen;
    DirectoryPassesOn(n, env);
    GetHandlerAnswers(n, env, i);
    var r := HandleGetRegister(n, env.getReply, env.rxTime);
    ValueAndAckKeepRegisters(r, env);
    OnlySetsSet(HandleRegisterValue(r), env);
    AnsweredGrows(r.history.air, Serve(n, env).history.air, ValueReply(n, i, env.getReply));
  }

  /** A fresh GET for a register served here is answered with the register, as the get-callback leaves it, if
      there is one. */
  lemma GetIsAnswered(n: Node, env: Env, i: nat)
    requires Inv(n) && env.rx.Received? && Reaches(n, env.rx.packet, PKT_GET_REGISTER) && IsNamedBy(n, i, env.rx.packet)
    ensures AnswersGet(n, Update(n, env), i, env.getReply)
  {
    hide Inv, Receive, Regard, Serve, SendConflict, UpdateAfterRx, Answered, FindRegister, Refreshed, RegisterToPacket,
         F.Hear, F.Seen;
    var n1 := Receive(n, env.rx.packet, env.rxTime);
    var n2 := Regard(n1, env.rxTime);
    HandlersSee(n, env.rx.packet, env.rxTime);
    RegardKeepsAsking(n1, env.rxTime);
    ServeAnswers(n2, env, i);
    AfterRxKeepsRegisters(HandleRx(n, env), env);
    AnsweredGrows(HandleRx(n, env).history.air, Update(n, env).history.air, ValueReply(n2, i, env.getReply));
  }

  /** The reply carries the value, if the get-callback leaves a register of that name. */
  lemma ReplyCarries(n: Node, i: nat, getReply: Register)
    requires i < |n.registers| && KeepsName(n.registers[i], getReply)
    ensures var reg := Refreshed(n.registers[i], getReply);
            IsValueOf(ValueReply(n, i, getReply), Name(n.registers[i]), Value(reg))
  {
    hide RegisterToPacket, Refreshed, IsValueOf, Name, Value;
    EncodesValue(HeaderFor(n, PKT_REGISTER_VALUE), Refreshed(n.registers[i], getReply));
  }

  /** The node waits for the value of this register, from whichever node serves it. */
  predicate Asks(n: Node, name: seq<byte>) {
    n.state == GettingRegister && n.request.targetNodeId == 0 && n.request.targetUniqueId == 0 &&
    Name(n.client.register) == name
  }

  /** The operation has ended well, with this value. */
  ghost predicate Got(n: Node, r: Node, name: seq<byte>, value: seq<byte>) {
    r.state == Idle && r.history.completions == n.history.completions + [StatusOk] &&
    Fits(r.client.register) && Name(r.client.register) == name && Value(r.client.register) == value
  }

  /** The client is told which node answered. */
  predicate ToldBy(r: Node, p: Packet) {
    r.client.responderNodeId == Sender(p) && r.client.responderUniqueId == UniqueId(p)
  }

  lemma ValueHandlerTakes(n: Node, name: seq<byte>, value: seq<byte>)
    requires Inv(n) && Asks(n, name) && IsValueOf(n.packet, name, value)
    ensures Got(n, HandleRegisterValue(n), name, value) && HandleRegisterValue(n).packet == n.packet
    ensures ToldBy(HandleRegisterValue(n), n.packet)
  {
    hide Inv, PacketToRegister;
    NamesIt(n.packet, n.client.register);
    DecodedFields(n.packet, n.client.register);
  }

  lemma LastHandlersKeepResult(n: Node, env: Env)
    requires Inv(n) && n.state == Idle && Kind(n.packet) == PKT_REGISTER_VALUE
    ensures var r := HandleBroadcast(HandleSetRegisterAck(HandleSetRegister(n, env.setReply, env.rxTime)), env.behind);
            r.state == Idle && r.client.register == n.client.register && r.history.completions == n.history.completions &&
            r.client.responderNodeId == n.client.responderNodeId && r.client.responderUniqueId == n.client.responderUniqueId
  {
    hide Inv;
    OnlySetsSet(n, env);
  }

  lemma IdleUpdateKeepsResult(n: Node, env: Env)
    requires Inv(n) && n.state == Idle
    ensures var r := UpdateAfterRx(n, env);
            r.state == Idle && r.client == n.client && r.history.completions == n.history.completions
  {
    hide Inv, UpdateRepeaters;
    assert UpdateTimers(n, env) == n;
    RepeatersKeepClient(n, env);
  }

  lemma RepeatersKeepClient(n: Node, env: Env)
    requires Inv(n)
    ensures var r := UpdateRepeaters(n, env);
            r.client == n.client && (n.state == Idle ==> r.history.completions == n.history.completions)
  {
    hide Inv, Rebuilt;
  }

  lemma ServeTakes(n: Node, env: Env, name: seq<byte>, value: seq<byte>)
    requires Inv(n) && Asks(n, name) && IsValueOf(n.packet, name, value)
    ensures Got(n, Serve(n, env), name, value) && ToldBy(Serve(n, env), n.packet)
  {
    hide Inv, Asks, ServeDirectory, HandleRegisterValue, HandleSetRegister, HandleSetRegisterAck, HandleBroadcast;
    DirectoryPassesOn(n, env);
    GetKeepsRegisters(n, env, env.rxTime);
    ValueHandlerTakes(n, name, value);
    LastHandlersKeepResult(HandleRegisterValue(n), env);
  }

  /** A node waiting for a register takes the first fitting value that reaches it, and its client is told from whom. */
  lemma ValueEndsGet(n: Node, env: Env, name: seq<byte>, value: seq<byte>)
    requires Inv(n) && Asks(n, name) && env.rx.Received? && IsValueOf(env.rx.packet, name, value)
    requires !(Sender(env.rx.packet) == n.nodeId && UniqueId(env.rx.packet) != n.uniqueId)
    ensures Got(n, Update(n, env), name, value) && ToldBy(Update(n, env), env.rx.packet)
  {
    hide Inv, Receive, Regard, Serve, SendConflict, UpdateAfterRx, IsValueOf, Name, Value;
    var n1 := Receive(n, env.rx.packet, env.rxTime);
    var n2 := Regard(n1, env.rxTime);
    HandlersSee(n, env.rx.packet, env.rxTime);
    RegardKeepsAsking(n1, env.rxTime);
    ServeTakes(n2, env, name, value);
    IdleUpdateKeepsResult(HandleRx(n, env), env);
  }

  lemma RegardKeepsAsking(n: Node, now: uint32)
    requires Inv(n) && Genuine(Id(n), n.packet) && OnMesh(n.state)
    ensures var r := Regard(n, now);
            r.client == n.client && r.request == n.request && r.history == n.history
  {
    hide Inv, HandleConflictName, HandleDeferredJoining, F.Hear;
  }

  // ---- over the air ----

  /** A relayed copy carries the same register. */
  lemma HopKeepsRegister(p: Packet, q: Packet)
    requires SansHop(p) == SansHop(q)
    ensures Kind(p) == Kind(q) && p[DATA_AT] == q[DATA_AT] && p[DATA_AT..] == q[DATA_AT..]
    ensures Decodable(p, true) <==> Decodable(q, true)
    ensures p[DATA_AT] <= ARRAY_SIZE ==> PacketName(p) == PacketName(q)
    ensures Decodable(p, true) ==> PacketValue(p) == PacketValue(q)
  {
    SameSansHopMeaning(p, q);
  }

  /** What a GET request asks for. */
  lemma GetRequestCarries(n: Node, reg: Register, user: Callback, now: uint32)
    requires Inv(n) && n.state == Idle && Encodable(reg, false)
    ensures var r := Act(n, DoGetRegister(reg, user, now));
            Asks(r, Name(reg)) && |r.history.air| == 1 &&
            var p := r.history.air[0].packet;
            Kind(p) == PKT_GET_REGISTER && p[DATA_AT] <= ARRAY_SIZE && PacketName(p) == Name(reg)
  {
    hide Inv, RegisterToPacket;
    var b := Begin(n);
    var h := HeaderFor(Start(b, GettingRegister, 0, 0, user), PKT_GET_REGISTER);
    EncodedFields(h, reg, false);
    NamesIt(RegisterToPacket(h, reg, false), reg);
  }

  /** What a SET request carries. */
  lemma SetRequestCarries(n: Node, reg: Register, user: Callback, now: uint32)
    requires Inv(n) && n.state == Idle && Servable(reg)
    ensures var r := Act(n, DoSetRegister(reg, user, now));
            |r.history.air| == 1 &&
            var p := r.history.air[0].packet;
            Kind(p) == PKT_SET_REGISTER && Decodable(p, true) && PacketName(p) == Name(reg) && PacketValue(p) == Value(reg)
  {
    hide Inv, RegisterToPacket;
    var b := Begin(n);
    var h := HeaderFor(Start(b, SettingRegister, 0, 0, user), PKT_SET_REGISTER);
    EncodedFields(h, reg, true);
    NamesIt(RegisterToPacket(h, reg, true), reg);
  }

  /** A remote SET: when the request, relayed any number of times, reaches a server of that name, the
      server's map has the requester's value under it, and is otherwise as before. */
  lemma RemoteSet(m: Node, reg: Register, user: Callback, now: uint32, s: Node, env: Env)
    requires Inv(m) && m.state == Idle && Servable(reg)
    requires Inv(s) && WellFormed(s.registers) && env.rx.Received? && ObligingCallbacks(s, DoUpdate(env))
    requires var sent := Act(m, DoSetRegister(reg, user, now)).history.air;
             |sent| == 1 && SansHop(env.rx.packet) == SansHop(sent[0].packet)
    requires Reaches(s, env.rx.packet, PKT_SET_REGISTER) && Name(reg) in Directory(s.registers)
    ensures WellFormed(Act(s, DoUpdate(env)).registers)
    ensures Directory(Act(s, DoUpdate(env)).registers) == Directory(s.registers)[Name(reg) := Value(reg)]
  {
    hide Inv, Act, WellFormed, Directory, Reaches, Obliging, PacketName, PacketValue, Name, Value;
    SetRequestCarries(m, reg, user, now);
    HopKeepsRegister(Act(m, DoSetRegister(reg, user, now)).history.air[0].packet, env.rx.packet);
    ServerIsAMap(s, DoUpdate(env));
  }

  /** A copy of the packet, relayed any number of times, is received, and is not taken for a conflict. */
  predicate ComesBack(back: Env, p: Packet, m: Node) {
    back.rx.Received? && SansHop(back.rx.packet) == SansHop(p) &&
    !(Sender(back.rx.packet) == m.nodeId && UniqueId(back.rx.packet) != m.uniqueId)
  }

  // ---- acknowledgements ----

  /** When an acknowledgement reports an error: the callback calls the value invalid, or the value is to
      be stored and does not fit. A callback that answers anything else but "set it yourself" is taken
      at its word: even an unexpected status is acknowledged as a success. */
  lemma AckReportsExactly(p: Packet, reg: Register, cache: Register, reply: SetReply)
    ensures SetRequested(p, reg, cache, reply).error <==>
            if reg.hasSetCallback && reply.status != AutoSetRegister then reply.status == InvalidRegisterValue
            else !Decodable(p, true)
  {
    hide PacketToRegister, WithText, WithError;
  }
}
