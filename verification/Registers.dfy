/** Registers: a name and a value packed into one 57-byte buffer, and their wire format. */
module Registers {
  import opened Bytes
  import opened Packets

  const ARRAY_SIZE := 57
  const PART_SIZE := 55

  datatype RegisterRecord = RegisterRecord(
    data: seq<byte>,
    nameLen: byte,
    dataLen: byte,
    errorSet: bool,
    hasSetCallback: bool,
    hasGetCallback: bool)

  type Register = r: RegisterRecord | |r.data| == 57 && r.nameLen <= 57 && r.dataLen <= 57
    witness RegisterRecord(seq(57, i => 0), 0, 0, false, false, false)

  datatype Option<+T> = None | Some(value: T)

  function Blank(hasSet: bool, hasGet: bool): Register {
    RegisterRecord(seq(57, i => 0), 0, 0, false, hasSet, hasGet)
  }

  /** Name and value together fit the buffer. */
  predicate Fits(r: Register) { r.nameLen + r.dataLen <= ARRAY_SIZE }

  /** A register a node can serve: it has a name, and something the wire format accepts. */
  predicate Servable(r: Register) {
    1 <= r.nameLen && 2 <= r.nameLen + r.dataLen <= ARRAY_SIZE
  }

  function Name(r: Register): seq<byte> { r.data[..r.nameLen] }

  function Value(r: Register): seq<byte>
    requires Fits(r)
  {
    r.data[r.nameLen..r.nameLen + r.dataLen]
  }

  // ---- client-side setters and getters ----

  /** `strncpy`: at most `n` bytes of a C string, zero-padded to `n`. */
  function StrNCpy(src: seq<byte>, n: nat): (s: seq<byte>)
    ensures |s| == n
  {
    if n == 0 then []
    else if src == [] || src[0] == 0 then seq(n, i => 0)
    else [src[0]] + StrNCpy(src[1..], n - 1)
  }

  function WithError(r: Register, message: seq<byte>): Register {
    r.(data := Patch(seq(57, i => 0), 0, StrNCpy(message, PART_SIZE - 1)), errorSet := true)
  }

  function WithName(r: Register, name: seq<byte>): Register {
    if |name| > PART_SIZE then r
    else r.(nameLen := |name|, data := Patch(r.data, 0, name))
  }

  /** What the name setter returns: the room left for a value, or 0 when the name is refused. */
  function NameRoom(name: seq<byte>): byte {
    if |name| > PART_SIZE then 0 else PART_SIZE - |name|
  }

  function BigEndian(v: uint32): seq<byte> {
    [v / 0x100_0000, v / 0x1_0000 % 0x100, v / 0x100 % 0x100, v % 0x100]
  }

  function FromBigEndian(b: seq<byte>): uint32
    requires |b| == 4
  {
    (b[0] as int) * 0x100_0000 + (b[1] as int) * 0x1_0000 + (b[2] as int) * 0x100 + b[3] as int
  }

  predicate TakesU32(r: Register) { r.nameLen + 4 <= ARRAY_SIZE }

  function WithValueU32(r: Register, v: uint32): Register {
    if !TakesU32(r) then r
    else r.(data := Patch(r.data, r.nameLen, BigEndian(v)), dataLen := 4)
  }

  /** What lies in memory behind a buffer; the source reads there when lengths do not fit. */
  type Behind = s: seq<byte> | |s| == 57 witness seq(57, i => 0)

  function ValueU32(r: Register, behind: Behind): Option<uint32> {
    if r.dataLen != 4 then None else Some(FromBigEndian((r.data + behind)[r.nameLen..r.nameLen + 4]))
  }

  /** Registers as a node can serve them: each has a name, and no name is used twice. */
  predicate WellFormed(rs: seq<Register>) {
    (forall i | 0 <= i < |rs| :: Servable(rs[i])) &&
    forall i, j | 0 <= i < j < |rs| :: Name(rs[i]) != Name(rs[j])
  }

  lemma WellFormedAt(rs: seq<Register>, i: nat)
    requires WellFormed(rs) && i < |rs|
    ensures Servable(rs[i])
  {
  }

  // ---- wire format ----

  /** `_Util_Register_To_Packet` returns true. */
  predicate Encodable(r: Register, withValue: bool) {
    1 <= r.nameLen + r.dataLen <= ARRAY_SIZE && (withValue ==> 2 <= r.nameLen + r.dataLen)
  }

  function Fields(r: Register, withValue: bool): seq<byte>
    requires Encodable(r, withValue)
  {
    [r.nameLen] + Name(r) + if withValue then [r.dataLen] + Value(r) else []
  }

  function RegisterToPacket(p: Packet, r: Register, withValue: bool): (q: Packet)
    ensures Kind(q) == Kind(p)
    ensures p[DATA_AT] <= ARRAY_SIZE ==> q[DATA_AT] <= ARRAY_SIZE
  {
    if Encodable(r, withValue) then Patch(p, DATA_AT, Fields(r, withValue)) else p
  }

  /** `_Util_Packet_To_Register` returns true. */
  predicate Decodable(p: Packet, withValue: bool) {
    1 <= p[DATA_AT] <= ARRAY_SIZE &&
    (withValue ==> 2 <= p[DATA_AT] + p[NAME_AT + p[DATA_AT]] <= ARRAY_SIZE)
  }

  function PacketName(p: Packet): seq<byte>
    requires p[DATA_AT] <= ARRAY_SIZE
  {
    p[NAME_AT..NAME_AT + p[DATA_AT]]
  }

  function PacketValue(p: Packet): seq<byte>
    requires Decodable(p, true)
  {
    var at := NAME_AT + p[DATA_AT] + 1;
    p[at..at + p[at - 1]]
  }

  function PacketToRegister(p: Packet, r: Register, withValue: bool): Register {
    if !Decodable(p, withValue) then r
    else
      var named := r.(nameLen := p[DATA_AT], data := Patch(r.data, 0, PacketName(p)));
      if !withValue then named
      else named.(dataLen := |PacketValue(p)|,
                  data := Patch(r.data, 0, PacketName(p) + PacketValue(p)))
  }

  /** `_Cmp_Packet_Register(.., false)`: the packet carries the register's name. */
  predicate NameMatches(p: Packet, r: Register) {
    r.nameLen == p[DATA_AT] && Name(r) == p[NAME_AT..NAME_AT + r.nameLen]
  }

  /** `_Cmp_Packet_Register(.., true)` as written: it compares the name bytes of the register
      with the value area of the packet, one byte early. */
  predicate NameAndValueMatch(p: Packet, r: Register, behind: Behind) {
    NameMatches(p, r) && r.dataLen == p[NAME_AT + r.nameLen] &&
    r.data[..r.dataLen] == (p + behind)[NAME_AT + r.nameLen..NAME_AT + r.nameLen + r.dataLen]
  }

  predicate PacketHasRegister(p: Packet, r: Register) {
    (Kind(p) == PKT_GET_REGISTER || Kind(p) == PKT_SET_REGISTER) && NameMatches(p, r)
  }

  /** The index byte behind the name of a REGISTER_NAME packet. A name length above 57 makes the
      source read behind its packet buffer; `stray` is the byte found there. */
  function RegisterIndex(p: Packet, stray: byte): byte {
    if Kind(p) != PKT_REGISTER_NAME then 255
    else if NAME_AT + p[DATA_AT] < PACKET_SIZE then p[NAME_AT + p[DATA_AT]]
    else stray
  }

  function WithRegisterIndex(p: Packet, index: byte): (q: Packet)
    requires p[DATA_AT] <= ARRAY_SIZE
    ensures Kind(q) == Kind(p)
  {
    if Kind(p) != PKT_REGISTER_NAME then p else p[NAME_AT + p[DATA_AT] := index]
  }

  // ---- properties of the wire format ----

  /** What an encoded packet carries, and what it leaves alone. */
  lemma EncodedFields(p: Packet, r: Register, withValue: bool)
    requires Encodable(r, withValue)
    ensures var q := RegisterToPacket(p, r, withValue);
            q[..DATA_AT] == p[..DATA_AT] && NameMatches(q, r)
    ensures withValue ==>
              var q := RegisterToPacket(p, r, withValue);
              var at := NAME_AT + r.nameLen;
              q[at] == r.dataLen && q[at + 1..at + 1 + r.dataLen] == Value(r)
  {
    var q := RegisterToPacket(p, r, withValue);
    var f := Fields(r, withValue);
    assert q[..DATA_AT] == p[..DATA_AT];
    assert f[1..1 + r.nameLen] == Name(r);
    assert q[NAME_AT..NAME_AT + r.nameLen] == f[1..1 + r.nameLen];
    if withValue {
      assert f[2 + r.nameLen..] == Value(r);
      assert q[NAME_AT + r.nameLen + 1..NAME_AT + r.nameLen + 1 + r.dataLen] == f[2 + r.nameLen..];
    }
  }

  /** The encoding, written piece by piece. */
  lemma EncodeSteps(p: Packet, r: Register, withValue: bool)
    requires Encodable(r, withValue)
    ensures var named := Patch(p[DATA_AT := r.nameLen], NAME_AT, Name(r));
            var at := NAME_AT + r.nameLen;
            RegisterToPacket(p, r, withValue) ==
            if withValue then Patch(named[at := r.dataLen], at + 1, Value(r)) else named
  {
    var named := Patch(p[DATA_AT := r.nameLen], NAME_AT, Name(r));
    var at := NAME_AT + r.nameLen;
    PatchOne(p, DATA_AT, r.nameLen);
    PatchTwice(p, DATA_AT, [r.nameLen], Name(r));
    assert Fields(r, false) == [r.nameLen] + Name(r);
    if withValue {
      PatchOne(named, at, r.dataLen);
      PatchTwice(named, at, [r.dataLen], Value(r));
      PatchTwice(p, DATA_AT, [r.nameLen] + Name(r), [r.dataLen] + Value(r));
      assert Fields(r, true) == [r.nameLen] + Name(r) + ([r.dataLen] + Value(r));
    }
  }

  /** The decoding, copied piece by piece. */
  lemma DecodeSteps(p: Packet, r: Register, withValue: bool)
    ensures !Decodable(p, withValue) ==> PacketToRegister(p, r, withValue) == r
    ensures Decodable(p, withValue) ==>
              var n := p[DATA_AT];
              var named := Patch(r.data, 0, p[NAME_AT..NAME_AT + n]);
              var len := p[NAME_AT + n];
              PacketToRegister(p, r, withValue) ==
              if !withValue then r.(nameLen := n, data := named)
              else r.(nameLen := n, dataLen := len, data := Patch(named, n, p[NAME_AT + n + 1..NAME_AT + n + 1 + len]))
  {
    if Decodable(p, true) { PatchTwice(r.data, 0, PacketName(p), PacketValue(p)); }
  }

  /** Parsing a packet either leaves the register untouched or yields a servable register with the
      packet's name and value. */
  lemma DecodedFields(p: Packet, r: Register)
    ensures !Decodable(p, true) ==> PacketToRegister(p, r, true) == r
    ensures Decodable(p, true) ==>
              var d := PacketToRegister(p, r, true);
              Servable(d) && Name(d) == PacketName(p) && Value(d) == PacketValue(p) && NameMatches(p, d)
  {
    if Decodable(p, true) {
      var d := PacketToRegister(p, r, true);
      var both := PacketName(p) + PacketValue(p);
      assert d.data[..|both|] == both;
      assert Name(d) == both[..|PacketName(p)|] == PacketName(p);
      assert Value(d) == both[|PacketName(p)|..] == PacketValue(p);
    }
  }

  /** Parse, then print: encoding the parsed register into any packet reproduces the name and value
      fields of the parsed packet byte for byte. */
  lemma ParseThenPrint(p: Packet, r: Register, onto: Packet)
    requires Decodable(p, true)
    ensures var d := PacketToRegister(p, r, true);
            var end := NAME_AT + 1 + d.nameLen + d.dataLen;
            Encodable(d, true) && end <= PACKET_SIZE &&
            RegisterToPacket(onto, d, true) == onto[..DATA_AT] + p[DATA_AT..end] + onto[end..]
  {
    DecodedFields(p, r);
    var d := PacketToRegister(p, r, true);
    var n, end := d.nameLen, NAME_AT + 1 + d.nameLen + d.dataLen;
    assert p[DATA_AT..end] == [p[DATA_AT]] + p[NAME_AT..NAME_AT + n] + [p[NAME_AT + n]] + p[NAME_AT + n + 1..end];
    assert Fields(d, true) == p[DATA_AT..end];
  }

  /** Print, then parse: whatever register the reader starts from, it ends with the sender's name
      and value. */
  lemma PrintThenParse(p: Packet, r: Register, reader: Register)
    requires Servable(r)
    ensures var q := RegisterToPacket(p, r, true);
            Decodable(q, true) &&
            Name(PacketToRegister(q, reader, true)) == Name(r) &&
            Servable(PacketToRegister(q, reader, true)) &&
            Value(PacketToRegister(q, reader, true)) == Value(r)
  {
    EncodedFields(p, r, true);
    DecodedFields(RegisterToPacket(p, r, true), reader);
  }

  /** Setting a name: it is set, and the room told is what is left of 55 bytes; or it is too long, and refused. */
  lemma NameIsSet(r: Register, name: seq<byte>)
    ensures |name| <= 55 ==> Name(WithName(r, name)) == name && NameRoom(name) == 55 - |name|
    ensures |name| <= 55 ==> WithName(r, name).data[|name|..] == r.data[|name|..] && WithName(r, name).dataLen == r.dataLen
    ensures |name| > 55 ==> WithName(r, name) == r && NameRoom(name) == 0
  {
    if |name| <= 55 { assert WithName(r, name).data[..|name|] == name; }
  }

  lemma BigEndianRoundTrip(v: uint32)
    ensures FromBigEndian(BigEndian(v)) == v
  {
    var b, c := v / 0x100, v / 0x1_0000;
    NextByte(v);
    NextByte(b);
    NextByte(c);
    TwoBytes(v);
    TwoBytes(b);
  }

  lemma NextByte(v: nat)
    ensures v == v / 0x100 * 0x100 + v % 0x100
  {
  }

  lemma TwoBytes(v: nat)
    ensures v / 0x100 / 0x100 == v / 0x1_0000
    ensures v / 0x100 / 0x1_0000 == v / 0x100_0000
  {
  }

  /** What a reader ends with when `name` and `v` are set on a fresh register, encoded onto `p`,
      and parsed into `reader`. */
  predicate DeliversU32(name: seq<byte>, v: uint32, p: Packet, reader: Register, behind: Behind) {
    var q := RegisterToPacket(p, WithValueU32(WithName(Blank(false, false), name), v), true);
    Decodable(q, true) &&
    var d := PacketToRegister(q, reader, true);
    Name(d) == name && ValueU32(d, behind) == Some(v)
  }

  /** Every 32-bit value reaches the reader under its name exactly when the name has 1 to 53 bytes. */
  lemma U32Delivery(name: seq<byte>, v: uint32, p: Packet, reader: Register, behind: Behind)
    ensures DeliversU32(name, v, p, reader, behind) <==> 1 <= |name| <= 53
  {
    var named := WithName(Blank(false, false), name);
    var r := WithValueU32(named, v);
    if 1 <= |name| <= 53 {
      assert Name(named) == name;
      assert Value(r) == BigEndian(v);
      assert Name(r) == Name(named);
      BigEndianRoundTrip(v);
      PrintThenParse(p, r, reader);
      var d := PacketToRegister(RegisterToPacket(p, r, true), reader, true);
      assert d.dataLen == |Value(r)| && (d.data + behind)[d.nameLen..d.nameLen + 4] == Value(d);
    } else if Encodable(r, true) {
      EncodedFields(p, r, true);
      if r.nameLen != 0 {
        assert !TakesU32(named) && r.dataLen == 0;
        PrintThenParse(p, r, reader);
      }
    }
  }

  /** Writing the index of a name reply can be read back and leaves the name alone. */
  lemma RegisterIndexRoundTrip(p: Packet, r: Register, index: byte, stray: byte)
    requires Kind(p) == PKT_REGISTER_NAME && Encodable(r, false)
    ensures var q := WithRegisterIndex(RegisterToPacket(p, r, false), index);
            RegisterIndex(q, stray) == index && NameMatches(q, r)
  {
    EncodedFields(p, r, false);
    var q0 := RegisterToPacket(p, r, false);
    assert q0[..DATA_AT][TYPE_AT] == p[..DATA_AT][TYPE_AT];
    var q := WithRegisterIndex(q0, index);
    assert q[NAME_AT..NAME_AT + r.nameLen] == q0[NAME_AT..NAME_AT + r.nameLen];
  }

  /** `struct A7105_Mesh_Register`. */
  class MeshRegister {
    const data: array<byte>
    var nameLen: byte
    var dataLen: byte
    var errorSet: bool
    var hasSetCallback: bool
    var hasGetCallback: bool

    ghost predicate Valid()
      reads this
    {
      data.Length == 57 && nameLen <= 57 && dataLen <= 57
    }

    ghost function Contents(): Register
      reads this, data
      requires Valid()
    {
      RegisterRecord(data[..], nameLen, dataLen, errorSet, hasSetCallback, hasGetCallback)
    }

    constructor (hasSet: bool, hasGet: bool)
      ensures Valid() && fresh(data)
      ensures Contents() == Blank(hasSet, hasGet)
    {
      data := new byte[57](i => 0);
      nameLen, dataLen, errorSet := 0, 0, false;
      hasSetCallback, hasGetCallback := hasSet, hasGet;
    }

    method Initialize(hasSet: bool, hasGet: bool)
      requires Valid()
      modifies this, data
      ensures Valid()
      ensures Contents() == Blank(hasSet, hasGet)
    {
      forall i | 0 <= i < data.Length { data[i] := 0; }
      nameLen, dataLen, errorSet := 0, 0, false;
      hasSetCallback, hasGetCallback := hasSet, hasGet;
    }

    method SetName(name: seq<byte>) returns (room: byte)
      requires Valid()
      modifies this, data
      ensures Valid()
      ensures Contents() == WithName(old(Contents()), name)
      ensures room == NameRoom(name)
    {
      if |name| > PART_SIZE { return 0; }
      nameLen := |name|;
      WriteBytes(data, 0, name);
      room := PART_SIZE - nameLen;
    }

    method SetValueU32(v: uint32) returns (ok: bool)
      requires Valid()
      modifies this, data
      ensures Valid()
      ensures Contents() == WithValueU32(old(Contents()), v)
      ensures ok == TakesU32(old(Contents()))
    {
      if nameLen + 4 > ARRAY_SIZE { return false; }
      var offset := nameLen;
      WriteBytes(data, offset, BigEndian(v));
      dataLen := 4;
      ok := true;
    }

    /** Folds the value bytes into the result, most significant first. */
    method GetValueU32(behind: Behind) returns (v: Option<uint32>)
      requires Valid()
      ensures v == ValueU32(Contents(), behind)
    {
      if dataLen != 4 { return None; }
      ghost var b := (data[..] + behind)[nameLen..nameLen + 4];
      var acc: int := 0;
      for x := 0 to 4
        invariant acc == (if x == 0 then 0 else if x == 1 then b[0] as int
                          else if x == 2 then b[0] as int * 0x100 + b[1] as int
                          else if x == 3 then b[0] as int * 0x1_0000 + b[1] as int * 0x100 + b[2] as int
                          else FromBigEndian(b))
      {
        var at: nat := nameLen + x;
        var next: byte := if at < 57 then data[at] else behind[at - 57];
        assert b[x] == next;
        acc := acc * 0x100 + next as int;
      }
      v := Some(acc);
    }

    /** What a client's callback may do to a register it is given. */
    method Overwrite(left: Register)
      requires Valid()
      modifies this, data
      ensures Valid()
      ensures Contents() == left.(hasSetCallback := old(hasSetCallback), hasGetCallback := old(hasGetCallback))
    {
      nameLen, dataLen, errorSet := left.nameLen, left.dataLen, left.errorSet;
      forall i | 0 <= i < 57 { data[i] := left.data[i]; }
      assert data[..] == left.data;
    }

    method Assign(r: Register)
      requires Valid()
      modifies this, data
      ensures Valid() && Contents() == r
    {
      Overwrite(r);
      hasSetCallback, hasGetCallback := r.hasSetCallback, r.hasGetCallback;
    }

    method ClearError()
      requires Valid()
      modifies this`errorSet
      ensures Valid()
      ensures Contents() == old(Contents()).(errorSet := false)
    {
      errorSet := false;
    }

    method CopyFrom(src: MeshRegister)
      requires Valid() && src.Valid() && data != src.data
      modifies this, data
      ensures Valid()
      ensures Contents() == old(src.Contents()).(hasSetCallback := old(hasSetCallback), hasGetCallback := old(hasGetCallback))
    {
      nameLen, dataLen, errorSet := src.nameLen, src.dataLen, src.errorSet;
      forall i | 0 <= i < 57 { data[i] := src.data[i]; }
    }

    /** Copies an error text over the front of the buffer, as `strncpy` does. */
    method CopyText(text: seq<byte>)
      requires Valid()
      modifies data
      ensures data[..] == Patch(old(data[..]), 0, StrNCpy(text, PART_SIZE - 1))
    {
      WriteBytes(data, 0, StrNCpy(text, PART_SIZE - 1));
    }

    /** Takes over an error text another node reported. */
    method NoteError(text: seq<byte>)
      requires Valid()
      modifies this`errorSet, data
      ensures Valid()
      ensures Contents() == old(Contents()).(errorSet := true, data := Patch(old(data[..]), 0, StrNCpy(text, PART_SIZE - 1)))
    {
      errorSet := true;
      CopyText(text);
    }

    method SetError(text: seq<byte>)
      requires Valid()
      modifies this, data
      ensures Valid()
      ensures Contents() == WithError(old(Contents()), text)
    {
      forall i | 0 <= i < data.Length { data[i] := 0; }
      assert data[..] == seq(57, i => 0);
      CopyText(text);
      errorSet := true;
    }

    method ToPacket(packet: array<byte>, withValue: bool) returns (ok: bool)
      requires Valid() && packet.Length == 64 && packet != data
      modifies packet
      ensures ok == Encodable(Contents(), withValue)
      ensures packet[..] == RegisterToPacket(old(packet[..]), Contents(), withValue)
    {
      var total := nameLen as int + dataLen as int;
      if total < 1 || total > ARRAY_SIZE || (total < 2 && withValue) { return false; }
      EncodeSteps(packet[..], Contents(), withValue);
      packet[DATA_AT] := nameLen;
      MemCpy(packet, NAME_AT, data, 0, nameLen);
      if withValue {
        var offset := NAME_AT + nameLen;
        packet[offset] := dataLen;
        MemCpy(packet, offset + 1, data, nameLen, dataLen);
      }
      ok := true;
    }

    method FromPacket(packet: array<byte>, withValue: bool) returns (ok: bool)
      requires Valid() && packet.Length == 64 && packet != data
      modifies this, data
      ensures Valid()
      ensures ok == Decodable(packet[..], withValue)
      ensures Contents() == PacketToRegister(packet[..], old(Contents()), withValue)
    {
      hide Patch, PacketToRegister;
      DecodeSteps(packet[..], Contents(), withValue);
      var total := packet[DATA_AT] as int;
      if total == 0 || total > ARRAY_SIZE { return false; }
      if withValue {
        total := total + packet[NAME_AT + packet[DATA_AT]] as int;
        if total < 2 || total > ARRAY_SIZE { return false; }
      }
      nameLen := packet[DATA_AT];
      MemCpy(data, 0, packet, NAME_AT, nameLen);
      if withValue {
        var offset := NAME_AT + nameLen;
        dataLen := packet[offset];
        MemCpy(data, nameLen, packet, offset + 1, dataLen);
      }
      ok := true;
    }

    /** Compares the name with the packet's, byte by byte. */
    method MatchesName(packet: array<byte>) returns (same: bool)
      requires Valid() && packet.Length == 64
      ensures same == NameMatches(packet[..], Contents())
    {
      if nameLen != packet[DATA_AT] { return false; }
      for x := 0 to nameLen
        invariant Name(Contents())[..x] == packet[NAME_AT..NAME_AT + x]
      {
        if packet[NAME_AT + x] != data[x] {
          assert Name(Contents())[x] != packet[..][NAME_AT..NAME_AT + nameLen][x];
          return false;
        }
      }
      assert Name(Contents())[..nameLen] == Name(Contents());
      same := true;
    }

    /** The comparison with values, as written: the register's first bytes against the packet from its
        length byte on. */
    method MatchesNameAndValue(packet: array<byte>, behind: Behind) returns (same: bool)
      requires Valid() && packet.Length == 64
      ensures same == NameAndValueMatch(packet[..], Contents(), behind)
    {
      hide NameMatches;
      same := MatchesName(packet);
      if !same || dataLen != packet[NAME_AT + nameLen] { return false; }
      var at: nat := NAME_AT + nameLen;
      ghost var all := packet[..] + behind;
      for x := 0 to dataLen
        invariant data[..x] == all[at..at + x]
      {
        var there := if at + x < 64 then packet[at + x] else behind[at + x - 64];
        assert there == all[at + x];
        if there != data[x] {
          assert data[..dataLen][x] != all[at..at + dataLen][x];
          return false;
        }
      }
    }
  }
}
