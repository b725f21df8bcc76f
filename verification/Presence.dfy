/** The presence table: a 256-bit mask of the node ids heard from since the last ping. */
module Presence {
  import opened Bytes

  const TABLE_BYTES := 32

  function Nobody(): seq<bv8> { seq(32, i => 0) }

  /** `1 << (id % 8)` */
  function Mask(bit: nat): bv8
    requires bit < 8
  {
    match bit
    case 0 => 1 case 1 => 2 case 2 => 4 case 3 => 8
    case 4 => 16 case 5 => 32 case 6 => 64 case _ => 128
  }

  predicate IsPresent(table: seq<bv8>, id: byte)
    requires |table| == TABLE_BYTES
  {
    table[id / 8] & Mask(id % 8) != 0
  }

  function WithPresent(table: seq<bv8>, id: byte): seq<bv8>
    requires |table| == TABLE_BYTES
  {
    table[id / 8 := table[id / 8] | Mask(id % 8)]
  }

  function Members(table: seq<bv8>): set<byte>
    requires |table| == TABLE_BYTES
  {
    set id: byte | 0 <= id < 256 && IsPresent(table, id)
  }

  /** `A7105_Get_Next_Present_Node`: the scan starts behind `start` and stops short of 255. */
  function NextPresent(table: seq<bv8>, start: byte): (next: byte)
    requires |table| == TABLE_BYTES
    ensures next == 0 || start < next < 255
    decreases 255 - start
  {
    if start >= 254 then 0
    else if IsPresent(table, start + 1) then start + 1
    else NextPresent(table, start + 1)
  }

  /** The ids a client sees that starts at `start` and feeds each answer back until it gets 0. */
  function Iterate(table: seq<bv8>, start: byte): seq<byte>
    requires |table| == TABLE_BYTES
    decreases 255 - start
  {
    var next := NextPresent(table, start);
    if next == 0 then [] else [next] + Iterate(table, next)
  }

  lemma MaskBits(b: bv8, i: nat, j: nat)
    requires i < 8 && j < 8
    ensures (b | Mask(i)) & Mask(j) != 0 <==> i == j || b & Mask(j) != 0
  {
    if i == j {
      MaskSets(b, i);
    } else {
      MaskSpares(b, i, j);
    }
  }

  lemma MaskSets(b: bv8, i: nat)
    requires i < 8
    ensures (b | Mask(i)) & Mask(i) != 0
  {
  }

  lemma MaskSpares(b: bv8, i: nat, j: nat)
    requires i < 8 && j < 8 && i != j
    ensures (b | Mask(i)) & Mask(j) == b & Mask(j)
  {
    assert Mask(i) & Mask(j) == 0;
    Distribute(b, Mask(i), Mask(j));
  }

  lemma Distribute(b: bv8, m: bv8, n: bv8)
    requires m & n == 0
    ensures (b | m) & n == b & n
  {
  }

  /** One bit is set, and no other bit of the table changes. */
  lemma OneBitIsSet(table: seq<bv8>, id: byte, other: byte)
    requires |table| == TABLE_BYTES
    ensures IsPresent(WithPresent(table, id), other) <==> other == id || IsPresent(table, other)
  {
    hide Mask;
    if other / 8 == id / 8 { MaskBits(table[id / 8], id % 8, other % 8); }
  }

  /** Recording a pong adds exactly its node id. */
  lemma WithPresentAdds(table: seq<bv8>, id: byte)
    requires |table| == TABLE_BYTES
    ensures Members(WithPresent(table, id)) == Members(table) + {id}
  {
    hide IsPresent, WithPresent;
    KeepsSize(table, id);
    forall other: byte
      ensures IsPresent(WithPresent(table, id), other) <==> other == id || IsPresent(table, other)
    {
      OneBitIsSet(table, id, other);
    }
  }

  lemma KeepsSize(table: seq<bv8>, id: byte)
    requires |table| == TABLE_BYTES
    ensures |WithPresent(table, id)| == TABLE_BYTES
  {
  }

  lemma NobodyIsEmpty()
    ensures Members(Nobody()) == {}
  {
  }

  /** The answer is the least member above `start` and below 255, or 0 when there is none. */
  lemma {:induction false} NextIsLeast(table: seq<bv8>, start: byte)
    requires |table| == TABLE_BYTES
    ensures var next := NextPresent(table, start);
            if next == 0 then forall id: byte | start < id < 255 :: !IsPresent(table, id)
            else start < next < 255 && IsPresent(table, next) &&
                 forall id: byte | start < id < next :: !IsPresent(table, id)
    decreases 255 - start
  {
    hide IsPresent;
    if start < 254 && !IsPresent(table, start + 1) { NextIsLeast(table, start + 1); }
  }

  predicate Ascending(ids: seq<byte>) {
    forall i, j | 0 <= i < j < |ids| :: ids[i] < ids[j]
  }

  /** Iterating yields exactly the members above `start` and below 255, once each, in ascending order. */
  lemma {:induction false} IterateIsSortedMembers(table: seq<bv8>, start: byte)
    requires |table| == TABLE_BYTES
    ensures Ascending(Iterate(table, start))
    ensures forall id: byte :: id in Iterate(table, start) <==> start < id < 255 && IsPresent(table, id)
    decreases 255 - start
  {
    hide IsPresent, NextPresent;
    NextIsLeast(table, start);
    var next := NextPresent(table, start);
    if next != 0 {
      var rest := Iterate(table, next);
      IterateIsSortedMembers(table, next);
      forall i | 0 <= i < |rest| ensures next < rest[i] {
        var id: byte := rest[i];
        assert id in Iterate(table, next);
      }
      assert Iterate(table, start) == [next] + rest;
      forall id: byte ensures id in [next] + rest <==> id == next || id in rest {}
    }
  }

  class PresenceTable {
    const table: array<bv8>

    ghost predicate Valid() { table.Length == 32 }

    constructor ()
      ensures Valid() && fresh(table)
      ensures table[..] == Nobody()
    {
      table := new bv8[32](i => 0);
    }

    method Clear()
      requires Valid()
      modifies table
      ensures table[..] == Nobody()
    {
      forall i | 0 <= i < table.Length { table[i] := 0; }
    }

    method Record(id: byte)
      requires Valid()
      modifies table
      ensures table[..] == WithPresent(old(table[..]), id)
    {
      table[id / 8] := table[id / 8] | Mask(id % 8);
    }

    method GetNext(start: byte) returns (next: byte)
      requires Valid()
      ensures next == NextPresent(table[..], start)
    {
      hide Mask;
      if start == 0xFF { return 0; }
      var x: int := start + 1;
      while x < 0xFF
        invariant start + 1 <= x <= 0xFF || (start == 0xFE && x == 0xFF)
        invariant NextPresent(table[..], start) == NextPresent(table[..], x - 1)
      {
        if table[x / 8] & Mask(x % 8) != 0 { return x; }
        x := x + 1;
      }
      next := 0;
    }
  }
}
