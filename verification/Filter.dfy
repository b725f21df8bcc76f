/** The handled-packet cache: a ring of eight request headers that suppresses duplicates, with
    entries expired when their sender's 4-bit sequence number comes round again. */
module Filter {
  import opened Bytes

  const CACHE_LENGTH := 8
  const SEQ_EXPIRE := 3

  /** Type, sequence number and unique id of a handled request (the source keeps the id as two bytes). */
  datatype Header = Header(op: byte, sequence: byte, uniqueId: uint16)

  const EMPTY := Header(0, 0, 0)

  /** What happened to the cache, in order. A history, kept by no C variable. */
  datatype Event =
    | Heard(sequence: nibble, uniqueId: uint16)
    | Handled(header: Header)

  datatype Cache = Cache(entries: seq<Header>, next: nat, history: seq<Event>)

  const EMPTY_CACHE := Cache([EMPTY, EMPTY, EMPTY, EMPTY, EMPTY, EMPTY, EMPTY, EMPTY], 0, [])

  /** The sender of the cached header is 1 to 3 sequence numbers before using that number again. */
  predicate Approaches(heard: nibble, cached: byte) {
    cached < 16 && 1 <= (cached - heard) % 16 <= SEQ_EXPIRE
  }

  predicate Expires(heard: nibble, uniqueId: uint16, entry: Header) {
    entry.uniqueId == uniqueId && Approaches(heard, entry.sequence)
  }

  function Expired(entries: seq<Header>, sequence: nibble, uniqueId: uint16): (r: seq<Header>)
    ensures |r| == |entries|
  {
    seq(|entries|, i requires 0 <= i < |entries| =>
      if Expires(sequence, uniqueId, entries[i]) then EMPTY else entries[i])
  }

  /** `_Update_Handled_Packet_Cache`: a packet of `uniqueId` with this sequence number was received. */
  function Hear(c: Cache, sequence: nibble, uniqueId: uint16): Cache {
    Cache(Expired(c.entries, sequence, uniqueId), c.next, c.history + [Heard(sequence, uniqueId)])
  }

  /** `_Handling_Request`: a request is being acted upon. */
  function Mark(c: Cache, header: Header): Cache
    requires c.next < |c.entries|
  {
    Cache(c.entries[c.next := header], (c.next + 1) % CACHE_LENGTH, c.history + [Handled(header)])
  }

  /** `_Filter_Packet(.., true)` refuses the request. */
  predicate Seen(c: Cache, header: Header) { header in c.entries }

  // ---- what the cache remembers, in terms of the history alone ----

  function HandledCount(h: seq<Event>): nat {
    if h == [] then 0
    else HandledCount(h[..|h| - 1]) + if h[|h| - 1].Handled? then 1 else 0
  }

  /** Some packet received from position `i` on expires `header`. */
  ghost predicate ExpiredSince(h: seq<Event>, i: nat, header: Header) {
    exists j | i <= j < |h| :: h[j].Heard? && Expires(h[j].sequence, h[j].uniqueId, header)
  }

  /** The request was handled at position `i`, fewer than eight requests have been handled since,
      and its sender has not come near its sequence number again. */
  ghost predicate RemembersFrom(h: seq<Event>, header: Header, i: nat) {
    i < |h| && h[i] == Handled(header) &&
    HandledCount(h) - HandledCount(h[..i + 1]) < CACHE_LENGTH &&
    !ExpiredSince(h, i + 1, header)
  }

  ghost predicate Remembers(h: seq<Event>, header: Header) {
    exists i :: RemembersFrom(h, header, i)
  }

  /** Position `i` of the history wrote slot `j` of the ring. */
  ghost predicate WroteSlot(h: seq<Event>, i: nat, j: nat) {
    i < |h| && HandledCount(h[..i]) % CACHE_LENGTH == j
  }

  ghost predicate SlotRemembers(h: seq<Event>, header: Header, j: nat) {
    exists i :: WroteSlot(h, i, j) && RemembersFrom(h, header, i)
  }

  /** The ring is what its history says, slot by slot. */
  ghost predicate Tracks(c: Cache) {
    |c.entries| == CACHE_LENGTH && c.next == HandledCount(c.history) % CACHE_LENGTH &&
    forall header, j | header != EMPTY && 0 <= j < CACHE_LENGTH ::
      c.entries[j] == header <==> SlotRemembers(c.history, header, j)
  }

  /** At-most-once handling: between two handlings of one request there are at least eight others,
      or the sender was heard 1 to 3 sequence numbers below. CONFLICT_NAME packets (op 1) are marked
      without being filtered, and op 0 is the mark of an empty slot. */
  ghost predicate AtMostOnce(h: seq<Event>) {
    forall i, j | 0 <= i < j < |h| && h[i] == h[j] && h[i].Handled? && h[i].header.op > 1 ::
      HandledCount(h[..j]) - HandledCount(h[..i + 1]) >= CACHE_LENGTH || ExpiredSince(h[..j], i + 1, h[i].header)
  }

  ghost predicate CacheInv(c: Cache) { Tracks(c) && AtMostOnce(c.history) }

  lemma {:induction false} CountGrows(h: seq<Event>, i: nat)
    requires i <= |h|
    ensures HandledCount(h[..i]) <= HandledCount(h)
    decreases |h|
  {
    if i == |h| {
      assert h[..i] == h;
    } else {
      assert h[..|h| - 1][..i] == h[..i];
      CountGrows(h[..|h| - 1], i);
    }
  }

  /** One more event, seen from an earlier position. */
  lemma RemembersStep(h: seq<Event>, e: Event, header: Header, i: nat)
    requires i < |h|
    ensures (h + [e])[..i + 1] == h[..i + 1] && (h + [e])[..i] == h[..i]
    ensures HandledCount(h + [e]) == HandledCount(h) + if e.Handled? then 1 else 0
    ensures ExpiredSince(h + [e], i + 1, header) <==>
              ExpiredSince(h, i + 1, header) || (e.Heard? && Expires(e.sequence, e.uniqueId, header))
  {
    hide Expires;
    var g := h + [e];
    assert g[..|h|] == h;
    if ExpiredSince(h, i + 1, header) {
      var j :| i + 1 <= j < |h| && h[j].Heard? && Expires(h[j].sequence, h[j].uniqueId, header);
      assert g[j] == h[j];
    }
    if e.Heard? && Expires(e.sequence, e.uniqueId, header) { assert g[|h|] == e; }
  }

  /** Receiving a packet makes a slot forget exactly the headers the packet expires. */
  lemma HearSlot(h: seq<Event>, sequence: nibble, uniqueId: uint16, header: Header, j: nat)
    ensures SlotRemembers(h + [Heard(sequence, uniqueId)], header, j) <==>
              SlotRemembers(h, header, j) && !Expires(sequence, uniqueId, header)
  {
    var g := h + [Heard(sequence, uniqueId)];
    if SlotRemembers(h, header, j) && !Expires(sequence, uniqueId, header) {
      var i: nat :| WroteSlot(h, i, j) && RemembersFrom(h, header, i);
      RemembersStep(h, Heard(sequence, uniqueId), header, i);
      assert WroteSlot(g, i, j) && RemembersFrom(g, header, i);
    }
    if SlotRemembers(g, header, j) {
      var i: nat :| WroteSlot(g, i, j) && RemembersFrom(g, header, i);
      RemembersStep(h, Heard(sequence, uniqueId), header, i);
      assert WroteSlot(h, i, j) && RemembersFrom(h, header, i);
    }
  }

  /** Receiving a packet keeps the ring equal to what its history says. */
  lemma HearTracks(c: Cache, sequence: nibble, uniqueId: uint16)
    requires Tracks(c)
    ensures Tracks(Hear(c, sequence, uniqueId))
  {
    var h, d := c.history, Hear(c, sequence, uniqueId);
    assert d.history[..|h|] == h;
    forall header, j | header != EMPTY && 0 <= j < CACHE_LENGTH
      ensures d.entries[j] == header <==> SlotRemembers(d.history, header, j)
    {
      HearSlot(h, sequence, uniqueId, header, j);
      assert c.entries[j] == header <==> SlotRemembers(h, header, j);
    }
  }

  /** Handling a request gives the next slot to it and changes no other slot: the one entry lost is
      the one eight handlings old. */
  lemma MarkSlot(h: seq<Event>, header: Header, other: Header, j: nat)
    requires j < CACHE_LENGTH
    ensures SlotRemembers(h + [Handled(header)], other, j) <==>
              if j == HandledCount(h) % CACHE_LENGTH then other == header else SlotRemembers(h, other, j)
  {
    var e := Handled(header);
    var g := h + [e];
    assert g[..|h|] == h && g[..|h| + 1] == g;
    if j == HandledCount(h) % CACHE_LENGTH && other == header {
      assert WroteSlot(g, |h|, j) && RemembersFrom(g, other, |h|);
    }
    if j != HandledCount(h) % CACHE_LENGTH && SlotRemembers(h, other, j) {
      var i: nat :| WroteSlot(h, i, j) && RemembersFrom(h, other, i);
      RemembersStep(h, e, other, i);
      StaysYoung(h, i, j);
      assert WroteSlot(g, i, j) && RemembersFrom(g, other, i);
    }
    if SlotRemembers(g, other, j) {
      var i: nat :| WroteSlot(g, i, j) && RemembersFrom(g, other, i);
      if i < |h| {
        RemembersStep(h, e, other, i);
        StaysYoung(h, i, j);
        assert WroteSlot(h, i, j) && RemembersFrom(h, other, i);
      }
    }
  }

  /** Writing a slot keeps the ring equal to what its history says. */
  lemma MarkTracks(c: Cache, header: Header)
    requires Tracks(c)
    ensures Tracks(Mark(c, header))
  {
    var h, d := c.history, Mark(c, header);
    assert d.history[..|h|] == h;
    forall other, j | other != EMPTY && 0 <= j < CACHE_LENGTH
      ensures d.entries[j] == other <==> SlotRemembers(d.history, other, j)
    {
      MarkSlot(h, header, other, j);
      assert c.entries[j] == other <==> SlotRemembers(h, other, j);
    }
  }

  /** A write still remembered is fewer than eight writes old, and it is the one about to be
      overwritten exactly when it is seven writes old. */
  lemma StaysYoung(h: seq<Event>, i: nat, j: nat)
    requires WroteSlot(h, i, j) && h[i].Handled?
    requires HandledCount(h) - HandledCount(h[..i + 1]) < CACHE_LENGTH
    ensures 0 <= HandledCount(h) - HandledCount(h[..i + 1])
    ensures HandledCount(h) - HandledCount(h[..i + 1]) == 7 <==> j == HandledCount(h) % CACHE_LENGTH
  {
    assert h[..i + 1][..i] == h[..i];
    CountGrows(h, i + 1);
    EightApart(HandledCount(h[..i]), HandledCount(h) - HandledCount(h[..i + 1]));
  }

  lemma EightApart(n: nat, age: nat)
    requires age < 8
    ensures age == 7 <==> (n + 1 + age) % 8 == n % 8
  {
  }

  /** Handling a request that passed the filter keeps at-most-once handling. */
  lemma MarkKeepsAtMostOnce(c: Cache, header: Header)
    requires CacheInv(c)
    requires header.op <= 1 || !Seen(c, header)
    ensures AtMostOnce(Mark(c, header).history)
  {
    var h, g := c.history, Mark(c, header).history;
    assert g[..|h|] == h;
    forall i, j | 0 <= i < j < |g| && g[i] == g[j] && g[i].Handled? && g[i].header.op > 1
      ensures HandledCount(g[..j]) - HandledCount(g[..i + 1]) >= CACHE_LENGTH || ExpiredSince(g[..j], i + 1, g[i].header)
    {
      assert g[..j] == h[..j] && g[..i + 1] == h[..i + 1];
      if j == |h| {
        assert h[..j] == h;
        SeenIsRemembered(c, header);
        assert !RemembersFrom(h, header, i);
      }
    }
  }

  lemma HearKeepsAtMostOnce(c: Cache, sequence: nibble, uniqueId: uint16)
    requires AtMostOnce(c.history)
    ensures AtMostOnce(Hear(c, sequence, uniqueId).history)
  {
    var h, g := c.history, Hear(c, sequence, uniqueId).history;
    forall i, j | 0 <= i < j < |g| && g[i] == g[j] && g[i].Handled? && g[i].header.op > 1
      ensures HandledCount(g[..j]) - HandledCount(g[..i + 1]) >= CACHE_LENGTH || ExpiredSince(g[..j], i + 1, g[i].header)
    {
      assert g[..j] == h[..j] && g[..i + 1] == h[..i + 1];
    }
  }

  lemma EmptyCacheTracks()
    ensures CacheInv(EMPTY_CACHE)
  {
  }

  /** Both steps keep the cache's invariant; marking needs a header that passed the filter. */
  lemma StepsKeepInv(c: Cache, header: Header, sequence: nibble, uniqueId: uint16)
    requires CacheInv(c)
    ensures CacheInv(Hear(c, sequence, uniqueId))
    ensures header.op <= 1 || !Seen(c, header) ==> CacheInv(Mark(c, header))
  {
    HearTracks(c, sequence, uniqueId);
    HearKeepsAtMostOnce(c, sequence, uniqueId);
    if header.op <= 1 || !Seen(c, header) {
      MarkTracks(c, header);
      MarkKeepsAtMostOnce(c, header);
    }
  }

  /** The filter, exactly: a request is refused if and only if its header was handled, fewer than
      eight requests have been handled since, and its sender has not been heard 1 to 3 below it since. */
  lemma SeenIsRemembered(c: Cache, header: Header)
    requires Tracks(c) && header != EMPTY
    ensures Seen(c, header) <==> Remembers(c.history, header)
  {
    if Seen(c, header) {
      var j :| 0 <= j < CACHE_LENGTH && c.entries[j] == header;
      assert SlotRemembers(c.history, header, j);
    }
    if Remembers(c.history, header) {
      var i: nat :| RemembersFrom(c.history, header, i);
      var j := HandledCount(c.history[..i]) % CACHE_LENGTH;
      assert WroteSlot(c.history, i, j);
      assert SlotRemembers(c.history, header, j);
    }
  }

  /** A fresh request is never suppressed: if its sender was heard 1 to 3 below after the last time
      this header was handled, the request passes. */
  lemma FreshRequestPasses(c: Cache, header: Header, heardAt: nat)
    requires Tracks(c) && header != EMPTY
    requires heardAt < |c.history| && c.history[heardAt].Heard?
    requires Expires(c.history[heardAt].sequence, c.history[heardAt].uniqueId, header)
    requires forall i | heardAt < i < |c.history| :: c.history[i] != Handled(header)
    ensures !Seen(c, header)
  {
    SeenIsRemembered(c, header);
    forall i: nat | i < |c.history| && c.history[i] == Handled(header)
      ensures ExpiredSince(c.history, i + 1, header)
    {
      assert i + 1 <= heardAt;
    }
  }

  /** The numbers of a sender's packets as received: increasing, none of them three or more apart,
      i.e. with no three consecutive packets lost. */
  predicate InOrder(numbers: seq<nat>) {
    forall k | 0 <= k < |numbers| - 1 :: numbers[k] < numbers[k + 1] <= numbers[k] + SEQ_EXPIRE
  }

  /** In an in-order stream, before a sender reuses a sequence number (16 packets later) one of its
      packets with a number 1 to 3 below has been received. */
  lemma {:induction false} InOrderStreamExpires(numbers: seq<nat>, reuse: nat) returns (k: nat)
    requires InOrder(numbers) && |numbers| >= 2
    requires numbers[0] + 16 == reuse && numbers[|numbers| - 1] == reuse
    ensures 0 < k < |numbers| - 1 && reuse - SEQ_EXPIRE <= numbers[k] < reuse
    ensures Approaches(numbers[k] % 16, reuse % 16)
  {
    k := |numbers| - 2;
    assert numbers[k] < numbers[k + 1] <= numbers[k] + SEQ_EXPIRE;
    var y := reuse - numbers[k];
    assert (numbers[k] % 16 + y) % 16 == reuse % 16;
  }

  /** The sender's packets with these numbers were received, in order, at these points of the history. */
  predicate ReceivedAt(h: seq<Event>, uniqueId: uint16, numbers: seq<nat>, points: seq<nat>) {
    |points| == |numbers| && (forall k | 0 <= k < |points| :: points[k] < |h|) &&
    (forall k | 0 <= k < |points| :: h[points[k]] == Heard(numbers[k] % 16, uniqueId)) &&
    forall k | 0 <= k < |points| - 1 :: points[k] < points[k + 1]
  }

  /** In an in-order stream no fresh request is suppressed: a request that reuses a sequence number passes
      the filter, if the request that had it before was last handled before the sender's next packet. */
  lemma InOrderRequestPasses(c: Cache, header: Header, numbers: seq<nat>, points: seq<nat>)
    requires Tracks(c) && header != EMPTY && InOrder(numbers) && |numbers| >= 2
    requires numbers[0] + 16 == numbers[|numbers| - 1] && header.sequence == numbers[0] % 16
    requires ReceivedAt(c.history, header.uniqueId, numbers, points)
    requires forall i | points[1] <= i < |c.history| :: c.history[i] != Handled(header)
    ensures !Seen(c, header)
  {
    hide Tracks, Seen, InOrder;
    var reuse := numbers[|numbers| - 1];
    var k := InOrderStreamExpires(numbers, reuse);
    SameNibble(numbers[0], reuse);
    PointsAscend(c.history, header.uniqueId, numbers, points, k);
    FreshRequestPasses(c, header, points[k]);
  }

  lemma SameNibble(a: nat, b: nat)
    requires a + 16 == b
    ensures b % 16 == a % 16
  {
  }

  lemma {:induction false} PointsAscend(h: seq<Event>, uniqueId: uint16, numbers: seq<nat>, points: seq<nat>, k: nat)
    requires ReceivedAt(h, uniqueId, numbers, points) && 1 <= k < |points|
    ensures points[1] <= points[k]
  {
    if k > 1 { PointsAscend(h, uniqueId, numbers, points, k - 1); }
  }

  class HandledPacketCache {
    const entries: array<Header>
    var next: nat
    ghost var history: seq<Event>

    ghost predicate Valid()
      reads this, entries
    {
      entries.Length == 8 && next < 8 && CacheInv(Contents())
    }

    ghost function Contents(): Cache
      reads this, entries
    {
      Cache(entries[..], next, history)
    }

    constructor ()
      ensures Valid() && fresh(entries)
      ensures Contents() == EMPTY_CACHE
    {
      entries := new Header[8](i => EMPTY);
      next, history := 0, [];
      new;
      assert entries[..] == EMPTY_CACHE.entries;
      EmptyCacheTracks();
    }

    method NoteReceived(sequence: nibble, uniqueId: uint16)
      requires Valid()
      modifies this, entries
      ensures Valid()
      ensures Contents() == Hear(old(Contents()), sequence, uniqueId)
    {
      HearTracks(Contents(), sequence, uniqueId);
      HearKeepsAtMostOnce(Contents(), sequence, uniqueId);
      ghost var was := entries[..];
      for x := 0 to entries.Length
        invariant forall i | 0 <= i < x :: entries[i] == Expired(was, sequence, uniqueId)[i]
        invariant forall i | x <= i < entries.Length :: entries[i] == was[i]
        modifies entries
      {
        if entries[x].uniqueId == uniqueId {
          var hit := false;
          for y := 1 to SEQ_EXPIRE + 1
            invariant hit <==> was[x].sequence < 16 && 1 <= (was[x].sequence - sequence) % 16 < y
          {
            if (sequence + y) % 16 == entries[x].sequence { hit := true; }
          }
          if hit { entries[x] := EMPTY; }
        }
      }
      assert entries[..] == Expired(was, sequence, uniqueId);
      history := history + [Heard(sequence, uniqueId)];
    }

    method MarkHandled(header: Header)
      requires Valid()
      requires header.op <= 1 || !Seen(Contents(), header)
      modifies this, entries
      ensures Valid()
      ensures Contents() == Mark(old(Contents()), header)
    {
      MarkTracks(Contents(), header);
      MarkKeepsAtMostOnce(Contents(), header);
      entries[next] := header;
      next := (next + 1) % CACHE_LENGTH;
      history := history + [Handled(header)];
    }

    method HasSeen(header: Header) returns (seen: bool)
      requires Valid()
      ensures seen <==> Seen(Contents(), header)
    {
      for x := 0 to entries.Length
        invariant header !in entries[..x]
      {
        if entries[x] == header { return true; }
      }
      assert entries[..entries.Length] == entries[..];
      seen := false;
    }
  }
}
