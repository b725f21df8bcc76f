/** The response-repeat ring: recent responses, as 4-byte summaries, each repeated a fixed number of
    times, the least repeated first. */
module Responses {
  import opened Bytes

  const RESPONSE_SLOTS := 4
  const RESPONSE_CAP := 2  // the source bounds this ring by the size constant of the relay ring
  const MAX_REPEAT := 6

  datatype Summary = Summary(op: byte, count: byte, sequence: byte, data: byte)

  const NO_SUMMARY := Summary(0, 0, 0, 0)

  /** `repeats` and `popped` are histories kept by no C variable: how often each response ever queued
      has been repeated, in queuing order, and how many of them have left the ring. */
  datatype Queue = Queue(
    slots: seq<Summary>,
    start: nat,
    end: nat,
    size: nat,
    lastSent: uint32,
    repeats: seq<nat>,
    popped: nat)

  const EMPTY_QUEUE := Queue([NO_SUMMARY, NO_SUMMARY, NO_SUMMARY, NO_SUMMARY], 0, 0, 0, 0, [], 0)

  /** `(start + k) % RESPONSE_SLOTS` */
  function Slot(start: nat, k: nat): (i: nat)
    requires start < RESPONSE_SLOTS && k <= RESPONSE_SLOTS
    ensures i < RESPONSE_SLOTS
  {
    if start + k < RESPONSE_SLOTS then start + k else start + k - RESPONSE_SLOTS
  }

  predicate Shaped(q: Queue) {
    |q.slots| == RESPONSE_SLOTS && q.start < RESPONSE_SLOTS && q.size <= RESPONSE_SLOTS &&
    q.end == Slot(q.start, q.size)
  }

  /** The `k`-th oldest entry. */
  function Live(q: Queue, k: nat): Summary
    requires Shaped(q) && k <= RESPONSE_SLOTS
  {
    q.slots[Slot(q.start, k)]
  }

  /** `_Append_Response_Repeat`; the data byte is left over from the slot's last use when the
      operation has none. */
  function Append(q: Queue, op: byte, sequence: byte, data: byte, setsData: bool): (r: Queue)
    requires Shaped(q)
    ensures Shaped(r) && (QueueInv(q) ==> QueueInv(r))
  {
    AppendKeepsInv(q, op, sequence, data, setsData);
    if q.size == RESPONSE_CAP || q.size == RESPONSE_SLOTS then q
    else q.(slots := q.slots[q.end := Summary(op, 0, sequence, if setsData then data else q.slots[q.end].data)],
            end := Slot(q.end, 1), size := q.size + 1, repeats := q.repeats + [0])
  }

  /** The scan for the fewest repeats, from the `x`-th oldest entry on, `best` so far. */
  function Scan(q: Queue, x: nat, best: nat): (c: nat)
    requires Shaped(q) && best < RESPONSE_SLOTS
    ensures c < RESPONSE_SLOTS
    decreases q.size - x
  {
    if x >= q.size then best
    else Scan(q, x + 1, if Live(q, x).count < Live(q, best).count then x else best)
  }

  /** The age rank of the entry repeated next. */
  function Chosen(q: Queue): (c: nat)
    requires Shaped(q)
    ensures c < RESPONSE_SLOTS
  {
    Scan(q, 1, 0)
  }

  function Bumped(s: Summary): Summary { s.(count := (s.count + 1) % 0x100) }

  function PopOldest(q: Queue): Queue
    requires Shaped(q) && q.size > 0
  {
    q.(start := Slot(q.start, 1), size := q.size - 1, popped := q.popped + 1)
  }

  /** Counts one repeat of the chosen entry. */
  function Count(q: Queue, now: uint32): Queue
    requires Shaped(q)
  {
    var k := Chosen(q);
    var i := Slot(q.start, k);
    q.(slots := q.slots[i := Bumped(q.slots[i])], lastSent := now,
       repeats := if q.popped + k < |q.repeats| then q.repeats[q.popped + k := q.repeats[q.popped + k] + 1]
                  else q.repeats)
  }

  /** One repeat: the chosen entry is counted, and the oldest leaves once repeated often enough. */
  function Repeat(q: Queue, now: uint32): Queue
    requires Shaped(q) && q.size > 0
  {
    var c := Count(q, now);
    if Live(c, 0).count >= MAX_REPEAT then PopOldest(c) else c
  }

  /** The counts in the ring are the true numbers of repeats, and every response that left was
      repeated exactly six times. */
  predicate Accounted(q: Queue)
    requires Shaped(q)
  {
    |q.repeats| == q.popped + q.size &&
    (forall t | 0 <= t < q.popped :: q.repeats[t] == MAX_REPEAT) &&
    (forall k | 0 <= k < q.size :: q.repeats[q.popped + k] == Live(q, k).count)
  }

  /** Older responses have been repeated at least as often as newer ones; none is due to leave. */
  predicate Fair(q: Queue)
    requires Shaped(q)
  {
    (forall k | 0 <= k < q.size :: Live(q, k).count < MAX_REPEAT) &&
    (forall k | 0 < k < q.size :: Live(q, k).count <= Live(q, k - 1).count)
  }

  predicate QueueInv(q: Queue) {
    Shaped(q) && Accounted(q) && Fair(q)
  }

  /** Restarts the repeat timer. */
  function Stamp(q: Queue, now: uint32): (r: Queue)
    ensures QueueInv(q) ==> QueueInv(r)
  {
    StampKeepsInv(q, now);
    q.(lastSent := now)
  }

  lemma StampKeepsInv(q: Queue, now: uint32)
    ensures QueueInv(q) ==> QueueInv(q.(lastSent := now))
  {
    var r := q.(lastSent := now);
    assert Shaped(q) ==> forall k | 0 <= k < q.size :: Live(r, k) == Live(q, k);
  }

  /** Repeats still owed to the responses in the ring. */
  function Owed(q: Queue, k: nat): int
    requires Shaped(q) && k <= q.size
    decreases q.size - k
  {
    if k == q.size then 0 else MAX_REPEAT - Live(q, k).count + Owed(q, k + 1)
  }

  /** A response is queued behind the others, not repeated yet; with two queued it is dropped. */
  lemma AppendIsNewest(q: Queue, op: byte, sequence: byte, data: byte, setsData: bool)
    requires Shaped(q)
    ensures q.size == RESPONSE_CAP || q.size == RESPONSE_SLOTS ==> Append(q, op, sequence, data, setsData) == q
    ensures q.size != RESPONSE_CAP && q.size < RESPONSE_SLOTS ==>
              var r := Append(q, op, sequence, data, setsData);
              r.size == q.size + 1 && r.start == q.start &&
              Live(r, q.size) == Summary(op, 0, sequence, if setsData then data else Live(q, q.size).data) &&
              forall k | 0 <= k < q.size :: Live(r, k) == Live(q, k)
  {
  }

  /** Queuing a fresh response behind the others keeps the ring in order. */
  lemma AppendKeepsInv(q: Queue, op: byte, sequence: byte, data: byte, setsData: bool)
    requires Shaped(q)
    ensures q.size < RESPONSE_SLOTS ==>
              var r := q.(slots := q.slots[q.end := Summary(op, 0, sequence, if setsData then data else q.slots[q.end].data)],
                          end := Slot(q.end, 1), size := q.size + 1, repeats := q.repeats + [0]);
              Shaped(r) && (QueueInv(q) ==> QueueInv(r))
  {
    if q.size < RESPONSE_SLOTS && QueueInv(q) {
      var r := q.(slots := q.slots[q.end := Summary(op, 0, sequence, if setsData then data else q.slots[q.end].data)],
                  end := Slot(q.end, 1), size := q.size + 1, repeats := q.repeats + [0]);
      assert forall k | 0 <= k < q.size :: Live(r, k) == Live(q, k);
      assert Live(r, q.size).count == 0;
    }
  }

  /** The chosen entry is the oldest of the least repeated. */
  lemma {:induction false} ScanFinds(q: Queue, x: nat, best: nat)
    requires Shaped(q) && best < x <= q.size
    requires forall k | 0 <= k < x :: Live(q, best).count <= Live(q, k).count
    requires forall k | 0 <= k < best :: Live(q, best).count < Live(q, k).count
    ensures var c := Scan(q, x, best);
            c < q.size && (forall k | 0 <= k < q.size :: Live(q, c).count <= Live(q, k).count) &&
            forall k | 0 <= k < c :: Live(q, c).count < Live(q, k).count
    decreases q.size - x
  {
    if x < q.size {
      ScanFinds(q, x + 1, if Live(q, x).count < Live(q, best).count then x else best);
    }
  }

  lemma ChosenIsOldestLeast(q: Queue)
    requires Shaped(q) && q.size > 0
    ensures var c := Chosen(q);
            c < q.size && (forall k | 0 <= k < q.size :: Live(q, c).count <= Live(q, k).count) &&
            forall k | 0 <= k < c :: Live(q, c).count < Live(q, k).count
  {
    ScanFinds(q, 1, 0);
  }

  /** Counting changes the chosen entry only. */
  lemma CountChanges(q: Queue, now: uint32, k: nat)
    requires QueueInv(q) && k < q.size
    ensures Shaped(Count(q, now))
    ensures Live(Count(q, now), k) == if k == Chosen(q) then Bumped(Live(q, k)) else Live(q, k)
  {
    ChosenIsOldestLeast(q);
  }

  lemma CountIsAccounted(q: Queue, now: uint32)
    requires QueueInv(q) && q.size > 0
    ensures Shaped(Count(q, now)) && Accounted(Count(q, now))
  {
    ChosenIsOldestLeast(q);
    var c := Count(q, now);
    forall k | 0 <= k < q.size ensures c.repeats[c.popped + k] == Live(c, k).count {
      CountChanges(q, now, k);
      assert q.repeats[q.popped + k] == Live(q, k).count;
    }
  }

  lemma CountIsFair(q: Queue, now: uint32, k: nat)
    requires QueueInv(q) && k < q.size
    ensures Shaped(Count(q, now))
    ensures k > 0 ==> Live(Count(q, now), k).count <= Live(Count(q, now), k - 1).count
    ensures Live(Count(q, now), k).count < MAX_REPEAT || (k == 0 && Live(Count(q, now), k).count == MAX_REPEAT)
  {
    ChosenEndsPlateau(q);
    CountChanges(q, now, k);
    if k > 0 { CountChanges(q, now, k - 1); }
  }

  /** Behind the chosen entry all are equally often repeated, so choosing it keeps the order. */
  lemma ChosenEndsPlateau(q: Queue)
    requires QueueInv(q) && q.size > 0
    ensures Chosen(q) > 0 ==> Live(q, Chosen(q)).count < Live(q, Chosen(q) - 1).count
  {
    ChosenIsOldestLeast(q);
  }

  /** One repeat keeps the ring fair and accounted for: no response leaves early or late. */
  lemma RepeatKeepsInv(q: Queue, now: uint32)
    requires QueueInv(q) && q.size > 0
    ensures QueueInv(Repeat(q, now))
  {
    var c, r := Count(q, now), Repeat(q, now);
    CountIsAccounted(q, now);
    forall k | 0 <= k < c.size
      ensures k > 0 ==> Live(c, k).count <= Live(c, k - 1).count
      ensures Live(c, k).count < MAX_REPEAT || (k == 0 && Live(c, k).count == MAX_REPEAT)
    {
      CountIsFair(q, now, k);
    }
    if r != c { PopKeepsInv(c); }
  }

  lemma PopKeepsInv(c: Queue)
    requires Shaped(c) && c.size > 0 && Accounted(c) && Live(c, 0).count == MAX_REPEAT
    requires forall k | 0 < k < c.size :: Live(c, k).count < MAX_REPEAT && Live(c, k).count <= Live(c, k - 1).count
    ensures QueueInv(PopOldest(c))
  {
    var r := PopOldest(c);
    assert c.repeats[c.popped + 0] == MAX_REPEAT;
    forall k | 0 <= k < r.size
      ensures Live(r, k) == Live(c, k + 1) && r.repeats[r.popped + k] == Live(r, k).count
    {
      assert c.repeats[c.popped + (k + 1)] == Live(c, k + 1).count;
    }
  }

  lemma {:induction false} CountOwed(q: Queue, now: uint32, k: nat)
    requires QueueInv(q) && k <= q.size
    ensures Shaped(Count(q, now)) && Count(q, now).size == q.size
    ensures Owed(Count(q, now), k) == Owed(q, k) - if k <= Chosen(q) < q.size then 1 else 0
    decreases q.size - k
  {
    if k < q.size {
      CountOwed(q, now, k + 1);
      CountChanges(q, now, k);
    }
  }

  lemma {:induction false} PopOwed(q: Queue, k: nat)
    requires Shaped(q) && q.size > 0 && k < q.size
    ensures Owed(PopOldest(q), k) == Owed(q, k + 1)
    decreases q.size - k
  {
    if k < q.size - 1 {
      PopOwed(q, k + 1);
      assert Live(PopOldest(q), k) == Live(q, k + 1);
    }
  }

  /** Every repeat pays off exactly one of the repeats owed, so repeating ends. */
  lemma RepeatPaysOne(q: Queue, now: uint32)
    requires QueueInv(q) && q.size > 0
    ensures Owed(Repeat(q, now), 0) == Owed(q, 0) - 1
    ensures Owed(Repeat(q, now), 0) >= 0
  {
    ChosenIsOldestLeast(q);
    CountOwed(q, now, 0);
    CountIsFair(q, now, 0);
    var c, r := Count(q, now), Repeat(q, now);
    if r != c {
      PopOwed(c, 0);
      assert Live(c, 0).count == MAX_REPEAT;
    }
    RepeatKeepsInv(q, now);
    OwedIsNat(r, 0);
  }

  lemma {:induction false} OwedIsNat(q: Queue, k: nat)
    requires QueueInv(q) && k <= q.size
    ensures Owed(q, k) >= 0
    decreases q.size - k
  {
    if k < q.size { OwedIsNat(q, k + 1); }
  }

  class ResponseRing {
    const slots: array<Summary>
    var start: nat
    var end: nat
    var size: nat
    var lastSent: uint32
    ghost var repeats: seq<nat>
    ghost var popped: nat

    ghost predicate Valid()
      reads this, slots
    {
      slots.Length == 4 && size <= RESPONSE_CAP && QueueInv(Contents())
    }

    ghost function Contents(): Queue
      reads this, slots
    {
      Queue(slots[..], start, end, size, lastSent, repeats, popped)
    }

    constructor ()
      ensures Valid() && fresh(slots)
      ensures Contents() == EMPTY_QUEUE
    {
      slots := new Summary[4](i => NO_SUMMARY);
      start, end, size, lastSent := 0, 0, 0, 0;
      repeats, popped := [], 0;
      new;
      assert slots[..] == EMPTY_QUEUE.slots;
    }

    method SetLastSent(now: uint32)
      requires Valid()
      modifies this`lastSent
      ensures Valid()
      ensures Contents() == Stamp(old(Contents()), now)
    {
      lastSent := now;
      assert Contents() == Stamp(old(Contents()), now);
    }

    method AppendSummary(op: byte, sequence: byte, data: byte, setsData: bool)
      requires Valid()
      modifies this, slots
      ensures Valid()
      ensures Contents() == Append(old(Contents()), op, sequence, data, setsData)
    {
      if size == RESPONSE_CAP { return; }
      slots[end] := Summary(op, 0, sequence, if setsData then data else slots[end].data);
      end := (end + 1) % RESPONSE_SLOTS;
      size := size + 1;
      repeats := repeats + [0];
      assert Contents() == Append(old(Contents()), op, sequence, data, setsData);
    }

    /** The slot of the entry to repeat next. */
    method SelectSlot() returns (element: nat)
      requires Valid() && size > 0
      ensures element < slots.Length
      ensures element == Slot(start, Chosen(Contents()))
    {
      element := start;
      ghost var best := 0;
      for x := 1 to size
        invariant best < x && element == Slot(start, best)
        invariant Scan(Contents(), x, best) == Chosen(Contents())
      {
        var index := (start + x) % RESPONSE_SLOTS;
        if slots[index].count < slots[element].count {
          element, best := index, x;
        }
      }
    }

    method CountRepeat(element: nat, now: uint32)
      requires Valid() && size > 0 && element == Slot(start, Chosen(Contents()))
      modifies this, slots
      ensures Valid()
      ensures Contents() == Repeat(old(Contents()), now)
    {
      ChosenIsOldestLeast(Contents());
      RepeatKeepsInv(Contents(), now);
      ghost var k := Chosen(Contents());
      lastSent := now;
      repeats := repeats[popped + k := repeats[popped + k] + 1];
      slots[element] := Bumped(slots[element]);
      assert Contents() == Count(old(Contents()), now);
      if slots[start].count >= MAX_REPEAT { Pop(); }
    }

    /** Drops the oldest entry. */
    method Pop()
      requires Shaped(Contents()) && size > 0
      modifies this
      ensures Contents() == PopOldest(old(Contents()))
    {
      start := (start + 1) % RESPONSE_SLOTS;
      size := size - 1;
      popped := popped + 1;
    }
  }
}
