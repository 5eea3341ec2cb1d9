/** The event queue: a ring of `size` slots, written in turn whether or not the
    events in them have been read. Every event carries its sequence number, from
    which a reader sees whether its slot holds the event it is looking for, an
    older one (nothing new yet) or a newer one (it came too late).

    The counters are C `unsigned long` and wrap at 2^64. Beside them the proof
    keeps the numbers they would be without wrapping. */
module EventQueue {
  import opened Arithmetic

  const WORD: nat := 0x1_0000_0000_0000_0000
  const HALF: nat := 0x8000_0000_0000_0000
  const UINT: nat := 0x1_0000_0000

  function Wrap(n: nat): nat { n % WORD }

  lemma WrapNext(n: nat)
    ensures Wrap(Wrap(n) + 1) == Wrap(n + 1)
  {
  }

  /** `LNET_SEQ_GT`: the difference, taken as a signed word, is positive. */
  predicate SeqGt(a: nat, b: nat) {
    0 < (a - b) % WORD < HALF
  }

  /** What a reader may find. */
  datatype Verdict = Nothing | Next | Overflow

  /** How the code decides, from the wrapped counter and the slot's number. */
  function Decide(deq: nat, sequence: nat): Verdict {
    if SeqGt(deq, sequence) then Nothing else if deq == sequence then Next else Overflow
  }

  /** What is true of the numbers themselves. */
  function Truth(deq: nat, sequence: nat): Verdict {
    if sequence < deq then Nothing else if sequence == deq then Next else Overflow
  }

  /** The wrapped comparison tells the truth exactly when the slot is less than
      half a word ahead of or behind the reader, whole words apart. */
  lemma DecideExact(d: nat, n: nat)
    ensures Decide(Wrap(d), Wrap(n)) == Truth(d, n) <==>
            && (n < d ==> 0 < (d - n) % WORD < HALF)
            && (n > d ==> 0 < (n - d) % WORD <= HALF)
  {
    var a, b := d % WORD, n % WORD;
    assert (a - b) % WORD == (d - n) % WORD;
    assert n > d ==> (d - n) % WORD == (if (n - d) % WORD == 0 then 0 else WORD - (n - d) % WORD);
    assert a == b <==> (d - n) % WORD == 0;
  }

  /** So it does while the backlog is less than half the range of the counters. */
  lemma DecideNear(d: nat, n: nat)
    requires n < d + HALF && d < n + HALF
    ensures Decide(Wrap(d), Wrap(n)) == Truth(d, n)
  {
  }

  // ---------------------------------------------------------------- allocation

  /** The least power of two that is not less than `n`. */
  ghost predicate RoundedUp(n: nat, r: nat) {
    (exists k: nat :: r == Pow2(k)) && n <= r && (r == 1 || r < 2 * n)
  }

  /** `roundup_pow_of_two`. */
  method RoundUpPow2(n: nat) returns (r: nat, ghost k: nat)
    requires n > 0
    ensures r == Pow2(k) && RoundedUp(n, r)
  {
    r, k := 1, 0;
    while r < n
      invariant r == Pow2(k) && (r == 1 || r < 2 * n)
      decreases n - r
    {
      r, k := 2 * r, k + 1;
    }
  }

  /** The size `LNetEQAlloc` gives a queue for `count` events, or none for a
      queue that could neither hold events nor call back. Rounding up more than
      2^31 leaves nothing in the `unsigned int` that takes it. */
  method SizeFor(count: nat, callback: bool) returns (size: nat, ok: bool)
    requires count < UINT
    ensures ok <==> callback || 0 < count <= UINT / 2
    ensures if 0 < count <= UINT / 2 then RoundedUp(count, size) && size <= UINT / 2 else size == 0
  {
    size := count;
    if count > 0 {
      ghost var k: nat;
      size, k := RoundUpPow2(count);
      BigPowers(k);
      size := size % UINT;
    }
    ok := size != 0 || callback;
  }

  lemma BigPowers(k: nat)
    ensures k <= 31 ==> Pow2(k) <= UINT / 2
    ensures k == 32 ==> Pow2(k) == UINT
    ensures k >= 33 ==> Pow2(k) >= 2 * UINT
  {
    Pow2Is32();
    if k <= 31 {
      Pow2Adds(k, 31 - k);
      Pow2Grows(k, 31);
    } else if k >= 33 {
      Pow2Grows(33, k);
    }
  }

  lemma {:induction false} Pow2Grows(j: nat, k: nat)
    requires j <= k
    ensures Pow2(j) <= Pow2(k)
    decreases k
  {
    if j < k {
      Pow2Grows(j, k - 1);
    }
  }

  lemma Pow2Is16()
    ensures Pow2(15) == 0x8000 && Pow2(16) == 0x1_0000
  {
    assert Pow2(4) == 16;
    Pow2Adds(4, 4);
    Pow2Adds(8, 7);
    assert Pow2(7) == 128 by {
      Pow2Adds(4, 3);
    }
  }

  lemma Pow2Is32()
    ensures Pow2(31) == UINT / 2 && Pow2(32) == UINT && Pow2(33) == 2 * UINT && Pow2(64) == WORD
  {
    Pow2Is16();
    Pow2Adds(16, 15);
    Pow2Adds(32, 32);
    assert Pow2(16) == 2 * Pow2(15) && Pow2(32) == 2 * Pow2(31);
  }

  // ---------------------------------------------------------------- the ring

  datatype Slot = Slot(sequence: nat, event: nat)

  /** `sequence & (size - 1)` for a power of two `size`. */
  function SlotOf(size: nat, sequence: nat): nat {
    if size == 0 then 0 else sequence % size
  }

  /** `last[i]` is the unwrapped number of the newest event in slot `i`, 0 if
      there was none; `next` the number of the next event. */
  ghost predicate Newest(size: nat, next: nat, last: seq<nat>) {
    && |last| == size > 0 && next > 0
    && (forall i :: 0 <= i < size ==> last[i] < next && (last[i] > 0 ==> SlotOf(size, last[i]) == i))
    && (forall k :: 0 < k < next ==> SlotOf(size, k) < size && k <= last[SlotOf(size, k)])
  }

  lemma NewestNext(size: nat, next: nat, last: seq<nat>)
    requires Newest(size, next, last)
    ensures SlotOf(size, next) < size && Newest(size, next + 1, last[SlotOf(size, next) := next])
  {
  }

  /** `b` is whole rounds of the ring after `a`. */
  predicate RoundsAfter(size: nat, a: nat, b: nat) {
    0 < size <= b - a && (b - a) % size == 0
  }

  /** What the reader finds in the slot of number `d`: an older event exactly when
      there is no number `d` yet, number `d` itself exactly when it is among the
      last `size` events, and otherwise one whole rounds later. */
  lemma Found(size: nat, next: nat, last: seq<nat>, d: nat)
    requires Newest(size, next, last) && 0 < d <= next
    ensures SlotOf(size, d) < size
    ensures var n := last[SlotOf(size, d)];
            && (n < d <==> d == next) && (n == d <==> d < next <= d + size) && (n > d <==> next > d + size)
            && (n < d ==> d <= n + size) && (n > d ==> RoundsAfter(size, d, n))
            && n < next && (d < next ==> n > 0)
  {
    QuotRem(d, size);
    var n := last[SlotOf(size, d)];
    if n >= d {
      SameMod(d, n, size);
    }
    AddMod(d, size);
    if next > d + size {
      assert d + size <= last[SlotOf(size, d + size)];
    }
    if d == next && d > size {
      AddMod(d - size, size);
      assert d - size <= last[SlotOf(size, d - size)];
    }
  }

  /** The slot of a wrapped counter is that of the number. */
  lemma WrappedSlot(x: nat, bits: nat)
    requires bits <= 64
    ensures SlotOf(Pow2(bits), Wrap(x)) == SlotOf(Pow2(bits), x)
  {
    Pow2Is32();
    Pow2Adds(bits, 64 - bits);
    ModMod(x, Pow2(bits), Pow2(64 - bits));
  }

  /** How far ahead of the reader its slot is: whole rounds of the ring. */
  function Ahead(size: nat, backlog: nat): nat {
    if size == 0 || backlog == 0 then 0 else Product((backlog - 1) / size, size); (backlog - 1) / size * size
  }

  lemma AheadIs(size: nat, next: nat, last: seq<nat>, d: nat)
    requires Newest(size, next, last) && 0 < d < next
    ensures SlotOf(size, d) < size && last[SlotOf(size, d)] == d + Ahead(size, next - d)
  {
    Found(size, next, last, d);
    var n, b := last[SlotOf(size, d)], next - d - 1;
    QuotRem(b, size);
    SlotRounds(size, d, b / size);
    NoOlder(size, next, last, d + b / size * size);
    hide Newest, SlotOf;
    Rounds(size, n - d, b);
  }

  lemma NoOlder(size: nat, next: nat, last: seq<nat>, k: nat)
    requires Newest(size, next, last) && 0 < k < next
    ensures SlotOf(size, k) < size == |last| && k <= last[SlotOf(size, k)]
  {
  }

  /** The only multiple of `size` between the last one up to `b` and `b`. */
  lemma Rounds(size: nat, x: nat, b: nat)
    requires size > 0 && x % size == 0 && b / size * size <= x <= b
    ensures x == b / size * size
  {
    QuotRem(x, size);
    QuotRem(b, size);
    Apart(size, b / size, x / size);
    Apart(size, x / size, b / size);
  }

  lemma SlotRounds(size: nat, d: nat, q: nat)
    requires size > 0
    ensures q * size >= 0 && SlotOf(size, d + q * size) == SlotOf(size, d)
  {
    Product(q, size);
    QuotRem(d, size);
    assert d + q * size == (d / size + q) * size + d % size;
    DivUnique(d + q * size, size, d / size + q, d % size);
  }

  /** The verdict of a reader of a queue is right exactly when what it finds is less
      than a round ahead, or no more than half the range ahead, whole ranges apart. */
  lemma VerdictExact(size: nat, next: nat, last: seq<nat>, d: nat)
    requires Newest(size, next, last) && 0 < d <= next && size < HALF
    ensures SlotOf(size, d) < size
    ensures var n, ahead := last[SlotOf(size, d)], Ahead(size, next - d);
            Decide(Wrap(d), Wrap(n)) == Truth(d, n) <==> ahead == 0 || 0 < ahead % WORD <= HALF
  {
    Found(size, next, last, d);
    hide Newest, Decide, Wrap, RoundsAfter, SlotOf;
    var n := last[SlotOf(size, d)];
    if d < next {
      AheadIs(size, next, last, d);
      hide Ahead;
      DecideExact(d, n);
    } else {
      DecideNear(d, n);
    }
  }

  lemma {:induction false} SomeRing(size: nat, next: nat) returns (last: seq<nat>)
    requires size > 0 && next > 0
    ensures Newest(size, next, last)
    decreases next
  {
    if next == 1 {
      last := seq(size, _ => 0);
    } else {
      last := SomeRing(size, next - 1);
      NewestNext(size, next - 1, last);
      last := last[SlotOf(size, next - 1) := next - 1];
    }
  }

  /** It is wrong in queues of every size and wherever the reader is: a whole range
      behind it finds what it takes for the next event, and more than half the
      range behind it takes a later event for none. */
  lemma DecideFar(bits: nat, d: nat) returns (whole: seq<nat>, half: seq<nat>)
    requires bits <= 31 && d > 0
    ensures var size := Pow2(bits);
            && Newest(size, d + WORD + 1, whole) && SlotOf(size, d) < size
            && Decide(Wrap(d), Wrap(whole[SlotOf(size, d)])) == Next
            && Newest(size, d + HALF + size + 1, half)
            && Decide(Wrap(d), Wrap(half[SlotOf(size, d)])) == Nothing
  {
    var size := Pow2(bits);
    whole := SomeRing(size, d + WORD + 1);
    half := SomeRing(size, d + HALF + size + 1);
    AheadIs(size, d + WORD + 1, whole, d);
    AheadIs(size, d + HALF + size + 1, half, d);
    AheadWhole(bits);
    BigPowers(bits);
    hide Newest, SlotOf, Wrap, Decide, Ahead, Pow2;
    FarNumbers(d, size);
  }

  lemma FarNumbers(d: nat, x: nat)
    requires 0 < x < HALF
    ensures Decide(Wrap(d), Wrap(d + WORD)) == Next && Decide(Wrap(d), Wrap(d + HALF + x)) == Nothing
  {
    assert (d % WORD - (d + HALF + x) % WORD) % WORD == (0 - HALF - x) % WORD == HALF - x;
  }

  lemma AheadWhole(bits: nat)
    requires bits <= 31
    ensures Ahead(Pow2(bits), WORD + 1) == WORD
    ensures Ahead(Pow2(bits), HALF + Pow2(bits) + 1) == HALF + Pow2(bits)
  {
    var size := Pow2(bits);
    Pow2Is32();
    Pow2Adds(64 - bits, bits);
    Pow2Adds(63 - bits, bits);
    assert Pow2(64) == 2 * Pow2(63);
    DivUnique(WORD, size, Pow2(64 - bits), 0);
    assert (Pow2(63 - bits) + 1) * size == Pow2(63 - bits) * size + size;
    DivUnique(HALF + size, size, Pow2(63 - bits) + 1, 0);
  }

  class Queue {
    const size: nat
    var events: array<Slot>
    var enq: nat
    var deq: nat
    /** Unwrapped: the numbers of the next event to come and to be read, what is
        in each slot, and all events so far, event number `n` being `log[n - 1]`. */
    ghost const bits: nat
    ghost var next: nat
    ghost var read: nat
    ghost var last: seq<nat>
    ghost var log: seq<nat>

    ghost predicate Valid()
      reads this, events
    {
      && bits <= 31 && size == Pow2(bits) && events.Length == size
      && |last| == size && Newest(size, next, last) && 0 < read <= next == |log| + 1
      && enq == Wrap(next) && deq == Wrap(read)
      && forall i :: 0 <= i < size ==> SlotOk(events[i], last[i], log)
    }

    /** The end of `LNetEQAlloc`: a queue of a power-of-two size, all slots 0. */
    constructor (size: nat, ghost bits: nat)
      requires bits <= 31 && size == Pow2(bits)
      ensures Valid() && fresh(events) && read == next == 1 && log == [] && this.size == size
    {
      this.size, this.bits := size, bits;
      events := new Slot[size](_ => Slot(0, 0));
      enq, deq := 1, 1;
      next, read, last, log := 1, 1, seq(size, _ => 0), [];
    }

    /** `lnet_eq_enqueue_event`: the newest event always finds its slot. */
    method Enqueue(event: nat)
      requires Valid()
      modifies this, events
      ensures Valid() && events == old(events)
      ensures log == old(log) + [event] && read == old(read)
    {
      hide SlotOf, Newest, Pow2, Wrap;
      WrappedSlot(next, bits);
      NewestNext(size, next, last);
      var index := SlotOf(size, enq);
      events[index] := Slot(enq, event);
      WrapNext(next);
      enq := Wrap(enq + 1);
      last := last[SlotOf(size, next) := next];
      next, log := next + 1, log + [event];
    }

    /** `lnet_eq_dequeue_event`. While the reader is less than half the counters'
        range behind: it gets nothing exactly when it has seen every event, the
        next event exactly when that is still there, and else a later one, whole
        rounds of the ring later, with the news that it missed some. */
    method Dequeue() returns (verdict: Verdict, event: nat)
      requires Valid() && next - read < HALF
      modifies this
      ensures Valid() && events == old(events) && unchanged(events) && log == old(log)
      ensures verdict == Nothing <==> old(read) == |log| + 1
      ensures verdict == Next <==> old(read) <= |log| < old(read) + size
      ensures verdict == Overflow <==> |log| >= old(read) + size
      ensures verdict == Nothing ==> read == old(read)
      ensures verdict != Nothing ==> 0 < read - 1 <= |log| && event == log[read - 2] && read > old(read)
      ensures verdict == Next ==> read == old(read) + 1
      ensures verdict == Overflow ==> RoundsAfter(size, old(read), read - 1)
    {
      hide SlotOf, Newest, RoundsAfter, SeqGt, Pow2, Wrap;
      BigPowers(bits);
      WrappedSlot(read, bits);
      Found(size, next, last, read);
      var index := SlotOf(size, deq);
      var slot := events[index];
      ghost var n := last[SlotOf(size, read)];
      DecideNear(read, n);
      event := 0;
      if SeqGt(deq, slot.sequence) {
        return Nothing, 0;
      }
      event := slot.event;
      verdict := if deq == slot.sequence then Next else Overflow;
      WrapNext(n);
      deq := Wrap(slot.sequence + 1);
      read := n + 1;
    }
  }

  ghost predicate SlotOk(slot: Slot, n: nat, log: seq<nat>) {
    slot.sequence == Wrap(n) && (n > 0 ==> n <= |log| && slot.event == log[n - 1])
  }
}
