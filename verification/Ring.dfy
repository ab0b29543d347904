/** myLibraries/Circular_vector.h: a ring of slots, one more than it may hold, and its use as a
    bounded queue by one and by several threads. */
module Ring {
  const INT_LIMIT: nat := 0x8000_0000

  /** Unsigned 32-bit arithmetic. */
  function U32(x: int): nat { x % 0x1_0000_0000 }

  /** The fields of a Circular_vector as a value. */
  datatype Ring<T> = Ring(slots: seq<T>, start: nat, end: nat, capacity: nat) {
    /** The indices are of type int, so the capacity has to fit in one. */
    predicate Valid() {
      0 < capacity < INT_LIMIT && capacity <= |slots| && start < capacity && end < capacity
    }

    predicate Empty() { start == end }

    predicate Full()
      requires capacity > 0
    {
      (end + 1) % capacity == start
    }

    /** (_capacity + _end - _start) % _capacity, computed in unsigned int. */
    function Size(): nat
      requires capacity > 0
    {
      U32(U32(capacity + end) - start) % capacity
    }

    /** The elements from head to tail. */
    function Contents(): seq<T>
      requires Valid()
    {
      if start <= end then slots[start..end] else slots[start..capacity] + slots[..end]
    }

    /** push, which has no guard. */
    function Push(t: T): Ring<T>
      requires Valid()
    {
      Ring(slots[end := t], start, (end + 1) % capacity, capacity)
    }

    function Pop(): Ring<T>
      requires Valid()
    {
      Ring(slots, (start + 1) % capacity, end, capacity)
    }
  }

  /** The modular tests and the modular size are those of a sequence of at most capacity - 1 elements. */
  lemma IsBoundedSequence<T>(r: Ring<T>)
    requires r.Valid()
    ensures r.Size() == |r.Contents()| < r.capacity
    ensures r.Empty() <==> r.Contents() == []
    ensures r.Full() <==> |r.Contents()| == r.capacity - 1
  {
    hide Ring.Size, Ring.Full;
    Modular(r);
  }

  /** What the modular expressions come to. */
  lemma Modular<T>(r: Ring<T>)
    requires r.Valid()
    ensures r.Size() == if r.start <= r.end then r.end - r.start else r.capacity + r.end - r.start
    ensures r.Full() <==> (if r.start == 0 then r.end == r.capacity - 1 else r.end == r.start - 1)
  {
    hide U32, Ring.Contents;
    NoOverflow(r.capacity, r.start, r.end);
    Wrap(r.capacity + r.end - r.start, r.capacity);
    Wrap(r.end + 1, r.capacity);
  }

  lemma NoOverflow(capacity: nat, start: nat, end: nat)
    requires start < capacity < INT_LIMIT && end < capacity
    ensures U32(U32(capacity + end) - start) == capacity + end - start
  {
  }

  lemma Wrap(x: int, n: nat)
    requires 0 < n && 0 <= x < 2 * n
    ensures x % n == if x < n then x else x - n
  {
    if x >= n {
      assert x % n == (x - n) % n;
    }
  }

  lemma ContentsAt<T>(r: Ring<T>, i: nat)
    requires r.Valid() && i < |r.Contents()|
    ensures r.start + i < 2 * r.capacity
    ensures r.Contents()[i] == r.slots[(r.start + i) % r.capacity]
  {
    Wrap(r.start + i, r.capacity);
  }

  /** Walking from head to tail with wrap-around meets every element once and ends at the tail index. */
  lemma Walk<T>(r: Ring<T>, n: nat)
    requires r.Valid() && n <= |r.Contents()|
    ensures r.capacity > 0 && (r.start + 0) % r.capacity == r.start
    ensures var i := (r.start + n) % r.capacity;
            && i < r.capacity
            && (i == r.end <==> n == |r.Contents()|)
            && (n < |r.Contents()| ==> r.slots[i] == r.Contents()[n] && (i + 1) % r.capacity == (r.start + n + 1) % r.capacity)
  {
    IsBoundedSequence(r);
    Wrap(r.start, r.capacity);
    Wrap(r.start + n, r.capacity);
    if n < |r.Contents()| {
      ContentsAt(r, n);
      Wrap((r.start + n) % r.capacity + 1, r.capacity);
      Wrap(r.start + n + 1, r.capacity);
    }
  }

  /** push appends, unless the ring is full: then head and tail meet and everything is lost. */
  lemma PushAppends<T>(r: Ring<T>, t: T)
    requires r.Valid()
    ensures r.Push(t).Valid()
    ensures r.Push(t).Contents() == if r.Full() then [] else r.Contents() + [t]
  {
    Wrap(r.end + 1, r.capacity);
  }

  /** pop removes the head; on an empty ring it uncovers a full ring of old slots. */
  lemma PopRemoves<T>(r: Ring<T>)
    requires r.Valid()
    ensures r.Pop().Valid()
    ensures !r.Empty() ==> r.Contents()[0] == r.slots[r.start] && r.Pop().Contents() == r.Contents()[1..]
    ensures r.Empty() ==> r.Pop().Full()
  {
    Wrap(r.start + 1, r.capacity);
    Wrap(r.end + 1, r.capacity);
    if r.start > r.end {
      assert r.slots[r.start..r.capacity] == [r.slots[r.start]] + r.slots[r.start + 1..r.capacity];
      assert r.Contents() == [r.slots[r.start]] + (r.slots[r.start + 1..r.capacity] + r.slots[..r.end]);
    }
  }

  lemma HeadAndRest<T>(r: Ring<T>)
    requires r.Valid()
    ensures r.Pop().Valid()
    ensures !r.Empty() ==> r.Contents() == [r.slots[r.start]] + r.Pop().Contents()
  {
    hide Ring.Contents;
    IsBoundedSequence(r);
    PopRemoves(r);
  }

  // -------------------------------------------------------- Circular_vector

  class CircularVector<T(0)> {
    var v: array<T>
    var start: nat
    var end: nat
    var capacity: nat

    ghost predicate Valid()
      reads this, v
    {
      Model().Valid() && v.Length == capacity + 1
    }

    ghost function Model(): Ring<T>
      reads this, v
    {
      Ring(v[..], start, end, capacity)
    }

    ghost function Contents(): seq<T>
      reads this, v
      requires Valid()
    {
      Model().Contents()
    }

    /** Room for `size` elements. The slots beyond the capacity are never used. */
    constructor (size: nat)
      requires size + 1 < INT_LIMIT
      ensures Valid() && fresh(v) && capacity == size + 1 && Contents() == []
    {
      v := new T[size + 2];
      start, end, capacity := 0, 0, size + 1;
    }

    method Push(t: T)
      requires Valid()
      modifies this`end, v
      ensures Valid() && Model() == old(Model()).Push(t)
      ensures Contents() == if old(Model()).Full() then [] else old(Contents()) + [t]
    {
      PushAppends(Model(), t);
      v[end] := t;
      end := (end + 1) % capacity;
    }

    method Front() returns (t: T)
      requires Valid()
      ensures t == v[start]
      ensures Contents() != [] ==> t == Contents()[0]
    {
      t := v[start];
    }

    method Pop()
      requires Valid()
      modifies this`start
      ensures Valid() && Model() == old(Model()).Pop()
      ensures old(Contents()) != [] ==> Contents() == old(Contents())[1..]
    {
      PopRemoves(Model());
      start := (start + 1) % capacity;
    }

    method Get() returns (t: T)
      requires Valid()
      modifies this`start
      ensures Valid() && Model() == old(Model()).Pop()
      ensures old(Contents()) != [] ==> old(Contents()) == [t] + Contents()
    {
      PopRemoves(Model());
      t := v[start];
      start := (start + 1) % capacity;
    }

    method IsEmpty() returns (b: bool)
      requires Valid()
      ensures b <==> Contents() == []
    {
      IsBoundedSequence(Model());
      b := start == end;
    }

    method IsFull() returns (b: bool)
      requires Valid()
      ensures b == Model().Full()
      ensures b <==> |Contents()| == capacity - 1
    {
      IsBoundedSequence(Model());
      b := (end + 1) % capacity == start;
    }

    method Size() returns (n: nat)
      requires Valid()
      ensures n == |Contents()|
    {
      hide Ring.Contents, Ring.Full, U32;
      IsBoundedSequence(Model());
      n := U32(U32(capacity + end) - start) % capacity;
    }
  }

  // ------------------------------------------------------ TS_Circular_vector

  /** Every method body runs under the mutex. A method that waits on a condition variable goes on
      when its predicate holds; that predicate is its precondition. */
  class TsCircularVector<T(0)> {
    var v: array<T>
    var start: nat
    var end: nat
    var capacity: nat

    ghost predicate Valid()
      reads this, v
    {
      Model().Valid() && v.Length == capacity
    }

    ghost function Model(): Ring<T>
      reads this, v
    {
      Ring(v[..], start, end, capacity)
    }

    constructor (size: nat)
      requires size + 1 < INT_LIMIT
      ensures Valid() && fresh(v) && capacity == size + 1 && Model().Contents() == []
    {
      v := new T[size + 1];
      start, end, capacity := 0, 0, size + 1;
    }

    /** push(t, stop): woken by room or by `stop`. */
    method PushOrStop(t: T, stop: bool) returns (pushed: bool)
      requires Valid() && (!Model().Full() || stop)
      modifies this`end, v
      ensures Valid() && pushed == !stop
      ensures Model() == if pushed then old(Model()).Push(t) else old(Model())
    {
      PushAppends(Model(), t);
      if stop {
        return false;
      }
      v[end] := t;
      end := (end + 1) % capacity;
      return true;
    }

    /** Never waits: a full queue refuses the element. */
    method TryPush(t: T) returns (pushed: bool)
      requires Valid()
      modifies this`end, v
      ensures Valid() && pushed == !old(Model()).Full()
      ensures Model() == if pushed then old(Model()).Push(t) else old(Model())
      ensures Model().Contents() == old(Model()).Contents() + (if pushed then [t] else [])
    {
      PushAppends(Model(), t);
      if (end + 1) % capacity == start {
        return false;
      }
      v[end] := t;
      end := (end + 1) % capacity;
      return true;
    }

    method Front() returns (t: T)
      requires Valid() && !Model().Empty()
      ensures Model().Contents() != [] && t == Model().Contents()[0]
    {
      PopRemoves(Model());
      t := v[start];
    }

    method Pop()
      requires Valid() && !Model().Empty()
      modifies this`start
      ensures Valid() && Model() == old(Model()).Pop()
      ensures Model().Contents() == old(Model()).Contents()[1..]
    {
      PopRemoves(Model());
      start := (start + 1) % capacity;
    }

    /** tryGetUntil: the head, or nothing when told to stop. */
    method TryGetUntil(stop: bool) returns (got: bool, t: T)
      requires Valid() && (!Model().Empty() || stop)
      modifies this`start
      ensures Valid() && got == !stop
      ensures !got ==> Model() == old(Model())
      ensures got ==> old(Model()).Contents() == [t] + Model().Contents()
    {
      hide Ring.Contents, Ring.Full;
      HeadAndRest(Model());
      t := v[start];
      if stop {
        return false, t;
      }
      start := (start + 1) % capacity;
      return true, t;
    }

    method CanGet() returns (b: bool)
      requires Valid()
      ensures b <==> Model().Contents() != []
    {
      b := start != end;
    }
  }

  // ------------------------------------------- all interleavings of threads

  /** One critical section. Offer is tryPush and push; a refused or still waiting push changes nothing. */
  datatype Action<T> = Offer(t: T) | TakeFront | Remove

  /** The ring with its history. `held` is the slot the consumer got a reference to from front(). */
  datatype Shared<T> = Shared(ring: Ring<T>, accepted: seq<T>, removed: seq<T>, held: int)

  predicate Enabled<T>(s: Shared<T>, a: Action<T>) { a.Offer? || !s.ring.Empty() }

  function Act<T>(s: Shared<T>, a: Action<T>): Shared<T>
    requires s.ring.Valid() && Enabled(s, a)
  {
    match a
    case Offer(t) => if s.ring.Full() then s else s.(ring := s.ring.Push(t), accepted := s.accepted + [t])
    case TakeFront => s.(held := s.ring.start)
    case Remove => s.(ring := s.ring.Pop(), removed := s.removed + [s.ring.slots[s.ring.start]], held := -1)
  }

  /** What was accepted is what was removed followed by what is there; nothing overflows; and the
      slot behind the consumer's reference is the head. */
  ghost predicate Fifo<T>(s: Shared<T>) {
    && s.ring.Valid()
    && s.accepted == s.removed + s.ring.Contents()
    && |s.ring.Contents()| < s.ring.capacity
    && (s.held >= 0 ==> s.held == s.ring.start && !s.ring.Empty())
  }

  lemma ActKeepsFifo<T>(s: Shared<T>, a: Action<T>)
    requires Fifo(s) && Enabled(s, a)
    ensures Fifo(Act(s, a))
  {
    hide Ring.Contents, Ring.Full, Ring.Size, Ring.Valid;
    match a
    case Offer(t) =>
      PushAppends(s.ring, t);
      IsBoundedSequence(s.ring);
      IsBoundedSequence(s.ring.Push(t));
    case TakeFront =>
    case Remove =>
      PopRemoves(s.ring);
      IsBoundedSequence(s.ring);
      IsBoundedSequence(s.ring.Pop());
      assert s.ring.Contents() == [s.ring.Contents()[0]] + s.ring.Pop().Contents();
  }

  /** An offer is accepted, at the tail, if and only if there is room; what is removed is the head. */
  lemma ActMeans<T>(s: Shared<T>, t: T)
    requires Fifo(s)
    ensures var o, room := Act(s, Offer(t)), |s.ring.Contents()| < s.ring.capacity - 1;
            && (o.accepted == s.accepted + [t] <==> room)
            && (room ==> o.ring.Contents() == s.ring.Contents() + [t] && o.removed == s.removed)
            && (!room ==> o == s)
    ensures Enabled(s, Remove) <==> s.ring.Contents() != []
    ensures Enabled(s, Remove) ==>
              var r := Act(s, Remove);
              && s.ring.Contents() == [s.ring.Contents()[0]] + r.ring.Contents() && r.accepted == s.accepted
              && r.removed == s.removed + [s.ring.Contents()[0]]
  {
    hide Ring.Contents, Ring.Full, Ring.Size, Ring.Valid;
    PushAppends(s.ring, t);
    IsBoundedSequence(s.ring);
    IsBoundedSequence(s.ring.Push(t));
    if !s.ring.Empty() {
      PopRemoves(s.ring);
      IsBoundedSequence(s.ring.Pop());
    }
  }

  ghost predicate Interleaves<T>(s: Shared<T>, acts: seq<Action<T>>, t: Shared<T>)
    requires s.ring.Valid()
    decreases |acts|
  {
    if acts == [] then t == s
    else Enabled(s, acts[0]) && Act(s, acts[0]).ring.Valid() && Interleaves(Act(s, acts[0]), acts[1..], t)
  }

  /** First in, first out, whatever producers and consumer do and in whatever order. */
  lemma {:induction false} AlwaysFifo<T>(s: Shared<T>, acts: seq<Action<T>>, t: Shared<T>)
    requires Fifo(s) && Interleaves(s, acts, t)
    ensures Fifo(t) && s.accepted <= t.accepted && s.removed <= t.removed && t.ring.capacity == s.ring.capacity
    decreases |acts|
  {
    if acts != [] {
      ActKeepsFifo(s, acts[0]);
      AlwaysFifo(Act(s, acts[0]), acts[1..], t);
    }
  }

  /** Between front() and pop() of the only consumer the producers may do anything: they never write
      the slot the consumer is reading, and pop() removes just the element it has read. */
  lemma {:induction false} FrontThenPop<T>(s: Shared<T>, offers: seq<Action<T>>, t: Shared<T>)
    requires Fifo(s) && s.held >= 0 && Interleaves(s, offers, t)
    requires forall a :: a in offers ==> a.Offer?
    ensures t.ring.Valid() && t.held == s.held == t.ring.start && Enabled(t, Remove)
    ensures t.ring.slots[t.held] == s.ring.slots[s.held]
    ensures Act(t, Remove).removed == s.removed + [s.ring.slots[s.held]]
    decreases |offers|
  {
    if offers != [] {
      ActKeepsFifo(s, offers[0]);
      Wrap(s.ring.end + 1, s.ring.capacity);
      FrontThenPop(Act(s, offers[0]), offers[1..], t);
    }
  }
}
