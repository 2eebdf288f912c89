/** The ring queue with two semaphores and two locks, used by any number of producers
    and consumers. Every line of push and pop is one atomic step of one thread. */
module SemaphoreRing {
  import opened Text
  import opened Threads

  /** Where a producer is in push; it holds one permit from its P to its V. */
  datatype Producer<T> =
    | Resting
    | Granted(x: T)        // P(space) returned
    | Inside(x: T)         // the lock is held
    | Wrote                // the slot is written
    | Bumped               // the position is incremented
    | Reduced              // ... modulo the capacity
    | Left                 // the lock is released, V(data) is still to come

  datatype Consumer<T> =
    | Waiting
    | Admitted             // P(data) returned
    | Within               // the lock is held
    | Took(x: T)
    | Advanced(x: T)
    | Folded(x: T)
    | Gone(x: T)           // the lock is released, V(space) is still to come

  datatype State<T> = State(
    capacity: nat, ring: seq<T>, pPos: nat, cPos: nat,
    space: nat, data: nat, pOwner: Option<nat>, cOwner: Option<nat>,
    producers: seq<Producer<T>>, consumers: seq<Consumer<T>>,
    written: seq<T>, read: seq<T>)     // history: values written, values read

  datatype Step<T> = Produce(t: nat, x: T) | Consume(t: nat)

  function Initial<T>(capacity: nat, ring: seq<T>, producers: nat, consumers: nat): State<T> {
    State(capacity, ring, 0, 0, capacity, 0, None, None,
          seq(producers, i => Resting), seq(consumers, i => Waiting), [], [])
  }

  /** One step of a producer; None when it has to wait. */
  function ProducerStep<T>(s: State<T>, t: nat, x: T): Option<State<T>>
    requires t < |s.producers|
  {
    match s.producers[t]
    case Resting =>
      if s.space == 0 then None
      else Some(s.(space := s.space - 1, producers := s.producers[t := Granted(x)]))
    case Granted(v) =>
      if s.pOwner.Some? then None
      else Some(s.(pOwner := Some(t), producers := s.producers[t := Inside(v)]))
    case Inside(v) =>
      if s.pPos >= |s.ring| then None
      else Some(s.(ring := s.ring[s.pPos := v], written := s.written + [v], producers := s.producers[t := Wrote]))
    case Wrote => Some(s.(pPos := s.pPos + 1, producers := s.producers[t := Bumped]))
    case Bumped =>
      if s.capacity == 0 then None
      else Some(s.(pPos := s.pPos % s.capacity, producers := s.producers[t := Reduced]))
    case Reduced => Some(s.(pOwner := None, producers := s.producers[t := Left]))
    case Left => Some(s.(data := s.data + 1, producers := s.producers[t := Resting]))
  }

  function ConsumerStep<T>(s: State<T>, t: nat): Option<State<T>>
    requires t < |s.consumers|
  {
    match s.consumers[t]
    case Waiting =>
      if s.data == 0 then None
      else Some(s.(data := s.data - 1, consumers := s.consumers[t := Admitted]))
    case Admitted =>
      if s.cOwner.Some? then None
      else Some(s.(cOwner := Some(t), consumers := s.consumers[t := Within]))
    case Within =>
      if s.cPos >= |s.ring| then None
      else
        var x := s.ring[s.cPos];
        Some(s.(read := s.read + [x], consumers := s.consumers[t := Took(x)]))
    case Took(x) => Some(s.(cPos := s.cPos + 1, consumers := s.consumers[t := Advanced(x)]))
    case Advanced(x) =>
      if s.capacity == 0 then None
      else Some(s.(cPos := s.cPos % s.capacity, consumers := s.consumers[t := Folded(x)]))
    case Folded(x) => Some(s.(cOwner := None, consumers := s.consumers[t := Gone(x)]))
    case Gone(x) => Some(s.(space := s.space + 1, consumers := s.consumers[t := Waiting]))
  }

  function Next<T>(s: State<T>, step: Step<T>): Option<State<T>> {
    match step
    case Produce(t, x) => if t < |s.producers| then ProducerStep(s, t, x) else None
    case Consume(t) => if t < |s.consumers| then ConsumerStep(s, t) else None
  }

  /** The state after an interleaving, if every step of it was possible. */
  function Run<T>(s: State<T>, steps: seq<Step<T>>): Option<State<T>> {
    if steps == [] then Some(s)
    else
      var before := Run(s, steps[..|steps| - 1]);
      if before.None? then None else Next(before.value, steps[|steps| - 1])
  }

  // ------------------------------------------------------------- invariant

  /** The slot of the n-th element: n modulo the capacity. */
  function Slot(n: nat, capacity: nat): (slot: nat)
    requires capacity > 0
    ensures slot < capacity
  {
    if n < capacity then n else Slot(n - capacity, capacity)
  }

  predicate Locking<T>(p: Producer<T>) {
    p.Inside? || p.Wrote? || p.Bumped? || p.Reduced?
  }

  predicate Draining<T>(c: Consumer<T>) {
    c.Within? || c.Took? || c.Advanced? || c.Folded?
  }

  function Holds<T>(): Producer<T> -> bool { (p: Producer<T>) => !p.Resting? }
  function Unwritten<T>(): Producer<T> -> bool { (p: Producer<T>) => p.Granted? || p.Inside? }
  function Unposted<T>(): Producer<T> -> bool { (p: Producer<T>) => p.Wrote? || p.Bumped? || p.Reduced? || p.Left? }
  function Keeps<T>(): Consumer<T> -> bool { (c: Consumer<T>) => !c.Waiting? }
  function Unread<T>(): Consumer<T> -> bool { (c: Consumer<T>) => c.Admitted? || c.Within? }
  function Unreturned<T>(): Consumer<T> -> bool { (c: Consumer<T>) => c.Took? || c.Advanced? || c.Folded? || c.Gone? }

  /** Every permit is in a semaphore or in flight, and the values between the two
      positions are accounted for. */
  ghost predicate Permits<T>(s: State<T>) {
    SpacePermits(s) && DataPermits(s)
  }

  ghost predicate SpacePermits<T>(s: State<T>) {
    s.space + s.data + Count(s.producers, Holds()) + Count(s.consumers, Keeps()) == s.capacity
  }

  ghost predicate DataPermits<T>(s: State<T>) {
    |s.written| - |s.read| == s.data + Count(s.producers, Unposted()) + Count(s.consumers, Unread())
  }

  /** A lock's owner is the thread between lock and unlock. */
  ghost predicate Locks<T>(s: State<T>) {
    && (forall t: nat :: t < |s.producers| ==> (Locking(s.producers[t]) <==> s.pOwner == Some(t)))
    && (forall t: nat :: t < |s.consumers| ==> (Draining(s.consumers[t]) <==> s.cOwner == Some(t)))
    && (s.pOwner.Some? ==> s.pOwner.value < |s.producers|)
    && (s.cOwner.Some? ==> s.cOwner.value < |s.consumers|)
  }

  /** Each position is the slot after the last write or read, up to the step the owner
      of the lock is in. */
  ghost predicate WritePosition<T>(s: State<T>)
    requires s.capacity > 0
  {
    var p := if s.pOwner.Some? && s.pOwner.value < |s.producers| then s.producers[s.pOwner.value] else Resting;
    if p.Wrote? then |s.written| > 0 && s.pPos == Slot(|s.written| - 1, s.capacity)
    else if p.Bumped? then |s.written| > 0 && s.pPos == Slot(|s.written| - 1, s.capacity) + 1
    else s.pPos == Slot(|s.written|, s.capacity)
  }

  ghost predicate ReadPosition<T>(s: State<T>)
    requires s.capacity > 0
  {
    var c := if s.cOwner.Some? && s.cOwner.value < |s.consumers| then s.consumers[s.cOwner.value] else Waiting;
    if c.Took? then |s.read| > 0 && s.cPos == Slot(|s.read| - 1, s.capacity)
    else if c.Advanced? then |s.read| > 0 && s.cPos == Slot(|s.read| - 1, s.capacity) + 1
    else s.cPos == Slot(|s.read|, s.capacity)
  }

  /** What was read is what was written, in order; the rest is still in its slots. */
  ghost predicate Fifo<T>(s: State<T>)
    requires s.capacity > 0
  {
    && |s.ring| == s.capacity
    && s.read <= s.written
    && forall i :: |s.read| <= i < |s.written| ==> s.ring[Slot(i, s.capacity)] == s.written[i]
  }

  ghost predicate Inv<T>(s: State<T>) {
    && s.capacity > 0
    && Permits(s) && Locks(s) && WritePosition(s) && ReadPosition(s) && Fifo(s)
  }

  // ------------------------------------------------------------ arithmetic

  lemma {:induction false} SlotSuccessor(n: nat, c: nat)
    requires c > 0
    ensures Slot(n + 1, c) == if Slot(n, c) + 1 == c then 0 else Slot(n, c) + 1
  {
    if n >= c {
      SlotSuccessor(n - c, c);
    }
  }

  /** Two numbers less than the capacity apart do not share a slot. */
  lemma {:induction false} SlotsDiffer(a: nat, b: nat, c: nat)
    requires a < b < a + c
    ensures Slot(a, c) != Slot(b, c)
  {
    if a >= c {
      SlotsDiffer(a - c, b - c, c);
    }
  }

  // ---------------------------------------------- consequences of the invariant

  lemma {:induction false} InFlight<T>(s: State<T>)
    ensures Count(s.producers, Unwritten()) + Count(s.producers, Unposted()) == Count(s.producers, Holds())
    ensures Count(s.consumers, Unread()) + Count(s.consumers, Unreturned()) == Count(s.consumers, Keeps())
  {
    CountSplit(s.producers, Unwritten<T>(), Unposted<T>(), Holds<T>());
    CountSplit(s.consumers, Unread<T>(), Unreturned<T>(), Keeps<T>());
  }

  /** A producer that has a permit and has not written finds room. */
  lemma {:induction false} RoomToWrite<T>(s: State<T>, t: nat)
    requires Permits(s) && t < |s.producers| && (s.producers[t].Granted? || s.producers[t].Inside?)
    ensures |s.written| - |s.read| < s.capacity
  {
    InFlight(s);
    CountPositive(s.producers, Unwritten<T>(), t);
  }

  /** A consumer that has a permit and has not read finds a value. */
  lemma {:induction false} SomethingToRead<T>(s: State<T>, t: nat)
    requires Permits(s) && t < |s.consumers| && (s.consumers[t].Admitted? || s.consumers[t].Within?)
    ensures |s.read| < |s.written|
  {
    CountPositive(s.consumers, Unread<T>(), t);
  }

  /** Neither side ever laps the other. */
  lemma {:induction false} NeverLapped<T>(s: State<T>)
    requires Inv(s)
    ensures 0 <= |s.written| - |s.read| <= s.capacity
  {
    InFlight(s);
  }

  /** A producer about to write and a consumer about to read, both inside their locks,
      address two different slots of the ring, and both slots exist. */
  lemma {:induction false} SlotsDisjoint<T>(s: State<T>, t: nat, u: nat)
    requires Inv(s)
    requires t < |s.producers| && s.producers[t].Inside?
    requires u < |s.consumers| && s.consumers[u].Within?
    ensures s.pPos < |s.ring| && s.cPos < |s.ring| && s.pPos != s.cPos
  {
    assert Locking(s.producers[t]) && Draining(s.consumers[u]);
    RoomToWrite(s, t);
    SomethingToRead(s, u);
    SlotsDiffer(|s.read|, |s.written|, s.capacity);
  }

  // ------------------------------------------------------- every step keeps it

  lemma {:induction false} InitialInv<T>(capacity: nat, ring: seq<T>, producers: nat, consumers: nat)
    requires capacity > 0 && |ring| == capacity
    ensures Inv(Initial(capacity, ring, producers, consumers))
  {
    var s := Initial(capacity, ring, producers, consumers);
    CountNone(s.producers, Holds<T>());
    CountNone(s.producers, Unposted<T>());
    CountNone(s.consumers, Keeps<T>());
    CountNone(s.consumers, Unread<T>());
  }

  lemma {:induction false} ProducerPermits<T>(s: State<T>, t: nat, x: T)
    requires Permits(s) && t < |s.producers| && ProducerStep(s, t, x).Some?
    ensures SpacePermits(ProducerStep(s, t, x).value)
  {
    CountUpdate(s.producers, t, ProducerStep(s, t, x).value.producers[t], Holds<T>());
  }

  lemma {:induction false} ProducerData<T>(s: State<T>, t: nat, x: T)
    requires Permits(s) && t < |s.producers| && ProducerStep(s, t, x).Some?
    ensures DataPermits(ProducerStep(s, t, x).value)
  {
    CountUpdate(s.producers, t, ProducerStep(s, t, x).value.producers[t], Unposted<T>());
  }

  lemma {:induction false} ConsumerPermits<T>(s: State<T>, t: nat)
    requires Permits(s) && t < |s.consumers| && ConsumerStep(s, t).Some?
    ensures SpacePermits(ConsumerStep(s, t).value)
  {
    CountUpdate(s.consumers, t, ConsumerStep(s, t).value.consumers[t], Keeps<T>());
  }

  lemma {:induction false} ConsumerData<T>(s: State<T>, t: nat)
    requires Permits(s) && t < |s.consumers| && ConsumerStep(s, t).Some?
    ensures DataPermits(ConsumerStep(s, t).value)
  {
    CountUpdate(s.consumers, t, ConsumerStep(s, t).value.consumers[t], Unread<T>());
  }

  lemma {:induction false} ProducerLocks<T>(s: State<T>, t: nat, x: T)
    requires Locks(s) && t < |s.producers| && ProducerStep(s, t, x).Some?
    ensures Locks(ProducerStep(s, t, x).value)
  {
  }

  lemma {:induction false} ConsumerLocks<T>(s: State<T>, t: nat)
    requires Locks(s) && t < |s.consumers| && ConsumerStep(s, t).Some?
    ensures Locks(ConsumerStep(s, t).value)
  {
  }

  /** Reducing a position that has just been incremented. */
  lemma {:induction false} Reduction(n: nat, c: nat)
    requires n > 0 && c > 0
    ensures (Slot(n - 1, c) + 1) % c == Slot(n, c)
  {
    SlotSuccessor(n - 1, c);
    var p := Slot(n - 1, c) + 1;
    if p < c {
      assert p % c == p;
    } else {
      assert c % c == 0;
    }
  }

  lemma {:induction false} ProducerPosition<T>(s: State<T>, t: nat, x: T)
    requires s.capacity > 0 && Locks(s) && WritePosition(s)
    requires t < |s.producers| && ProducerStep(s, t, x).Some?
    ensures ProducerStep(s, t, x).value.capacity == s.capacity
    ensures WritePosition(ProducerStep(s, t, x).value)
  {
    assert Locking(s.producers[t]) <==> s.pOwner == Some(t);
    if s.producers[t].Bumped? {
      Reduction(|s.written|, s.capacity);
    }
  }

  lemma {:induction false} ProducerLeavesRead<T>(s: State<T>, t: nat, x: T)
    requires s.capacity > 0 && ReadPosition(s) && t < |s.producers| && ProducerStep(s, t, x).Some?
    ensures ProducerStep(s, t, x).value.capacity == s.capacity
    ensures ReadPosition(ProducerStep(s, t, x).value)
  {
  }

  lemma {:induction false} ConsumerPosition<T>(s: State<T>, t: nat)
    requires s.capacity > 0 && Locks(s) && ReadPosition(s)
    requires t < |s.consumers| && ConsumerStep(s, t).Some?
    ensures ConsumerStep(s, t).value.capacity == s.capacity
    ensures ReadPosition(ConsumerStep(s, t).value)
  {
    assert Draining(s.consumers[t]) <==> s.cOwner == Some(t);
    if s.consumers[t].Advanced? {
      Reduction(|s.read|, s.capacity);
    }
  }

  lemma {:induction false} ConsumerLeavesWrite<T>(s: State<T>, t: nat)
    requires s.capacity > 0 && WritePosition(s) && t < |s.consumers| && ConsumerStep(s, t).Some?
    ensures ConsumerStep(s, t).value.capacity == s.capacity
    ensures WritePosition(ConsumerStep(s, t).value)
  {
  }

  lemma {:induction false} ProducerFifo<T>(s: State<T>, t: nat, x: T)
    requires Inv(s) && t < |s.producers| && ProducerStep(s, t, x).Some?
    ensures Fifo(ProducerStep(s, t, x).value)
  {
    assert Locking(s.producers[t]) <==> s.pOwner == Some(t);
    if s.producers[t].Inside? {
      RoomToWrite(s, t);
      var s' := ProducerStep(s, t, x).value;
      forall i | |s'.read| <= i < |s'.written| ensures s'.ring[Slot(i, s.capacity)] == s'.written[i] {
        if i < |s.written| {
          SlotsDiffer(i, |s.written|, s.capacity);
        }
      }
    }
  }

  lemma {:induction false} ConsumerFifo<T>(s: State<T>, t: nat)
    requires Inv(s) && t < |s.consumers| && ConsumerStep(s, t).Some?
    ensures Fifo(ConsumerStep(s, t).value)
  {
    assert Draining(s.consumers[t]) <==> s.cOwner == Some(t);
    if s.consumers[t].Within? {
      SomethingToRead(s, t);
      assert s.ring[s.cPos] == s.written[|s.read|];
    }
  }

  lemma {:induction false} ProducerInv<T>(s: State<T>, t: nat, x: T)
    requires Inv(s) && t < |s.producers| && ProducerStep(s, t, x).Some?
    ensures Inv(ProducerStep(s, t, x).value)
  {
    ProducerPermits(s, t, x);
    ProducerData(s, t, x);
    ProducerLocks(s, t, x);
    ProducerPosition(s, t, x);
    ProducerLeavesRead(s, t, x);
    ProducerFifo(s, t, x);
  }

  lemma {:induction false} ConsumerInv<T>(s: State<T>, t: nat)
    requires Inv(s) && t < |s.consumers| && ConsumerStep(s, t).Some?
    ensures Inv(ConsumerStep(s, t).value)
  {
    ConsumerPermits(s, t);
    ConsumerData(s, t);
    ConsumerLocks(s, t);
    ConsumerPosition(s, t);
    ConsumerLeavesWrite(s, t);
    ConsumerFifo(s, t);
  }

  lemma {:induction false} NextInv<T>(s: State<T>, step: Step<T>)
    requires Inv(s) && Next(s, step).Some?
    ensures Inv(Next(s, step).value)
  {
    match step
    case Produce(t, x) => ProducerInv(s, t, x);
    case Consume(t) => ConsumerInv(s, t);
  }

  /** Whole runs: in every interleaving the values read are a prefix of the values
      written, and all the accounting holds. */
  lemma {:induction false} RunInv<T>(s: State<T>, steps: seq<Step<T>>)
    requires Inv(s) && Run(s, steps).Some?
    ensures Inv(Run(s, steps).value)
  {
    if steps != [] {
      RunInv(s, steps[..|steps| - 1]);
      NextInv(Run(s, steps[..|steps| - 1]).value, steps[|steps| - 1]);
    }
  }

  // ---------------------------------------------------- the bounded FIFO refined

  /** The abstract queue: written and not yet read. */
  function Queue<T>(s: State<T>): seq<T>
    requires |s.read| <= |s.written|
  {
    s.written[|s.read|..]
  }

  datatype Effect<T> = Stutter | Enqueue(x: T) | Dequeue(x: T)

  /** What a step of a thread does to the abstract queue. */
  function EffectOf<T>(s: State<T>, step: Step<T>): Effect<T>
    requires Next(s, step).Some?
  {
    match step
    case Produce(t, _) => if s.producers[t].Inside? then Enqueue(s.producers[t].x) else Stutter
    case Consume(t) =>
      if s.consumers[t].Within? then Dequeue(Next(s, step).value.consumers[t].x) else Stutter
  }

  ghost function Apply<T>(q: seq<T>, e: Effect<T>): Option<seq<T>> {
    match e
    case Stutter => Some(q)
    case Enqueue(x) => Some(q + [x])
    case Dequeue(x) => if q == [] || q[0] != x then None else Some(q[1..])
  }

  /** The slot a reader inside its lock addresses holds the oldest element. */
  lemma {:induction false} OldestInSlot<T>(s: State<T>, t: nat)
    requires Inv(s) && t < |s.consumers| && s.consumers[t].Within?
    ensures s.cPos < |s.ring| && |s.read| < |s.written| && s.ring[s.cPos] == Queue(s)[0]
  {
    assert Draining(s.consumers[t]) <==> s.cOwner == Some(t);
    SomethingToRead(s, t);
  }

  lemma {:induction false} SameCapacity<T>(s: State<T>, step: Step<T>)
    requires Next(s, step).Some?
    ensures Next(s, step).value.capacity == s.capacity
  {
  }

  lemma {:induction false} StaysBounded<T>(s: State<T>, step: Step<T>)
    requires Inv(s) && Next(s, step).Some?
    ensures var s' := Next(s, step).value;
            0 <= |s'.written| - |s'.read| <= s'.capacity == s.capacity
  {
    NextInv(s, step);
    SameCapacity(s, step);
    NeverLapped(Next(s, step).value);
  }

  /** Refinement: every step is a step of a FIFO that never holds more than the
      capacity, and a reader gets the oldest element. */
  lemma {:induction false} RefinesFifo<T>(s: State<T>, step: Step<T>)
    requires Inv(s) && Next(s, step).Some?
    ensures var s' := Next(s, step).value;
            && 0 <= |s'.written| - |s'.read| <= s'.capacity == s.capacity
            && Apply(Queue(s), EffectOf(s, step)) == Some(Queue(s'))
  {
    StaysBounded(s, step);
    match step
    case Consume(t) => ConsumerRefines(s, t);
    case Produce(t, x) => ProducerRefines(s, t, x);
  }

  lemma {:induction false} ProducerRefines<T>(s: State<T>, t: nat, x: T)
    requires |s.read| <= |s.written| && t < |s.producers| && ProducerStep(s, t, x).Some?
    ensures var s' := ProducerStep(s, t, x).value;
            && |s'.read| <= |s'.written|
            && Queue(s') == if s.producers[t].Inside? then Queue(s) + [s.producers[t].x] else Queue(s)
    ensures Apply(Queue(s), EffectOf(s, Produce(t, x))) == Some(Queue(ProducerStep(s, t, x).value))
  {
  }

  lemma {:induction false} ConsumerRefines<T>(s: State<T>, t: nat)
    requires Inv(s) && t < |s.consumers| && ConsumerStep(s, t).Some?
    ensures |ConsumerStep(s, t).value.read| <= |ConsumerStep(s, t).value.written|
    ensures Apply(Queue(s), EffectOf(s, Consume(t))) == Some(Queue(ConsumerStep(s, t).value))
  {
    if s.consumers[t].Within? {
      OldestInSlot(s, t);
      TakeRefines(s, t);
    } else {
      IdleRefines(s, t);
    }
  }

  lemma {:induction false} TakeRefines<T>(s: State<T>, t: nat)
    requires t < |s.consumers| && s.consumers[t].Within?
    requires s.cPos < |s.ring| && |s.read| < |s.written| && s.ring[s.cPos] == Queue(s)[0]
    ensures ConsumerStep(s, t).Some? && |ConsumerStep(s, t).value.read| <= |ConsumerStep(s, t).value.written|
    ensures Apply(Queue(s), EffectOf(s, Consume(t))) == Some(Queue(ConsumerStep(s, t).value))
  {
    DropOne(s.written, |s.read|);
  }

  lemma {:induction false} IdleRefines<T>(s: State<T>, t: nat)
    requires t < |s.consumers| && !s.consumers[t].Within? && ConsumerStep(s, t).Some? && |s.read| <= |s.written|
    ensures ConsumerStep(s, t).value.read == s.read && ConsumerStep(s, t).value.written == s.written
    ensures Apply(Queue(s), EffectOf(s, Consume(t))) == Some(Queue(ConsumerStep(s, t).value))
  {
  }

  lemma {:induction false} DropOne<T>(s: seq<T>, n: nat)
    requires n < |s|
    ensures s[n..] != [] && s[n..][1..] == s[n + 1..]
  {
  }

  // ---- runs seen from outside: the calls made, and the values returned

  /** The call of push that a step is, if thread `t` makes one. */
  function CallOf<T>(s: State<T>, step: Step<T>, t: nat): seq<T> {
    if step.Produce? && step.t == t && t < |s.producers| && s.producers[t].Resting? then [step.x] else []
  }

  /** The value written with a step. */
  function EntryOf<T>(s: State<T>, step: Step<T>): seq<Deed<T>> {
    if step.Produce? && step.t < |s.producers| && s.producers[step.t].Inside?
    then [Deed(step.t, s.producers[step.t].x)] else []
  }

  /** The value read with a step. */
  function TakeOf<T>(s: State<T>, step: Step<T>): seq<Deed<T>>
    requires Next(s, step).Some?
  {
    if step.Consume? && s.consumers[step.t].Within?
    then [Deed(step.t, Next(s, step).value.consumers[step.t].x)] else []
  }

  /** The value that pop returns to thread `t` with a step. */
  function ReturnOf<T>(s: State<T>, step: Step<T>, t: nat): seq<T> {
    if step.Consume? && step.t == t && t < |s.consumers| && s.consumers[t].Gone? then [s.consumers[t].x] else []
  }

  function Calls<T>(s: State<T>, steps: seq<Step<T>>, t: nat): seq<T>
    requires Run(s, steps).Some?
  {
    if steps == [] then []
    else
      var n := |steps| - 1;
      Calls(s, steps[..n], t) + CallOf(Run(s, steps[..n]).value, steps[n], t)
  }

  function Entries<T>(s: State<T>, steps: seq<Step<T>>): seq<Deed<T>>
    requires Run(s, steps).Some?
  {
    if steps == [] then []
    else
      var n := |steps| - 1;
      Entries(s, steps[..n]) + EntryOf(Run(s, steps[..n]).value, steps[n])
  }

  function Takes<T>(s: State<T>, steps: seq<Step<T>>): seq<Deed<T>>
    requires Run(s, steps).Some?
  {
    if steps == [] then []
    else
      var n := |steps| - 1;
      Takes(s, steps[..n]) + TakeOf(Run(s, steps[..n]).value, steps[n])
  }

  function Returns<T>(s: State<T>, steps: seq<Step<T>>, t: nat): seq<T>
    requires Run(s, steps).Some?
  {
    if steps == [] then []
    else
      var n := |steps| - 1;
      Returns(s, steps[..n], t) + ReturnOf(Run(s, steps[..n]).value, steps[n], t)
  }

  /** The value a call of push has not written yet. */
  function Unplaced<T>(p: Producer<T>): seq<T> {
    match p
    case Granted(x) => [x]
    case Inside(x) => [x]
    case _ => []
  }

  /** The value a call of pop has read and not returned yet. */
  function Carried<T>(c: Consumer<T>): seq<T> {
    match c
    case Took(x) => [x]
    case Advanced(x) => [x]
    case Folded(x) => [x]
    case Gone(x) => [x]
    case _ => []
  }

  lemma {:induction false} StepPushes<T>(s: State<T>, step: Step<T>, t: nat)
    requires Next(s, step).Some? && t < |s.producers|
    ensures var s' := Next(s, step).value;
            && |s'.producers| == |s.producers| && s'.written == s.written + Values(EntryOf(s, step))
            && Unplaced(s.producers[t]) + CallOf(s, step, t) == By(EntryOf(s, step), t) + Unplaced(s'.producers[t])
  {
    if step.Produce? {
      OneDeed(step.t, if s.producers[step.t].Inside? then s.producers[step.t].x else step.x, t);
    }
  }

  lemma {:induction false} StepPops<T>(s: State<T>, step: Step<T>, t: nat)
    requires Next(s, step).Some? && t < |s.consumers|
    ensures var s' := Next(s, step).value;
            && |s'.consumers| == |s.consumers| && s'.read == s.read + Values(TakeOf(s, step))
            && Carried(s.consumers[t]) + By(TakeOf(s, step), t) == ReturnOf(s, step, t) + Carried(s'.consumers[t])
  {
    if step.Consume? && s.consumers[step.t].Within? {
      OneDeed(step.t, Next(s, step).value.consumers[step.t].x, t);
    }
  }

  lemma {:induction false} RunPushes<T>(capacity: nat, ring: seq<T>, producers: nat, consumers: nat, steps: seq<Step<T>>, t: nat)
    requires Run(Initial(capacity, ring, producers, consumers), steps).Some? && t < producers
    ensures var s0 := Initial(capacity, ring, producers, consumers);
            var s := Run(s0, steps).value;
            && |s.producers| == producers
            && Calls(s0, steps, t) == By(Entries(s0, steps), t) + Unplaced(s.producers[t])
  {
    if steps != [] {
      var n := |steps| - 1;
      var s0 := Initial(capacity, ring, producers, consumers);
      var s := Run(s0, steps[..n]).value;
      RunPushes(capacity, ring, producers, consumers, steps[..n], t);
      StepPushes(s, steps[n], t);
      var entries, entry := Entries(s0, steps[..n]), EntryOf(s, steps[n]);
      DeedsSnoc(entries, entry, t);
      HandOver(By(entries, t), Unplaced(s.producers[t]), CallOf(s, steps[n], t), By(entry, t),
               Unplaced(Run(s0, steps).value.producers[t]));
    }
  }

  lemma {:induction false} RunPops<T>(capacity: nat, ring: seq<T>, producers: nat, consumers: nat, steps: seq<Step<T>>, t: nat)
    requires Run(Initial(capacity, ring, producers, consumers), steps).Some? && t < consumers
    ensures var s0 := Initial(capacity, ring, producers, consumers);
            var s := Run(s0, steps).value;
            && |s.consumers| == consumers
            && By(Takes(s0, steps), t) == Returns(s0, steps, t) + Carried(s.consumers[t])
  {
    if steps != [] {
      var n := |steps| - 1;
      var s0 := Initial(capacity, ring, producers, consumers);
      var s := Run(s0, steps[..n]).value;
      RunPops(capacity, ring, producers, consumers, steps[..n], t);
      StepPops(s, steps[n], t);
      var takes, take := Takes(s0, steps[..n]), TakeOf(s, steps[n]);
      DeedsSnoc(takes, take, t);
      HandOver(Returns(s0, steps[..n], t), Carried(s.consumers[t]), By(take, t), ReturnOf(s, steps[n], t),
               Carried(Run(s0, steps).value.consumers[t]));
    }
  }

  /** The histories are what the threads wrote and read. */
  lemma {:induction false} RunHistories<T>(s0: State<T>, steps: seq<Step<T>>)
    requires Run(s0, steps).Some? && s0.written == s0.read == []
    ensures var s := Run(s0, steps).value;
            s.written == Values(Entries(s0, steps)) && s.read == Values(Takes(s0, steps))
  {
    if steps != [] {
      var n := |steps| - 1;
      var s := Run(s0, steps[..n]).value;
      RunHistories(s0, steps[..n]);
      DeedsSnoc(Entries(s0, steps[..n]), EntryOf(s, steps[n]), 0);
      DeedsSnoc(Takes(s0, steps[..n]), TakeOf(s, steps[n]), 0);
      StepHistories(s, steps[n]);
    }
  }

  lemma {:induction false} StepHistories<T>(s: State<T>, step: Step<T>)
    requires Next(s, step).Some?
    ensures var s' := Next(s, step).value;
            s'.written == s.written + Values(EntryOf(s, step)) && s'.read == s.read + Values(TakeOf(s, step))
  {
    match step
    case Produce(t, x) =>
      StepPushes(s, step, t);
      assert Next(s, step).value.read == s.read + [];
    case Consume(t) =>
      StepPops(s, step, t);
      assert Next(s, step).value.written == s.written + [];
  }

  /** Whole runs, from the calls made to the values returned: each producer's values enter
      the queue in the order of its calls, and no call but the one under way is left out; the
      values taken are those that entered, in that order, up to those still queued; each
      consumer's calls return what it took, in order, up to the one under way. */
  lemma {:induction false} RunDelivers<T>(capacity: nat, ring: seq<T>, producers: nat, consumers: nat, steps: seq<Step<T>>)
    requires capacity > 0 && |ring| == capacity && Run(Initial(capacity, ring, producers, consumers), steps).Some?
    ensures var s0 := Initial(capacity, ring, producers, consumers);
            var s := Run(s0, steps).value;
            && |s.producers| == producers && |s.consumers| == consumers
            && (forall t: nat :: t < producers ==>
                  Calls(s0, steps, t) == By(Entries(s0, steps), t) + Unplaced(s.producers[t]))
            && |s.read| <= |s.written| && Values(Entries(s0, steps)) == Values(Takes(s0, steps)) + Queue(s)
            && |Queue(s)| <= capacity
            && (forall t: nat :: t < consumers ==>
                  By(Takes(s0, steps), t) == Returns(s0, steps, t) + Carried(s.consumers[t]))
  {
    var s0 := Initial(capacity, ring, producers, consumers);
    var s := Run(s0, steps).value;
    InitialInv(capacity, ring, producers, consumers);
    RunInv(s0, steps);
    RunHistories(s0, steps);
    SameThreads(s0, steps);
    NeverLapped(s);
    assert s.written == s.read + Queue(s);
    forall t: nat | t < producers ensures Calls(s0, steps, t) == By(Entries(s0, steps), t) + Unplaced(s.producers[t]) {
      RunPushes(capacity, ring, producers, consumers, steps, t);
    }
    forall t: nat | t < consumers ensures By(Takes(s0, steps), t) == Returns(s0, steps, t) + Carried(s.consumers[t]) {
      RunPops(capacity, ring, producers, consumers, steps, t);
    }
  }

  lemma {:induction false} SameThreads<T>(s: State<T>, steps: seq<Step<T>>)
    requires Run(s, steps).Some?
    ensures var s' := Run(s, steps).value;
            |s'.producers| == |s.producers| && |s'.consumers| == |s.consumers| && s'.capacity == s.capacity
  {
    if steps != [] {
      SameThreads(s, steps[..|steps| - 1]);
    }
  }

  /** Which semaphore or lock a thread can be waiting for: a thread is never stuck
      anywhere else, in particular never outside the ring. */
  lemma {:induction false} BlockedOnlyAt<T>(s: State<T>, step: Step<T>)
    requires Inv(s) && Next(s, step).None?
    ensures match step
            case Produce(t, _) => t >= |s.producers|
                                  || (s.producers[t].Resting? && s.space == 0)
                                  || (s.producers[t].Granted? && s.pOwner.Some?)
            case Consume(t) => t >= |s.consumers|
                               || (s.consumers[t].Waiting? && s.data == 0)
                               || (s.consumers[t].Admitted? && s.cOwner.Some?)
  {
    match step
    case Produce(t, _) =>
      if t < |s.producers| {
        assert Locking(s.producers[t]) <==> s.pOwner == Some(t);
      }
    case Consume(t) =>
      if t < |s.consumers| {
        assert Draining(s.consumers[t]) <==> s.cOwner == Some(t);
      }
  }

  /** No deadlock: with a producer and a consumer that loop, some thread can step. */
  lemma {:induction false} SomeStepEnabled<T>(s: State<T>, x: T) returns (step: Step<T>)
    requires Inv(s) && s.producers != [] && s.consumers != []
    ensures Next(s, step).Some?
  {
    if s.pOwner.Some? {
      step := Produce(s.pOwner.value, x);
    } else if s.cOwner.Some? {
      step := Consume(s.cOwner.value);
    } else if Count(s.producers, Holds<T>()) > 0 {
      var t := CountWitness(s.producers, Holds<T>());
      step := Produce(t, x);
    } else if Count(s.consumers, Keeps<T>()) > 0 {
      var t := CountWitness(s.consumers, Keeps<T>());
      step := Consume(t);
    } else if s.space > 0 {
      NoneHolds(s, x);
      step := Produce(0, x);
    } else {
      NoneKeeps(s);
      step := Consume(0);
    }
    if Next(s, step).None? {
      BlockedOnlyAt(s, step);
      OwnerLocks(s);
    }
  }

  lemma {:induction false} OwnerLocks<T>(s: State<T>)
    requires Locks(s)
    ensures s.pOwner.Some? ==> Locking(s.producers[s.pOwner.value])
    ensures s.cOwner.Some? ==> Draining(s.consumers[s.cOwner.value])
  {
  }

  lemma {:induction false} NoneHolds<T>(s: State<T>, x: T)
    requires Count(s.producers, Holds<T>()) == 0 && s.producers != []
    ensures s.producers[0].Resting?
  {
    if !s.producers[0].Resting? {
      CountPositive(s.producers, Holds<T>(), 0);
    }
  }

  lemma {:induction false} NoneKeeps<T>(s: State<T>)
    requires Count(s.consumers, Keeps<T>()) == 0 && s.consumers != []
    ensures s.consumers[0].Waiting?
  {
    if !s.consumers[0].Waiting? {
      CountPositive(s.consumers, Keeps<T>(), 0);
    }
  }
}
