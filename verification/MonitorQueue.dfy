/** The blocking queue with one mutex and two condition variables, used by any number
    of producers and consumers. Every step is one thread's next action; a sleeping
    thread may also be woken for no reason. */
module MonitorQueue {
  import opened Text
  import opened Threads

  datatype Producer<T> =
    | Outside
    | Wants(x: T)       // waits for the mutex at the top of push
    | Checks(x: T)      // holds the mutex, at the test of the loop
    | Sleeps(x: T)      // in pthread_cond_wait
    | Woken(x: T)       // wants the mutex back to return from the wait
    | Puts(x: T)        // holds the mutex, found room
    | Signals           // holds the mutex, has pushed
    | Unlocks           // holds the mutex, has signalled

  datatype Consumer<T> =
    | Away
    | Asks
    | Tests
    | Dozes
    | Roused
    | Takes
    | Tells(x: T)
    | Frees(x: T)

  datatype Thread = P(t: nat) | C(t: nat)

  datatype State<T> = State(cap: int, q: seq<T>, owner: Option<Thread>,
                            producers: seq<Producer<T>>, consumers: seq<Consumer<T>>,
                            pushed: seq<T>, popped: seq<T>)   // history

  /** `wake` is the sleeper a signal picks, if anyone sleeps. */
  datatype Step<T> = Produce(t: nat, x: T, wake: nat) | Consume(t: nat, wake: nat) | Spurious(who: Thread)

  function Initial<T>(cap: int, producers: nat, consumers: nat): State<T> {
    State(cap, [], None, seq(producers, i => Outside), seq(consumers, i => Away), [], [])
  }

  predicate IsFull<T>(s: State<T>) {
    |s.q| == s.cap
  }

  // the classes of threads the invariant counts
  function SleepingP<T>(): Producer<T> -> bool { (p: Producer<T>) => p.Sleeps? }
  function SleepingC<T>(): Consumer<T> -> bool { (c: Consumer<T>) => c.Dozes? }
  function AwakeP<T>(): Producer<T> -> bool { (p: Producer<T>) => p.Wants? || p.Checks? || p.Woken? || p.Puts? }
  function AwakeC<T>(): Consumer<T> -> bool { (c: Consumer<T>) => c.Asks? || c.Tests? || c.Roused? || c.Takes? }
  function SignallingP<T>(): Producer<T> -> bool { (p: Producer<T>) => p.Signals? }
  function SignallingC<T>(): Consumer<T> -> bool { (c: Consumer<T>) => c.Tells? }

  /** pthread_cond_signal on the consumers' condition. */
  function WakeConsumer<T>(cs: seq<Consumer<T>>, wake: nat): Option<seq<Consumer<T>>> {
    if Count(cs, SleepingC()) == 0 then Some(cs)
    else if wake < |cs| && cs[wake].Dozes? then Some(cs[wake := Roused])
    else None
  }

  function WakeProducer<T>(ps: seq<Producer<T>>, wake: nat): Option<seq<Producer<T>>> {
    if Count(ps, SleepingP()) == 0 then Some(ps)
    else if wake < |ps| && ps[wake].Sleeps? then Some(ps[wake := Woken(ps[wake].x)])
    else None
  }

  function ProducerStep<T>(s: State<T>, t: nat, x: T, wake: nat): Option<State<T>>
    requires t < |s.producers|
  {
    match s.producers[t]
    case Outside => Some(s.(producers := s.producers[t := Wants(x)]))
    case Wants(v) =>
      if s.owner.Some? then None
      else Some(s.(owner := Some(P(t)), producers := s.producers[t := Checks(v)]))
    case Checks(v) =>
      if IsFull(s) then Some(s.(owner := None, producers := s.producers[t := Sleeps(v)]))
      else Some(s.(producers := s.producers[t := Puts(v)]))
    case Sleeps(_) => None
    case Woken(v) =>
      if s.owner.Some? then None
      else Some(s.(owner := Some(P(t)), producers := s.producers[t := Checks(v)]))
    case Puts(v) => Some(s.(q := s.q + [v], pushed := s.pushed + [v], producers := s.producers[t := Signals]))
    case Signals =>
      var cs := WakeConsumer(s.consumers, wake);
      if cs.None? then None
      else Some(s.(consumers := cs.value, producers := s.producers[t := Unlocks]))
    case Unlocks => Some(s.(owner := None, producers := s.producers[t := Outside]))
  }

  function ConsumerStep<T>(s: State<T>, t: nat, wake: nat): Option<State<T>>
    requires t < |s.consumers|
  {
    match s.consumers[t]
    case Away => Some(s.(consumers := s.consumers[t := Asks]))
    case Asks =>
      if s.owner.Some? then None
      else Some(s.(owner := Some(C(t)), consumers := s.consumers[t := Tests]))
    case Tests =>
      if s.q == [] then Some(s.(owner := None, consumers := s.consumers[t := Dozes]))
      else Some(s.(consumers := s.consumers[t := Takes]))
    case Dozes => None
    case Roused =>
      if s.owner.Some? then None
      else Some(s.(owner := Some(C(t)), consumers := s.consumers[t := Tests]))
    case Takes =>
      if s.q == [] then None
      else Some(s.(q := s.q[1..], popped := s.popped + [s.q[0]], consumers := s.consumers[t := Tells(s.q[0])]))
    case Tells(v) =>
      var ps := WakeProducer(s.producers, wake);
      if ps.None? then None
      else Some(s.(producers := ps.value, consumers := s.consumers[t := Frees(v)]))
    case Frees(_) => Some(s.(owner := None, consumers := s.consumers[t := Away]))
  }

  function SpuriousStep<T>(s: State<T>, who: Thread): Option<State<T>> {
    match who
    case P(t) =>
      if t < |s.producers| && s.producers[t].Sleeps? then
        Some(s.(producers := s.producers[t := Woken(s.producers[t].x)]))
      else None
    case C(t) =>
      if t < |s.consumers| && s.consumers[t].Dozes? then Some(s.(consumers := s.consumers[t := Roused]))
      else None
  }

  function Next<T>(s: State<T>, step: Step<T>): Option<State<T>> {
    match step
    case Produce(t, x, wake) => if t < |s.producers| then ProducerStep(s, t, x, wake) else None
    case Consume(t, wake) => if t < |s.consumers| then ConsumerStep(s, t, wake) else None
    case Spurious(who) => SpuriousStep(s, who)
  }

  function Run<T>(s: State<T>, steps: seq<Step<T>>): Option<State<T>> {
    if steps == [] then Some(s)
    else
      var before := Run(s, steps[..|steps| - 1]);
      if before.None? then None else Next(before.value, steps[|steps| - 1])
  }

  // ------------------------------------------------------------- invariant

  predicate HoldsP<T>(p: Producer<T>) {
    p.Checks? || p.Puts? || p.Signals? || p.Unlocks?
  }

  predicate HoldsC<T>(c: Consumer<T>) {
    c.Tests? || c.Takes? || c.Tells? || c.Frees?
  }

  ghost predicate Mutex<T>(s: State<T>) {
    && (forall t: nat :: t < |s.producers| ==> (HoldsP(s.producers[t]) <==> s.owner == Some(P(t))))
    && (forall t: nat :: t < |s.consumers| ==> (HoldsC(s.consumers[t]) <==> s.owner == Some(C(t))))
    && (s.owner.Some? ==> if s.owner.value.P? then s.owner.value.t < |s.producers| else s.owner.value.t < |s.consumers|)
  }

  /** The size stays within the capacity although only equality is tested, and what the
      owner found at its test still holds. A negative capacity equals no size: it never
      stops a producer. */
  ghost predicate Sizes<T>(s: State<T>) {
    && (s.cap >= 0 ==> |s.q| <= s.cap)
    && (forall t: nat :: t < |s.producers| ==>
          && (s.producers[t].Puts? && s.cap >= 0 ==> |s.q| < s.cap)
          && (s.producers[t].Sleeps? || s.producers[t].Woken? ==> s.cap >= 0))
    && (forall t: nat :: t < |s.consumers| && s.consumers[t].Takes? ==> s.q != [])
  }

  /** Someone awake, or about to be woken, for every element while a consumer sleeps. */
  ghost predicate NoLostConsumer<T>(s: State<T>) {
    Count(s.consumers, SleepingC()) > 0 ==>
      |s.q| <= Count(s.consumers, AwakeC()) + Count(s.producers, SignallingP())
  }

  /** Someone awake, or about to be woken, for every free slot while a producer sleeps. */
  ghost predicate NoLostProducer<T>(s: State<T>) {
    Count(s.producers, SleepingP()) > 0 ==>
      s.cap - |s.q| <= Count(s.producers, AwakeP()) + Count(s.consumers, SignallingC())
  }

  ghost predicate Fifo<T>(s: State<T>) {
    s.pushed == s.popped + s.q
  }

  /** What a consumer carries out of the critical section is the value taken last. */
  ghost predicate Handed<T>(s: State<T>) {
    forall t: nat :: t < |s.consumers| && (s.consumers[t].Tells? || s.consumers[t].Frees?) ==>
      s.popped != [] && s.consumers[t].x == s.popped[|s.popped| - 1]
  }

  ghost predicate Inv<T>(s: State<T>) {
    s.cap != 0 && Mutex(s) && Sizes(s) && NoLostConsumer(s) && NoLostProducer(s) && Fifo(s) && Handed(s)
  }

  // ------------------------------------------------------- every step keeps it

  lemma {:induction false} InitialInv<T>(cap: int, producers: nat, consumers: nat)
    requires cap != 0
    ensures Inv(Initial<T>(cap, producers, consumers))
  {
    var s := Initial<T>(cap, producers, consumers);
    CountNone(s.producers, SleepingP<T>());
    CountNone(s.consumers, SleepingC<T>());
  }

  /** How a producer's own move changes the three counts. */
  lemma {:induction false} ProducerCounts<T>(ps: seq<Producer<T>>, t: nat, p: Producer<T>)
    requires t < |ps|
    ensures Count(ps[t := p], SleepingP()) == Count(ps, SleepingP()) - (if ps[t].Sleeps? then 1 else 0) + (if p.Sleeps? then 1 else 0)
    ensures Count(ps[t := p], AwakeP()) == Count(ps, AwakeP()) - (if AwakeP()(ps[t]) then 1 else 0) + (if AwakeP()(p) then 1 else 0)
    ensures Count(ps[t := p], SignallingP()) == Count(ps, SignallingP()) - (if ps[t].Signals? then 1 else 0) + (if p.Signals? then 1 else 0)
  {
    CountUpdate(ps, t, p, SleepingP<T>());
    CountUpdate(ps, t, p, AwakeP<T>());
    CountUpdate(ps, t, p, SignallingP<T>());
  }

  lemma {:induction false} ConsumerCounts<T>(cs: seq<Consumer<T>>, t: nat, c: Consumer<T>)
    requires t < |cs|
    ensures Count(cs[t := c], SleepingC()) == Count(cs, SleepingC()) - (if cs[t].Dozes? then 1 else 0) + (if c.Dozes? then 1 else 0)
    ensures Count(cs[t := c], AwakeC()) == Count(cs, AwakeC()) - (if AwakeC()(cs[t]) then 1 else 0) + (if AwakeC()(c) then 1 else 0)
    ensures Count(cs[t := c], SignallingC()) == Count(cs, SignallingC()) - (if cs[t].Tells? then 1 else 0) + (if c.Tells? then 1 else 0)
  {
    CountUpdate(cs, t, c, SleepingC<T>());
    CountUpdate(cs, t, c, AwakeC<T>());
    CountUpdate(cs, t, c, SignallingC<T>());
  }

  lemma {:induction false} ProducerMutex<T>(s: State<T>, t: nat, x: T, wake: nat)
    requires Mutex(s) && t < |s.producers| && ProducerStep(s, t, x, wake).Some?
    ensures Mutex(ProducerStep(s, t, x, wake).value)
  {
  }

  lemma {:induction false} ConsumerMutex<T>(s: State<T>, t: nat, wake: nat)
    requires Mutex(s) && t < |s.consumers| && ConsumerStep(s, t, wake).Some?
    ensures Mutex(ConsumerStep(s, t, wake).value)
  {
  }

  lemma {:induction false} ProducerSizes<T>(s: State<T>, t: nat, x: T, wake: nat)
    requires Mutex(s) && Sizes(s) && Fifo(s) && t < |s.producers| && ProducerStep(s, t, x, wake).Some?
    ensures Sizes(ProducerStep(s, t, x, wake).value) && Fifo(ProducerStep(s, t, x, wake).value)
  {
  }

  lemma {:induction false} ConsumerSizes<T>(s: State<T>, t: nat, wake: nat)
    requires Mutex(s) && Sizes(s) && Fifo(s) && t < |s.consumers| && ConsumerStep(s, t, wake).Some?
    ensures Sizes(ConsumerStep(s, t, wake).value) && Fifo(ConsumerStep(s, t, wake).value)
  {
  }

  lemma {:induction false} ProducerWakes<T>(s: State<T>, t: nat, x: T, wake: nat)
    requires Sizes(s) && t < |s.producers| && ProducerStep(s, t, x, wake).Some? && NoLostConsumer(s)
    ensures NoLostConsumer(ProducerStep(s, t, x, wake).value)
  {
    ProducerCounts(s.producers, t, ProducerStep(s, t, x, wake).value.producers[t]);
    if s.producers[t].Signals? && Count(s.consumers, SleepingC()) > 0 {
      ConsumerCounts(s.consumers, wake, Roused);
    }
  }

  lemma {:induction false} ProducerYields<T>(s: State<T>, t: nat, x: T, wake: nat)
    requires Sizes(s) && t < |s.producers| && ProducerStep(s, t, x, wake).Some? && NoLostProducer(s)
    ensures NoLostProducer(ProducerStep(s, t, x, wake).value)
  {
    ProducerCounts(s.producers, t, ProducerStep(s, t, x, wake).value.producers[t]);
    if s.producers[t].Signals? && Count(s.consumers, SleepingC()) > 0 {
      ConsumerCounts(s.consumers, wake, Roused);
    }
  }

  lemma {:induction false} ConsumerWakes<T>(s: State<T>, t: nat, wake: nat)
    requires Sizes(s) && t < |s.consumers| && ConsumerStep(s, t, wake).Some? && NoLostProducer(s)
    ensures NoLostProducer(ConsumerStep(s, t, wake).value)
  {
    var s' := ConsumerStep(s, t, wake).value;
    ConsumerCounts(s.consumers, t, s'.consumers[t]);
    if s.consumers[t].Tells? && Count(s.producers, SleepingP()) > 0 {
      ProducerCounts(s.producers, wake, s'.producers[wake]);
    }
  }

  lemma {:induction false} ConsumerYields<T>(s: State<T>, t: nat, wake: nat)
    requires Sizes(s) && t < |s.consumers| && ConsumerStep(s, t, wake).Some? && NoLostConsumer(s)
    ensures NoLostConsumer(ConsumerStep(s, t, wake).value)
  {
    var s' := ConsumerStep(s, t, wake).value;
    ConsumerCounts(s.consumers, t, s'.consumers[t]);
    if s.consumers[t].Tells? && Count(s.producers, SleepingP()) > 0 {
      ProducerCounts(s.producers, wake, s'.producers[wake]);
    }
  }

  lemma {:induction false} SpuriousMutex<T>(s: State<T>, who: Thread)
    requires Mutex(s) && SpuriousStep(s, who).Some?
    ensures Mutex(SpuriousStep(s, who).value)
  {
    var s' := SpuriousStep(s, who).value;
    forall u: nat | u < |s'.producers| ensures HoldsP(s'.producers[u]) <==> s'.owner == Some(P(u)) {
      assert HoldsP(s.producers[u]) <==> s.owner == Some(P(u));
    }
    forall u: nat | u < |s'.consumers| ensures HoldsC(s'.consumers[u]) <==> s'.owner == Some(C(u)) {
      assert HoldsC(s.consumers[u]) <==> s.owner == Some(C(u));
    }
  }

  lemma {:induction false} SpuriousWakes<T>(s: State<T>, who: Thread)
    requires Sizes(s) && Fifo(s) && NoLostConsumer(s) && NoLostProducer(s) && SpuriousStep(s, who).Some?
    ensures var s' := SpuriousStep(s, who).value; Sizes(s') && Fifo(s') && NoLostConsumer(s') && NoLostProducer(s')
  {
    match who {
      case P(t) => ProducerCounts(s.producers, t, SpuriousStep(s, who).value.producers[t]);
      case C(t) => ConsumerCounts(s.consumers, t, Roused);
    }
  }

  lemma {:induction false} NextHanded<T>(s: State<T>, step: Step<T>)
    requires Mutex(s) && Handed(s) && Next(s, step).Some?
    ensures Handed(Next(s, step).value)
  {
    var s' := Next(s, step).value;
    forall t: nat | t < |s'.consumers| && (s'.consumers[t].Tells? || s'.consumers[t].Frees?)
      ensures s'.popped != [] && s'.consumers[t].x == s'.popped[|s'.popped| - 1]
    {
      assert HoldsC(s.consumers[t]) <==> s.owner == Some(C(t));
      if step.Consume? {
        assert HoldsC(s.consumers[step.t]) <==> s.owner == Some(C(step.t));
      }
    }
  }

  lemma {:induction false} NextInv<T>(s: State<T>, step: Step<T>)
    requires Inv(s) && Next(s, step).Some?
    ensures Inv(Next(s, step).value)
  {
    NextHanded(s, step);
    match step
    case Produce(t, x, wake) =>
      ProducerMutex(s, t, x, wake);
      ProducerSizes(s, t, x, wake);
      ProducerWakes(s, t, x, wake);
      ProducerYields(s, t, x, wake);
    case Consume(t, wake) =>
      ConsumerMutex(s, t, wake);
      ConsumerSizes(s, t, wake);
      ConsumerWakes(s, t, wake);
      ConsumerYields(s, t, wake);
    case Spurious(who) =>
      SpuriousMutex(s, who);
      SpuriousWakes(s, who);
  }

  lemma {:induction false} RunInv<T>(s: State<T>, steps: seq<Step<T>>)
    requires Inv(s) && Run(s, steps).Some?
    ensures Inv(Run(s, steps).value)
  {
    if steps != [] {
      RunInv(s, steps[..|steps| - 1]);
      NextInv(Run(s, steps[..|steps| - 1]).value, steps[|steps| - 1]);
    }
  }

  // ------------------------------------------------------------- main results

  /** No lost wakeup: with every consumer asleep and nobody between push and signal the
      queue is empty, and dually for producers it is full. */
  lemma {:induction false} NoLostWakeup<T>(s: State<T>)
    requires Inv(s) && s.owner.None?
    ensures s.consumers != [] && (forall t :: 0 <= t < |s.consumers| ==> s.consumers[t].Dozes?) ==> s.q == []
    ensures s.producers != [] && (forall t :: 0 <= t < |s.producers| ==> s.producers[t].Sleeps?) ==> |s.q| == s.cap
  {
    NobodySignals(s);
    if s.consumers != [] && forall t :: 0 <= t < |s.consumers| ==> s.consumers[t].Dozes? {
      CountPositive(s.consumers, SleepingC<T>(), 0);
      CountNone(s.consumers, AwakeC<T>());
    }
    if s.producers != [] && forall t :: 0 <= t < |s.producers| ==> s.producers[t].Sleeps? {
      CountPositive(s.producers, SleepingP<T>(), 0);
      CountNone(s.producers, AwakeP<T>());
    }
  }

  lemma {:induction false} NobodySignals<T>(s: State<T>)
    requires Mutex(s) && s.owner.None?
    ensures Count(s.producers, SignallingP()) == 0 && Count(s.consumers, SignallingC()) == 0
  {
    forall t: nat | t < |s.producers| ensures !s.producers[t].Signals? {
      assert HoldsP(s.producers[t]) <==> s.owner == Some(P(t));
    }
    forall t: nat | t < |s.consumers| ensures !s.consumers[t].Tells? {
      assert HoldsC(s.consumers[t]) <==> s.owner == Some(C(t));
    }
    CountNone(s.producers, SignallingP<T>());
    CountNone(s.consumers, SignallingC<T>());
  }

  /** The owner of the mutex can always go on. */
  lemma {:induction false} OwnerSteps<T>(s: State<T>, x: T) returns (step: Step<T>)
    requires Inv(s) && s.owner.Some?
    ensures !step.Spurious? && Next(s, step).Some?
  {
    match s.owner.value
    case P(t) =>
      assert HoldsP(s.producers[t]);
      var wake := 0;
      if Count(s.consumers, SleepingC<T>()) > 0 {
        wake := CountWitness(s.consumers, SleepingC<T>());
      }
      step := Produce(t, x, wake);
    case C(t) =>
      assert HoldsC(s.consumers[t]);
      var wake := 0;
      if Count(s.producers, SleepingP<T>()) > 0 {
        wake := CountWitness(s.producers, SleepingP<T>());
      }
      step := Consume(t, wake);
  }

  /** No deadlock: with a producer and a consumer that loop, some thread can step, and
      not by a spurious wakeup. */
  lemma {:induction false} SomeStepEnabled<T>(s: State<T>, x: T) returns (step: Step<T>)
    requires Inv(s) && s.producers != [] && s.consumers != []
    ensures !step.Spurious? && Next(s, step).Some?
  {
    if s.owner.Some? {
      step := OwnerSteps(s, x);
    } else if t: nat :| t < |s.producers| && !s.producers[t].Sleeps? {
      assert HoldsP(s.producers[t]) <==> s.owner == Some(P(t));
      step := Produce(t, x, 0);
    } else if t: nat :| t < |s.consumers| && !s.consumers[t].Dozes? {
      assert HoldsC(s.consumers[t]) <==> s.owner == Some(C(t));
      step := Consume(t, 0);
    } else {
      step := Produce(0, x, 0);
      NoLostWakeup(s);
      assert false;
    }
  }

  // ---- runs seen from outside: the calls made, and the values returned

  /** The call of push that a step is, if thread `t` makes one. */
  function CallOf<T>(s: State<T>, step: Step<T>, t: nat): seq<T> {
    if step.Produce? && step.t == t && t < |s.producers| && s.producers[t].Outside? then [step.x] else []
  }

  /** The value that takes its place in the queue with a step. */
  function EntryOf<T>(s: State<T>, step: Step<T>): seq<Deed<T>> {
    if step.Produce? && step.t < |s.producers| && s.producers[step.t].Puts?
    then [Deed(step.t, s.producers[step.t].x)] else []
  }

  /** The value that pop returns to its caller with a step. */
  function ReturnOf<T>(s: State<T>, step: Step<T>): seq<T> {
    if step.Consume? && step.t < |s.consumers| && s.consumers[step.t].Frees? then [s.consumers[step.t].x] else []
  }

  function Calls<T>(s: State<T>, steps: seq<Step<T>>, t: nat): seq<T>
    requires Run(s, steps).Some?
  {
    if steps == [] then []
    else
      var n := |steps| - 1;
      Calls(s, steps[..n], t) + CallOf(Run(s, steps[..n]).value, steps[n], t)
  }

  function Entries<T>(s: State<T>, steps: seq<Step<T>>): seq<Deed<T>>
    requires Run(s, steps).Some?
  {
    if steps == [] then []
    else
      var n := |steps| - 1;
      Entries(s, steps[..n]) + EntryOf(Run(s, steps[..n]).value, steps[n])
  }

  function Returns<T>(s: State<T>, steps: seq<Step<T>>): seq<T>
    requires Run(s, steps).Some?
  {
    if steps == [] then []
    else
      var n := |steps| - 1;
      Returns(s, steps[..n]) + ReturnOf(Run(s, steps[..n]).value, steps[n])
  }

  /** The value a call of push has not put into the queue yet. */
  function InHand<T>(p: Producer<T>): seq<T> {
    match p
    case Wants(x) => [x]
    case Checks(x) => [x]
    case Sleeps(x) => [x]
    case Woken(x) => [x]
    case Puts(x) => [x]
    case _ => []
  }

  /** The value a call of pop has taken and not returned yet. */
  function Carried<T>(s: State<T>): seq<T> {
    match s.owner
    case Some(C(t)) =>
      if t < |s.consumers| && (s.consumers[t].Tells? || s.consumers[t].Frees?) then [s.consumers[t].x] else []
    case _ => []
  }

  lemma {:induction false} StepPushes<T>(s: State<T>, step: Step<T>, t: nat)
    requires Next(s, step).Some? && t < |s.producers|
    ensures var s' := Next(s, step).value;
            && |s'.producers| == |s.producers| && s'.pushed == s.pushed + Values(EntryOf(s, step))
            && InHand(s.producers[t]) + CallOf(s, step, t) == By(EntryOf(s, step), t) + InHand(s'.producers[t])
  {
    if step.Produce? {
      OneDeed(step.t, if s.producers[step.t].Puts? then s.producers[step.t].x else step.x, t);
    }
  }

  lemma {:induction false} ProducerPops<T>(s: State<T>, t: nat, x: T, wake: nat)
    requires Mutex(s) && t < |s.producers| && ProducerStep(s, t, x, wake).Some?
    ensures var s' := ProducerStep(s, t, x, wake).value;
            && s'.popped == s.popped && Carried(s') == Carried(s)
            && s'.q == s.q + Values(EntryOf(s, Produce(t, x, wake)))
  {
    assert HoldsP(s.producers[t]) <==> s.owner == Some(P(t));
    OneDeed(t, if s.producers[t].Puts? then s.producers[t].x else x, t);
  }

  lemma {:induction false} ConsumerPops<T>(s: State<T>, t: nat, wake: nat)
    requires Mutex(s) && t < |s.consumers| && ConsumerStep(s, t, wake).Some?
    ensures var s' := ConsumerStep(s, t, wake).value;
            && s'.popped + s'.q == s.popped + s.q && s.popped <= s'.popped
            && Carried(s) + s'.popped[|s.popped|..] == ReturnOf(s, Consume(t, wake)) + Carried(s')
  {
    assert HoldsC(s.consumers[t]) <==> s.owner == Some(C(t));
  }

  lemma {:induction false} StepPops<T>(s: State<T>, step: Step<T>, returned: seq<T>)
    requires Mutex(s) && Next(s, step).Some? && returned + Carried(s) == s.popped
    ensures var s' := Next(s, step).value;
            && s'.popped + s'.q == s.popped + s.q + Values(EntryOf(s, step))
            && returned + ReturnOf(s, step) + Carried(s') == s'.popped
  {
    var s' := Next(s, step).value;
    match step
    case Produce(t, x, wake) =>
      ProducerPops(s, t, x, wake);
      assert returned + [] == returned;
    case Consume(t, wake) =>
      ConsumerPops(s, t, wake);
      HandOver(returned, Carried(s), s'.popped[|s.popped|..], ReturnOf(s, step), Carried(s'));
      assert Values<T>([]) == [];
    case Spurious(who) =>
      assert returned + [] == returned && Values<T>([]) == [];
  }

  /** Whole runs, from the calls made to the values returned: each thread's values enter the
      queue in the order of its calls, and no call but the one under way is left out; the
      values returned are those that entered, in that order, up to the one about to be
      returned and those still queued; never more than a positive capacity are queued. */
  lemma {:induction false} RunSafe<T>(cap: int, producers: nat, consumers: nat, steps: seq<Step<T>>)
    requires cap != 0 && Run(Initial(cap, producers, consumers), steps).Some?
    ensures var s0 := Initial(cap, producers, consumers);
            var s := Run(s0, steps).value;
            && |s.producers| == producers
            && (forall t: nat :: t < producers ==> Calls(s0, steps, t) == By(Entries(s0, steps), t) + InHand(s.producers[t]))
            && Values(Entries(s0, steps)) == Returns(s0, steps) + Carried(s) + s.q
            && s.cap == cap && (cap > 0 ==> |s.q| <= cap)
  {
    var s0 := Initial<T>(cap, producers, consumers);
    var s := Run(s0, steps).value;
    InitialInv<T>(cap, producers, consumers);
    RunInv(s0, steps);
    CapConstant(s0, steps);
    RunPops(cap, producers, consumers, steps);
    forall t: nat | t < producers ensures Calls(s0, steps, t) == By(Entries(s0, steps), t) + InHand(s.producers[t]) {
      RunPushes(cap, producers, consumers, steps, t);
    }
  }

  lemma {:induction false} RunPushes<T>(cap: int, producers: nat, consumers: nat, steps: seq<Step<T>>, t: nat)
    requires Run(Initial(cap, producers, consumers), steps).Some? && t < producers
    ensures var s0 := Initial(cap, producers, consumers);
            var s := Run(s0, steps).value;
            && |s.producers| == producers && s.pushed == Values(Entries(s0, steps))
            && Calls(s0, steps, t) == By(Entries(s0, steps), t) + InHand(s.producers[t])
  {
    if steps != [] {
      var n := |steps| - 1;
      var s0 := Initial<T>(cap, producers, consumers);
      var s := Run(s0, steps[..n]).value;
      RunPushes(cap, producers, consumers, steps[..n], t);
      StepPushes(s, steps[n], t);
      var entries, entry := Entries(s0, steps[..n]), EntryOf(s, steps[n]);
      DeedsSnoc(entries, entry, t);
      HandOver(By(entries, t), InHand(s.producers[t]), CallOf(s, steps[n], t), By(entry, t),
               InHand(Run(s0, steps).value.producers[t]));
    }
  }

  lemma {:induction false} RunPops<T>(cap: int, producers: nat, consumers: nat, steps: seq<Step<T>>)
    requires cap != 0 && Run(Initial(cap, producers, consumers), steps).Some?
    ensures var s0 := Initial(cap, producers, consumers);
            var s := Run(s0, steps).value;
            Returns(s0, steps) + Carried(s) == s.popped && Values(Entries(s0, steps)) == s.popped + s.q
  {
    if steps != [] {
      var n := |steps| - 1;
      var s0 := Initial<T>(cap, producers, consumers);
      var s := Run(s0, steps[..n]).value;
      RunPops(cap, producers, consumers, steps[..n]);
      InitialInv<T>(cap, producers, consumers);
      RunInv(s0, steps[..n]);
      StepPops(s, steps[n], Returns(s0, steps[..n]));
      DeedsSnoc(Entries(s0, steps[..n]), EntryOf(s, steps[n]), 0);
    }
  }

  lemma {:induction false} CapConstant<T>(s: State<T>, steps: seq<Step<T>>)
    requires Run(s, steps).Some?
    ensures var s' := Run(s, steps).value;
            s'.cap == s.cap && |s'.producers| == |s.producers| && |s'.consumers| == |s.consumers|
  {
    if steps != [] {
      CapConstant(s, steps[..|steps| - 1]);
    }
  }

  // ------------------------------------------------ exactly which capacities work

  /** Some thread can move on its own. */
  ghost predicate Live<T(!new)>(s: State<T>) {
    exists step: Step<T> :: !step.Spurious? && Next(s, step).Some?
  }

  ghost predicate DeadlockFree<T(!new)>(cap: int) {
    forall producers: nat, consumers: nat, steps: seq<Step<T>> ::
      producers > 0 && consumers > 0 && Run(Initial(cap, producers, consumers), steps).Some? ==>
        Live(Run(Initial(cap, producers, consumers), steps).value)
  }

  lemma {:induction false} RunSnoc<T>(s: State<T>, steps: seq<Step<T>>, step: Step<T>, mid: State<T>, end: State<T>)
    requires Run(s, steps) == Some(mid) && Next(mid, step) == Some(end)
    ensures Run(s, steps + [step]) == Some(end)
  {
    assert (steps + [step])[..|steps|] == steps;
  }

  /** push undisturbed, with room: six steps put the value at the end and wake a consumer, if
      one sleeps. */
  lemma {:induction false} PushMakes<T>(s: State<T>, t: nat, x: T, wake: nat)
    requires t < |s.producers| && s.producers[t].Outside? && s.owner.None? && |s.q| != s.cap
    requires WakeConsumer(s.consumers, wake).Some?
    ensures Run(s, Repeat(Produce(t, x, wake), 6))
            == Some(s.(q := s.q + [x], pushed := s.pushed + [x], consumers := WakeConsumer(s.consumers, wake).value))
  {
    var p, ps := Produce(t, x, wake), s.producers;
    var s1 := s.(producers := ps[t := Wants(x)]);
    var s2 := s.(owner := Some(P(t)), producers := ps[t := Wants(x)][t := Checks(x)]);
    var s3 := s2.(producers := s2.producers[t := Puts(x)]);
    var s4 := s3.(q := s.q + [x], pushed := s.pushed + [x], producers := s3.producers[t := Signals]);
    var s5 := s4.(consumers := WakeConsumer(s.consumers, wake).value, producers := s4.producers[t := Unlocks]);
    var s6 := s5.(owner := None, producers := s5.producers[t := Outside]);
    RunSnoc(s, Repeat(p, 0), p, s, s1);
    RunSnoc(s, Repeat(p, 1), p, s1, s2);
    RunSnoc(s, Repeat(p, 2), p, s2, s3);
    RunSnoc(s, Repeat(p, 3), p, s3, s4);
    RunSnoc(s, Repeat(p, 4), p, s4, s5);
    RunSnoc(s, Repeat(p, 5), p, s5, s6);
    assert s6.producers == ps;
  }

  lemma {:induction false} PopTakes<T>(s: State<T>, t: nat, wake: nat)
    requires t < |s.consumers| && s.consumers[t].Away? && s.owner.None? && s.q != []
    ensures Run(s, Repeat(Consume(t, wake), 4))
            == Some(s.(q := s.q[1..], popped := s.popped + [s.q[0]], owner := Some(C(t)),
                       consumers := s.consumers[t := Tells(s.q[0])]))
  {
    var c: Step<T>, cs, x := Consume(t, wake), s.consumers, s.q[0];
    var s1 := s.(consumers := cs[t := Asks]);
    var s2 := s1.(owner := Some(C(t)), consumers := s1.consumers[t := Tests]);
    var s3 := s2.(consumers := s2.consumers[t := Takes]);
    var s4 := s3.(q := s.q[1..], popped := s.popped + [x], consumers := s3.consumers[t := Tells(x)]);
    RunSnoc(s, Repeat(c, 0), c, s, s1);
    RunSnoc(s, Repeat(c, 1), c, s1, s2);
    RunSnoc(s, Repeat(c, 2), c, s2, s3);
    RunSnoc(s, Repeat(c, 3), c, s3, s4);
    assert s4.consumers == cs[t := Tells(x)];
  }

  /** pop undisturbed, with a value there: six steps take the oldest, wake a producer, if one
      sleeps, and return that value. */
  lemma {:induction false} PopMakes<T>(s: State<T>, t: nat, wake: nat)
    requires t < |s.consumers| && s.consumers[t].Away? && s.owner.None? && s.q != []
    requires WakeProducer(s.producers, wake).Some?
    ensures Run(s, Repeat(Consume(t, wake), 6))
            == Some(s.(q := s.q[1..], popped := s.popped + [s.q[0]], producers := WakeProducer(s.producers, wake).value))
    ensures Run(s, Repeat(Consume(t, wake), 5)).Some?
            && ReturnOf(Run(s, Repeat(Consume(t, wake), 5)).value, Consume(t, wake)) == [s.q[0]]
  {
    var c: Step<T>, x := Consume(t, wake), s.q[0];
    PopTakes(s, t, wake);
    var s4 := Run(s, Repeat(c, 4)).value;
    var s5 := s4.(producers := WakeProducer(s.producers, wake).value, consumers := s4.consumers[t := Frees(x)]);
    var s6 := s5.(owner := None, consumers := s5.consumers[t := Away]);
    RunSnoc(s, Repeat(c, 4), c, s4, s5);
    RunSnoc(s, Repeat(c, 5), c, s5, s6);
    assert s6.consumers == s.consumers;
  }

  /** A producer that was woken goes on from its test, and pushes if there is room by then. */
  lemma {:induction false} WokenPushes<T>(s: State<T>, t: nat, x: T, wake: nat)
    requires t < |s.producers| && s.producers[t].Woken? && s.owner.None?
    ensures Run(s, Repeat(Produce(t, x, wake), 1))
            == Some(s.(owner := Some(P(t)), producers := s.producers[t := Checks(s.producers[t].x)]))
    ensures Run(s, Repeat(Produce(t, x, wake), 2)).Some?
            && Run(s, Repeat(Produce(t, x, wake), 2)).value.producers[t]
               == if |s.q| == s.cap then Sleeps(s.producers[t].x) else Puts(s.producers[t].x)
  {
    var p, v := Produce(t, x, wake), s.producers[t].x;
    var s1 := s.(owner := Some(P(t)), producers := s.producers[t := Checks(v)]);
    RunSnoc(s, Repeat(p, 0), p, s, s1);
    RunSnoc(s, Repeat(p, 1), p, s1, ProducerStep(s1, t, x, wake).value);
  }

  /** A consumer that was woken does the same. */
  lemma {:induction false} WokenPops<T>(s: State<T>, t: nat, wake: nat)
    requires t < |s.consumers| && s.consumers[t].Roused? && s.owner.None?
    ensures Run(s, Repeat(Consume(t, wake), 1)) == Some(s.(owner := Some(C(t)), consumers := s.consumers[t := Tests]))
    ensures Run(s, Repeat(Consume(t, wake), 2)).Some?
            && Run(s, Repeat(Consume(t, wake), 2)).value.consumers[t] == if s.q == [] then Dozes else Takes
  {
    var c: Step<T> := Consume(t, wake);
    var s1 := s.(owner := Some(C(t)), consumers := s.consumers[t := Tests]);
    RunSnoc(s, Repeat(c, 0), c, s, s1);
    RunSnoc(s, Repeat(c, 1), c, s1, ConsumerStep(s1, t, wake).value);
  }

  /** With the queue full push goes to sleep and gives the mutex back. */
  lemma {:induction false} PushWaits<T>(s: State<T>, t: nat, x: T, wake: nat)
    requires t < |s.producers| && s.producers[t].Outside? && s.owner.None? && |s.q| == s.cap
    ensures Run(s, Repeat(Produce(t, x, wake), 3)) == Some(s.(producers := s.producers[t := Sleeps(x)]))
  {
    var p, ps := Produce(t, x, wake), s.producers;
    var s1 := s.(producers := ps[t := Wants(x)]);
    var s2 := s1.(owner := Some(P(t)), producers := s1.producers[t := Checks(x)]);
    var s3 := s2.(owner := None, producers := s2.producers[t := Sleeps(x)]);
    RunSnoc(s, Repeat(p, 0), p, s, s1);
    RunSnoc(s, Repeat(p, 1), p, s1, s2);
    RunSnoc(s, Repeat(p, 2), p, s2, s3);
    assert s3.producers == ps[t := Sleeps(x)];
  }

  /** With the queue empty pop does. */
  lemma {:induction false} PopWaits<T>(s: State<T>, t: nat, wake: nat)
    requires t < |s.consumers| && s.consumers[t].Away? && s.owner.None? && s.q == []
    ensures Run(s, Repeat(Consume(t, wake), 3)) == Some(s.(consumers := s.consumers[t := Dozes]))
  {
    var c: Step<T>, cs := Consume(t, wake), s.consumers;
    var s1 := s.(consumers := cs[t := Asks]);
    var s2 := s1.(owner := Some(C(t)), consumers := s1.consumers[t := Tests]);
    var s3 := s2.(owner := None, consumers := s2.consumers[t := Dozes]);
    RunSnoc(s, Repeat(c, 0), c, s, s1);
    RunSnoc(s, Repeat(c, 1), c, s1, s2);
    RunSnoc(s, Repeat(c, 2), c, s2, s3);
    assert s3.consumers == cs[t := Dozes];
  }

  /** With capacity 0 a producer and a consumer put each other to sleep for good. */
  lemma {:induction false} ZeroDeadlocks<T(!new)>(x: T)
    ensures !DeadlockFree<T>(0)
  {
    var s := Initial<T>(0, 1, 1);
    var p, c := Produce(0, x, 0), Consume(0, 0);
    var s1 := s.(producers := s.producers[0 := Wants(x)]);
    var s2 := s1.(owner := Some(P(0)), producers := s1.producers[0 := Checks(x)]);
    var s3 := s2.(owner := None, producers := s2.producers[0 := Sleeps(x)]);
    RunSnoc(s, [], p, s, s1);
    RunSnoc(s, [] + [p], p, s1, s2);
    RunSnoc(s, [] + [p] + [p], p, s2, s3);
    var ps := [] + [p] + [p] + [p];
    var s4 := s3.(consumers := s3.consumers[0 := Asks]);
    var s5 := s4.(owner := Some(C(0)), consumers := s4.consumers[0 := Tests]);
    var s6 := s5.(owner := None, consumers := s5.consumers[0 := Dozes]);
    RunSnoc(s, ps, c, s3, s4);
    RunSnoc(s, ps + [c], c, s4, s5);
    RunSnoc(s, ps + [c] + [c], c, s5, s6);
    assert !Live(s6);
    assert Run(Initial(0, 1, 1), ps + [c] + [c] + [c]) == Some(s6);
  }

  /** The queue is free of deadlock exactly when the capacity is not 0. */
  lemma {:induction false} DeadlockFreeIff<T(!new)>(cap: int, x: T)
    ensures DeadlockFree<T>(cap) <==> cap != 0
  {
    if cap == 0 {
      ZeroDeadlocks(x);
    } else {
      forall producers: nat, consumers: nat, steps: seq<Step<T>>
        | producers > 0 && consumers > 0 && Run(Initial(cap, producers, consumers), steps).Some?
        ensures Live(Run(Initial(cap, producers, consumers), steps).value)
      {
        InitialInv<T>(cap, producers, consumers);
        RunInv(Initial(cap, producers, consumers), steps);
        CapConstant(Initial(cap, producers, consumers), steps);
        var step := SomeStepEnabled(Run(Initial(cap, producers, consumers), steps).value, x);
      }
    }
  }

  // -------------------------------------------------------- the queue as an object

  /** The queue of a state as an object: the critical sections of push and pop, run by
      the thread that holds the mutex in `s`. */
  class BlockQueue<T> {
    const cap: int
    var q: seq<T>

    constructor (cap: int)
      ensures this.cap == cap && q == []
    {
      this.cap, q := cap, [];
    }

    method IsFull() returns (b: bool)
      ensures b == (|q| == cap)
    {
      b := |q| == cap;
    }

    method IsEmpty() returns (b: bool)
      ensures b == (q == [])
    {
      b := |q| == 0;
    }

    /** The test of the loop in push: wait when full, else push. */
    method TryPush(ghost s: State<T>, ghost t: nat, x: T) returns (waits: bool)
      requires s.cap == cap && s.q == q && t < |s.producers| && s.producers[t] == Checks(x)
      modifies this
      ensures waits == (|old(q)| == cap) && q == if waits then old(q) else old(q) + [x]
      ensures var s1 := ProducerStep(s, t, x, 0);
              && s1.Some?
              && if waits then s1.value.q == q && s1.value.owner == None && s1.value.producers[t] == Sleeps(x)
                 else var s2 := ProducerStep(s1.value, t, x, 0);
                      s2.Some? && s2.value.q == q && s2.value.pushed == s.pushed + [x] && s2.value.producers[t] == Signals
    {
      waits := IsFull();
      if !waits {
        q := q + [x];
      }
    }

    /** The test of the loop in pop: wait when empty, else take the oldest. */
    method TryPop(ghost s: State<T>, ghost t: nat) returns (x: Option<T>)
      requires s.cap == cap && s.q == q && t < |s.consumers| && s.consumers[t] == Tests
      modifies this
      ensures x == if old(q) == [] then None else Some(old(q)[0])
      ensures q == if old(q) == [] then [] else old(q)[1..]
      ensures var s1 := ConsumerStep(s, t, 0);
              && s1.Some?
              && if x.None? then s1.value.q == q && s1.value.owner == None && s1.value.consumers[t] == Dozes
                 else var s2 := ConsumerStep(s1.value, t, 0);
                      s2.Some? && s2.value.q == q && s2.value.popped == s.popped + [x.value]
                      && s2.value.consumers[t] == Tells(x.value)
    {
      var empty := IsEmpty();
      x := None;
      if !empty {
        x := Some(q[0]);
        q := q[1..];
      }
    }
  }
}
