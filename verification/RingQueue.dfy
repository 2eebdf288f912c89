/** The ring queue as an object over an array: push and pop run by one caller without
    interference are the seven steps of a thread in the step system. */
module RingQueue {
  import opened Text
  import opened Threads
  import opened SemaphoreRing

  /** The closed form of one producer's seven steps. */
  function Pushed<T>(s: State<T>, x: T): State<T>
    requires s.space > 0 && s.pPos < |s.ring| && s.capacity > 0
  {
    s.(ring := s.ring[s.pPos := x], written := s.written + [x], pPos := (s.pPos + 1) % s.capacity,
       space := s.space - 1, data := s.data + 1)
  }

  function Popped<T>(s: State<T>): State<T>
    requires s.data > 0 && s.cPos < |s.ring| && s.capacity > 0
  {
    s.(read := s.read + [s.ring[s.cPos]], cPos := (s.cPos + 1) % s.capacity,
       data := s.data - 1, space := s.space + 1)
  }

  lemma {:induction false} RunSnoc<T>(s: State<T>, steps: seq<Step<T>>, step: Step<T>, mid: State<T>, end: State<T>)
    requires Run(s, steps) == Some(mid) && Next(mid, step) == Some(end)
    ensures Run(s, steps + [step]) == Some(end)
  {
    assert (steps + [step])[..|steps|] == steps;
  }

  /** With no thread inside, the write position is a slot of the ring. */
  lemma {:induction false} PushFinds<T>(s: State<T>)
    requires Inv(s) && s.pOwner == None
    ensures s.capacity > 0 && s.pPos < |s.ring|
  {
  }

  /** With no thread inside and data present, the read position holds the oldest value. */
  lemma {:induction false} PopFinds<T>(s: State<T>)
    requires Inv(s) && s.cOwner == None && s.data > 0
    ensures s.capacity > 0 && s.cPos < |s.ring| && |s.read| < |s.written|
    ensures s.ring[s.cPos] == Queue(s)[0]
  {
  }

  /** A producer at rest that finds space and no other thread under way. */
  lemma {:induction false} PushRuns<T>(s: State<T>, x: T)
    requires s.producers == [Resting] && s.pOwner == None && s.space > 0
    requires s.capacity > 0 && s.pPos < |s.ring|
    ensures Run(s, Repeat(Produce(0, x), 7)) == Some(Pushed(s, x))
  {
    var p := Produce(0, x);
    var s1 := s.(space := s.space - 1, producers := s.producers[0 := Granted(x)]);
    var s2 := s1.(pOwner := Some(0), producers := s1.producers[0 := Inside(x)]);
    var s3 := s2.(ring := s.ring[s.pPos := x], written := s.written + [x], producers := s2.producers[0 := Wrote]);
    assert s3.producers == [Wrote];
    RunSnoc(s, Repeat(p, 0), p, s, s1);
    RunSnoc(s, Repeat(p, 1), p, s1, s2);
    RunSnoc(s, Repeat(p, 2), p, s2, s3);
    PushLeaves(s, s3, x);
  }

  lemma {:induction false} PushLeaves<T>(s: State<T>, s3: State<T>, x: T)
    requires Run(s, Repeat(Produce(0, x), 3)) == Some(s3) && s3.producers == [Wrote] && s3.capacity > 0
    ensures Run(s, Repeat(Produce(0, x), 7)) ==
              Some(s3.(pPos := (s3.pPos + 1) % s3.capacity, pOwner := None, data := s3.data + 1, producers := [Resting]))
  {
    var p := Produce(0, x);
    var s4 := s3.(pPos := s3.pPos + 1, producers := s3.producers[0 := Bumped]);
    var s5 := s4.(pPos := (s3.pPos + 1) % s3.capacity, producers := s4.producers[0 := Reduced]);
    var s6 := s5.(pOwner := None, producers := s5.producers[0 := Left]);
    var s7 := s6.(data := s3.data + 1, producers := s6.producers[0 := Resting]);
    RunSnoc(s, Repeat(p, 3), p, s3, s4);
    RunSnoc(s, Repeat(p, 4), p, s4, s5);
    RunSnoc(s, Repeat(p, 5), p, s5, s6);
    RunSnoc(s, Repeat(p, 6), p, s6, s7);
    assert s7.producers == [Resting];
  }

  lemma {:induction false} PopRuns<T>(s: State<T>)
    requires s.consumers == [Waiting] && s.cOwner == None && s.data > 0
    requires s.capacity > 0 && s.cPos < |s.ring|
    ensures Run(s, Repeat(Consume(0), 7)) == Some(Popped(s))
  {
    var c: Step<T> := Consume(0);
    var x := s.ring[s.cPos];
    var s1 := s.(data := s.data - 1, consumers := s.consumers[0 := Admitted]);
    var s2 := s1.(cOwner := Some(0), consumers := s1.consumers[0 := Within]);
    var s3 := s2.(read := s.read + [x], consumers := s2.consumers[0 := Took(x)]);
    assert s3.consumers == [Took(x)];
    RunSnoc(s, Repeat(c, 0), c, s, s1);
    RunSnoc(s, Repeat(c, 1), c, s1, s2);
    RunSnoc(s, Repeat(c, 2), c, s2, s3);
    PopLeaves(s, s3, x);
  }

  lemma {:induction false} PopLeaves<T>(s: State<T>, s3: State<T>, x: T)
    requires Run(s, Repeat(Consume(0), 3)) == Some(s3) && s3.consumers == [Took(x)] && s3.capacity > 0
    ensures Run(s, Repeat(Consume(0), 7)) ==
              Some(s3.(cPos := (s3.cPos + 1) % s3.capacity, cOwner := None, space := s3.space + 1, consumers := [Waiting]))
  {
    var c: Step<T> := Consume(0);
    var s4 := s3.(cPos := s3.cPos + 1, consumers := s3.consumers[0 := Advanced(x)]);
    var s5 := s4.(cPos := (s3.cPos + 1) % s3.capacity, consumers := s4.consumers[0 := Folded(x)]);
    var s6 := s5.(cOwner := None, consumers := s5.consumers[0 := Gone(x)]);
    var s7 := s6.(space := s3.space + 1, consumers := s6.consumers[0 := Waiting]);
    RunSnoc(s, Repeat(c, 3), c, s3, s4);
    RunSnoc(s, Repeat(c, 4), c, s4, s5);
    RunSnoc(s, Repeat(c, 5), c, s5, s6);
    RunSnoc(s, Repeat(c, 6), c, s6, s7);
    assert s7.consumers == [Waiting];
  }

  lemma {:induction false} PoppedQueue<T>(s: State<T>)
    requires s.data > 0 && s.cPos < |s.ring| && s.capacity > 0 && |s.read| < |s.written|
    ensures Queue(Popped(s)) == Queue(s)[1..]
  {
  }

  lemma {:induction false} PushMakes<T>(s: State<T>, x: T)
    requires Inv(s) && s.producers == [Resting] && s.pOwner == None && s.space > 0
    ensures s.pPos < |s.ring| && Inv(Pushed(s, x))
    ensures Run(s, Repeat(Produce(0, x), 7)) == Some(Pushed(s, x))
    ensures |s.read| <= |s.written| && Queue(Pushed(s, x)) == Queue(s) + [x]
  {
    PushFinds(s);
    PushRuns(s, x);
    RunInv(s, Repeat(Produce(0, x), 7));
    NeverLapped(s);
  }

  lemma {:induction false} PopMakes<T>(s: State<T>)
    requires Inv(s) && s.consumers == [Waiting] && s.cOwner == None && s.data > 0
    ensures s.cPos < |s.ring| && Inv(Popped(s))
    ensures Run(s, Repeat(Consume(0), 7)) == Some(Popped(s))
    ensures |s.read| < |s.written| && s.ring[s.cPos] == Queue(s)[0] && Queue(Popped(s)) == Queue(s)[1..]
  {
    PopFinds(s);
    PopRuns(s);
    RunInv(s, Repeat(Consume(0), 7));
    PoppedQueue(s);
  }

  class RingQueue<T(0)> {
    const capacity: nat
    const ring: array<T>
    var dataSem: nat
    var spaceSem: nat
    var cPos: nat
    var pPos: nat
    ghost var written: seq<T>
    ghost var read: seq<T>

    /** The object as a state with one producer and one consumer, both at rest. */
    ghost function Abs(): State<T>
      reads this, ring
    {
      State(capacity, ring[..], pPos, cPos, spaceSem, dataSem, None, None, [Resting], [Waiting], written, read)
    }

    ghost predicate Valid()
      reads this, ring
    {
      Inv(Abs())
    }

    constructor (num: nat)
      requires num > 0
      ensures Valid() && fresh(ring) && capacity == num && spaceSem == num && dataSem == 0
      ensures written == read == []
    {
      capacity, ring := num, new T[num];
      dataSem, spaceSem, cPos, pPos := 0, num, 0, 0;
      written, read := [], [];
      new;
      InitialInv(num, ring[..], 1, 1);
      assert Abs() == Initial(num, ring[..], 1, 1);
    }

    /** With space left, push returns and the value is the newest in the queue. */
    method Push(x: T)
      requires Valid() && spaceSem > 0
      modifies this, ring
      ensures Valid() && Run(old(Abs()), Repeat(Produce(0, x), 7)) == Some(Abs())
      ensures written == old(written) + [x] && read == old(read)
      ensures Queue(Abs()) == Queue(old(Abs())) + [x]
    {
      ghost var s := Abs();
      PushFinds(s);
      spaceSem := spaceSem - 1;
      ring[pPos] := x;
      written := written + [x];
      pPos := pPos + 1;
      pPos := pPos % capacity;
      dataSem := dataSem + 1;
      assert Equals(ring[..], s.ring[s.pPos := x]) && Equals(written, s.written + [x]);
      assert Equals(Abs(), Pushed(s, x));
      PushMakes(s, x);
    }

    /** With data present, pop returns the oldest value in the queue. */
    method Pop() returns (x: T)
      requires Valid() && dataSem > 0
      modifies this
      ensures Valid() && Run(old(Abs()), Repeat(Consume(0), 7)) == Some(Abs())
      ensures Queue(old(Abs())) != [] && x == Queue(old(Abs()))[0] && Queue(Abs()) == Queue(old(Abs()))[1..]
    {
      ghost var s := Abs();
      PopFinds(s);
      dataSem := dataSem - 1;
      x := ring[cPos];
      read := read + [x];
      cPos := cPos + 1;
      cPos := cPos % capacity;
      spaceSem := spaceSem + 1;
      assert Equals(ring[..], s.ring) && Equals(read, s.read + [s.ring[s.cPos]]);
      assert Equals(Abs(), Popped(s));
      PopMakes(s);
    }
  }
}
