/** The thread pool with its lazily built instance: any number of callers obtain the
    instance through a double-checked lock and push tasks, while the workers that the
    builder starts one by one take and run them. */
module ThreadPool {
  import opened Text
  import opened Threads

  datatype Caller<T> =
    | Idle
    | First                   // about to test the pointer without the lock
    | Queues                  // wants the static lock
    | Second                  // holds it, about to test again
    | Builds                  // about to construct
    | Inits(i: nat)           // creating thread objects
    | Starts(i: nat)          // starting them
    | Releases                // about to unlock the static lock
    | Has(id: nat)            // get_instance has returned
    | WantsPool(id: nat, x: T)
    | Pushes(id: nat, x: T)   // holds the pool's lock
    | Signals(id: nat)
    | Leaves(id: nat)

  datatype Worker<T> =
    | NotStarted
    | Wants
    | Tests                   // holds the lock, at the test of the wait loop
    | Sleeps
    | Woken
    | Takes                   // holds the lock, found a task
    | Unlocks(x: T, k: nat)   // took the k-th task
    | Runs(x: T, k: nat)      // runs it without the lock

  /** What became of a task that was taken. */
  datatype Fate = InHand(w: nat) | Finished

  datatype Owner = Caller(t: nat) | Worker(w: nat)

  datatype State<T> = State(
    cap: nat, made: nat, pointer: Option<nat>,       // pools constructed, and the one pointed to
    threads: nat, inits: nat, runs: nat,             // of the pool pointed to
    sOwner: Option<nat>, mOwner: Option<Owner>,
    q: seq<T>, callers: seq<Caller<T>>, workers: seq<Worker<T>>,
    pushed: seq<T>, taken: seq<T>, fate: seq<Fate>)  // history

  datatype Step<T> = Call(t: nat, x: T, wake: nat) | Work(w: nat) | Spurious(w: nat)

  function Initial<T>(cap: nat, callers: nat): State<T> {
    State(cap, 0, None, 0, 0, 0, None, None, [],
          seq(callers, i => Idle), seq(cap, i => NotStarted), [], [], [])
  }

  function Sleeping<T>(): Worker<T> -> bool { (w: Worker<T>) => w.Sleeps? }
  function Awake<T>(): Worker<T> -> bool { (w: Worker<T>) => w.Wants? || w.Tests? || w.Woken? || w.Takes? }
  function Signalling<T>(): Caller<T> -> bool { (c: Caller<T>) => c.Signals? }

  function Wake<T>(ws: seq<Worker<T>>, wake: nat): Option<seq<Worker<T>>> {
    if Count(ws, Sleeping()) == 0 then Some(ws)
    else if wake < |ws| && ws[wake].Sleeps? then Some(ws[wake := Woken])
    else None
  }

  /** One step of get_instance (lines 32 to 45) and init and startRunning (115 to 131). */
  function GetStep<T>(s: State<T>, t: nat): Option<State<T>>
    requires t < |s.callers|
  {
    match s.callers[t]
    case Idle => Some(s.(callers := s.callers[t := First]))
    case First =>
      if s.pointer.Some? then Some(s.(callers := s.callers[t := Has(s.pointer.value)]))
      else Some(s.(callers := s.callers[t := Queues]))
    case Queues =>
      if s.sOwner.Some? then None
      else Some(s.(sOwner := Some(t), callers := s.callers[t := Second]))
    case Second =>
      Some(s.(callers := s.callers[t := if s.pointer.Some? then Releases else Builds]))
    case Builds =>
      // a new pool: nothing in its queue, no thread object yet
      Some(s.(made := s.made + 1, pointer := Some(s.made + 1), threads := 0, q := [],
              workers := seq(s.cap, i => NotStarted), callers := s.callers[t := Inits(0)]))
    case Inits(i) =>
      if i < s.cap then Some(s.(threads := s.threads + 1, callers := s.callers[t := Inits(i + 1)]))
      else Some(s.(inits := s.inits + 1, callers := s.callers[t := Starts(0)]))
    case Starts(i) =>
      if i < s.threads then
        if i < |s.workers| then
          Some(s.(workers := s.workers[i := Wants], callers := s.callers[t := Starts(i + 1)]))
        else None
      else Some(s.(runs := s.runs + 1, callers := s.callers[t := Releases]))
    case Releases =>
      if s.pointer.None? then None
      else Some(s.(sOwner := None, callers := s.callers[t := Has(s.pointer.value)]))
    case _ => None
  }

  /** One step of pushTask (lines 58 to 67). */
  function PushStep<T>(s: State<T>, t: nat, x: T, wake: nat): Option<State<T>>
    requires t < |s.callers|
  {
    match s.callers[t]
    case Has(id) => Some(s.(callers := s.callers[t := WantsPool(id, x)]))
    case WantsPool(id, v) =>
      if s.mOwner.Some? then None
      else Some(s.(mOwner := Some(Caller(t)), callers := s.callers[t := Pushes(id, v)]))
    case Pushes(id, v) =>
      Some(s.(q := s.q + [v], pushed := s.pushed + [v], callers := s.callers[t := Signals(id)]))
    case Signals(id) =>
      var ws := Wake(s.workers, wake);
      if ws.None? then None else Some(s.(workers := ws.value, callers := s.callers[t := Leaves(id)]))
    case Leaves(id) => Some(s.(mOwner := None, callers := s.callers[t := Has(id)]))
    case _ => None
  }

  /** One step of thread_func (lines 84 to 112). */
  function WorkStep<T>(s: State<T>, w: nat): Option<State<T>>
    requires w < |s.workers|
  {
    match s.workers[w]
    case NotStarted => None
    case Wants =>
      if s.mOwner.Some? then None
      else Some(s.(mOwner := Some(Worker(w)), workers := s.workers[w := Tests]))
    case Tests =>
      if s.q == [] then Some(s.(mOwner := None, workers := s.workers[w := Sleeps]))
      else Some(s.(workers := s.workers[w := Takes]))
    case Sleeps => None
    case Woken =>
      if s.mOwner.Some? then None
      else Some(s.(mOwner := Some(Worker(w)), workers := s.workers[w := Tests]))
    case Takes =>
      if s.q == [] then None
      else Some(s.(q := s.q[1..], taken := s.taken + [s.q[0]], fate := s.fate + [InHand(w)],
                   workers := s.workers[w := Unlocks(s.q[0], |s.taken|)]))
    case Unlocks(x, k) => Some(s.(mOwner := None, workers := s.workers[w := Runs(x, k)]))
    case Runs(x, k) =>
      if k >= |s.fate| then None
      else Some(s.(fate := s.fate[k := Finished], workers := s.workers[w := Wants]))
  }

  predicate Getting<T>(c: Caller<T>) {
    c.Idle? || c.First? || c.Queues? || c.Second? || c.Builds? || c.Inits? || c.Starts? || c.Releases?
  }

  function Next<T>(s: State<T>, step: Step<T>): Option<State<T>> {
    match step
    case Call(t, x, wake) =>
      if t >= |s.callers| then None
      else if Getting(s.callers[t]) then GetStep(s, t)
      else PushStep(s, t, x, wake)
    case Work(w) => if w < |s.workers| then WorkStep(s, w) else None
    case Spurious(w) =>
      if w < |s.workers| && s.workers[w].Sleeps? then Some(s.(workers := s.workers[w := Woken])) else None
  }

  function Run<T>(s: State<T>, steps: seq<Step<T>>): Option<State<T>> {
    if steps == [] then Some(s)
    else
      var before := Run(s, steps[..|steps| - 1]);
      if before.None? then None else Next(before.value, steps[|steps| - 1])
  }

  // ------------------------------------------------------------- invariant

  predicate HoldsStatic<T>(c: Caller<T>) {
    c.Second? || c.Builds? || c.Inits? || c.Starts? || c.Releases?
  }

  predicate HoldsPool<T>(c: Caller<T>) {
    c.Pushes? || c.Signals? || c.Leaves?
  }

  predicate WorkerHolds<T>(w: Worker<T>) {
    w.Tests? || w.Takes? || w.Unlocks?
  }

  ghost predicate StaticLock<T>(s: State<T>) {
    && (forall t: nat :: t < |s.callers| ==> (HoldsStatic(s.callers[t]) <==> s.sOwner == Some(t)))
    && (s.sOwner.Some? ==> s.sOwner.value < |s.callers|)
  }

  ghost predicate PoolLock<T>(s: State<T>) {
    && (forall t: nat :: t < |s.callers| ==> (HoldsPool(s.callers[t]) <==> s.mOwner == Some(Caller(t))))
    && (forall w: nat :: w < |s.workers| ==> (WorkerHolds(s.workers[w]) <==> s.mOwner == Some(Worker(w))))
    && (s.mOwner.Some? ==> if s.mOwner.value.Caller? then s.mOwner.value.t < |s.callers| else s.mOwner.value.w < |s.workers|)
  }

  /** What the holder of the static lock is doing. */
  function Builder<T>(s: State<T>): Caller<T> {
    if s.sOwner.Some? && s.sOwner.value < |s.callers| then s.callers[s.sOwner.value] else Idle
  }

  predicate StartedUpTo<T>(ws: seq<Worker<T>>, n: nat) {
    forall w :: 0 <= w < |ws| ==> (ws[w].NotStarted? <==> w >= n)
  }

  /** How far the one construction has come. */
  ghost predicate Construction<T>(s: State<T>) {
    && |s.workers| == s.cap
    && match Builder(s) {
         case Builds => s.made == 0
         case Inits(i) => s.made == 1 && s.threads == i <= s.cap && s.inits == s.runs == 0 && StartedUpTo(s.workers, 0)
         case Starts(i) => s.made == 1 && s.threads == s.cap && i <= s.cap && s.inits == 1 && s.runs == 0 && StartedUpTo(s.workers, i)
         case Releases => s.made == 1
         case _ => true
       }
    && (s.made == 0 ==> s.pointer == None && s.threads == s.inits == s.runs == 0 && StartedUpTo(s.workers, 0) && s.q == s.pushed == s.taken == [])
    && (s.made > 0 ==> s.made == 1 && s.pointer == Some(1))
    && (s.made == 1 && !Builder(s).Inits? && !Builder(s).Starts? ==>
          s.threads == s.cap && s.inits == s.runs == 1 && StartedUpTo(s.workers, s.cap))
  }

  function IdOf<T>(c: Caller<T>): Option<nat> {
    match c
    case Has(id) => Some(id)
    case WantsPool(id, _) => Some(id)
    case Pushes(id, _) => Some(id)
    case Signals(id) => Some(id)
    case Leaves(id) => Some(id)
    case _ => None
  }

  /** Every caller that has returned holds the one pool. */
  ghost predicate SamePool<T>(s: State<T>) {
    forall t :: 0 <= t < |s.callers| && IdOf(s.callers[t]).Some? ==> s.made == 1 && IdOf(s.callers[t]) == Some(1)
  }

  ghost predicate NoLostWakeup<T>(s: State<T>) {
    Count(s.workers, Sleeping()) > 0 ==>
      |s.q| <= Count(s.workers, Awake()) + Count(s.callers, Signalling())
  }

  function Holding<T>(w: Worker<T>): Option<nat> {
    if w.Unlocks? || w.Runs? then Some(w.k) else None
  }

  /** Nothing is lost: what was pushed is what was taken followed by what is queued. */
  ghost predicate Conserved<T>(s: State<T>) {
    && s.pushed == s.taken + s.q
    && forall w: nat :: w < |s.workers| && s.workers[w].Takes? ==> s.q != []
  }

  /** A task that was taken is finished or in the hand of one worker, who holds that
      task and no other. */
  ghost predicate Fates<T>(s: State<T>) {
    && |s.fate| == |s.taken|
    && (forall k: nat :: k < |s.fate| && s.fate[k].InHand? ==>
          s.fate[k].w < |s.workers| && Holding(s.workers[s.fate[k].w]) == Some(k))
    && (forall w: nat :: w < |s.workers| && Holding(s.workers[w]).Some? ==>
          var k := s.workers[w].k;
          k < |s.fate| && s.fate[k] == InHand(w) && s.taken[k] == s.workers[w].x)
  }

  ghost predicate Inv<T>(s: State<T>) {
    && StaticLock(s) && PoolLock(s) && Construction(s) && SamePool(s) && NoLostWakeup(s) && Conserved(s) && Fates(s)
  }

  // ------------------------------------------------------- every step keeps it

  lemma {:induction false} InitialInv<T>(cap: nat, callers: nat)
    ensures Inv(Initial<T>(cap, callers))
  {
  }

  // ---- get_instance, init and startRunning

  lemma {:induction false} GetStatic<T>(s: State<T>, t: nat)
    requires StaticLock(s) && t < |s.callers| && GetStep(s, t).Some?
    ensures StaticLock(GetStep(s, t).value)
  {
  }

  /** Before the pool exists no worker runs, so constructing it loses nothing. */
  lemma {:induction false} FreshPool<T>(s: State<T>)
    requires Construction(s) && s.made == 0
    ensures s.workers == seq(s.cap, i => NotStarted) && s.q == []
  {
  }

  /** The caller that moves inside the static lock is the builder. */
  lemma {:induction false} BuilderIs<T>(s: State<T>, t: nat)
    requires StaticLock(s) && t < |s.callers|
    ensures HoldsStatic(s.callers[t]) ==> Builder(s) == s.callers[t]
  {
  }

  lemma {:induction false} GetConstruction<T>(s: State<T>, t: nat)
    requires StaticLock(s) && Construction(s) && t < |s.callers| && GetStep(s, t).Some?
    ensures Construction(GetStep(s, t).value)
  {
    var s' := GetStep(s, t).value;
    GetStatic(s, t);
    BuilderIs(s, t);
    BuilderIs(s', t);
    assert HoldsStatic(s.callers[t]) <==> s.sOwner == Some(t);
    if s.made == 0 {
      FreshPool(s);
    }
  }

  /** Who holds the pool's lock does not depend on anything else. */
  lemma {:induction false} PoolLockFrame<T>(s: State<T>, s': State<T>)
    requires PoolLock(s) && s'.mOwner == s.mOwner
    requires |s'.callers| == |s.callers| && |s'.workers| == |s.workers|
    requires forall t :: 0 <= t < |s.callers| ==> (HoldsPool(s'.callers[t]) <==> HoldsPool(s.callers[t]))
    requires forall w :: 0 <= w < |s.workers| ==> (WorkerHolds(s'.workers[w]) <==> WorkerHolds(s.workers[w]))
    ensures PoolLock(s')
  {
  }

  lemma {:induction false} GetPoolLock<T>(s: State<T>, t: nat)
    requires StaticLock(s) && PoolLock(s) && Construction(s) && t < |s.callers| && GetStep(s, t).Some?
    ensures PoolLock(GetStep(s, t).value)
  {
    BuilderIs(s, t);
    if s.made == 0 {
      FreshPool(s);
    }
    PoolLockFrame(s, GetStep(s, t).value);
  }

  lemma {:induction false} GetSamePool<T>(s: State<T>, t: nat)
    requires StaticLock(s) && Construction(s) && SamePool(s) && t < |s.callers| && GetStep(s, t).Some?
    ensures SamePool(GetStep(s, t).value)
  {
    BuilderIs(s, t);
  }

  lemma {:induction false} GetWakes<T>(s: State<T>, t: nat)
    requires StaticLock(s) && Construction(s) && NoLostWakeup(s) && t < |s.callers| && GetStep(s, t).Some?
    ensures NoLostWakeup(GetStep(s, t).value)
  {
    BuilderIs(s, t);
    CountUpdate(s.callers, t, GetStep(s, t).value.callers[t], Signalling<T>());
    match s.callers[t]
    case Builds => FreshPool(s);
    case Starts(i) =>
      if i < s.threads {
        CountUpdate(s.workers, i, Wants, Sleeping<T>());
        CountUpdate(s.workers, i, Wants, Awake<T>());
      }
    case _ =>
  }

  lemma {:induction false} GetFates<T>(s: State<T>, t: nat)
    requires StaticLock(s) && Construction(s) && Conserved(s) && Fates(s) && t < |s.callers| && GetStep(s, t).Some?
    ensures Conserved(GetStep(s, t).value) && Fates(GetStep(s, t).value)
  {
    BuilderIs(s, t);
    var s' := GetStep(s, t).value;
    if s.callers[t].Builds? {
      FreshPool(s);
      assert s'.workers == s.workers && s'.q == s.q;
    } else if s.callers[t].Starts? && s.callers[t].i < s.threads {
      assert s.workers[s.callers[t].i].NotStarted?;
      SameHands(s, s');
    } else {
      assert s'.workers == s.workers && s'.q == s.q;
    }
  }

  lemma {:induction false} SameHands<T>(s: State<T>, s': State<T>)
    requires Fates(s) && s'.taken == s.taken && s'.fate == s.fate && |s'.workers| == |s.workers|
    requires forall w :: 0 <= w < |s.workers| ==>
               s'.workers[w] == s.workers[w] || (Holding(s.workers[w]) == Holding(s'.workers[w]) == None)
    ensures Fates(s')
  {
  }

  // ---- pushTask

  lemma {:induction false} PushLocks<T>(s: State<T>, t: nat, x: T, wake: nat)
    requires StaticLock(s) && PoolLock(s) && t < |s.callers| && PushStep(s, t, x, wake).Some?
    ensures StaticLock(PushStep(s, t, x, wake).value) && PoolLock(PushStep(s, t, x, wake).value)
  {
  }

  lemma {:induction false} PushConstruction<T>(s: State<T>, t: nat, x: T, wake: nat)
    requires StaticLock(s) && Construction(s) && SamePool(s)
    requires t < |s.callers| && PushStep(s, t, x, wake).Some?
    ensures Construction(PushStep(s, t, x, wake).value)
  {
    var s' := PushStep(s, t, x, wake).value;
    assert HoldsStatic(s.callers[t]) <==> s.sOwner == Some(t);
    assert IdOf(s.callers[t]).Some?;
    assert Builder(s') == Builder(s);
    assert s'.workers == s.workers || (wake < |s.workers| && s.workers[wake].Sleeps? && s'.workers == s.workers[wake := Woken]);
  }

  lemma {:induction false} PushSamePool<T>(s: State<T>, t: nat, x: T, wake: nat)
    requires SamePool(s) && t < |s.callers| && PushStep(s, t, x, wake).Some?
    ensures SamePool(PushStep(s, t, x, wake).value)
  {
  }

  lemma {:induction false} PushWakes<T>(s: State<T>, t: nat, x: T, wake: nat)
    requires NoLostWakeup(s) && t < |s.callers| && PushStep(s, t, x, wake).Some?
    ensures NoLostWakeup(PushStep(s, t, x, wake).value)
  {
    CountUpdate(s.callers, t, PushStep(s, t, x, wake).value.callers[t], Signalling<T>());
    if s.callers[t].Signals? && Count(s.workers, Sleeping<T>()) > 0 {
      CountUpdate(s.workers, wake, Woken, Sleeping<T>());
      CountUpdate(s.workers, wake, Woken, Awake<T>());
    }
  }

  lemma {:induction false} PushFates<T>(s: State<T>, t: nat, x: T, wake: nat)
    requires Conserved(s) && Fates(s) && t < |s.callers| && PushStep(s, t, x, wake).Some?
    ensures Conserved(PushStep(s, t, x, wake).value) && Fates(PushStep(s, t, x, wake).value)
  {
    if s.callers[t].Pushes? {
      assert s.taken + s.q + [s.callers[t].x] == s.taken + (s.q + [s.callers[t].x]);
    }
  }

  // ---- the workers

  lemma {:induction false} WorkLocks<T>(s: State<T>, w: nat)
    requires StaticLock(s) && PoolLock(s) && w < |s.workers| && WorkStep(s, w).Some?
    ensures StaticLock(WorkStep(s, w).value) && PoolLock(WorkStep(s, w).value)
  {
  }

  lemma {:induction false} WorkConstruction<T>(s: State<T>, w: nat)
    requires Construction(s) && SamePool(s) && w < |s.workers| && WorkStep(s, w).Some?
    ensures Construction(WorkStep(s, w).value) && SamePool(WorkStep(s, w).value)
  {
    var s' := WorkStep(s, w).value;
    assert Builder(s') == Builder(s);
    assert s.made != 0;
  }

  lemma {:induction false} WorkWakes<T>(s: State<T>, w: nat)
    requires NoLostWakeup(s) && w < |s.workers| && WorkStep(s, w).Some?
    ensures NoLostWakeup(WorkStep(s, w).value)
  {
    var s' := WorkStep(s, w).value;
    CountUpdate(s.workers, w, s'.workers[w], Sleeping<T>());
    CountUpdate(s.workers, w, s'.workers[w], Awake<T>());
  }

  lemma {:induction false} WorkConserves<T>(s: State<T>, w: nat)
    requires PoolLock(s) && Conserved(s) && w < |s.workers| && WorkStep(s, w).Some?
    ensures Conserved(WorkStep(s, w).value)
  {
  }

  lemma {:induction false} WorkFates<T>(s: State<T>, w: nat)
    requires Fates(s) && w < |s.workers| && WorkStep(s, w).Some?
    ensures Fates(WorkStep(s, w).value)
  {
    var s' := WorkStep(s, w).value;
    forall v: nat | v < |s'.workers| && Holding(s'.workers[v]).Some?
      ensures var k := s'.workers[v].k;
              k < |s'.fate| && s'.fate[k] == InHand(v) && s'.taken[k] == s'.workers[v].x
    {
      if v != w {
        assert Holding(s.workers[v]).Some?;
      }
    }
  }

  lemma {:induction false} SpuriousLock<T>(s: State<T>, w: nat)
    requires PoolLock(s) && w < |s.workers| && s.workers[w].Sleeps?
    ensures PoolLock(s.(workers := s.workers[w := Woken]))
  {
    PoolLockFrame(s, s.(workers := s.workers[w := Woken]));
  }

  lemma {:induction false} SpuriousWakes<T>(s: State<T>, w: nat)
    requires NoLostWakeup(s) && w < |s.workers| && s.workers[w].Sleeps?
    ensures NoLostWakeup(s.(workers := s.workers[w := Woken]))
  {
    CountUpdate(s.workers, w, Woken, Sleeping<T>());
    CountUpdate(s.workers, w, Woken, Awake<T>());
  }

  lemma {:induction false} SpuriousInv<T>(s: State<T>, w: nat)
    requires Inv(s) && w < |s.workers| && s.workers[w].Sleeps?
    ensures Inv(s.(workers := s.workers[w := Woken]))
  {
    SpuriousLock(s, w);
    SpuriousWakes(s, w);
    assert Builder(s.(workers := s.workers[w := Woken])) == Builder(s);
  }

  lemma {:induction false} NextInv<T>(s: State<T>, step: Step<T>)
    requires Inv(s) && Next(s, step).Some?
    ensures Inv(Next(s, step).value)
  {
    match step
    case Call(t, x, wake) =>
      if Getting(s.callers[t]) {
        GetStatic(s, t);
        GetConstruction(s, t);
        GetPoolLock(s, t);
        GetSamePool(s, t);
        GetWakes(s, t);
        GetFates(s, t);
      } else {
        PushLocks(s, t, x, wake);
        PushConstruction(s, t, x, wake);
        PushSamePool(s, t, x, wake);
        PushWakes(s, t, x, wake);
        PushFates(s, t, x, wake);
      }
    case Work(w) =>
      WorkLocks(s, w);
      WorkConstruction(s, w);
      WorkWakes(s, w);
      WorkConserves(s, w);
      WorkFates(s, w);
    case Spurious(w) =>
      SpuriousInv(s, w);
  }

  lemma {:induction false} RunInv<T>(s: State<T>, steps: seq<Step<T>>)
    requires Inv(s) && Run(s, steps).Some?
    ensures Inv(Run(s, steps).value)
  {
    if steps != [] {
      RunInv(s, steps[..|steps| - 1]);
      NextInv(Run(s, steps[..|steps| - 1]).value, steps[|steps| - 1]);
    }
  }

  // ------------------------------------------------------------- main results

  /** The singleton: in every run at most one pool is constructed, every caller that has
      returned holds that one, and it is initialised and started at most once, with as
      many threads as its capacity. */
  lemma {:induction false} Singleton<T>(cap: nat, callers: nat, steps: seq<Step<T>>)
    requires Run(Initial(cap, callers), steps).Some?
    ensures var s := Run(Initial(cap, callers), steps).value;
            && s.made <= 1 && s.inits <= 1 && s.runs <= 1 && s.threads <= s.cap
            && (forall t :: 0 <= t < |s.callers| && IdOf(s.callers[t]).Some? ==>
                  s.made == 1 && IdOf(s.callers[t]) == s.pointer)
            && (s.runs == 1 ==> s.threads == s.cap && forall w :: 0 <= w < |s.workers| ==> !s.workers[w].NotStarted?)
  {
    InitialInv<T>(cap, callers);
    RunInv(Initial(cap, callers), steps);
    var s := Run(Initial(cap, callers), steps).value;
    assert Construction(s) && SamePool(s);
  }

  // ---- runs seen from outside: the calls made, and the tasks run

  /** The call of pushTask that a step is, if caller `t` makes one. */
  function CallOf<T>(s: State<T>, step: Step<T>, t: nat): seq<T> {
    if step.Call? && step.t == t && t < |s.callers| && s.callers[t].Has? then [step.x] else []
  }

  /** The task that takes its place in the queue with a step. */
  function EntryOf<T>(s: State<T>, step: Step<T>): seq<Deed<T>> {
    if step.Call? && step.t < |s.callers| && s.callers[step.t].Pushes? then [Deed(step.t, s.callers[step.t].x)] else []
  }

  /** The task that a worker takes with a step. */
  function TakeOf<T>(s: State<T>, step: Step<T>): seq<Deed<T>>
    requires Next(s, step).Some?
  {
    if step.Work? && s.workers[step.w].Takes? && Next(s, step).value.workers[step.w].Unlocks?
    then [Deed(step.w, Next(s, step).value.workers[step.w].x)] else []
  }

  /** The task that worker `w` has run with a step. */
  function RunOf<T>(s: State<T>, step: Step<T>, w: nat): seq<T> {
    if step.Work? && step.w == w && w < |s.workers| && s.workers[w].Runs? then [s.workers[w].x] else []
  }

  function Calls<T>(s: State<T>, steps: seq<Step<T>>, t: nat): seq<T>
    requires Run(s, steps).Some?
  {
    if steps == [] then []
    else
      var n := |steps| - 1;
      Calls(s, steps[..n], t) + CallOf(Run(s, steps[..n]).value, steps[n], t)
  }

  function Entries<T>(s: State<T>, steps: seq<Step<T>>): seq<Deed<T>>
    requires Run(s, steps).Some?
  {
    if steps == [] then []
    else
      var n := |steps| - 1;
      Entries(s, steps[..n]) + EntryOf(Run(s, steps[..n]).value, steps[n])
  }

  function Pickups<T>(s: State<T>, steps: seq<Step<T>>): seq<Deed<T>>
    requires Run(s, steps).Some?
  {
    if steps == [] then []
    else
      var n := |steps| - 1;
      Pickups(s, steps[..n]) + TakeOf(Run(s, steps[..n]).value, steps[n])
  }

  function HasRun<T>(s: State<T>, steps: seq<Step<T>>, w: nat): seq<T>
    requires Run(s, steps).Some?
  {
    if steps == [] then []
    else
      var n := |steps| - 1;
      HasRun(s, steps[..n], w) + RunOf(Run(s, steps[..n]).value, steps[n], w)
  }

  /** The task a call of pushTask has not queued yet. */
  function Unplaced<T>(c: Caller<T>): seq<T> {
    match c
    case WantsPool(_, x) => [x]
    case Pushes(_, x) => [x]
    case _ => []
  }

  /** The task a worker has taken and not run yet. */
  function Carried<T>(w: Worker<T>): seq<T> {
    match w
    case Unlocks(x, _) => [x]
    case Runs(x, _) => [x]
    case _ => []
  }

  lemma {:induction false} StepPushes<T>(s: State<T>, step: Step<T>, t: nat)
    requires Next(s, step).Some? && t < |s.callers|
    ensures var s' := Next(s, step).value;
            && |s'.callers| == |s.callers| && s'.pushed == s.pushed + Values(EntryOf(s, step))
            && Unplaced(s.callers[t]) + CallOf(s, step, t) == By(EntryOf(s, step), t) + Unplaced(s'.callers[t])
  {
    if step.Call? {
      OneDeed(step.t, if s.callers[step.t].Pushes? then s.callers[step.t].x else step.x, t);
    }
  }

  /** Constructing the pool and starting its workers takes no task out of a hand. */
  lemma {:induction false} CallCarries<T>(s: State<T>, step: Step<T>, w: nat)
    requires StaticLock(s) && Construction(s) && step.Call? && Next(s, step).Some? && w < |s.workers|
    ensures var s' := Next(s, step).value;
            |s'.workers| == |s.workers| && Carried(s'.workers[w]) == Carried(s.workers[w]) && s'.taken == s.taken
  {
    BuilderIs(s, step.t);
    if s.made == 0 {
      FreshPool(s);
    }
  }

  lemma {:induction false} WorkTakes<T>(s: State<T>, v: nat, w: nat)
    requires v < |s.workers| && WorkStep(s, v).Some? && w < |s.workers|
    ensures var s' := WorkStep(s, v).value;
            && |s'.workers| == |s.workers| && s'.taken == s.taken + Values(TakeOf(s, Work(v)))
            && Carried(s.workers[w]) + By(TakeOf(s, Work(v)), w) == RunOf(s, Work(v), w) + Carried(s'.workers[w])
  {
    if s.workers[v].Takes? {
      OneDeed(v, s.q[0], w);
    }
  }

  lemma {:induction false} StepTakes<T>(s: State<T>, step: Step<T>, w: nat)
    requires StaticLock(s) && Construction(s) && Next(s, step).Some? && w < |s.workers|
    ensures var s' := Next(s, step).value;
            && |s'.workers| == |s.workers| && s'.taken == s.taken + Values(TakeOf(s, step))
            && Carried(s.workers[w]) + By(TakeOf(s, step), w) == RunOf(s, step, w) + Carried(s'.workers[w])
  {
    match step
    case Call(_, _, _) =>
      CallCarries(s, step, w);
      Nothing<T>(w);
    case Work(v) => WorkTakes(s, v, w);
    case Spurious(_) => Nothing<T>(w);
  }

  lemma {:induction false} Nothing<T>(w: nat)
    ensures Values<T>([]) == [] && By<T>([], w) == []
  {
  }

  lemma {:induction false} RunPushes<T>(cap: nat, callers: nat, steps: seq<Step<T>>, t: nat)
    requires Run(Initial(cap, callers), steps).Some? && t < callers
    ensures var s0 := Initial(cap, callers);
            var s := Run(s0, steps).value;
            && |s.callers| == callers && s.pushed == Values(Entries(s0, steps))
            && Calls(s0, steps, t) == By(Entries(s0, steps), t) + Unplaced(s.callers[t])
  {
    if steps != [] {
      var n := |steps| - 1;
      var s0 := Initial<T>(cap, callers);
      var s := Run(s0, steps[..n]).value;
      RunPushes(cap, callers, steps[..n], t);
      StepPushes(s, steps[n], t);
      var entries, entry := Entries(s0, steps[..n]), EntryOf(s, steps[n]);
      DeedsSnoc(entries, entry, t);
      HandOver(By(entries, t), Unplaced(s.callers[t]), CallOf(s, steps[n], t), By(entry, t),
               Unplaced(Run(s0, steps).value.callers[t]));
    }
  }

  lemma {:induction false} RunTakes<T>(cap: nat, callers: nat, steps: seq<Step<T>>, w: nat)
    requires Run(Initial(cap, callers), steps).Some? && w < cap
    ensures var s0 := Initial(cap, callers);
            var s := Run(s0, steps).value;
            && |s.workers| == cap && s.taken == Values(Pickups(s0, steps))
            && By(Pickups(s0, steps), w) == HasRun(s0, steps, w) + Carried(s.workers[w])
  {
    if steps != [] {
      var n := |steps| - 1;
      var s0 := Initial<T>(cap, callers);
      var s := Run(s0, steps[..n]).value;
      RunTakes(cap, callers, steps[..n], w);
      InitialInv<T>(cap, callers);
      RunInv(s0, steps[..n]);
      StepTakes(s, steps[n], w);
      var takes, take := Pickups(s0, steps[..n]), TakeOf(s, steps[n]);
      DeedsSnoc(takes, take, w);
      HandOver(HasRun(s0, steps[..n], w), Carried(s.workers[w]), By(take, w), RunOf(s, steps[n], w),
               Carried(Run(s0, steps).value.workers[w]));
    }
  }

  /** Whole runs, from the calls made to the tasks run: each caller's tasks enter the queue in
      the order of its calls, and no call but the one under way is left out; the tasks taken
      are those that entered, in that order, up to those still queued; each worker runs what
      it took, in order, up to the one in its hand. */
  lemma {:induction false} RunDelivers<T>(cap: nat, callers: nat, steps: seq<Step<T>>)
    requires cap > 0 && callers > 0 && Run(Initial(cap, callers), steps).Some?
    ensures var s0 := Initial(cap, callers);
            var s := Run(s0, steps).value;
            && |s.callers| == callers && |s.workers| == cap
            && (forall t: nat :: t < callers ==>
                  Calls(s0, steps, t) == By(Entries(s0, steps), t) + Unplaced(s.callers[t]))
            && Values(Entries(s0, steps)) == Values(Pickups(s0, steps)) + s.q
            && (forall w: nat :: w < cap ==> By(Pickups(s0, steps), w) == HasRun(s0, steps, w) + Carried(s.workers[w]))
  {
    var s0 := Initial<T>(cap, callers);
    var s := Run(s0, steps).value;
    TasksExactlyOnce(cap, callers, steps);
    RunPushes(cap, callers, steps, 0);
    RunTakes(cap, callers, steps, 0);
    forall t: nat | t < callers ensures Calls(s0, steps, t) == By(Entries(s0, steps), t) + Unplaced(s.callers[t]) {
      RunPushes(cap, callers, steps, t);
    }
    forall w: nat | w < cap ensures By(Pickups(s0, steps), w) == HasRun(s0, steps, w) + Carried(s.workers[w]) {
      RunTakes(cap, callers, steps, w);
    }
  }

  /** Exactly once: in every run, tasks are taken in push order; each one pushed, also
      before the workers are started, is still queued, in the hand of one worker, or
      finished; no two workers hold the same one; and front() is never called on an empty
      queue. */
  lemma {:induction false} TasksExactlyOnce<T>(cap: nat, callers: nat, steps: seq<Step<T>>)
    requires Run(Initial(cap, callers), steps).Some?
    ensures var s := Run(Initial(cap, callers), steps).value;
            && s.pushed == s.taken + s.q && |s.fate| == |s.taken|
            && (forall k: nat :: k < |s.taken| ==>
                  s.fate[k].Finished? || (s.fate[k].w < |s.workers| && Holding(s.workers[s.fate[k].w]) == Some(k)
                                          && s.workers[s.fate[k].w].x == s.pushed[k]))
            && (forall v: nat, w: nat :: v < w < |s.workers| && Holding(s.workers[v]).Some? ==>
                  Holding(s.workers[v]) != Holding(s.workers[w]))
            && (forall w: nat :: w < |s.workers| && s.workers[w].Takes? ==> s.q != [])
  {
    InitialInv<T>(cap, callers);
    RunInv(Initial(cap, callers), steps);
    var s := Run(Initial(cap, callers), steps).value;
    assert Conserved(s) && Fates(s);
  }

  // ---- each operation undisturbed

  lemma {:induction false} RunSnoc<T>(s: State<T>, steps: seq<Step<T>>, step: Step<T>, mid: State<T>, end: State<T>)
    requires Run(s, steps) == Some(mid) && Next(mid, step) == Some(end)
    ensures Run(s, steps + [step]) == Some(end)
  {
    assert (steps + [step])[..|steps|] == steps;
  }

  /** pushTask: five steps put the task at the end of the queue and wake a worker, if one
      sleeps. */
  lemma {:induction false} PushMakes<T>(s: State<T>, t: nat, x: T, wake: nat)
    requires t < |s.callers| && s.callers[t].Has? && s.mOwner.None? && Wake(s.workers, wake).Some?
    ensures Run(s, Repeat(Call(t, x, wake), 5))
            == Some(s.(q := s.q + [x], pushed := s.pushed + [x], workers := Wake(s.workers, wake).value))
  {
    var c, cs, id := Call(t, x, wake), s.callers, s.callers[t].id;
    var s1 := s.(callers := cs[t := WantsPool(id, x)]);
    var s2 := s1.(mOwner := Some(Caller(t)), callers := s1.callers[t := Pushes(id, x)]);
    var s3 := s2.(q := s.q + [x], pushed := s.pushed + [x], callers := s2.callers[t := Signals(id)]);
    var s4 := s3.(workers := Wake(s.workers, wake).value, callers := s3.callers[t := Leaves(id)]);
    var s5 := s4.(mOwner := None, callers := s4.callers[t := Has(id)]);
    RunSnoc(s, Repeat(c, 0), c, s, s1);
    RunSnoc(s, Repeat(c, 1), c, s1, s2);
    RunSnoc(s, Repeat(c, 2), c, s2, s3);
    RunSnoc(s, Repeat(c, 3), c, s3, s4);
    RunSnoc(s, Repeat(c, 4), c, s4, s5);
    assert s5.callers == cs;
  }

  lemma {:induction false} WorkPicks<T>(s: State<T>, w: nat)
    requires w < |s.workers| && s.workers[w].Wants? && s.mOwner.None? && s.q != []
    ensures Run(s, Repeat(Work(w), 3))
            == Some(s.(q := s.q[1..], taken := s.taken + [s.q[0]], fate := s.fate + [InHand(w)], mOwner := Some(Worker(w)),
                       workers := s.workers[w := Unlocks(s.q[0], |s.taken|)]))
  {
    var c: Step<T>, ws, x, k := Work(w), s.workers, s.q[0], |s.taken|;
    var s1 := s.(mOwner := Some(Worker(w)), workers := ws[w := Tests]);
    var s2 := s1.(workers := s1.workers[w := Takes]);
    var s3 := s2.(q := s.q[1..], taken := s.taken + [x], fate := s.fate + [InHand(w)], workers := s2.workers[w := Unlocks(x, k)]);
    RunSnoc(s, Repeat(c, 0), c, s, s1);
    RunSnoc(s, Repeat(c, 1), c, s1, s2);
    RunSnoc(s, Repeat(c, 2), c, s2, s3);
    assert s3.workers == ws[w := Unlocks(x, k)];
  }

  /** A worker: five steps take the oldest task and run it, without the lock. */
  lemma {:induction false} WorkMakes<T>(s: State<T>, w: nat)
    requires w < |s.workers| && s.workers[w].Wants? && s.mOwner.None? && s.q != [] && |s.fate| == |s.taken|
    ensures Run(s, Repeat(Work(w), 5))
            == Some(s.(q := s.q[1..], taken := s.taken + [s.q[0]], fate := s.fate + [Finished]))
    ensures Run(s, Repeat(Work(w), 4)).Some? && Run(s, Repeat(Work(w), 4)).value.mOwner.None?
            && RunOf(Run(s, Repeat(Work(w), 4)).value, Work(w), w) == [s.q[0]]
  {
    var c: Step<T>, x, k := Work(w), s.q[0], |s.taken|;
    WorkPicks(s, w);
    var s3 := Run(s, Repeat(c, 3)).value;
    var s4 := s3.(mOwner := None, workers := s3.workers[w := Runs(x, k)]);
    var s5 := s4.(fate := s4.fate[k := Finished], workers := s4.workers[w := Wants]);
    RunSnoc(s, Repeat(c, 3), c, s3, s4);
    RunSnoc(s, Repeat(c, 4), c, s4, s5);
    assert s5.workers == s.workers && s5.fate == s.fate + [Finished];
  }

  /** With nothing queued a worker goes to sleep and gives the lock back. */
  lemma {:induction false} WorkWaits<T>(s: State<T>, w: nat)
    requires w < |s.workers| && s.workers[w].Wants? && s.mOwner.None? && s.q == []
    ensures Run(s, Repeat(Work(w), 2)) == Some(s.(workers := s.workers[w := Sleeps]))
  {
    var c: Step<T>, ws := Work(w), s.workers;
    var s1 := s.(mOwner := Some(Worker(w)), workers := ws[w := Tests]);
    var s2 := s1.(mOwner := None, workers := s1.workers[w := Sleeps]);
    RunSnoc(s, Repeat(c, 0), c, s, s1);
    RunSnoc(s, Repeat(c, 1), c, s1, s2);
    assert s2.workers == ws[w := Sleeps];
  }

  /** A worker that was woken goes on from its test, and takes a task if there is one. */
  lemma {:induction false} WokenWorks<T>(s: State<T>, w: nat)
    requires w < |s.workers| && s.workers[w].Woken? && s.mOwner.None?
    ensures Run(s, Repeat(Work(w), 1)) == Some(s.(mOwner := Some(Worker(w)), workers := s.workers[w := Tests]))
    ensures Run(s, Repeat(Work(w), 2)).Some?
            && Run(s, Repeat(Work(w), 2)).value.workers[w] == if s.q == [] then Sleeps else Takes
  {
    var c: Step<T> := Work(w);
    var s1 := s.(mOwner := Some(Worker(w)), workers := s.workers[w := Tests]);
    RunSnoc(s, Repeat(c, 0), c, s, s1);
    RunSnoc(s, Repeat(c, 1), c, s1, WorkStep(s1, w).value);
  }

  /** get_instance with the pool there: two steps, without the lock. */
  lemma {:induction false} GetFinds<T>(s: State<T>, t: nat, x: T, wake: nat)
    requires t < |s.callers| && s.callers[t].Idle? && s.pointer.Some?
    ensures Run(s, Repeat(Call(t, x, wake), 2)) == Some(s.(callers := s.callers[t := Has(s.pointer.value)]))
  {
    var c, cs := Call(t, x, wake), s.callers;
    var s1 := s.(callers := cs[t := First]);
    var s2 := s1.(callers := s1.callers[t := Has(s.pointer.value)]);
    RunSnoc(s, Repeat(c, 0), c, s, s1);
    RunSnoc(s, Repeat(c, 1), c, s1, s2);
    assert s2.callers == cs[t := Has(s.pointer.value)];
  }

  /** A pool whose workers have all been started. */
  function Started<T>(s: State<T>, t: nat): State<T>
    requires t < |s.callers|
  {
    s.(made := s.made + 1, pointer := Some(s.made + 1), threads := s.cap, inits := s.inits + 1, runs := s.runs + 1,
       q := [], workers := seq(s.cap, i => Wants), callers := s.callers[t := Has(s.made + 1)])
  }

  /** Taking one and the same step. */
  function Taking<T>(c: Step<T>): State<T> -> Option<State<T>> {
    (a: State<T>) => Next(a, c)
  }

  lemma {:induction false} RunIterates<T>(s: State<T>, c: Step<T>, n: nat, end: State<T>)
    requires Iterate(Taking(c), s, n) == Some(end)
    ensures Run(s, Repeat(c, n)) == Some(end)
  {
    if n > 0 {
      var mid := Iterate(Taking(c), s, n - 1).value;
      RunIterates(s, c, n - 1, mid);
      RunSnoc(s, Repeat(c, n - 1), c, mid, end);
    }
  }

  lemma {:induction false} BuildIterates<T>(s: State<T>, t: nat, x: T, wake: nat)
    requires t < |s.callers| && s.callers[t].Idle? && s.pointer.None? && s.sOwner.None?
    ensures Iterate(Taking(Call(t, x, wake)), s, 8 + s.cap + s.cap) == Some(Started(s, t))
  {
    var chain := (i: nat) => if t < |s.callers| then Building(s, t, i) else s;
    forall i: nat | i < 8 + s.cap + s.cap ensures Next(chain(i), Call(t, x, wake)) == Some(chain(i + 1)) {
      BuildOne(s, t, x, wake, i);
    }
    IterateChain(Taking(Call(t, x, wake)), chain, 8 + s.cap + s.cap);
  }

  /** get_instance with no pool there: it constructs one, with as many threads as its
      capacity, starts each of them, and returns it. */
  lemma {:induction false} GetBuilds<T>(s: State<T>, t: nat, x: T, wake: nat)
    requires t < |s.callers| && s.callers[t].Idle? && s.pointer.None? && s.sOwner.None?
    ensures Run(s, Repeat(Call(t, x, wake), 8 + s.cap + s.cap)) == Some(Started(s, t))
  {
    BuildIterates(s, t, x, wake);
    RunIterates(s, Call(t, x, wake), 8 + s.cap + s.cap, Started(s, t));
  }

  /** The states a builder goes through. */
  function Building<T>(s: State<T>, t: nat, i: nat): State<T>
    requires t < |s.callers|
  {
    if i == 0 then s
    else if i == 1 then s.(callers := s.callers[t := First])
    else if i == 2 then s.(callers := s.callers[t := Queues])
    else if i == 3 then s.(sOwner := Some(t), callers := s.callers[t := Second])
    else if i == 4 then s.(sOwner := Some(t), callers := s.callers[t := Builds])
    else if i <= 5 + s.cap then Inited(s, t, i - 5)
    else if i <= 6 + s.cap + s.cap then Begun(s, t, i - 6 - s.cap)
    else if i == 7 + s.cap + s.cap then Ending(s, t)
    else Started(s, t)
  }

  lemma {:induction false} BuildOne<T>(s: State<T>, t: nat, x: T, wake: nat, i: nat)
    requires t < |s.callers| && s.callers[t].Idle? && s.pointer.None? && s.sOwner.None? && i < 8 + s.cap + s.cap
    ensures Next(Building(s, t, i), Call(t, x, wake)) == Some(Building(s, t, i + 1))
  {
    if i < 5 {
      ConstructOne(s, t, x, wake, i);
    } else if i < 5 + s.cap {
      InitOne(s, t, x, wake, i - 5);
    } else if i == 5 + s.cap {
      InitsEnd(s, t, x, wake);
    } else if i < 6 + s.cap + s.cap {
      StartOne(s, t, x, wake, i - 6 - s.cap);
    } else {
      StartsEnd(s, t, x, wake);
    }
  }

  /** The builder's state after `i` threads were created, after `i` were started, and before
      the lock is given back. */
  function Inited<T>(s: State<T>, t: nat, i: nat): State<T>
    requires t < |s.callers|
  {
    s.(sOwner := Some(t), made := s.made + 1, pointer := Some(s.made + 1), threads := i, q := [],
       workers := seq(s.cap, i => NotStarted), callers := s.callers[t := Inits(i)])
  }

  function Begun<T>(s: State<T>, t: nat, i: nat): State<T>
    requires t < |s.callers|
  {
    s.(sOwner := Some(t), made := s.made + 1, pointer := Some(s.made + 1), threads := s.cap, inits := s.inits + 1, q := [],
       workers := seq(s.cap, j => if j < i then Wants else NotStarted), callers := s.callers[t := Starts(i)])
  }

  function Ending<T>(s: State<T>, t: nat): State<T>
    requires t < |s.callers|
  {
    Started(s, t).(sOwner := Some(t), callers := s.callers[t := Releases])
  }

  lemma {:induction false} ConstructOne<T>(s: State<T>, t: nat, x: T, wake: nat, i: nat)
    requires t < |s.callers| && s.callers[t].Idle? && s.pointer.None? && s.sOwner.None? && i < 5
    ensures Next(Building(s, t, i), Call(t, x, wake)) == Some(Building(s, t, i + 1))
  {
    var a, b := Building(s, t, i), Building(s, t, i + 1);
    assert b.callers == a.callers[t := b.callers[t]];
  }

  lemma {:induction false} InitOne<T>(s: State<T>, t: nat, x: T, wake: nat, i: nat)
    requires t < |s.callers| && i < s.cap
    ensures Next(Inited(s, t, i), Call(t, x, wake)) == Some(Inited(s, t, i + 1))
  {
    assert Inited(s, t, i).callers[t := Inits(i + 1)] == s.callers[t := Inits(i + 1)];
  }

  lemma {:induction false} InitsEnd<T>(s: State<T>, t: nat, x: T, wake: nat)
    requires t < |s.callers|
    ensures Next(Inited(s, t, s.cap), Call(t, x, wake)) == Some(Begun(s, t, 0))
  {
    var a, b := Inited(s, t, s.cap), Begun(s, t, 0);
    assert a.callers[t := Starts(0)] == b.callers && a.workers == b.workers;
  }

  lemma {:induction false} StartOne<T>(s: State<T>, t: nat, x: T, wake: nat, i: nat)
    requires t < |s.callers| && i < s.cap
    ensures Next(Begun(s, t, i), Call(t, x, wake)) == Some(Begun(s, t, i + 1))
  {
    var a, b := Begun(s, t, i), Begun(s, t, i + 1);
    assert a.callers[t := Starts(i + 1)] == b.callers && a.workers[i := Wants] == b.workers;
  }

  lemma {:induction false} StartsEnd<T>(s: State<T>, t: nat, x: T, wake: nat)
    requires t < |s.callers| && s.sOwner.None?
    ensures Next(Begun(s, t, s.cap), Call(t, x, wake)) == Some(Ending(s, t))
    ensures Next(Ending(s, t), Call(t, x, wake)) == Some(Started(s, t))
  {
    var a, b := Begun(s, t, s.cap), Ending(s, t);
    assert a.callers[t := Releases] == b.callers && a.workers == b.workers;
    assert b.callers[t := Has(s.made + 1)] == Started(s, t).callers;
  }

  /** Which lock, condition or signal a thread can be waiting for: nothing else holds it up,
      in particular not the construction of the pool. */
  lemma {:induction false} BlockedOnlyAt<T>(s: State<T>, step: Step<T>)
    requires Inv(s) && Next(s, step).None?
    ensures match step
            case Call(t, _, wake) =>
              || t >= |s.callers| || (s.callers[t].Queues? && s.sOwner.Some?)
              || (s.callers[t].WantsPool? && s.mOwner.Some?)
              || (s.callers[t].Signals? && !(wake < |s.workers| && s.workers[wake].Sleeps?))
            case Work(w) =>
              || w >= |s.workers| || s.workers[w].NotStarted? || s.workers[w].Sleeps?
              || ((s.workers[w].Wants? || s.workers[w].Woken?) && s.mOwner.Some?)
            case Spurious(w) => w >= |s.workers| || !s.workers[w].Sleeps?
  {
    match step
    case Call(t, _, _) =>
      if t < |s.callers| {
        BuilderIs(s, t);
      }
    case Work(w) =>
      if w < |s.workers| && s.workers[w].Runs? {
        assert Holding(s.workers[w]).Some?;
      }
    case Spurious(_) =>
  }

  /** A worker that finishes a task finishes one that was not finished before. */
  lemma {:induction false} FinishesOnce<T>(s: State<T>, w: nat)
    requires Inv(s) && w < |s.workers| && s.workers[w].Runs?
    ensures var k := s.workers[w].k;
            && k < |s.fate| && s.fate[k] == InHand(w)
            && WorkStep(s, w).Some? && WorkStep(s, w).value.fate == s.fate[k := Finished]
  {
    assert Holding(s.workers[w]).Some?;
  }

  /** While a task is queued and no caller is between push and signal, the workers that
      are neither unstarted nor busy are not all asleep, unless there are none. */
  lemma {:induction false} NoSleepingOnTasks<T>(s: State<T>)
    requires Inv(s) && s.q != [] && Count(s.callers, Signalling()) == 0
    ensures Count(s.workers, Sleeping()) > 0 ==> exists w :: 0 <= w < |s.workers| && Awake()(s.workers[w])
  {
    if Count(s.workers, Sleeping<T>()) > 0 {
      var w := CountWitness(s.workers, Awake<T>());
    }
  }

  /** A started pool with a task queued can always go on: some worker or caller steps,
      and not by a spurious wakeup. */
  lemma {:induction false} QueuedTaskProgress<T>(s: State<T>, x: T) returns (step: Step<T>)
    requires Inv(s) && s.cap > 0 && s.runs == 1 && s.q != []
    ensures !step.Spurious? && Next(s, step).Some?
  {
    if s.mOwner.Some? {
      match s.mOwner.value {
        case Caller(t) =>
          assert HoldsPool(s.callers[t]);
          var wake := 0;
          if Count(s.workers, Sleeping<T>()) > 0 {
            wake := CountWitness(s.workers, Sleeping<T>());
          }
          step := Call(t, x, wake);
        case Worker(w) =>
          assert WorkerHolds(s.workers[w]);
          step := Work(w);
      }
    } else if w: nat :| w < |s.workers| && !s.workers[w].Sleeps? {
      assert WorkerHolds(s.workers[w]) <==> s.mOwner == Some(Worker(w));
      assert !s.workers[w].NotStarted?;
      if s.workers[w].Runs? {
        FinishesOnce(s, w);
      }
      step := Work(w);
    } else {
      step := Work(0);
      CountPositive(s.workers, Sleeping<T>(), 0);
      CountNone(s.workers, Awake<T>());
      NobodySignals(s);
      assert false;
    }
  }

  lemma {:induction false} NobodySignals<T>(s: State<T>)
    requires PoolLock(s) && s.mOwner.None?
    ensures Count(s.callers, Signalling()) == 0
  {
    forall t: nat | t < |s.callers| ensures !s.callers[t].Signals? {
      assert HoldsPool(s.callers[t]) <==> s.mOwner == Some(Caller(t));
    }
    CountNone(s.callers, Signalling<T>());
  }
}
