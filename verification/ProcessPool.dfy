/** The process pool over pipes. Descriptor tables map numbers to pipe ends, are copied
    by fork and hand out the lowest free number. After the creation parent and children
    interleave in any order. */
module ProcessPool {
  import opened Text

  const EXE_NUM: nat := 10

  datatype End = Std | ReadEnd(p: nat) | WriteEnd(p: nat)

  type Table = map<int, End>

  /** Where a child is: closing descriptors it inherited, before its dup2, in its read
      loop, or gone. */
  datatype Phase = Closing(todo: seq<int>) | Duping | Reading | Exited

  datatype Child = Child(table: Table, readFd: int, phase: Phase, cnt: nat, executed: seq<int>)

  datatype Parent = Commanding(cnt: nat, procs: nat) | Shutting(i: nat) | Awaiting(i: nat) | Finished

  datatype State = State(table: Table, ends: seq<int>, children: seq<Child>, pipes: seq<seq<int>>,
                         parent: Parent, sent: seq<seq<int>>, rounds: nat)   // history: sent, rounds

  datatype Step = Send(cmd: int) | Stop | CloseEnd | Reap | Move(i: nat)

  ghost predicate Holds(t: Table, p: nat) {
    exists f :: f in t && t[f] == WriteEnd(p)
  }

  /** Some process can still write to the pipe. */
  ghost predicate Writable(s: State, p: nat) {
    Holds(s.table, p) || exists i :: 0 <= i < |s.children| && Holds(s.children[i].table, p)
  }

  /** One step of a child (lines 42 to 64 and 84 to 100). */
  ghost function ChildStep(s: State, i: nat): Option<State>
    requires i < |s.children|
  {
    var c := s.children[i];
    match c.phase
    case Closing(todo) =>
      if todo == [] then Some(s.(children := s.children[i := c.(phase := Duping)]))
      else Some(s.(children := s.children[i := c.(table := c.table - {todo[0]}, phase := Closing(todo[1..]))]))
    case Duping =>
      if c.readFd !in c.table then None
      else Some(s.(children := s.children[i := c.(table := c.table[0 := c.table[c.readFd]], phase := Reading)]))
    case Reading =>
      if c.cnt >= EXE_NUM then Some(s.(children := s.children[i := c.(table := map[], phase := Exited)]))
      else if 0 !in c.table || !c.table[0].ReadEnd? || c.table[0].p >= |s.pipes| then None
      else
        var p := c.table[0].p;
        if s.pipes[p] != [] then
          Some(s.(pipes := s.pipes[p := s.pipes[p][1..]],
                  children := s.children[i := c.(cnt := c.cnt + 1, executed := c.executed + [s.pipes[p][0]])]))
        else if Writable(s, p) then None     // read blocks
        else Some(s.(children := s.children[i := c.(table := map[], phase := Exited)]))
    case Exited => None
  }

  /** One step of the pool: the parent sends, stops, closes or waits, or a child moves. */
  ghost function Next(s: State, step: Step): Option<State> {
    match step
    case Send(cmd) =>
      if !s.parent.Commanding? || s.parent.cnt >= EXE_NUM || !(0 <= cmd <= 2) || |s.ends| == 0 then None
      else
        var procs := (s.parent.procs + 1) % |s.ends|;
        var fd := s.ends[procs];
        if fd !in s.table || !s.table[fd].WriteEnd? || s.table[fd].p >= |s.pipes| || s.table[fd].p >= |s.sent| then None
        else
          var p := s.table[fd].p;
          Some(s.(parent := Commanding(s.parent.cnt + 1, procs),
                  pipes := s.pipes[p := s.pipes[p] + [cmd]], sent := s.sent[p := s.sent[p] + [cmd]],
                  rounds := if procs == 0 then s.rounds + 1 else s.rounds))
    case Stop =>
      if !s.parent.Commanding? then None else Some(s.(parent := Shutting(0)))
    case CloseEnd =>
      if !s.parent.Shutting? then None
      else if s.parent.i >= |s.ends| then Some(s.(parent := Finished))
      else Some(s.(table := s.table - {s.ends[s.parent.i]}, parent := Awaiting(s.parent.i)))
    case Reap =>
      // waitpid blocks until that child has exited
      if !s.parent.Awaiting? || s.parent.i >= |s.children| || !s.children[s.parent.i].phase.Exited? then None
      else Some(s.(parent := Shutting(s.parent.i + 1)))
    case Move(i) =>
      if i < |s.children| then ChildStep(s, i) else None
  }

  ghost function Run(s: State, steps: seq<Step>): Option<State> {
    if steps == [] then Some(s)
    else
      var before := Run(s, steps[..|steps| - 1]);
      if before.None? then None else Next(before.value, steps[|steps| - 1])
  }

  // ------------------------------------------------------------- invariant

  /** The parent has not closed its end of pipe `p` yet. */
  predicate StillOpen(parent: Parent, p: nat) {
    match parent
    case Commanding(_, _) => true
    case Shutting(i) => p >= i
    case Awaiting(i) => p > i
    case Finished => false
  }

  ghost predicate Shape(s: State) {
    && |s.ends| == |s.children| == |s.pipes| == |s.sent| > 0
    && (forall j, k :: 0 <= j < k < |s.ends| ==> s.ends[j] != s.ends[k])
    && (forall j :: 0 <= j < |s.ends| ==> s.ends[j] != 0)
    && (s.parent.Commanding? ==> s.parent.procs < |s.ends| && s.parent.cnt <= EXE_NUM)
    && (s.parent.Awaiting? ==> s.parent.i < |s.ends|)
  }

  /** The parent holds the write end of a pipe once, at its recorded number, until it
      closes it. */
  ghost predicate ParentEnds(s: State) {
    && (forall f :: f in s.table && s.table[f].WriteEnd? ==>
          s.table[f].p < |s.ends| && f == s.ends[s.table[f].p] && StillOpen(s.parent, s.table[f].p))
    && (forall p: nat :: p < |s.ends| && StillOpen(s.parent, p) ==>
          s.ends[p] in s.table && s.table[s.ends[p]] == WriteEnd(p))
  }

  /** The descriptor a child reads from is the read end of its own pipe. */
  ghost predicate ReadsOwn(c: Child, i: nat) {
    match c.phase
    case Closing(todo) => c.readFd in c.table && c.table[c.readFd] == ReadEnd(i) && c.readFd !in todo
    case Duping => c.readFd in c.table && c.table[c.readFd] == ReadEnd(i)
    case Reading => 0 in c.table && c.table[0] == ReadEnd(i)
    case Exited => true
  }

  /** A child that cleans up holds a write end only while it still has to close it. */
  ghost predicate CleansUp(c: Child, ends: seq<int>) {
    forall f :: f in c.table && c.table[f].WriteEnd? ==>
      c.table[f].p < |ends| && f == ends[c.table[f].p] && c.phase.Closing? && f in c.phase.todo
  }

  /** Each child executes what it was sent, in order, and leaves only after EXE_NUM
      commands or when its pipe is empty and closed. */
  ghost predicate Commands(s: State, i: nat)
    requires Shape(s) && i < |s.children|
  {
    var c := s.children[i];
    && s.sent[i] == c.executed + s.pipes[i] && c.cnt == |c.executed| <= EXE_NUM
    && (c.phase.Exited? ==> c.cnt == EXE_NUM || (s.pipes[i] == [] && !StillOpen(s.parent, i)))
  }

  /** Commands go round: the children after 0 and up to the last one served are one ahead. */
  ghost predicate Balanced(s: State)
    requires Shape(s)
  {
    && (forall c :: 0 <= c < |s.sent| ==> |s.sent[c]| <= EXE_NUM)
    && (s.parent.Commanding? ==>
          && (forall c :: 0 <= c < |s.sent| ==>
                && |s.sent[c]| == s.rounds + (if 1 <= c <= s.parent.procs then 1 else 0)
                && |s.sent[c]| <= s.parent.cnt)
          && (forall c, d :: 0 <= c < d < |s.sent| ==> |s.sent[c]| + |s.sent[d]| <= s.parent.cnt))
  }

  /** Every child the parent has waited for is gone. */
  ghost predicate Reaped(s: State) {
    forall i :: 0 <= i < |s.children| && !StillOpen(s.parent, i) && s.parent != Awaiting(i) ==> s.children[i].phase.Exited?
  }

  ghost predicate Common(s: State) {
    && Shape(s) && ParentEnds(s) && Balanced(s) && Reaped(s)
    && (forall i: nat :: i < |s.children| ==> ReadsOwn(s.children[i], i) && Commands(s, i))
  }

  ghost predicate Inv(s: State) {
    && Common(s)
    && forall i: nat :: i < |s.children| ==> CleansUp(s.children[i], s.ends)
  }

  // ------------------------------------------------------- every step keeps it

  lemma {:induction false} RoundRobin(procs: nat, n: nat)
    requires procs < n
    ensures (procs + 1) % n == if procs + 1 == n then 0 else procs + 1
  {
  }

  /** The descriptor the parent writes to leads to the child it chose. */
  lemma {:induction false} SendTarget(s: State, cmd: int)
    requires Shape(s) && ParentEnds(s) && Next(s, Send(cmd)).Some?
    ensures var procs := if s.parent.procs + 1 == |s.ends| then 0 else s.parent.procs + 1;
            var s' := Next(s, Send(cmd)).value;
            && s'.parent == Commanding(s.parent.cnt + 1, procs)
            && s'.pipes == s.pipes[procs := s.pipes[procs] + [cmd]]
            && s'.sent == s.sent[procs := s.sent[procs] + [cmd]]
            && s'.children == s.children && s'.table == s.table && s'.ends == s.ends
  {
    RoundRobin(s.parent.procs, |s.ends|);
    var procs := if s.parent.procs + 1 == |s.ends| then 0 else s.parent.procs + 1;
    assert s.table[s.ends[procs]] == WriteEnd(procs);
  }

  lemma {:induction false} SendCommon(s: State, cmd: int)
    requires Common(s) && Next(s, Send(cmd)).Some?
    ensures Common(Next(s, Send(cmd)).value)
  {
    SendTarget(s, cmd);
    var s' := Next(s, Send(cmd)).value;
    var p := s'.parent.procs;
    assert Commands(s, p);
    assert s.children[p].executed + s.pipes[p] + [cmd] == s.children[p].executed + (s.pipes[p] + [cmd]);
    forall i: nat | i < |s'.children| ensures ReadsOwn(s'.children[i], i) && Commands(s', i) {
      assert ReadsOwn(s.children[i], i) && Commands(s, i);
    }
    SendBalanced(s, cmd);
  }

  lemma {:induction false} SendBalanced(s: State, cmd: int)
    requires Shape(s) && ParentEnds(s) && Balanced(s) && Next(s, Send(cmd)).Some?
    ensures Shape(Next(s, Send(cmd)).value) && Balanced(Next(s, Send(cmd)).value)
  {
    SendTarget(s, cmd);
    var s' := Next(s, Send(cmd)).value;
    var p := s'.parent.procs;
    forall c | 0 <= c < |s'.sent|
      ensures |s'.sent[c]| == s'.rounds + (if 1 <= c <= p then 1 else 0) && |s'.sent[c]| <= s'.parent.cnt
    {
      assert |s.sent[c]| == s.rounds + (if 1 <= c <= s.parent.procs then 1 else 0);
    }
  }

  lemma {:induction false} ParentTables(s: State, step: Step)
    requires Shape(s) && ParentEnds(s) && (step.Stop? || step.CloseEnd? || step.Reap?) && Next(s, step).Some?
    ensures Shape(Next(s, step).value) && ParentEnds(Next(s, step).value)
  {
    if step.CloseEnd? && s.parent.i < |s.ends| {
      CloseTables(s);
    } else {
      assert Next(s, step).value.table == s.table;
    }
  }

  /** Closing the i-th write end leaves those behind it. */
  lemma {:induction false} CloseTables(s: State)
    requires Shape(s) && ParentEnds(s) && s.parent.Shutting? && s.parent.i < |s.ends|
    ensures ParentEnds(Next(s, CloseEnd).value)
  {
    var s' := Next(s, CloseEnd).value;
    forall p: nat | p < |s'.ends| && StillOpen(s'.parent, p)
      ensures s'.ends[p] in s'.table && s'.table[s'.ends[p]] == WriteEnd(p)
    {
      assert StillOpen(s.parent, p) && s.ends[p] != s.ends[s.parent.i];
    }
  }

  lemma {:induction false} ParentCounts(s: State, step: Step)
    requires Shape(s) && Balanced(s) && Reaped(s) && (step.Stop? || step.CloseEnd? || step.Reap?) && Next(s, step).Some?
    ensures var s' := Next(s, step).value; Shape(s') && Balanced(s') && Reaped(s')
  {
  }

  lemma {:induction false} ParentCommon(s: State, step: Step)
    requires Common(s) && (step.Stop? || step.CloseEnd? || step.Reap?) && Next(s, step).Some?
    ensures Common(Next(s, step).value)
  {
    ParentTables(s, step);
    ParentCounts(s, step);
    var s' := Next(s, step).value;
    forall i: nat | i < |s'.children| ensures ReadsOwn(s'.children[i], i) && Commands(s', i) {
      assert ReadsOwn(s.children[i], i) && Commands(s, i);
    }
  }

  /** A child sees the end of its pipe only when the parent has closed it. */
  lemma {:induction false} OpenIsWritable(s: State, p: nat)
    requires ParentEnds(s) && p < |s.ends| && StillOpen(s.parent, p)
    ensures Writable(s, p)
  {
    var f := s.ends[p];
    assert f in s.table && s.table[f] == WriteEnd(p);
    assert Holds(s.table, p);
  }

  lemma {:induction false} ChildCommands(s: State, i: nat)
    requires Shape(s) && ParentEnds(s) && i < |s.children| && ChildStep(s, i).Some?
    requires ReadsOwn(s.children[i], i) && Commands(s, i)
    ensures Shape(ChildStep(s, i).value) && Commands(ChildStep(s, i).value, i)
  {
  }

  lemma {:induction false} ChildReads(s: State, i: nat)
    requires i < |s.children| && ChildStep(s, i).Some? && ReadsOwn(s.children[i], i)
    ensures ReadsOwn(ChildStep(s, i).value.children[i], i)
  {
  }

  /** A child's move touches only that child and its own pipe. */
  lemma {:induction false} ChildFrame(s: State, i: nat)
    requires i < |s.children| && ChildStep(s, i).Some? && ReadsOwn(s.children[i], i)
    ensures var s' := ChildStep(s, i).value;
            && s'.table == s.table && s'.ends == s.ends && s'.parent == s.parent
            && s'.sent == s.sent && s'.rounds == s.rounds
            && |s'.children| == |s.children| && |s'.pipes| == |s.pipes|
            && (forall k :: 0 <= k < |s.children| && k != i ==> s'.children[k] == s.children[k])
            && (forall k :: 0 <= k < |s.pipes| && k != i ==> s'.pipes[k] == s.pipes[k])
            && (s.children[i].phase.Exited? ==> s'.children[i].phase.Exited?)
  {
  }

  lemma {:induction false} ChildCommon(s: State, i: nat)
    requires Common(s) && i < |s.children| && ChildStep(s, i).Some?
    ensures Common(ChildStep(s, i).value)
  {
    var s' := ChildStep(s, i).value;
    assert ReadsOwn(s.children[i], i) && Commands(s, i);
    ChildCommands(s, i);
    ChildReads(s, i);
    ChildFrame(s, i);
    forall k: nat | k < |s'.children| ensures ReadsOwn(s'.children[k], k) && Commands(s', k) {
      assert ReadsOwn(s.children[k], k) && Commands(s, k);
    }
  }

  lemma {:induction false} NextCommon(s: State, step: Step)
    requires Common(s) && Next(s, step).Some?
    ensures Common(Next(s, step).value)
  {
    match step
    case Send(cmd) => SendCommon(s, cmd);
    case Move(i) => ChildCommon(s, i);
    case _ => ParentCommon(s, step);
  }

  lemma {:induction false} ChildCleansUp(s: State, i: nat)
    requires i < |s.children| && ChildStep(s, i).Some? && ReadsOwn(s.children[i], i)
    requires CleansUp(s.children[i], s.ends)
    ensures CleansUp(ChildStep(s, i).value.children[i], s.ends)
  {
  }

  lemma {:induction false} NextInv(s: State, step: Step)
    requires Inv(s) && Next(s, step).Some?
    ensures Inv(Next(s, step).value)
  {
    NextCommon(s, step);
    match step
    case Move(i) =>
      var s' := Next(s, step).value;
      assert ReadsOwn(s.children[i], i) && CleansUp(s.children[i], s.ends);
      ChildFrame(s, i);
      ChildCleansUp(s, i);
      forall k: nat | k < |s'.children| ensures CleansUp(s'.children[k], s'.ends) {
        assert CleansUp(s.children[k], s.ends);
      }
    case _ =>
  }

  lemma {:induction false} RunInv(s: State, steps: seq<Step>)
    requires Inv(s) && Run(s, steps).Some?
    ensures Inv(Run(s, steps).value)
  {
    if steps != [] {
      RunInv(s, steps[..|steps| - 1]);
      NextInv(Run(s, steps[..|steps| - 1]).value, steps[|steps| - 1]);
    }
  }

  // ------------------------------------------------------------- main results

  /** Once the children are set up, the only descriptor in any process that can write to
      a pipe is the parent's recorded one, until the parent closes it. */
  lemma {:induction false} OneWriter(s: State, p: nat)
    requires Inv(s) && p < |s.ends|
    requires forall i :: 0 <= i < |s.children| ==> !s.children[i].phase.Closing?
    ensures Writable(s, p) <==> StillOpen(s.parent, p)
    ensures forall f :: f in s.table && s.table[f] == WriteEnd(p) ==> f == s.ends[p]
    ensures forall i :: 0 <= i < |s.children| ==> !Holds(s.children[i].table, p)
  {
    forall i: nat | i < |s.children| ensures !Holds(s.children[i].table, p) {
      assert CleansUp(s.children[i], s.ends);
    }
    if StillOpen(s.parent, p) {
      OpenIsWritable(s, p);
    }
  }

  /** Shutdown never blocks: whenever the parent waits for a child that has not exited,
      some child can move. */
  lemma {:induction false} ShutdownNeverStuck(s: State) returns (step: Step)
    requires Inv(s) && s.parent.Awaiting? && !s.children[s.parent.i].phase.Exited?
    ensures step.Move? && Next(s, step).Some?
  {
    if i: nat :| i < |s.children| && (s.children[i].phase.Closing? || s.children[i].phase.Duping?) {
      assert ReadsOwn(s.children[i], i);
      step := Move(i);
    } else {
      var i := s.parent.i;
      assert ReadsOwn(s.children[i], i);
      OneWriter(s, i);
      step := Move(i);
    }
  }

  /** What a child still has to do, in steps. */
  function Todo(c: Child, pipe: seq<int>): nat {
    match c.phase
    case Closing(todo) => |todo| + 3 + |pipe|
    case Duping => 2 + |pipe|
    case Reading => 1 + |pipe|
    case Exited => 0
  }

  function Work(children: seq<Child>, pipes: seq<seq<int>>): nat
    requires |children| == |pipes|
  {
    if children == [] then 0
    else
      var n := |children| - 1;
      Work(children[..n], pipes[..n]) + Todo(children[n], pipes[n])
  }

  lemma {:induction false} WorkUpdate(children: seq<Child>, pipes: seq<seq<int>>, i: nat, c: Child, pipe: seq<int>)
    requires |children| == |pipes| && i < |children|
    ensures Work(children[i := c], pipes[i := pipe])
         == Work(children, pipes) - Todo(children[i], pipes[i]) + Todo(c, pipe)
  {
    var n := |children| - 1;
    if i == n {
      assert children[i := c][..n] == children[..n] && pipes[i := pipe][..n] == pipes[..n];
    } else {
      assert children[i := c][..n] == children[..n][i := c] && pipes[i := pipe][..n] == pipes[..n][i := pipe];
      WorkUpdate(children[..n], pipes[..n], i, c, pipe);
    }
  }

  /** Every move of a child is progress, so waitpid returns after finitely many moves. */
  lemma {:induction false} MovesTerminate(s: State, i: nat)
    requires Common(s) && i < |s.children| && ChildStep(s, i).Some?
    ensures var s' := ChildStep(s, i).value;
            && |s'.children| == |s'.pipes|
            && Work(s'.children, s'.pipes) < Work(s.children, s.pipes)
            && s'.parent == s.parent
  {
    var s' := ChildStep(s, i).value;
    assert ReadsOwn(s.children[i], i);
    WorkUpdate(s.children, s.pipes, i, s'.children[i], s'.pipes[i]);
    assert s'.pipes == s.pipes[i := s'.pipes[i]];
  }

  // ---- every run of the shutdown ends, and ends well

  /** What the parent still has to do once it has stopped commanding, in steps. */
  function ParentLeft(parent: Parent, n: nat): nat {
    match parent
    case Shutting(i) => if i <= n then 2 * (n - i) + 1 else 1
    case Awaiting(i) => if i <= n then 2 * (n - i) else 0
    case _ => 0
  }

  function Left(s: State): nat
    requires |s.children| == |s.pipes|
  {
    Work(s.children, s.pipes) + ParentLeft(s.parent, |s.ends|)
  }

  /** The shutdown has begun. */
  predicate Stopping(s: State) {
    !s.parent.Commanding? && (s.parent.Shutting? ==> s.parent.i <= |s.ends|)
  }

  lemma {:induction false} MoveIsProgress(s: State, i: nat)
    requires Inv(s) && Next(s, Move(i)).Some?
    ensures var s' := Next(s, Move(i)).value;
            && Inv(s') && s'.parent == s.parent && s'.ends == s.ends && s'.sent == s.sent
            && |s'.children| == |s.children| && Left(s') < Left(s)
  {
    NextInv(s, Move(i));
    MovesTerminate(s, i);
    assert ReadsOwn(s.children[i], i);
    ChildFrame(s, i);
  }

  /** Every step of the shutdown, of the parent or of a child, is progress. */
  lemma {:induction false} StepIsProgress(s: State, step: Step)
    requires Inv(s) && Stopping(s) && Next(s, step).Some?
    ensures var s' := Next(s, step).value;
            Inv(s') && Stopping(s') && s'.sent == s.sent && |s'.children| == |s.children| && Left(s') < Left(s)
  {
    if step.Move? {
      MoveIsProgress(s, step.i);
    } else {
      NextInv(s, step);
    }
  }

  /** Where no child can move, the one waited for is gone. */
  lemma {:induction false} NoMoveMeansReap(s: State)
    requires Inv(s) && s.parent.Awaiting?
    ensures (forall i: nat :: Next(s, Move(i)).None?) ==> Next(s, Reap).Some?
  {
    if !s.children[s.parent.i].phase.Exited? {
      var step := ShutdownNeverStuck(s);
      assert Next(s, Move(step.i)).Some?;
    }
  }

  /** While the parent waits for a child, every run of the children comes to an end, and
      where no child can move any more waitpid returns. */
  lemma {:induction false} WaitReturns(s: State, moves: seq<Step>)
    requires Inv(s) && s.parent.Awaiting? && Run(s, moves).Some?
    requires forall k :: 0 <= k < |moves| ==> moves[k].Move?
    ensures var s' := Run(s, moves).value;
            && Inv(s') && s'.parent == s.parent && |moves| + Left(s') <= Left(s)
            && ((forall i: nat :: Next(s', Move(i)).None?) ==> Next(s', Reap).Some?)
  {
    if moves != [] {
      var before := moves[..|moves| - 1];
      WaitReturns(s, before);
      MoveIsProgress(Run(s, before).value, moves[|moves| - 1].i);
    }
    NoMoveMeansReap(Run(s, moves).value);
  }

  /** The shutdown always completes: every run of it has at most `Left(s)` steps, and one
      that cannot go on has ended with the parent finished, every child gone, and every
      command executed. */
  lemma {:induction false} ShutdownCompletes(s: State, steps: seq<Step>)
    requires Inv(s) && Stopping(s) && Run(s, steps).Some?
    ensures var s' := Run(s, steps).value;
            && Inv(s') && Stopping(s') && s'.sent == s.sent && |s'.children| == |s.children|
            && |steps| + Left(s') <= Left(s)
            && ((forall step :: Next(s', step).None?) ==> s'.parent.Finished? && AllDone(s'))
  {
    if steps != [] {
      var before := steps[..|steps| - 1];
      ShutdownCompletes(s, before);
      StepIsProgress(Run(s, before).value, steps[|steps| - 1]);
    }
    StuckMeansDone(Run(s, steps).value);
  }

  ghost predicate AllDone(s: State) {
    |s.sent| == |s.children|
    && forall c :: 0 <= c < |s.children| ==> s.children[c].phase.Exited? && s.children[c].executed == s.sent[c]
  }

  lemma {:induction false} StuckMeansDone(s: State)
    requires Inv(s) && Stopping(s)
    ensures (forall step :: Next(s, step).None?) ==> s.parent.Finished? && AllDone(s)
  {
    match s.parent
    case Shutting(_) => assert Next(s, CloseEnd).Some?;
    case Awaiting(i) =>
      if s.children[i].phase.Exited? {
        assert Next(s, Reap).Some?;
      } else {
        var step := ShutdownNeverStuck(s);
        assert Next(s, step).Some?;
      }
    case Finished =>
      forall c: nat | c < |s.children| ensures s.children[c].phase.Exited? && s.children[c].executed == s.sent[c] {
        DispatchIsFair(s, c, c);
      }
  }

  /** A command is never written to a child that has left its loop. */
  lemma {:induction false} WritesReachReaders(s: State, cmd: int)
    requires Inv(s) && Next(s, Send(cmd)).Some?
    ensures var p := Next(s, Send(cmd)).value.parent.procs;
            p < |s.children| && !s.children[p].phase.Exited?
  {
    SendTarget(s, cmd);
    var p := Next(s, Send(cmd)).value.parent.procs;
    assert Commands(s, p) && |s.sent[p]| <= s.parent.cnt;
  }

  /** While commanding, the numbers of commands sent to two children differ by at most
      one; each child has executed a prefix of what it was sent, in order; and when the
      parent is done every child has executed all of it and is gone. */
  lemma {:induction false} DispatchIsFair(s: State, c: nat, d: nat)
    requires Inv(s) && c < |s.children| && d < |s.children|
    ensures s.parent.Commanding? ==> |s.sent[c]| <= |s.sent[d]| + 1
    ensures s.children[c].executed <= s.sent[c] && |s.children[c].executed| <= EXE_NUM
    ensures s.parent.Finished? ==> s.children[c].phase.Exited? && s.children[c].executed == s.sent[c]
  {
    assert Commands(s, c) && Commands(s, d);
  }

  // ---- runs seen from outside: the commands given, and who executes them

  /** A command is taken exactly while the parent commands, fewer than EXE_NUM have been
      given, and the number is that of a task. */
  lemma {:induction false} SendAcceptedIff(s: State, cmd: int)
    requires Common(s)
    ensures Next(s, Send(cmd)).Some? <==> s.parent.Commanding? && s.parent.cnt < EXE_NUM && 0 <= cmd <= 2
    ensures Next(s, Stop).Some? <==> s.parent.Commanding?
  {
    if s.parent.Commanding? {
      RoundRobin(s.parent.procs, |s.ends|);
      var procs := (s.parent.procs + 1) % |s.ends|;
      assert s.ends[procs] in s.table && s.table[s.ends[procs]] == WriteEnd(procs);
    }
  }

  /** The commands given in a run, in order. */
  function Given(steps: seq<Step>): seq<int> {
    if steps == [] then []
    else
      var n := |steps| - 1;
      Given(steps[..n]) + (if steps[n].Send? then [steps[n].cmd] else [])
  }

  /** Whose turn it is with the k-th command, counted from 1: the children in rotation, the
      one after 0 first. */
  function Turn(k: nat, n: nat): (c: nat)
    requires n > 0
    ensures c < n
  {
    if k == 0 || Turn(k - 1, n) + 1 == n then 0 else Turn(k - 1, n) + 1
  }

  /** The commands that fall to child `c` of `n`, in order. */
  function Share(cmds: seq<int>, c: nat, n: nat): seq<int>
    requires n > 0
  {
    if cmds == [] then []
    else Share(cmds[..|cmds| - 1], c, n) + (if Turn(|cmds|, n) == c then [cmds[|cmds| - 1]] else [])
  }

  /** A state in which `cmds` have been given. */
  ghost predicate Dealt(s: State, cmds: seq<int>) {
    && |s.ends| == |s.sent| > 0
    && (s.parent.Commanding? ==> s.parent.cnt == |cmds| && s.parent.procs == Turn(|cmds|, |s.ends|))
    && forall c: nat :: c < |s.sent| ==> s.sent[c] == Share(cmds, c, |s.ends|)
  }

  lemma {:induction false} StepDeals(s: State, step: Step, cmds: seq<int>)
    requires Common(s) && Dealt(s, cmds) && Next(s, step).Some?
    ensures Dealt(Next(s, step).value, cmds + if step.Send? then [step.cmd] else [])
  {
    var s' := Next(s, step).value;
    match step
    case Send(cmd) =>
      SendTarget(s, cmd);
      var more := cmds + [cmd];
      assert more[..|more| - 1] == cmds;
      forall c: nat | c < |s'.sent| ensures s'.sent[c] == Share(more, c, |s'.ends|) {
        assert s.sent[c] == Share(cmds, c, |s.ends|);
        assert Share(cmds, c, |s.ends|) + [] == Share(cmds, c, |s.ends|);
      }
    case Move(i) =>
      assert cmds + [] == cmds;
      assert ReadsOwn(s.children[i], i);
      ChildFrame(s, i);
    case _ => assert cmds + [] == cmds;
  }

  /** In every run of a pool just created each child is sent exactly its share of the
      commands given, in order. */
  lemma {:induction false} RunDeals(s: State, steps: seq<Step>)
    requires Common(s) && Dealt(s, []) && Run(s, steps).Some?
    ensures Common(Run(s, steps).value) && Dealt(Run(s, steps).value, Given(steps))
  {
    if steps != [] {
      var n := |steps| - 1;
      RunDeals(s, steps[..n]);
      NextCommon(Run(s, steps[..n]).value, steps[n]);
      StepDeals(Run(s, steps[..n]).value, steps[n], Given(steps[..n]));
      assert Given(steps[..n]) + [] == Given(steps[..n]);
    }
  }

  /** When the parent is done, every command given in the run has been executed once, by the
      child whose turn it was, each child's in the order in which they were given. */
  lemma {:induction false} EveryCommandExecuted(s: State, steps: seq<Step>, c: nat)
    requires Inv(s) && Dealt(s, []) && Run(s, steps).Some? && c < |s.children|
    ensures var s' := Run(s, steps).value;
            |s'.children| == |s.children| == |s.ends| &&
            (s'.parent.Finished? ==>
               s'.children[c].phase.Exited? && s'.children[c].executed == Share(Given(steps), c, |s.ends|))
  {
    RunInv(s, steps);
    RunDeals(s, steps);
    SameSize(s, steps);
    var s' := Run(s, steps).value;
    if s'.parent.Finished? {
      DispatchIsFair(s', c, c);
    }
  }

  lemma {:induction false} SameSize(s: State, steps: seq<Step>)
    requires Inv(s) && Run(s, steps).Some?
    ensures |Run(s, steps).value.children| == |s.children| && |Run(s, steps).value.ends| == |s.ends|
  {
    if steps != [] {
      var n := |steps| - 1;
      SameSize(s, steps[..n]);
      RunInv(s, steps[..n]);
      var a := Run(s, steps[..n]).value;
      if steps[n].Move? {
        assert ReadsOwn(a.children[steps[n].i], steps[n].i);
        ChildFrame(a, steps[n].i);
      }
    }
  }

  lemma {:induction false} CreatedDealt(table: Table, ends: seq<int>, children: seq<Child>)
    requires |ends| > 0
    ensures Dealt(Created(table, ends, children), [])
  {
  }

  // ----------------------------------- without closing the inherited write ends

  /** A child that keeps what it inherited can write to every earlier pipe. */
  ghost predicate Inherits(c: Child, i: nat, ends: seq<int>)
    requires i < |ends|
  {
    && !c.phase.Exited?
    && (c.phase.Closing? ==> forall f :: f in c.phase.todo ==> f == ends[i])
    && (forall j :: 0 <= j < i ==> ends[j] in c.table && c.table[ends[j]] == WriteEnd(j))
  }

  /** The parent has not got past the first child. */
  ghost predicate Leaky(s: State) {
    && Common(s) && |s.ends| >= 2
    && (s.parent.Commanding? || s.parent == Shutting(0) || s.parent == Awaiting(0))
    && (forall i :: 0 <= i < |s.sent| ==> |s.sent[i]| < EXE_NUM)
    && (forall i: nat :: i < |s.children| ==> Inherits(s.children[i], i, s.ends))
  }

  /** Pipe 0 stays writable through the second child, any other through the parent. */
  lemma {:induction false} LeakyWritable(s: State, i: nat)
    requires Leaky(s) && i < |s.children|
    ensures Writable(s, i)
  {
    if i == 0 {
      assert Inherits(s.children[1], 1, s.ends);
      assert s.ends[0] in s.children[1].table && s.children[1].table[s.ends[0]] == WriteEnd(0);
      assert Holds(s.children[1].table, 0);
    } else {
      OpenIsWritable(s, i);
    }
  }

  lemma {:induction false} LeakyChild(s: State, i: nat)
    requires Leaky(s) && i < |s.children| && ChildStep(s, i).Some?
    ensures Inherits(ChildStep(s, i).value.children[i], i, s.ends)
  {
    var c := s.children[i];
    assert Inherits(c, i, s.ends) && ReadsOwn(c, i) && Commands(s, i);
    LeakyWritable(s, i);
    if c.phase.Closing? && c.phase.todo != [] {
      assert c.phase.todo[0] in c.phase.todo;
      assert forall f :: f in c.phase.todo[1..] ==> f in c.phase.todo;
    }
  }

  lemma {:induction false} LeakyNext(s: State, step: Step)
    requires Leaky(s) && Next(s, step).Some?
    ensures Leaky(Next(s, step).value)
  {
    NextCommon(s, step);
    var s' := Next(s, step).value;
    assert Inherits(s.children[0], 0, s.ends);
    match step
    case Move(i) =>
      assert ReadsOwn(s.children[i], i);
      ChildFrame(s, i);
      LeakyChild(s, i);
      forall k: nat | k < |s'.children| ensures Inherits(s'.children[k], k, s'.ends) {
        assert Inherits(s.children[k], k, s.ends);
      }
    case Send(cmd) =>
      SendTarget(s, cmd);
      var p := s'.parent.procs;
      var d := if p == 0 then 1 else 0;
      assert |s'.sent[p]| + |s'.sent[d]| <= EXE_NUM && |s'.sent[p]| <= |s'.sent[d]| + 1;
      assert s'.children == s.children && s'.ends == s.ends;
    case Stop =>
    case CloseEnd =>
    case Reap =>
  }

  /** Without the close loop and with at least two children, no run ever gets past the
      waiting for the first child. */
  lemma {:induction false} LeakyBlocks(s: State, steps: seq<Step>)
    requires Leaky(s) && Run(s, steps).Some?
    ensures Leaky(Run(s, steps).value) && Next(Run(s, steps).value, Reap).None?
  {
    if steps != [] {
      LeakyBlocks(s, steps[..|steps| - 1]);
      LeakyNext(Run(s, steps[..|steps| - 1]).value, steps[|steps| - 1]);
    }
    var s' := Run(s, steps).value;
    if s'.parent.Awaiting? {
      assert Inherits(s'.children[0], 0, s'.ends);
    }
  }

  // ------------------------------------------------------------- creation

  /** The lowest free descriptor number from `f` on. */
  function Lowest(t: Table, f: nat): (r: nat)
    ensures f <= r && r !in t && forall g :: f <= g < r ==> g in t
    decreases set g | g in t && g >= f
  {
    if f !in t then f
    else
      assert (set g | g in t && g >= f + 1) == (set g | g in t && g >= f) - {f as int};
      Lowest(t, f + 1)
  }

  /** What the parent holds after `|ends|` pipes: one write end for each, no read end. */
  ghost predicate Holding(table: Table, ends: seq<int>) {
    && 0 in table
    && (forall f :: f in table ==>
          table[f].Std? || (table[f].WriteEnd? && table[f].p < |ends| && f == ends[table[f].p]))
    && (forall p: nat :: p < |ends| ==> ends[p] in table && table[ends[p]] == WriteEnd(p) && ends[p] != 0)
  }

  /** A child as fork leaves it: the parent's table with both ends of its own pipe. */
  ghost predicate Spawned(c: Child, k: nat, ends: seq<int>, cleanup: bool)
    requires k < |ends|
  {
    && c.readFd in c.table && c.table[c.readFd] == ReadEnd(k)
    && c.phase == Closing((if cleanup then ends[..k] else []) + [ends[k]])
    && (forall f :: f in c.table && c.table[f].WriteEnd? ==> c.table[f].p <= k && f == ends[c.table[f].p])
    && (forall p: nat :: p <= k ==> ends[p] in c.table && c.table[ends[p]] == WriteEnd(p))
    && c.cnt == 0 && c.executed == []
  }

  function Created(table: Table, ends: seq<int>, children: seq<Child>): State {
    var none := seq(|ends|, _ => []);
    State(table, ends, children, none, Commanding(0, 0), none, 0)
  }

  /** Creating the pool, with the close loop of lines 87 to 90 or without it. The state
      after it is the good one exactly when the loop is there or the child is alone. */
  method CreatProcesses(initial: Table, childNum: nat, cleanup: bool)
    returns (table: Table, ends: seq<int>, children: seq<Child>)
    requires 0 in initial && forall f :: f in initial ==> initial[f].Std?
    requires childNum > 0
    ensures |ends| == |children| == childNum && Holding(table, ends)
    ensures forall k: nat :: k < childNum ==> Spawned(children[k], k, ends, cleanup)
    ensures Dealt(Created(table, ends, children), [])
    ensures Inv(Created(table, ends, children)) <==> cleanup || childNum == 1
    ensures Leaky(Created(table, ends, children)) <==> !cleanup && childNum > 1
  {
    table, ends, children := initial, [], [];
    var fds := [];
    for i := 0 to childNum
      invariant |ends| == |children| == i && fds == ends
      invariant Holding(table, ends)
      invariant forall k: nat :: k < i ==> Spawned(children[k], k, ends, cleanup)
    {
      ghost var before, born := ends, children;
      var r := Lowest(table, 0);
      table := table[r := ReadEnd(i)];
      var w := Lowest(table, 0);
      table := table[w := WriteEnd(i)];
      var todo := (if cleanup then fds else []) + [w];
      children := children + [Child(table, r, Closing(todo), 0, [])];
      table := table - {r};
      ends := ends + [w];
      fds := fds + [w];
      assert before == ends[..i];
      assert Spawned(children[i], i, ends, cleanup);
      forall k: nat | k < i ensures Spawned(children[k], k, ends, cleanup) {
        assert Spawned(born[k], k, before, cleanup) && ends[..k] == before[..k];
      }
    }
    CreatedDealt(table, ends, children);
    CreatedCommon(table, ends, children, cleanup);
    if cleanup || childNum == 1 {
      CreatedClean(table, ends, children, cleanup);
    } else {
      CreatedLeaky(table, ends, children);
    }
  }

  lemma {:induction false} CreatedCommon(table: Table, ends: seq<int>, children: seq<Child>, cleanup: bool)
    requires |ends| == |children| > 0 && Holding(table, ends)
    requires forall k: nat :: k < |ends| ==> Spawned(children[k], k, ends, cleanup)
    ensures Common(Created(table, ends, children))
  {
  }

  lemma {:induction false} CreatedClean(table: Table, ends: seq<int>, children: seq<Child>, cleanup: bool)
    requires Common(Created(table, ends, children)) && (cleanup || |children| == 1)
    requires |ends| == |children| && forall k: nat :: k < |ends| ==> Spawned(children[k], k, ends, cleanup)
    ensures Inv(Created(table, ends, children)) && !Leaky(Created(table, ends, children))
  {
    var s := Created(table, ends, children);
    forall i: nat | i < |children| ensures CleansUp(children[i], ends) {
      assert Spawned(children[i], i, ends, cleanup);
      forall f | f in children[i].table && children[i].table[f].WriteEnd? ensures f in children[i].phase.todo {
        var p := children[i].table[f].p;
        assert f == ends[p] && (p < i ==> ends[..i][p] == f);
      }
    }
    if |ends| > 1 {
      assert Spawned(children[1], 1, ends, true);
      assert ends[..1][0] == ends[0] && ends[0] in children[1].phase.todo;
      assert !Inherits(children[1], 1, ends);
    }
  }

  lemma {:induction false} CreatedLeaky(table: Table, ends: seq<int>, children: seq<Child>)
    requires Common(Created(table, ends, children)) && |children| > 1
    requires |ends| == |children| && forall k: nat :: k < |ends| ==> Spawned(children[k], k, ends, false)
    ensures Leaky(Created(table, ends, children)) && !Inv(Created(table, ends, children))
  {
    forall i: nat | i < |children| ensures Inherits(children[i], i, ends) {
      assert Spawned(children[i], i, ends, false);
    }
    assert Spawned(children[1], 1, ends, false);
    assert ends[0] in children[1].table && children[1].table[ends[0]].WriteEnd?;
    assert ends[0] !in children[1].phase.todo;
    assert !CleansUp(children[1], ends);
  }
}
