/** The chat server: a receiving thread registers the author of every datagram and pushes
    the message, a broadcasting thread pops it and sends it to a snapshot of the
    registered clients. The two share the ring queue and a locked table of clients. */
module ChatServer {
  import opened Text
  import opened SemaphoreRing

  /** A client is known by the name made of its address; the text is what it sent. */
  datatype Message = Message(author: string, text: string)

  datatype Who = Receiver | Broadcaster

  datatype Recv =
    | Idle                       // in recvfrom
    | Registering(m: Message)    // about to lock the table
    | Inserting(m: Message)      // the table is locked
    | Unlocking(m: Message)
    | Pushing(m: Message)        // inside the queue's push

  datatype Broad =
    | Popping                    // inside the queue's pop
    | Fetching(m: Message)       // about to lock the table
    | Copying(m: Message)        // the table is locked
    | Releasing(m: Message, v: seq<string>)
    | Sending(m: Message, v: seq<string>, k: nat)

  datatype Chat = Chat(
    ring: State<Message>, users: set<string>, lock: Option<Who>, recv: Recv, broad: Broad,
    heard: seq<Message>,          // history: messages received, in order of arrival
    usersAt: seq<set<string>>,    // history: who was registered when a message was queued
    snaps: seq<seq<string>>,      // history: the recipients of every broadcast
    got: map<string, seq<Message>>)   // history: what was handed to sendto for a client

  datatype Step = Datagram(m: Message) | Receive | Broadcast(order: seq<string>)

  function Got(s: Chat, c: string): seq<Message> {
    if c in s.got then s.got[c] else []
  }

  /** A walk over the table visits every client once, in some order. */
  ghost predicate Enumerates(order: seq<string>, users: set<string>) {
    && (forall i, j :: 0 <= i < j < |order| ==> order[i] != order[j])
    && forall c :: c in order <==> c in users
  }

  function Start(ring: seq<Message>): Chat {
    Chat(Initial(|ring|, ring, 1, 1), {}, None, Idle, Popping, [], [], [], map[])
  }

  ghost function RecvStep(s: Chat): Option<Chat>
    requires |s.ring.producers| == 1
  {
    match s.recv
    case Idle => None
    case Registering(m) =>
      if s.lock.Some? then None else Some(s.(lock := Some(Receiver), recv := Inserting(m)))
    case Inserting(m) => Some(s.(users := s.users + {m.author}, recv := Unlocking(m)))
    case Unlocking(m) => Some(s.(lock := None, recv := Pushing(m)))
    case Pushing(m) =>
      var p := s.ring.producers[0];
      var r := ProducerStep(s.ring, 0, m);
      if r.None? then None
      else Some(s.(ring := r.value, usersAt := if p.Inside? then s.usersAt + [s.users] else s.usersAt,
                   recv := if p.Left? then Idle else s.recv))
  }

  ghost function BroadStep(s: Chat, order: seq<string>): Option<Chat>
    requires |s.ring.consumers| == 1
  {
    match s.broad
    case Popping =>
      var c := s.ring.consumers[0];
      var r := ConsumerStep(s.ring, 0);
      if r.None? then None
      else Some(s.(ring := r.value, broad := if c.Gone? then Fetching(c.x) else Popping))
    case Fetching(m) =>
      if s.lock.Some? then None else Some(s.(lock := Some(Broadcaster), broad := Copying(m)))
    case Copying(m) =>
      if !Enumerates(order, s.users) then None
      else Some(s.(snaps := s.snaps + [order], broad := Releasing(m, order)))
    case Releasing(m, v) => Some(s.(lock := None, broad := Sending(m, v, 0)))
    case Sending(m, v, k) =>
      if k >= |v| then Some(s.(broad := Popping))
      else Some(s.(got := s.got[v[k] := Got(s, v[k]) + [m]], broad := Sending(m, v, k + 1)))
  }

  ghost function Next(s: Chat, step: Step): Option<Chat>
    requires |s.ring.producers| == 1 && |s.ring.consumers| == 1
  {
    match step
    case Datagram(m) =>
      if !s.recv.Idle? then None
      else if m.text == "" then Some(s)     // nothing received
      else Some(s.(recv := Registering(m), heard := s.heard + [m]))
    case Receive => RecvStep(s)
    case Broadcast(order) => BroadStep(s, order)
  }

  ghost predicate TwoThreads(s: Chat) {
    |s.ring.producers| == 1 && |s.ring.consumers| == 1
  }

  ghost function Run(s: Chat, steps: seq<Step>): Option<Chat> {
    if steps == [] then Some(s)
    else
      var before := Run(s, steps[..|steps| - 1]);
      if before.None? || !TwoThreads(before.value) then None
      else Next(before.value, steps[|steps| - 1])
  }

  // ------------------------------------------------------------- invariant

  ghost predicate RingOk(s: Chat) {
    Inv(s.ring) && TwoThreads(s)
  }

  ghost predicate LockOk(s: Chat) {
    && (s.lock == Some(Receiver) <==> s.recv.Inserting? || s.recv.Unlocking?)
    && (s.lock == Some(Broadcaster) <==> s.broad.Copying? || s.broad.Releasing?)
  }

  /** The message the receiver has not put into the ring yet. */
  ghost function InHand(s: Chat): seq<Message>
    requires TwoThreads(s)
  {
    match s.recv
    case Idle => []
    case Registering(m) => [m]
    case Inserting(m) => [m]
    case Unlocking(m) => [m]
    case Pushing(m) =>
      var p := s.ring.producers[0];
      if p.Resting? || p.Granted? || p.Inside? then [m] else []
  }

  /** The receiver's message travels unchanged from the socket into the ring, and its
      author is in the table before it gets there. */
  ghost predicate RecvOk(s: Chat)
    requires TwoThreads(s)
  {
    var p := s.ring.producers[0];
    && (!s.recv.Pushing? ==> p.Resting?)
    && (s.recv.Pushing? || s.recv.Unlocking? ==> s.recv.m.author in s.users)
    && (s.recv.Pushing? && (p.Granted? || p.Inside?) ==> p.x == s.recv.m)
    && s.heard == s.ring.written + InHand(s)
  }

  ghost predicate AuthorsOk(s: Chat) {
    && |s.usersAt| == |s.ring.written|
    && (forall i :: 0 <= i < |s.usersAt| ==> s.ring.written[i].author in s.usersAt[i] && s.usersAt[i] <= s.users)
    && forall i, j :: 0 <= i < j < |s.usersAt| ==> s.usersAt[i] <= s.usersAt[j]
  }

  /** The messages whose author is in the table by now. */
  ghost function Entered(s: Chat): seq<Message> {
    if (s.recv.Registering? || s.recv.Inserting?) && s.heard != [] then s.heard[..|s.heard| - 1] else s.heard
  }

  predicate IsAuthor(messages: seq<Message>, c: string) {
    exists i :: 0 <= i < |messages| && messages[i].author == c
  }

  /** The table holds the authors of what was received, and nobody else. */
  ghost predicate UsersOk(s: Chat) {
    forall c :: c in s.users <==> IsAuthor(Entered(s), c)
  }

  /** The message the broadcaster has taken and not copied the recipients for yet. */
  ghost function Taken(s: Chat): Option<Message>
    requires TwoThreads(s)
  {
    match s.broad
    case Popping => if Unreturned<Message>()(s.ring.consumers[0]) then Some(s.ring.consumers[0].x) else None
    case Fetching(m) => Some(m)
    case Copying(m) => Some(m)
    case Releasing(_, _) => None
    case Sending(_, _, _) => None
  }

  ghost predicate BroadOk(s: Chat)
    requires TwoThreads(s)
  {
    && (!s.broad.Popping? ==> s.ring.consumers[0].Waiting?)
    && |s.ring.read| == |s.snaps| + (if Taken(s).Some? then 1 else 0)
    && (Taken(s).Some? ==> Taken(s).value == s.ring.read[|s.snaps|])
    && (s.broad.Releasing? || s.broad.Sending? ==>
          s.snaps != [] && s.broad.v == s.snaps[|s.snaps| - 1] && s.broad.m == s.ring.read[|s.snaps| - 1])
    && (s.broad.Sending? ==> s.broad.k <= |s.broad.v|)
  }

  /** The recipients of a broadcast: each once, nobody dropped later, and everybody who
      was registered when the message was queued. */
  ghost predicate SnapsOk(s: Chat) {
    && |s.snaps| <= |s.usersAt|
    && (forall i, j, k :: 0 <= i < |s.snaps| && 0 <= j < k < |s.snaps[i]| ==> s.snaps[i][j] != s.snaps[i][k])
    && (forall i, c :: 0 <= i < |s.snaps| && c in s.snaps[i] ==> c in s.users)
    && (forall i, j, c :: 0 <= i < j < |s.snaps| && c in s.snaps[i] ==> c in s.snaps[j])
    && (forall i, c :: 0 <= i < |s.snaps| && c in s.usersAt[i] ==> c in s.snaps[i])
  }

  /** The first broadcast a client is a recipient of. */
  function First(snaps: seq<seq<string>>, c: string): (r: nat)
    ensures r <= |snaps|
    ensures r < |snaps| ==> c in snaps[r]
    ensures forall i :: 0 <= i < r ==> c !in snaps[i]
  {
    if snaps == [] then 0
    else
      var n := |snaps| - 1;
      var f := First(snaps[..n], c);
      if f < n then f else if c in snaps[n] then n else n + 1
  }

  /** The recipients the running broadcast has not reached yet. */
  ghost function Due(s: Chat): seq<string> {
    match s.broad
    case Releasing(_, v) => v
    case Sending(_, v, k) => if k <= |v| then v[k..] else []
    case _ => []
  }

  /** The broadcasts a client has had its part of. */
  ghost function Upto(s: Chat, c: string): int {
    |s.snaps| - (if c in Due(s) then 1 else 0)
  }

  ghost predicate Delivered(s: Chat, c: string) {
    First(s.snaps, c) <= Upto(s, c) <= |s.ring.read| && Got(s, c) == s.ring.read[First(s.snaps, c)..Upto(s, c)]
  }

  ghost predicate Good(s: Chat) {
    && RingOk(s) && LockOk(s) && RecvOk(s) && AuthorsOk(s) && UsersOk(s) && BroadOk(s) && SnapsOk(s)
    && forall c :: Delivered(s, c)
  }

  // ------------------------------------------------------- every step keeps it

  lemma {:induction false} StartGood(ring: seq<Message>)
    requires ring != []
    ensures Good(Start(ring))
  {
    InitialInv(|ring|, ring, 1, 1);
    StartParts(ring);
  }

  lemma {:induction false} StartParts(ring: seq<Message>)
    ensures var s := Start(ring);
            && TwoThreads(s) && LockOk(s) && RecvOk(s) && AuthorsOk(s) && UsersOk(s) && BroadOk(s) && SnapsOk(s)
            && forall c :: Delivered(s, c)
  {
  }

  lemma {:induction false} DatagramHeard(s: Chat, m: Message)
    requires TwoThreads(s) && LockOk(s) && RecvOk(s) && Next(s, Datagram(m)).Some?
    ensures var s' := Next(s, Datagram(m)).value; TwoThreads(s') && LockOk(s') && RecvOk(s')
  {
  }

  /** What a datagram leaves alone. */
  lemma {:induction false} DatagramFrame(s: Chat, m: Message)
    requires TwoThreads(s) && Next(s, Datagram(m)).Some?
    ensures var s' := Next(s, Datagram(m)).value;
            && s'.ring == s.ring && s'.users == s.users && s'.usersAt == s.usersAt && s'.lock == s.lock
            && s'.broad == s.broad && s'.snaps == s.snaps && s'.got == s.got && Due(s') == Due(s)
  {
  }

  lemma {:induction false} DatagramUsers(s: Chat, m: Message)
    requires TwoThreads(s) && UsersOk(s) && Next(s, Datagram(m)).Some?
    ensures UsersOk(Next(s, Datagram(m)).value)
  {
    var s' := Next(s, Datagram(m)).value;
    if m.text != "" {
      assert s'.heard[..|s'.heard| - 1] == s.heard;
    }
    assert Entered(s') == Entered(s);
  }

  lemma {:induction false} ReceiveUsers(s: Chat)
    requires TwoThreads(s) && RecvOk(s) && UsersOk(s) && RecvStep(s).Some?
    ensures UsersOk(RecvStep(s).value)
  {
    var s' := RecvStep(s).value;
    if s.recv.Inserting? {
      var m := s.recv.m;
      assert s.heard == s.ring.written + [m] && s.heard[|s.heard| - 1] == m;
      forall c ensures c in s'.users <==> IsAuthor(Entered(s'), c) {
        AuthorSnoc(Entered(s), m, c);
        assert Entered(s) + [m] == s.heard;
      }
    } else {
      assert Entered(s') == Entered(s) && s'.users == s.users;
    }
  }

  lemma {:induction false} AuthorSnoc(messages: seq<Message>, m: Message, c: string)
    ensures IsAuthor(messages + [m], c) <==> IsAuthor(messages, c) || m.author == c
  {
    if IsAuthor(messages, c) {
      var i :| 0 <= i < |messages| && messages[i].author == c;
      assert (messages + [m])[i].author == c;
    }
    assert (messages + [m])[|messages|] == m;
  }

  lemma {:induction false} BroadcastUsers(s: Chat, order: seq<string>)
    requires TwoThreads(s) && BroadOk(s) && UsersOk(s) && BroadStep(s, order).Some?
    ensures UsersOk(BroadStep(s, order).value)
  {
    BroadcastFrame(s, order);
    assert Entered(BroadStep(s, order).value) == Entered(s);
  }

  lemma {:induction false} DatagramGood(s: Chat, m: Message)
    requires Good(s) && Next(s, Datagram(m)).Some?
    ensures Good(Next(s, Datagram(m)).value)
  {
    var s' := Next(s, Datagram(m)).value;
    DatagramHeard(s, m);
    DatagramUsers(s, m);
    DatagramFrame(s, m);
    forall c ensures Delivered(s', c) {
      assert Delivered(s, c);
      DeliveredFrame(s, s', c);
    }
  }

  lemma {:induction false} ReceiveRing(s: Chat)
    requires RingOk(s) && LockOk(s) && RecvStep(s).Some?
    ensures RingOk(RecvStep(s).value) && LockOk(RecvStep(s).value)
  {
    if s.recv.Pushing? {
      ProducerInv(s.ring, 0, s.recv.m);
    }
  }

  lemma {:induction false} ReceiveMessage(s: Chat)
    requires TwoThreads(s) && RecvOk(s) && RecvStep(s).Some?
    ensures TwoThreads(RecvStep(s).value) && RecvOk(RecvStep(s).value)
  {
  }

  /** What a step of the receiver leaves alone. */
  lemma {:induction false} ReceiveFrame(s: Chat)
    requires TwoThreads(s) && RecvStep(s).Some? && RecvOk(s)
    ensures var s' := RecvStep(s).value;
            && s'.broad == s.broad && s'.snaps == s.snaps && s'.got == s.got && s.users <= s'.users
            && s'.ring.consumers == s.ring.consumers && s'.ring.read == s.ring.read
            && (if s.recv.Pushing? && s.ring.producers[0].Inside? then
                  s'.ring.written == s.ring.written + [s.recv.m] && s'.usersAt == s.usersAt + [s.users]
                else s'.ring.written == s.ring.written && s'.usersAt == s.usersAt)
  {
  }

  lemma {:induction false} ReceiveTables(s: Chat)
    requires RingOk(s) && RecvOk(s) && AuthorsOk(s) && SnapsOk(s) && RecvStep(s).Some?
    ensures AuthorsOk(RecvStep(s).value) && SnapsOk(RecvStep(s).value)
  {
    ReceiveFrame(s);
    assert forall i :: 0 <= i < |s.snaps| ==> RecvStep(s).value.usersAt[i] == s.usersAt[i];
  }

  /** A client's deliveries depend on the broadcasts and on what was read so far. */
  lemma {:induction false} DeliveredFrame(s: Chat, s': Chat, c: string)
    requires Delivered(s, c)
    requires s'.snaps == s.snaps && s'.got == s.got && Due(s') == Due(s) && s.ring.read <= s'.ring.read
    ensures Delivered(s', c)
  {
  }

  lemma {:induction false} ReceiveBroad(s: Chat)
    requires TwoThreads(s) && RecvOk(s) && BroadOk(s) && RecvStep(s).Some?
    ensures TwoThreads(RecvStep(s).value) && BroadOk(RecvStep(s).value)
  {
    ReceiveFrame(s);
  }

  lemma {:induction false} ReceiveDelivers(s: Chat, c: string)
    requires TwoThreads(s) && RecvOk(s) && RecvStep(s).Some? && Delivered(s, c)
    ensures Delivered(RecvStep(s).value, c)
  {
    ReceiveFrame(s);
    DeliveredFrame(s, RecvStep(s).value, c);
  }

  lemma {:induction false} ReceiveGood(s: Chat)
    requires Good(s) && RecvStep(s).Some?
    ensures Good(RecvStep(s).value)
  {
    ReceiveRing(s);
    ReceiveMessage(s);
    ReceiveTables(s);
    ReceiveUsers(s);
    ReceiveBroad(s);
    forall c ensures Delivered(RecvStep(s).value, c) {
      ReceiveDelivers(s, c);
    }
  }

  lemma {:induction false} BroadcastRing(s: Chat, order: seq<string>)
    requires RingOk(s) && LockOk(s) && BroadStep(s, order).Some?
    ensures RingOk(BroadStep(s, order).value) && LockOk(BroadStep(s, order).value)
  {
    if s.broad.Popping? {
      ConsumerInv(s.ring, 0);
    }
  }

  lemma {:induction false} BroadcastMessage(s: Chat, order: seq<string>)
    requires TwoThreads(s) && BroadOk(s) && BroadStep(s, order).Some?
    ensures TwoThreads(BroadStep(s, order).value) && BroadOk(BroadStep(s, order).value)
  {
  }

  lemma {:induction false} BroadcastFrame(s: Chat, order: seq<string>)
    requires TwoThreads(s) && BroadOk(s) && BroadStep(s, order).Some?
    ensures var s' := BroadStep(s, order).value;
            && s'.recv == s.recv && s'.users == s.users && s'.usersAt == s.usersAt && s'.heard == s.heard
            && s'.ring.producers == s.ring.producers && s'.ring.written == s.ring.written
            && s.ring.read <= s'.ring.read
            && s'.snaps == (if s.broad.Copying? then s.snaps + [order] else s.snaps)
            && s'.got == (if s.broad.Sending? && s.broad.k < |s.broad.v|
                          then s.got[s.broad.v[s.broad.k] := Got(s, s.broad.v[s.broad.k]) + [s.broad.m]] else s.got)
  {
  }

  lemma {:induction false} BroadcastSnaps(s: Chat, order: seq<string>)
    requires RingOk(s) && AuthorsOk(s) && BroadOk(s) && SnapsOk(s) && BroadStep(s, order).Some?
    ensures SnapsOk(BroadStep(s, order).value)
  {
    BroadcastFrame(s, order);
    if s.broad.Copying? {
      assert |s.snaps| < |s.ring.read| <= |s.usersAt|;
      forall c | c in s.usersAt[|s.snaps|] ensures c in order {
        assert s.usersAt[|s.snaps|] <= s.users;
      }
    }
  }

  lemma {:induction false} SendDelivered(s: Chat, s': Chat, c: string, x: string)
    requires s.snaps != [] && |s.snaps| <= |s.ring.read| && Delivered(s, c)
    requires Due(s) == [x] + Due(s') && x !in Due(s')
    requires s'.snaps == s.snaps && s'.ring.read == s.ring.read
    requires s'.got == s.got[x := Got(s, x) + [s.ring.read[|s.snaps| - 1]]]
    ensures Delivered(s', c)
  {
  }

  lemma {:induction false} NotAgain(v: seq<string>, k: nat)
    requires k < |v| && forall i, j :: 0 <= i < j < |v| ==> v[i] != v[j]
    ensures v[k] !in v[k + 1..]
  {
  }

  lemma {:induction false} CopyingDelivers(s: Chat, order: seq<string>, c: string)
    requires TwoThreads(s) && BroadOk(s) && SnapsOk(s) && s.broad.Copying? && BroadStep(s, order).Some? && Delivered(s, c)
    ensures Delivered(BroadStep(s, order).value, c)
  {
  }

  lemma {:induction false} DistinctRecipients(s: Chat)
    requires TwoThreads(s) && BroadOk(s) && SnapsOk(s) && s.broad.Sending?
    ensures forall i, j :: 0 <= i < j < |s.broad.v| ==> s.broad.v[i] != s.broad.v[j]
  {
  }

  lemma {:induction false} SendingDelivers(s: Chat, order: seq<string>, c: string)
    requires TwoThreads(s) && BroadOk(s) && s.broad.Sending? && s.broad.k < |s.broad.v| && Delivered(s, c)
    requires forall i, j :: 0 <= i < j < |s.broad.v| ==> s.broad.v[i] != s.broad.v[j]
    ensures Delivered(BroadStep(s, order).value, c)
  {
    var v, k := s.broad.v, s.broad.k;
    assert v[k..] == [v[k]] + v[k + 1..];
    NotAgain(v, k);
    SendDelivered(s, BroadStep(s, order).value, c, v[k]);
  }

  lemma {:induction false} OthersDeliver(s: Chat, order: seq<string>, c: string)
    requires TwoThreads(s) && BroadOk(s) && BroadStep(s, order).Some? && Delivered(s, c)
    requires s.broad.Popping? || s.broad.Fetching? || s.broad.Releasing? || (s.broad.Sending? && s.broad.k == |s.broad.v|)
    ensures Delivered(BroadStep(s, order).value, c)
  {
    BroadcastFrame(s, order);
    assert s.broad.Releasing? ==> s.broad.v[0..] == s.broad.v;
    DeliveredFrame(s, BroadStep(s, order).value, c);
  }

  lemma {:induction false} BroadcastDelivered(s: Chat, order: seq<string>, c: string)
    requires TwoThreads(s) && BroadOk(s) && SnapsOk(s) && BroadStep(s, order).Some? && Delivered(s, c)
    ensures Delivered(BroadStep(s, order).value, c)
  {
    if s.broad.Copying? {
      CopyingDelivers(s, order, c);
    } else if s.broad.Sending? && s.broad.k < |s.broad.v| {
      DistinctRecipients(s);
      SendingDelivers(s, order, c);
    } else {
      OthersDeliver(s, order, c);
    }
  }

  lemma {:induction false} BroadcastGood(s: Chat, order: seq<string>)
    requires Good(s) && BroadStep(s, order).Some?
    ensures Good(BroadStep(s, order).value)
  {
    BroadcastRing(s, order);
    BroadcastMessage(s, order);
    BroadcastFrame(s, order);
    BroadcastUsers(s, order);
    BroadcastSnaps(s, order);
    forall c ensures Delivered(BroadStep(s, order).value, c) {
      BroadcastDelivered(s, order, c);
    }
  }

  lemma {:induction false} NextGood(s: Chat, step: Step)
    requires Good(s) && Next(s, step).Some?
    ensures Good(Next(s, step).value)
  {
    match step
    case Datagram(m) => DatagramGood(s, m);
    case Receive => ReceiveGood(s);
    case Broadcast(order) => BroadcastGood(s, order);
  }

  lemma {:induction false} RunGood(ring: seq<Message>, steps: seq<Step>)
    requires ring != [] && Run(Start(ring), steps).Some?
    ensures Good(Run(Start(ring), steps).value)
  {
    if steps == [] {
      StartGood(ring);
    } else {
      RunGood(ring, steps[..|steps| - 1]);
      NextGood(Run(Start(ring), steps[..|steps| - 1]).value, steps[|steps| - 1]);
    }
  }

  // ------------------------------------------------------------- main results

  /** Messages are read, written and heard in one order. */
  lemma {:induction false} ArrivalOrder(s: Chat)
    requires RingOk(s) && RecvOk(s)
    ensures s.ring.read <= s.ring.written <= s.heard && |s.heard| <= |s.ring.written| + 1
  {
  }

  /** From its first broadcast on a client is a recipient of every one. */
  lemma {:induction false} RecipientsStay(s: Chat, c: string)
    requires SnapsOk(s)
    ensures forall i :: First(s.snaps, c) <= i < |s.snaps| ==> c in s.snaps[i]
  {
  }

  /** What a client was sent is a contiguous run of the messages in order of arrival,
      from the first broadcast it was a recipient of to the latest one (the one under way
      counts once it has reached the client). */
  lemma {:induction false} ContiguousRun(s: Chat, c: string)
    requires Good(s)
    ensures s.ring.read <= s.ring.written <= s.heard && |s.heard| <= |s.ring.written| + 1
    ensures var f := First(s.snaps, c);
            && Got(s, c) <= s.heard[f..]
            && |Got(s, c)| == |s.snaps| - f - (if c in Due(s) then 1 else 0)
            && forall i :: f <= i < |s.snaps| ==> c in s.snaps[i]
  {
    ArrivalOrder(s);
    RecipientsStay(s, c);
    assert Delivered(s, c);
    SliceOfPrefix(s.ring.read, s.heard, Got(s, c), First(s.snaps, c), Upto(s, c));
  }

  lemma {:induction false} SliceOfPrefix(a: seq<Message>, b: seq<Message>, s: seq<Message>, i: nat, j: nat)
    requires a <= b && i <= j <= |a| && s == a[i..j]
    ensures i <= |b| && s <= b[i..] && |s| == j - i
  {
  }

  /** Every message queued has its author in the table, and whoever was registered when
      a message was queued is sent it, in its place, once its broadcast has got that far. */
  lemma {:induction false} RegisteredReceive(s: Chat, i: nat, c: string)
    requires Good(s) && i < |s.ring.written|
    ensures s.ring.written[i].author in s.usersAt[i] && s.usersAt[i] <= s.users
    ensures c in s.usersAt[i] && i < |s.snaps| ==> c in s.snaps[i] && First(s.snaps, c) <= i
    ensures c in s.usersAt[i] && i < Upto(s, c) ==>
              i - First(s.snaps, c) < |Got(s, c)| && Got(s, c)[i - First(s.snaps, c)] == s.ring.written[i]
  {
    assert Delivered(s, c);
    ArrivalOrder(s);
    RegisteredAt(s, i, c);
  }

  lemma {:induction false} RegisteredAt(s: Chat, i: nat, c: string)
    requires TwoThreads(s) && AuthorsOk(s) && SnapsOk(s) && Delivered(s, c)
    requires i < |s.ring.written| && s.ring.read <= s.ring.written
    ensures s.ring.written[i].author in s.usersAt[i] && s.usersAt[i] <= s.users
    ensures c in s.usersAt[i] && i < |s.snaps| ==> c in s.snaps[i] && First(s.snaps, c) <= i
    ensures c in s.usersAt[i] && i < Upto(s, c) ==>
              i - First(s.snaps, c) < |Got(s, c)| && Got(s, c)[i - First(s.snaps, c)] == s.ring.written[i]
  {
    if c in s.usersAt[i] && i < |s.snaps| {
      assert c in s.snaps[i];
    }
  }

  /** Whenever neither thread can move without a new datagram, every message received has
      been sent to everybody who was registered when it was queued, its author included. */
  lemma {:induction false} QuiescentMeansDelivered(s: Chat, order: seq<string>)
    requires Good(s) && Enumerates(order, s.users)
    requires RecvStep(s).None? && BroadStep(s, order).None?
    ensures s.recv.Idle? && s.ring.written == s.ring.read == s.heard && |s.snaps| == |s.heard|
    ensures forall c :: Got(s, c) == s.heard[First(s.snaps, c)..]
    ensures forall i :: 0 <= i < |s.heard| ==> First(s.snaps, s.heard[i].author) <= i
  {
    BroadcasterWaits(s, order);
    ReceiverWaits(s);
    assert s.broad.Popping? && s.recv.Idle?;
    assert s.ring.producers == [Resting] && s.ring.consumers == [Waiting];
    NothingQueued(s.ring);
    assert s.heard == s.ring.written;
    forall c ensures Got(s, c) == s.heard[First(s.snaps, c)..] {
      assert Delivered(s, c);
    }
    forall i | 0 <= i < |s.heard| ensures First(s.snaps, s.heard[i].author) <= i {
      RegisteredReceive(s, i, s.heard[i].author);
    }
  }

  // ---- runs seen from outside: the datagrams that came, and what was sent to whom

  /** The messages of the datagrams of a run, in order; an empty one is passed over. */
  function Arrived(steps: seq<Step>): seq<Message> {
    if steps == [] then []
    else
      var n := |steps| - 1;
      Arrived(steps[..n]) + (if steps[n].Datagram? && steps[n].m.text != "" then [steps[n].m] else [])
  }

  /** What a run has heard is what came in it: nothing is dropped, doubled or reordered. */
  lemma {:induction false} HearsAll(ring: seq<Message>, steps: seq<Step>)
    requires ring != [] && Run(Start(ring), steps).Some?
    ensures Run(Start(ring), steps).value.heard == Arrived(steps)
  {
    if steps != [] {
      var n := |steps| - 1;
      HearsAll(ring, steps[..n]);
      RunGood(ring, steps[..n]);
      StepHears(Run(Start(ring), steps[..n]).value, steps[n]);
    }
  }

  /** A datagram is taken exactly while the receiver is waiting for one, and then it has one
      in its hand, unless it was empty. */
  lemma {:induction false} ListensIff(s: Chat, m: Message)
    requires TwoThreads(s)
    ensures Next(s, Datagram(m)).Some? <==> s.recv.Idle?
    ensures s.recv.Idle? ==> InHand(Next(s, Datagram(m)).value) == if m.text == "" then [] else [m]
  {
  }

  lemma {:induction false} StepHears(s: Chat, step: Step)
    requires TwoThreads(s) && BroadOk(s) && Next(s, step).Some?
    ensures Next(s, step).value.heard == s.heard + (if step.Datagram? && step.m.text != "" then [step.m] else [])
  {
    if step.Broadcast? {
      BroadcastFrame(s, step.order);
    }
  }

  /** What `c` is sent is part of what arrived, from message `f` on: no later than its own
      first message, and nothing at all for one that sent nothing. */
  ghost predicate SentFrom(arrived: seq<Message>, c: string, f: nat) {
    && f <= |arrived|
    && (forall j :: 0 <= j < |arrived| && arrived[j].author == c ==> f <= j)
    && (!IsAuthor(arrived, c) ==> f == |arrived|)
  }

  /** In every run, what a client has been sent is a contiguous run of the datagrams that
      came, in order; nobody else is sent anything. */
  lemma {:induction false} RunDelivers(ring: seq<Message>, steps: seq<Step>, c: string)
    requires ring != [] && Run(Start(ring), steps).Some?
    ensures var s := Run(Start(ring), steps).value;
            && (exists f: nat :: f <= |Arrived(steps)| && Got(s, c) <= Arrived(steps)[f..])
            && (!IsAuthor(Arrived(steps), c) ==> Got(s, c) == [])
  {
    var s := Run(Start(ring), steps).value;
    RunGood(ring, steps);
    HearsAll(ring, steps);
    ContiguousRun(s, c);
    var f := First(s.snaps, c);
    assert |s.snaps| <= |s.heard|;
    assert Got(s, c) <= Arrived(steps)[f..];
    if !IsAuthor(Arrived(steps), c) {
      StrangersGetNothing(s, c);
    }
  }

  lemma {:induction false} EnteredAuthors(s: Chat, c: string)
    ensures IsAuthor(Entered(s), c) ==> IsAuthor(s.heard, c)
  {
    if IsAuthor(Entered(s), c) {
      var i :| 0 <= i < |Entered(s)| && Entered(s)[i].author == c;
      assert s.heard[i].author == c;
    }
  }

  lemma {:induction false} StrangersGetNothing(s: Chat, c: string)
    requires Good(s) && !IsAuthor(s.heard, c)
    ensures First(s.snaps, c) == |s.snaps| && Got(s, c) == []
  {
    EnteredAuthors(s, c);
    assert c !in s.users && Delivered(s, c);
  }

  /** Whenever neither thread can move without a new datagram, every datagram of the run has
      been sent to everybody who had sent one by then, its author included. */
  lemma {:induction false} EveryDatagramDelivered(ring: seq<Message>, steps: seq<Step>, order: seq<string>, c: string)
    returns (f: nat)
    requires ring != [] && Run(Start(ring), steps).Some?
    requires var s := Run(Start(ring), steps).value;
             Enumerates(order, s.users) && Next(s, Receive).None? && Next(s, Broadcast(order)).None?
    ensures f <= |Arrived(steps)| && SentFrom(Arrived(steps), c, f)
    ensures Got(Run(Start(ring), steps).value, c) == Arrived(steps)[f..]
  {
    var s := Run(Start(ring), steps).value;
    RunGood(ring, steps);
    HearsAll(ring, steps);
    QuiescentMeansDelivered(s, order);
    f := First(s.snaps, c);
    forall j | 0 <= j < |s.heard| && s.heard[j].author == c ensures f <= j {
    }
    if !IsAuthor(s.heard, c) {
      StrangersGetNothing(s, c);
    }
  }

  // ---- without new datagrams the two threads come to rest

  /** What the receiver has still to do with its message, in steps. */
  ghost function RecvLeft(s: Chat): nat
    requires TwoThreads(s)
  {
    match s.recv
    case Idle => 0
    case Registering(_) => 10
    case Inserting(_) => 9
    case Unlocking(_) => 8
    case Pushing(_) =>
      match s.ring.producers[0]
      case Resting => 7
      case Granted(_) => 6
      case Inside(_) => 5
      case Wrote => 4
      case Bumped => 3
      case Reduced => 2
      case Left => 1
  }

  /** How far the broadcaster is with a message it has not copied the recipients for. */
  ghost function Begun(s: Chat): nat
    requires TwoThreads(s)
  {
    match s.broad
    case Popping =>
      (match s.ring.consumers[0]
       case Waiting => 0
       case Admitted => 1
       case Within => 2
       case Took(_) => 3
       case Advanced(_) => 4
       case Folded(_) => 5
       case Gone(_) => 6)
    case Fetching(_) => 7
    case Copying(_) => 8
    case Releasing(_, _) => 0
    case Sending(_, _, _) => 0
  }

  /** What it has still to do for the recipients it has copied. */
  ghost function Undelivered(s: Chat): int {
    match s.broad
    case Releasing(_, v) => |v| + 2
    case Sending(_, v, k) => |v| - k + 1
    case _ => 0
  }

  /** Everybody who is or is about to be registered. */
  ghost function Audience(s: Chat): set<string> {
    match s.recv
    case Idle => s.users
    case Registering(m) => s.users + {m.author}
    case Inserting(m) => s.users + {m.author}
    case Unlocking(m) => s.users + {m.author}
    case Pushing(m) => s.users + {m.author}
  }

  /** What the two threads have still to do, in steps. */
  ghost function StepsLeft(s: Chat): int
    requires TwoThreads(s)
  {
    RecvLeft(s) + (|s.heard| - |s.snaps|) * (|Audience(s)| + 12) - Begun(s) + Undelivered(s)
  }

  /** While the broadcaster is busy with a message there is one it has not copied for. */
  lemma {:induction false} BegunIsPending(s: Chat)
    requires RingOk(s) && RecvOk(s) && BroadOk(s)
    ensures |s.snaps| <= |s.heard| && (Begun(s) > 0 ==> |s.snaps| < |s.heard|)
    ensures Begun(s) <= 8 && Undelivered(s) >= 0
  {
    ArrivalOrder(s);
    if s.broad.Popping? && (s.ring.consumers[0].Admitted? || s.ring.consumers[0].Within?) {
      SomethingToRead(s.ring, 0);
    }
  }

  lemma {:induction false} StepsLeftIsNat(s: Chat)
    requires RingOk(s) && RecvOk(s) && BroadOk(s)
    ensures StepsLeft(s) >= 0
  {
    BegunIsPending(s);
    AtLeast(|s.heard| - |s.snaps|, |Audience(s)| + 12);
  }

  lemma {:induction false} AtLeast(n: nat, c: nat)
    ensures n * c >= 0 && (n >= 1 ==> n * c >= c)
  {
  }

  lemma {:induction false} OneLess(n: int, c: int)
    ensures (n - 1) * c == n * c - c
  {
  }

  lemma {:induction false} ReceiveIsProgress(s: Chat)
    requires TwoThreads(s) && RecvOk(s) && RecvStep(s).Some?
    ensures var s' := RecvStep(s).value;
            && TwoThreads(s') && RecvLeft(s') < RecvLeft(s) && Audience(s') == Audience(s)
            && s'.heard == s.heard
  {
  }

  lemma {:induction false} Enumerated(order: seq<string>, users: set<string>)
    requires Enumerates(order, users)
    ensures |order| == |users|
    decreases |order|
  {
    if order == [] {
      assert users == {};
    } else {
      var n := |order| - 1;
      var c := order[n];
      assert order == order[..n] + [c];
      assert forall d :: d in order <==> d in order[..n] || d == c;
      Enumerated(order[..n], users - {c});
    }
  }

  lemma {:induction false} BroadcastIsProgress(s: Chat, order: seq<string>)
    requires TwoThreads(s) && BroadOk(s) && BroadStep(s, order).Some?
    ensures var s' := BroadStep(s, order).value;
            && TwoThreads(s') && RecvLeft(s') == RecvLeft(s) && Audience(s') == Audience(s) && s'.heard == s.heard
            && if s.broad.Copying? then
                 |s'.snaps| == |s.snaps| + 1 && Begun(s) == 8 && Begun(s') == 0
                 && Undelivered(s') <= |Audience(s)| + 2 && Undelivered(s) == 0
               else s'.snaps == s.snaps && Undelivered(s') - Begun(s') < Undelivered(s) - Begun(s)
  {
    BroadcastFrame(s, order);
    if s.broad.Copying? {
      Enumerated(order, s.users);
      SmallerSet(s.users, Audience(s));
    }
  }

  lemma {:induction false} SmallerSet(a: set<string>, b: set<string>)
    requires a <= b
    ensures |a| <= |b|
  {
    assert b == a + (b - a);
  }

  lemma {:induction false} BroadcastLeaves(s: Chat, order: seq<string>)
    requires TwoThreads(s) && BroadOk(s) && BroadStep(s, order).Some?
    ensures TwoThreads(BroadStep(s, order).value) && StepsLeft(BroadStep(s, order).value) < StepsLeft(s)
  {
    var s' := BroadStep(s, order).value;
    var n, c := |s.heard| - |s.snaps|, |Audience(s)| + 12;
    BroadcastIsProgress(s, order);
    OneLess(n, c);
    if s.broad.Copying? {
      assert (|s'.heard| - |s'.snaps|) * (|Audience(s')| + 12) == (n - 1) * c;
    } else {
      assert (|s'.heard| - |s'.snaps|) * (|Audience(s')| + 12) == n * c;
    }
  }

  lemma {:induction false} ReceiveLeaves(s: Chat)
    requires TwoThreads(s) && RecvOk(s) && RecvStep(s).Some?
    ensures TwoThreads(RecvStep(s).value) && StepsLeft(RecvStep(s).value) < StepsLeft(s)
  {
    var s' := RecvStep(s).value;
    ReceiveIsProgress(s);
    ReceiveFrame(s);
    assert Begun(s') == Begun(s) && Undelivered(s') == Undelivered(s);
    assert (|s'.heard| - |s'.snaps|) * (|Audience(s')| + 12) == (|s.heard| - |s.snaps|) * (|Audience(s)| + 12);
  }

  /** Every step but the coming of a datagram is progress. */
  lemma {:induction false} StepIsProgress(s: Chat, step: Step)
    requires Good(s) && !step.Datagram? && Next(s, step).Some?
    ensures Good(Next(s, step).value) && StepsLeft(Next(s, step).value) < StepsLeft(s)
  {
    NextGood(s, step);
    match step
    case Receive => ReceiveLeaves(s);
    case Broadcast(order) => BroadcastLeaves(s, order);
  }

  /** Without new datagrams every run comes to an end, within as many steps as are left. */
  lemma {:induction false} ComesToRest(s: Chat, steps: seq<Step>)
    requires Good(s) && Run(s, steps).Some?
    requires forall i :: 0 <= i < |steps| ==> !steps[i].Datagram?
    ensures Good(Run(s, steps).value) && |steps| <= StepsLeft(s) - StepsLeft(Run(s, steps).value) <= StepsLeft(s)
  {
    if steps != [] {
      var n := |steps| - 1;
      ComesToRest(s, steps[..n]);
      StepIsProgress(Run(s, steps[..n]).value, steps[n]);
    }
    StepsLeftIsNat(Run(s, steps).value);
  }

  lemma {:induction false} TwoOwners(lock: Option<Who>)
    ensures lock == None || lock == Some(Receiver) || lock == Some(Broadcaster)
  {
    if lock.Some? {
      assert lock.value.Receiver? || lock.value.Broadcaster?;
    }
  }

  /** The broadcaster never waits for anything but a message or the receiver's lock. */
  lemma {:induction false} BroadcasterWaits(s: Chat, order: seq<string>)
    requires Good(s) && Enumerates(order, s.users) && BroadStep(s, order).None?
    ensures (s.broad.Fetching? && s.lock == Some(Receiver))
            || (s.broad.Popping? && s.ring.consumers[0].Waiting? && s.ring.data == 0)
  {
    if s.broad.Popping? {
      BlockedOnlyAt(s.ring, Consume(0));
      OwnerLocks(s.ring);
      assert s.ring.cOwner.Some? ==> s.ring.cOwner.value == 0;
    } else {
      TwoOwners(s.lock);
    }
  }

  /** The receiver never waits for anything but a datagram, room in the queue or the
      broadcaster's lock. */
  lemma {:induction false} ReceiverWaits(s: Chat)
    requires Good(s) && RecvStep(s).None?
    ensures s.recv.Idle? || (s.recv.Registering? && s.lock == Some(Broadcaster))
            || (s.recv.Pushing? && s.ring.producers[0].Resting? && s.ring.space == 0)
  {
    if s.recv.Pushing? {
      BlockedOnlyAt(s.ring, Produce(0, s.recv.m));
      OwnerLocks(s.ring);
      assert s.ring.pOwner.Some? ==> s.ring.pOwner.value == 0;
    } else if s.recv.Registering? {
      TwoOwners(s.lock);
    }
  }

  /** With both threads outside the queue and no data, all that was written was read,
      and there is room. */
  lemma {:induction false} NothingQueued(r: State<Message>)
    requires Inv(r) && r.producers == [Resting] && r.consumers == [Waiting] && r.data == 0
    ensures r.written == r.read && r.space > 0
  {
  }
}
