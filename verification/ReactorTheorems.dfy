/** What the reactor's invariant means for a client, and when writing stops. */
module ReactorTheorems {
  import opened Text
  import opened Framing
  import opened Protocol
  import opened Reactor

  /** End to end: when a client has sent a prefix of a well-formed stream, the bytes
      written to it and those waiting are the replies to exactly the payloads complete
      in that prefix, in order, and the input buffer is the unfinished rest. */
  lemma {:induction false} EndToEnd(w: World, service: Service, listenFd: int, p: Addr, payloads: seq<string>)
    requires Valid(w, service, listenFd) && p in w.heap
    requires forall i :: 0 <= i < |payloads| ==> Carries(payloads[i])
    requires w.books[p].received <= Stream(payloads)
    ensures var c, b := w.heap[p], w.books[p];
            var done := payloads[..CompleteIn(payloads, |b.received|)];
            && b.sent + c.outbuffer == Stream(service.Answers(done))
            && b.received == Stream(done) + c.inbuffer
  {
    assert AtRest(w.heap[p], w.books[p]) && Kept(service, w.heap[p], w.books[p]);
    ClientAtRest(service, w.heap[p], w.books[p], payloads);
  }

  lemma {:induction false} ClientAtRest(service: Service, c: Conn, b: Book, payloads: seq<string>)
    requires Digested(b.received, c.inbuffer, b.frames) && Kept(service, c, b)
    requires forall i :: 0 <= i < |payloads| ==> Carries(payloads[i])
    requires b.received <= Stream(payloads)
    ensures var done := payloads[..CompleteIn(payloads, |b.received|)];
            && b.sent + c.outbuffer == Stream(service.Answers(done))
            && b.received == Stream(done) + c.inbuffer
  {
    var done := payloads[..CompleteIn(payloads, |b.received|)];
    DrainOfPrefix(payloads, b.received);
    assert b.frames == Frames(done) by {
      assert Open(Seal);
    }
    PayloadsOfFrames(done);
    assert b.sent + c.outbuffer == service.Replies(done) && b.received == Stream(done) + c.inbuffer by {
      assert Open(Seal);
    }
  }

  /** The client's view: decoding whatever has been written so far gives a prefix of the
      answers to the payloads it completed, one answer each. */
  lemma {:induction false} ClientDecodes(w: World, service: Service, listenFd: int, p: Addr, payloads: seq<string>)
    requires Valid(w, service, listenFd) && p in w.heap
    requires forall i :: 0 <= i < |payloads| ==> Carries(payloads[i]) && Carries(service.Answer(payloads[i]))
    requires w.books[p].received <= Stream(payloads)
    ensures var b := w.books[p];
            var answers := service.Answers(payloads[..CompleteIn(payloads, |b.received|)]);
            && Payloads(Drain(b.sent).frames) == answers[..CompleteIn(answers, |b.sent|)]
            && (w.heap[p].outbuffer == "" ==> Payloads(Drain(b.sent).frames) == answers)
  {
    var c, b := w.heap[p], w.books[p];
    EndToEnd(w, service, listenFd, p, payloads);
    var answers := service.Answers(payloads[..CompleteIn(payloads, |b.received|)]);
    assert b.sent <= Stream(answers);
    DrainOfPrefix(answers, b.sent);
    PayloadsOfFrames(answers[..CompleteIn(answers, |b.sent|)]);
    if c.outbuffer == "" {
      WholeStream(answers);
      assert answers[..|answers|] == answers;
    }
  }

  /** For every client that was ever closed: what it got and what was still waiting are
      the replies to the packages cut off, and those packages and the unparsed rest are
      what it sent. */
  lemma {:induction false} ClosedClients(w: World, service: Service, listenFd: int, i: nat)
    requires Valid(w, service, listenFd) && i < |w.closed|
    ensures var c, b := w.closed[i].conn, w.closed[i].book;
            && b.sent + c.outbuffer == service.Replies(Payloads(b.frames))
            && b.received == Packages(b.frames) + c.inbuffer
  {
    assert Kept(service, w.closed[i].conn, w.closed[i].book);
    assert Open(Seal);
  }

  /** The last account closed. */
  function LastClosed(w: World): Account
    requires w.closed != []
  {
    w.closed[|w.closed| - 1]
  }

  /** A client closed while it is being read gets no answer to the bytes read last: what
      it was sent and what is thrown away with its output buffer are the answers to what
      was complete in the bytes of earlier readings. */
  lemma {:induction false} ClosedWhileReading(w: World, service: Service, listenFd: int, p: Addr, payloads: seq<string>,
                                              r: Reading, sends: seq<SendResult>)
    requires Valid(w, service, listenFd) && p in w.heap && !r.alive
    requires forall i :: 0 <= i < |payloads| ==> Carries(payloads[i])
    requires w.books[p].received + r.data <= Stream(payloads)
    ensures var w' := AfterReciver(w, p, service, r, sends);
            && w'.closed == w.closed + [LastClosed(w')]
            && LastClosed(w').book.received == w.books[p].received + r.data
            && LastClosed(w').book.sent == w.books[p].sent
            && LastClosed(w').conn.outbuffer == w.heap[p].outbuffer
            && LastClosed(w').book.sent + LastClosed(w').conn.outbuffer
               == service.Replies(payloads[..CompleteIn(payloads, |w.books[p].received|)])
  {
    assert w.books[p].received <= Stream(payloads);
    EndToEnd(w, service, listenFd, p, payloads);
  }

  /** Such a client has really been sent the answers to everything complete in what it
      sent exactly when nothing was waiting for it and the bytes read last complete
      nothing. */
  lemma {:induction false} ClosedAnsweredIff(w: World, service: Service, listenFd: int, p: Addr, payloads: seq<string>,
                                             r: Reading, sends: seq<SendResult>)
    requires Valid(w, service, listenFd) && p in w.heap && !r.alive
    requires forall i :: 0 <= i < |payloads| ==> Carries(payloads[i])
    requires w.books[p].received + r.data <= Stream(payloads)
    ensures var before := CompleteIn(payloads, |w.books[p].received|);
            var all := CompleteIn(payloads, |w.books[p].received| + |r.data|);
            LastClosed(AfterReciver(w, p, service, r, sends)).book.sent == service.Replies(payloads[..all])
            <==> w.heap[p].outbuffer == "" && all == before
  {
    ClosedWhileReading(w, service, listenFd, p, payloads, r, sends);
    var before := CompleteIn(payloads, |w.books[p].received|);
    var all := CompleteIn(payloads, |w.books[p].received| + |r.data|);
    MoreComplete(payloads, |w.books[p].received|, |w.books[p].received| + |r.data|);
    SentIsAllIff(service, payloads, before, all, w.books[p].sent, w.heap[p].outbuffer);
  }

  /** The first part of some replies is the replies to as many payloads or more only when
      it is all of them, and to the same payloads. */
  lemma {:induction false} SentIsAllIff(service: Service, payloads: seq<string>, before: nat, all: nat,
                                        sent: string, waiting: string)
    requires before <= all <= |payloads| && sent + waiting == service.Replies(payloads[..before])
    ensures sent == service.Replies(payloads[..all]) <==> waiting == "" && all == before
  {
    assert |sent| + |waiting| == |service.Replies(payloads[..before])|;
    if before < all {
      RepliesGrow(service, payloads, before, all);
    } else if waiting == "" {
      assert sent + waiting == sent;
    }
  }

  lemma {:induction false} RequestThenEnd(payload: string)
    requires Carries(payload)
    ensures ReadAll([Bytes(AddHeader(payload)), Bytes("")]) == Reading(AddHeader(payload), false, [])
  {
    var recvs := [Bytes(AddHeader(payload)), Bytes("")];
    assert recvs[1..] == [Bytes("")];
    assert ReadAll(recvs[1..]) == Reading("", false, []);
    assert AddHeader(payload) + "" == AddHeader(payload);
  }

  lemma {:induction false} OneRequest(service: Service, payload: string)
    ensures Stream([payload]) == AddHeader(payload) && service.Replies([payload][..CompleteIn([payload], 0)]) == ""
  {
    assert [payload][1..] == [] && AddHeader(payload) + "" == AddHeader(payload);
    assert service.Answers([]) == [];
  }

  /** One request and then the end of the connection, read in one go: a client that had
      sent nothing before gets nothing. */
  lemma {:induction false} LastRequestLost(w: World, service: Service, listenFd: int, p: Addr, payload: string,
                                           sends: seq<SendResult>)
    requires Valid(w, service, listenFd) && p in w.heap && w.books[p].received == "" && Carries(payload)
    ensures var w' := AfterReciver(w, p, service, ReadAll([Bytes(AddHeader(payload)), Bytes("")]), sends);
            && |w'.closed| == |w.closed| + 1
            && w'.closed[|w.closed|].book.received == AddHeader(payload)
            && w'.closed[|w.closed|].book.sent == w'.closed[|w.closed|].conn.outbuffer == ""
  {
    RequestThenEnd(payload);
    OneRequest(service, payload);
    assert "" + AddHeader(payload) == AddHeader(payload);
    ClosedWhileReading(w, service, listenFd, p, [payload], Reading(AddHeader(payload), false, []), sends);
  }

  /** The bytes of one request are read and answered, the answer cannot be written, and
      then the client closes its side: the answer is thrown away with the connection. */
  lemma {:induction false} HalfCloseLost(w: World, service: Service, listenFd: int, p: Addr, payload: string,
                                         sends: seq<SendResult>)
    requires Valid(w, service, listenFd) && p in w.heap && w.books[p] == NEW_BOOK && !w.heap[p].listener
    requires Carries(payload)
    ensures var first := ReadAll([Bytes(AddHeader(payload)), RecvError(EAGAIN)]);
            var w1 := AfterReciver(w, p, service, first, [SendResult(0, EAGAIN)]);
            && Valid(w1, service, listenFd) && p in w1.heap && p in w1.books
            && var w2 := AfterReciver(w1, p, service, ReadAll([Bytes("")]), sends);
            && |w2.closed| == |w1.closed| + 1
            && w2.closed[|w1.closed|].book.received == AddHeader(payload)
            && w2.closed[|w1.closed|].book.sent == ""
            && w2.closed[|w1.closed|].conn.outbuffer == AddHeader(service.Answer(payload))
  {
    RequestThenPause(payload);
    FreshIsEmpty(w, service, listenFd, p);
    assert "" + AddHeader(payload) == AddHeader(payload);
    OneRequestDrains(service, payload);
    ReciverKeeps(w, service, listenFd, p, Reading(AddHeader(payload), true, []), [SendResult(0, EAGAIN)]);
    RefusedAnswer(w, service, p, payload);
    assert ReadAll([Bytes("")]) == Reading("", false, []);
    assert AddHeader(payload) + "" == AddHeader(payload);
  }

  lemma {:induction false} RequestThenPause(payload: string)
    requires Carries(payload)
    ensures ReadAll([Bytes(AddHeader(payload)), RecvError(EAGAIN)]) == Reading(AddHeader(payload), true, [])
  {
    var recvs := [Bytes(AddHeader(payload)), RecvError(EAGAIN)];
    assert recvs[1..] == [RecvError(EAGAIN)];
    assert ReadAll(recvs[1..]) == Reading("", true, []);
    assert AddHeader(payload) + "" == AddHeader(payload);
  }

  /** A client that has sent nothing has nothing in its buffers. */
  lemma {:induction false} FreshIsEmpty(w: World, service: Service, listenFd: int, p: Addr)
    requires Valid(w, service, listenFd) && p in w.heap && w.books[p] == NEW_BOOK
    ensures w.heap[p].inbuffer == w.heap[p].outbuffer == ""
  {
    assert Kept(service, w.heap[p], w.books[p]) && Open(Seal);
    assert service.Answers([]) == [];
  }

  lemma {:induction false} OneRequestDrains(service: Service, payload: string)
    requires Carries(payload)
    ensures var d := Drain(AddHeader(payload));
            d.stop == Starved && service.Replies(Payloads(d.frames)) == AddHeader(service.Answer(payload))
  {
    OneRequest(service, payload);
    WholeStream([payload]);
    DrainOfPrefix([payload], AddHeader(payload));
    assert [payload][..1] == [payload];
    PayloadsOfFrames([payload]);
    assert [] + [payload] == [payload] && service.Answers([]) == [];
    RepliesSnoc(service, [], payload);
    assert "" + AddHeader(service.Answer(payload)) == AddHeader(service.Answer(payload));
  }

  lemma {:induction false} OfferRefused(out: string)
    requires out != ""
    ensures WriteAll(out, [SendResult(0, EAGAIN)]) == Writing("", out, WouldBlock, [])
  {
    assert [SendResult(0, EAGAIN)][1..] == [];
  }

  /** Reading one request on a fresh connection whose kernel buffer is full. */
  lemma {:induction false} RefusedAnswer(w: World, service: Service, p: Addr, payload: string)
    requires p in w.heap && p in w.books && w.books[p] == NEW_BOOK && Carries(payload)
    requires w.heap[p].inbuffer == w.heap[p].outbuffer == ""
    ensures var w' := AfterReciver(w, p, service, Reading(AddHeader(payload), true, []), [SendResult(0, EAGAIN)]);
            && p in w'.heap && p in w'.books && w'.closed == w.closed
            && w'.books[p].received == AddHeader(payload) && w'.books[p].sent == ""
            && w'.heap[p].outbuffer == AddHeader(service.Answer(payload))
  {
    OneRequestDrains(service, payload);
    OfferRefused(AddHeader(service.Answer(payload)));
    EmptyFirst(AddHeader(payload));
    EmptyFirst(AddHeader(service.Answer(payload)));
  }

  lemma {:induction false} EmptyFirst(s: string)
    ensures "" + s == s && s + "" == s
  {
  }

  /** A client closed because writing failed had been owed the answers to everything
      complete in what it sent, and if anything was waiting it has not got all of them. */
  lemma {:induction false} ClosedWhileWriting(w: World, service: Service, listenFd: int, p: Addr, payloads: seq<string>,
                                              sends: seq<SendResult>)
    requires Valid(w, service, listenFd) && p in w.heap
    requires forall i :: 0 <= i < |payloads| ==> Carries(payloads[i])
    requires w.books[p].received <= Stream(payloads)
    requires WriteAll(w.heap[p].outbuffer, sends).end == Broken
    ensures var w' := AfterSender(w, p, WriteAll(w.heap[p].outbuffer, sends));
            && w'.closed == w.closed + [LastClosed(w')]
            && LastClosed(w').book.received == w.books[p].received
            && LastClosed(w').book.sent + LastClosed(w').conn.outbuffer
               == service.Replies(payloads[..CompleteIn(payloads, |w.books[p].received|)])
            && (w.heap[p].outbuffer != "" ==> LastClosed(w').conn.outbuffer != "")
  {
    EndToEnd(w, service, listenFd, p, payloads);
    var wr := WriteAll(w.heap[p].outbuffer, sends);
    Associate(w.books[p].sent, wr.sent, wr.left);
    if w.heap[p].outbuffer != "" {
      WritingStops(w.heap[p].outbuffer, sends);
    }
  }

  /** The table, the kernel's interest set and the open sockets have the same
      descriptors, the live objects are exactly those in the table, and two descriptors
      never share one. What has passed through a socket since it was accepted is what the
      connection in its entry has received and sent. */
  lemma {:induction false} RegistryAgrees(w: World, service: Service, listenFd: int)
    requires Valid(w, service, listenFd)
    ensures w.table.Keys == w.interest.Keys == w.sockets == w.logs.Keys
    ensures w.table.Values == w.heap.Keys
    ensures forall f, g :: f in w.table && g in w.table && w.table[f] == w.table[g] ==> f == g
    ensures forall f :: f in w.table ==> w.heap[w.table[f]].events == w.interest[f]
    ensures forall f :: f in w.table ==>
              w.logs[f] == Log(w.books[w.table[f]].received, w.books[w.table[f]].sent)
  {
    assert forall f :: (f in w.table.Keys <==> f in w.interest.Keys) && (f in w.table.Keys <==> f in w.sockets);
    assert forall f :: f in w.table.Keys <==> f in w.logs.Keys;
    forall p | p in w.heap ensures p in w.table.Values {
      assert w.table[w.heap[p].fd] == p;
    }
    forall f | f in w.table ensures w.table[f] in w.heap && w.heap[w.table[f]].fd == f {
      assert Entry(w.heap[w.table[f]], f, w.interest[f], listenFd);
    }
    forall f | f in w.table ensures w.logs[f] == Log(w.books[w.table[f]].received, w.books[w.table[f]].sent) {
      assert Tracked(w, w.table[f]);
    }
  }

  /** No stalled output: the write event is registered exactly while bytes are waiting. */
  lemma {:induction false} NoStalledOutput(w: World, service: Service, listenFd: int, fd: int)
    requires Valid(w, service, listenFd) && fd in w.table
    ensures w.interest[fd].output <==> w.heap[w.table[fd]].outbuffer != ""
    ensures w.interest[fd].input && w.interest[fd].edge
  {
    var p := w.table[fd];
    assert Entry(w.heap[p], fd, w.interest[fd], listenFd) && AtRest(w.heap[p], w.books[p]);
  }

  // ---- how reading ends

  /** A recv that does not stop the reading: some bytes, or an interruption. */
  predicate ReadsOn(r: RecvResult) {
    (r.Bytes? && r.data != "") || r == RecvError(EINTR)
  }

  function Bytewise(recvs: seq<RecvResult>): string {
    if recvs == [] then "" else Arrived(recvs[0]) + Bytewise(recvs[1..])
  }

  /** How reading ends, recv by recv: what was read is the bytes of the results used, in
      order; every one of them but the last is some bytes or an interruption; and the
      connection stays alive exactly when the last one is EAGAIN, or the script is used up. */
  lemma {:induction false} ReadingStops(recvs: seq<RecvResult>)
    ensures EndsReading(ReadAll(recvs), recvs)
    decreases |recvs|
  {
    if recvs != [] && ReadsOn(recvs[0]) {
      ReadingStops(recvs[1..]);
      ReadsLater(ReadAll(recvs[1..]), ReadAll(recvs), recvs);
    } else if recvs != [] {
      assert recvs[..1] == [recvs[0]] && recvs[..1][1..] == [];
      assert Bytewise([]) == "";
    }
  }

  ghost predicate EndsReading(r: Reading, recvs: seq<RecvResult>) {
    && |r.rest| <= |recvs| && r.rest == recvs[|recvs| - |r.rest|..]
    && r.data == Bytewise(recvs[..|recvs| - |r.rest|])
    && (forall j :: 0 <= j < |recvs| - |r.rest| - 1 ==> ReadsOn(recvs[j]))
    && if r.alive then ReadDry(r, recvs)
       else |r.rest| < |recvs| && LastRead(r, recvs) in {Bytes(""), RecvError(OTHER)}
  }

  function LastRead(r: Reading, recvs: seq<RecvResult>): RecvResult
    requires |r.rest| < |recvs|
  {
    recvs[|recvs| - |r.rest| - 1]
  }

  /** The kernel has said that there is no more, or there is no answer left to hear. */
  ghost predicate ReadDry(r: Reading, recvs: seq<RecvResult>) {
    (|r.rest| < |recvs| && LastRead(r, recvs) == RecvError(EAGAIN))
    || (r.rest == [] && forall j :: 0 <= j < |recvs| ==> ReadsOn(recvs[j]))
  }

  lemma {:induction false} ReadsLater(r: Reading, later: Reading, recvs: seq<RecvResult>)
    requires recvs != [] && ReadsOn(recvs[0]) && EndsReading(r, recvs[1..])
    requires later == r.(data := Arrived(recvs[0]) + r.data)
    ensures EndsReading(later, recvs)
  {
    var n := |recvs| - |r.rest|;
    assert recvs[..n][0] == recvs[0] && recvs[..n][1..] == recvs[1..][..n - 1];
    forall j | 1 <= j < |recvs| ensures recvs[j] == recvs[1..][j - 1] {
    }
  }

  /** No input is left unread: a client that is alive after its reading handler has been
      read until the kernel had no more. */
  lemma {:induction false} AliveMeansReadDry(w: World, p: Addr, service: Service,
                                             recvs: seq<RecvResult>, sends: seq<SendResult>)
    requires p in w.heap && p in w.books && p in AfterReciver(w, p, service, ReadAll(recvs), sends).books
    ensures var r := ReadAll(recvs);
            && ReadDry(r, recvs)
            && AfterReciver(w, p, service, r, sends).books[p].received
               == w.books[p].received + Bytewise(recvs[..|recvs| - |r.rest|])
  {
    ReadingStops(recvs);
    AliveMeansRead(w, p, service, ReadAll(recvs), sends);
  }

  lemma {:induction false} AliveMeansRead(w: World, p: Addr, service: Service, r: Reading, sends: seq<SendResult>)
    requires p in w.heap && p in w.books && p in AfterReciver(w, p, service, r, sends).books
    ensures r.alive && AfterReciver(w, p, service, r, sends).books[p].received == w.books[p].received + r.data
  {
  }

  // ---- how accepting ends

  function Answers(answers: nat -> AcceptResult, n: nat): (a: seq<AcceptResult>)
    ensures |a| == n && forall j :: 0 <= j < n ==> a[j] == answers(j)
  {
    seq(n, j requires 0 <= j < n => answers(j))
  }

  /** Run on the first `n` answers of an endless supply, the accept loop uses them all and
      wants more. */
  ghost predicate Accepting(answers: nat -> AcceptResult, n: nat) {
    BacklogTaken(Answers(answers, n), n) && (n > 0 ==> answers(n - 1) != AcceptError(EAGAIN))
  }

  /** The accept loop ends exactly when some answer is EAGAIN: it goes on after every other
      error, also one that comes again and again. */
  lemma {:induction false} AcceptingEndsIff(answers: nat -> AcceptResult)
    ensures (exists n: nat :: !Accepting(answers, n)) <==> exists k: nat :: answers(k) == AcceptError(EAGAIN)
  {
    if k: nat :| answers(k) == AcceptError(EAGAIN) {
      assert !Accepting(answers, k + 1);
    }
  }

  /** Every client that was waiting is taken in: the table grows by one new descriptor for
      each connection accepted before the first EAGAIN, and each of them leads to a fresh
      connection. */
  lemma {:induction false} EveryoneTakenIn(s: Situation, s': Situation, n: nat, fds: seq<int>, ps: seq<Addr>)
    requires TookIn(s, s', n, fds, ps) && s.world.table.Keys == s.world.sockets
    ensures forall f :: f in s'.world.table <==> f in s.world.table || f in fds
    ensures |s'.world.table.Keys| == |s.world.table.Keys| + Arrivals(s.accepts[..n])
    ensures forall f :: f in fds ==> f !in s.world.table && Fresh(s'.world, f)
  {
    NewcomersKeys(s.world, fds, ps);
    NewcomersGrow(s.world, fds, ps);
    forall f ensures f in s'.world.table <==> f in s.world.table || f in fds {
      InSet(fds, f);
    }
    forall f | f in fds ensures f !in s.world.table && Fresh(s'.world, f) {
      var k :| 0 <= k < |fds| && fds[k] == f;
      NewcomerFresh(s.world, fds, ps, k, f);
    }
  }

  /** The descriptor leads to a connection that nothing has passed through. */
  ghost predicate Fresh(w: World, fd: int) {
    && fd in w.table && w.table[fd] in w.heap && w.table[fd] in w.books
    && w.heap[w.table[fd]] == Conn(fd, false, "", "", EPOLLIN_ET) && w.books[w.table[fd]] == NEW_BOOK
  }

  function AsSet(fds: seq<int>): set<int> {
    if fds == [] then {} else AsSet(fds[..|fds| - 1]) + {fds[|fds| - 1]}
  }

  lemma {:induction false} InSet(fds: seq<int>, f: int)
    ensures f in AsSet(fds) <==> f in fds
  {
    if fds != [] {
      var n := |fds| - 1;
      InSet(fds[..n], f);
      assert fds == fds[..n] + [fds[n]];
    }
  }

  /** The last of the newcomers, and those before it. */
  lemma {:induction false} NewcomersSnoc(w: World, fds: seq<int>, ps: seq<Addr>)
    requires Newcomers(w, fds, ps) && fds != []
    ensures var n := |fds| - 1;
            var before := AddedAll(w, fds[..n], ps[..n]);
            && Newcomers(w, fds[..n], ps[..n]) && AddedAll(w, fds, ps) == Added(before, fds[n], ps[n], false)
            && fds[n] !in before.sockets && ps[n] !in before.heap
  {
  }

  lemma {:induction false} NewcomersKeys(w: World, fds: seq<int>, ps: seq<Addr>)
    requires Newcomers(w, fds, ps) && w.table.Keys == w.sockets
    ensures var w' := AddedAll(w, fds, ps); w'.table.Keys == w'.sockets == w.table.Keys + AsSet(fds)
  {
    if fds != [] {
      var n := |fds| - 1;
      NewcomersKeys(w, fds[..n], ps[..n]);
      NewcomersSnoc(w, fds, ps);
    }
  }

  lemma {:induction false} NewcomersGrow(w: World, fds: seq<int>, ps: seq<Addr>)
    requires Newcomers(w, fds, ps) && w.table.Keys == w.sockets
    ensures |AddedAll(w, fds, ps).sockets| == |w.sockets| + |fds|
  {
    if fds != [] {
      var n := |fds| - 1;
      NewcomersGrow(w, fds[..n], ps[..n]);
      NewcomersSnoc(w, fds, ps);
    }
  }

  lemma {:induction false} NewcomerFresh(w: World, fds: seq<int>, ps: seq<Addr>, k: nat, fd: int)
    requires Newcomers(w, fds, ps) && w.table.Keys == w.sockets && k < |fds| && fds[k] == fd
    ensures fd !in w.table && Fresh(AddedAll(w, fds, ps), fd)
    decreases |fds|
  {
    var n := |fds| - 1;
    NewcomersSnoc(w, fds, ps);
    NewcomersKeys(w, fds[..n], ps[..n]);
    if k < n {
      NewcomerFresh(w, fds[..n], ps[..n], k, fd);
    }
    OneMoreFresh(AddedAll(w, fds[..n], ps[..n]), fds[n], ps[n], fd);
  }

  lemma {:induction false} OneMoreFresh(w: World, fd: int, p: Addr, other: int)
    requires w.table.Keys == w.sockets && fd !in w.sockets && p !in w.heap && (fd == other || Fresh(w, other))
    ensures Fresh(Added(w, fd, p, false), other)
  {
  }

  // ---- what a batch does

  /** The last report a batch has handled, and the batch before it. */
  lemma {:induction false} CourseLast(course: seq<Situation>, reports: seq<Report>, service: Service, listenFd: int)
    requires Course(course, reports, service, listenFd) && |course| > 1
    ensures var n := |course| - 1;
            && n <= |reports| && Course(course[..n], reports, service, listenFd)
            && Stage(course[0].world, course[n - 1], course[n], reports[n - 1], service, listenFd)
            && (n > 1 ==> !Stops(course[n - 2], reports[n - 2], listenFd))
  {
  }

  lemma {:induction false} CourseAt(course: seq<Situation>, reports: seq<Report>, k: nat, service: Service, listenFd: int)
    requires Course(course, reports, service, listenFd) && k < |course| - 1
    ensures k < |reports| && Stage(course[0].world, course[k], course[k + 1], reports[k], service, listenFd)
    decreases |course|
  {
    CourseLast(course, reports, service, listenFd);
    var n := |course| - 1;
    if k < n - 1 {
      CourseAt(course[..n], reports, k, service, listenFd);
    }
  }

  /** Every report of a batch has both its handlers run on the object it was made for, one
      report after the other. */
  lemma {:induction false} HandlersRun(course: seq<Situation>, reports: seq<Report>, k: nat, service: Service, listenFd: int)
    returns (mid: Situation)
    requires Course(course, reports, service, listenFd) && k < |course| - 1
    ensures k < |reports| && Same(course[0].world, course[k].world, reports[k].fd)
    ensures InputHalf(course[k], mid, reports[k], service, listenFd)
    ensures OutputHalf(course[k], mid, course[k + 1], reports[k], listenFd)
  {
    CourseAt(course, reports, k, service, listenFd);
    mid :| HandledBy(course[0].world, course[k], mid, course[k + 1], reports[k], service, listenFd);
    assert Open(Seal);
  }

  /** The client on `fd` in `w` has sent `received` by `w'`: it is still there, if `alive`
      says so, or was closed in between. */
  ghost predicate HasSent(w: World, w': World, fd: int, received: string, alive: bool) {
    (alive && StillThere(w, w', fd, received)) || ClosedWith(w, w', fd, received)
  }

  ghost predicate StillThere(w: World, w': World, fd: int, received: string) {
    && fd in w.table && fd in w'.table && w'.table[fd] == w.table[fd]
    && w.table[fd] in w'.books && w'.books[w.table[fd]].received == received
  }

  ghost predicate ClosedWith(w: World, w': World, fd: int, received: string) {
    exists j :: |w.closed| <= j < |w'.closed| && w'.closed[j].conn.fd == fd && w'.closed[j].book.received == received
  }

  lemma {:induction false} InputReads(s: Situation, p: Addr, service: Service, listenFd: int)
    requires Valid(s.world, service, listenFd) && p in s.world.heap
    ensures var w, r, w', fd := s.world, ReadAll(s.recvs), AfterInput(s, p, service).world, s.world.heap[p].fd;
            && w.closed <= w'.closed
            && (fd in w'.table ==> w'.table[fd] == p && p in w'.books && p in w'.heap && w'.heap[p].fd == fd && r.alive
                                   && w'.books[p].received == w.books[p].received + r.data)
            && (fd !in w'.table ==> ClosedWith(w, w', fd, w.books[p].received + r.data))
  {
    var w' := AfterInput(s, p, service).world;
    assert s.world.table[s.world.heap[p].fd] == p;
    if s.world.heap[p].fd !in w'.table {
      assert w'.closed[|s.world.closed|].book.received == s.world.books[p].received + ReadAll(s.recvs).data;
    }
  }

  lemma {:induction false} OutputKeepsSent(w: World, s: Situation, p: Addr, fd: int, received: string)
    requires fd in w.table && w.table[fd] == p && p in s.world.heap && p in s.world.books && s.world.heap[p].fd == fd
    requires |w.closed| <= |s.world.closed| && s.world.books[p].received == received
    requires fd in s.world.table && s.world.table[fd] == p
    ensures HasSent(w, AfterOutput(s, p).world, fd, received, true)
  {
    var w' := AfterOutput(s, p).world;
    if fd !in w'.table {
      assert w'.closed[|s.world.closed|].book.received == received;
    }
  }

  predicate ToRead(r: Report) {
    r.events.input || r.events.error || r.events.hangup
  }

  /** What the two halves of a report do to the history of a client that is read. */
  lemma {:induction false} HalvesRead(w: World, s: Situation, mid: Situation, s': Situation, r: Report, p: Addr,
                                      service: Service, listenFd: int)
    requires Valid(s.world, service, listenFd) && p in s.world.heap && s.world.heap[p].fd == r.fd
    requires r.fd in w.table && w.table[r.fd] == p && p in w.books && p in s.world.books && s.world.books[p] == w.books[p]
    requires |w.closed| <= |s.world.closed|
    requires mid == AfterInput(s, p, service) && OutputHalf(s, mid, s', r, listenFd)
    requires s.world.table[r.fd] == p
    ensures HasSent(w, s'.world, r.fd, w.books[p].received + ReadAll(s.recvs).data, ReadAll(s.recvs).alive)
  {
    InputReads(s, p, service, listenFd);
    if r.fd in mid.world.table && s' != mid {
      OutputKeepsSent(w, mid, p, r.fd, w.books[p].received + ReadAll(s.recvs).data);
    }
  }

  /** What reading one report has done. */
  lemma {:induction false} ReportReads(w: World, s: Situation, s': Situation, r: Report, service: Service, listenFd: int)
    requires Stage(w, s, s', r, service, listenFd) && |w.closed| <= |s.world.closed| && r.fd != listenFd
    requires r.events.input || r.events.error || r.events.hangup
    ensures r.fd in w.table && w.table[r.fd] in w.books
    ensures HasSent(w, s'.world, r.fd, w.books[w.table[r.fd]].received + ReadAll(s.recvs).data, ReadAll(s.recvs).alive)
  {
    var mid :| HandledBy(w, s, mid, s', r, service, listenFd);
    assert Open(Seal);
    HalvesRead(w, s, mid, s', r, w.table[r.fd], service, listenFd);
  }

  lemma {:induction false} CourseCloses(course: seq<Situation>, reports: seq<Report>, service: Service, listenFd: int)
    requires Course(course, reports, service, listenFd)
    ensures |course[0].world.closed| <= |course[|course| - 1].world.closed|
    decreases |course|
  {
    if |course| > 1 {
      var n := |course| - 1;
      CourseLast(course, reports, service, listenFd);
      CourseCloses(course[..n], reports, service, listenFd);
      StageLeaves(course[0].world, course[n - 1], course[n], reports[n - 1], service, listenFd);
      assert Open(Seal);
    }
  }

  lemma {:induction false} StageLeaves(w: World, s: Situation, s': Situation, r: Report, service: Service, listenFd: int)
    requires Stage(w, s, s', r, service, listenFd)
    ensures Moved(s.world, s'.world) && Elsewhere(s.world, s'.world, r.fd)
  {
    var mid :| HandledBy(w, s, mid, s', r, service, listenFd);
    assert Open(Seal);
  }

  lemma {:induction false} SentStays(w: World, a: World, b: World, fd: int, other: int, received: string, alive: bool)
    requires HasSent(w, a, fd, received, alive) && fd != other && Elsewhere(a, b, other) && Moved(a, b)
    ensures HasSent(w, b, fd, received, alive)
  {
    assert Open(Seal);
    if ClosedWith(w, a, fd, received) {
      var j :| |w.closed| <= j < |a.closed| && a.closed[j].conn.fd == fd && a.closed[j].book.received == received;
      assert b.closed[j] == a.closed[j];
    } else {
      assert Same(a, b, fd);
    }
  }

  lemma {:induction false} CourseReads(course: seq<Situation>, reports: seq<Report>, i: nat, service: Service, listenFd: int)
    requires Course(course, reports, service, listenFd) && i < |course| - 1
    requires forall j, k :: 0 <= j < k < |reports| ==> reports[j].fd != reports[k].fd
    requires reports[i].fd != listenFd && ToRead(reports[i])
    ensures var w, fd, r := course[0].world, reports[i].fd, ReadAll(course[i].recvs);
            && fd in w.table && w.table[fd] in w.books
            && HasSent(w, course[|course| - 1].world, fd, w.books[w.table[fd]].received + r.data, r.alive)
    decreases |course|
  {
    CourseLast(course, reports, service, listenFd);
    var n := |course| - 1;
    var w, fd, r := course[0].world, reports[i].fd, ReadAll(course[i].recvs);
    if i == n - 1 {
      CourseCloses(course[..n], reports, service, listenFd);
      ReportReads(w, course[i], course[n], reports[i], service, listenFd);
    } else {
      CourseReads(course[..n], reports, i, service, listenFd);
      StageLeaves(w, course[n - 1], course[n], reports[n - 1], service, listenFd);
      SentStays(w, course[n - 1].world, course[n].world, fd, reports[n - 1].fd,
                w.books[w.table[fd]].received + r.data, r.alive);
    }
  }

  /** The client on `fd` has been read in full: the bytes of the results used, in order, are
      added to its history, and the kernel had no more for it, unless it was closed. */
  ghost predicate ReadInFull(w: World, w': World, fd: int, recvs: seq<RecvResult>) {
    && fd in w.table && w.table[fd] in w.books
    && exists r :: EndsReading(r, recvs)
                   && (r.alive ==> ReadDry(r, recvs))
                   && HasSent(w, w', fd, w.books[w.table[fd]].received + r.data, r.alive)
  }

  /** After a batch every client that was reported readable, in error or hung up has been
      read in full, in spite of all the other reports. */
  lemma {:induction false} BatchReads(course: seq<Situation>, reports: seq<Report>, i: nat, service: Service, listenFd: int)
    requires Course(course, reports, service, listenFd) && i < |course| - 1
    requires Reportable(reports, course[0].world.interest, listenFd)
    requires reports[i].fd != listenFd && (reports[i].events.input || reports[i].events.error || reports[i].events.hangup)
    ensures ReadInFull(course[0].world, course[|course| - 1].world, reports[i].fd, course[i].recvs)
  {
    CourseReads(course, reports, i, service, listenFd);
    ReadingStops(course[i].recvs);
  }

  /** A report of the listening socket tells of nothing but input. */
  lemma {:induction false} ListenerReport(w: World, r: Report, service: Service, listenFd: int)
    requires Valid(w, service, listenFd) && r.fd == listenFd && r.fd in w.interest
    requires r.events == Visible(r.events, w.interest[r.fd], true)
    ensures !r.events.output && !r.events.error && !r.events.hangup
  {
    QuietListener(w, service, listenFd);
  }

  lemma {:induction false} StageAccepts(w: World, s: Situation, s': Situation, r: Report, service: Service, listenFd: int)
    returns (n: nat, fds: seq<int>, ps: seq<Addr>)
    requires Stage(w, s, s', r, service, listenFd) && r.fd == listenFd
    requires r.events.input && !r.events.output && !r.events.error && !r.events.hangup
    ensures TookIn(s, s', n, fds, ps) && s.world.table.Keys == s.world.sockets
  {
    var mid :| HandledBy(w, s, mid, s', r, service, listenFd);
    assert Open(Seal);
    n, fds, ps :| TookIn(s, mid, n, fds, ps);
    assert mid == s';
    RegistryAgrees(s.world, service, listenFd);
  }

  lemma {:induction false} FirstIsValid(course: seq<Situation>, reports: seq<Report>, service: Service, listenFd: int)
    requires Course(course, reports, service, listenFd) && |course| > 1
    ensures Valid(course[0].world, service, listenFd)
  {
    CourseAt(course, reports, 0, service, listenFd);
    var mid :| HandledBy(course[0].world, course[0], mid, course[1], reports[0], service, listenFd);
    assert Open(Seal);
  }

  /** When the listening socket is reported, everyone who is waiting comes into the table:
      it grows by one new descriptor for each connection that accept gives before its first
      EAGAIN, and each of them leads to a fresh connection. */
  lemma {:induction false} ReportAccepts(course: seq<Situation>, reports: seq<Report>, i: nat, service: Service, listenFd: int)
    returns (n: nat, fds: seq<int>)
    requires Course(course, reports, service, listenFd) && i < |course| - 1
    requires Reportable(reports, course[0].world.interest, listenFd)
    requires i < |reports| && reports[i].fd == listenFd && reports[i].events.input
    ensures var s, s' := course[i], course[i + 1];
            && BacklogTaken(s.accepts, n) && s'.accepts == s.accepts[n..]
            && (forall f :: f in s'.world.table <==> f in s.world.table || f in fds)
            && |s'.world.table.Keys| == |s.world.table.Keys| + Arrivals(s.accepts[..n])
            && forall f :: f in fds ==> f !in s.world.table && Fresh(s'.world, f)
  {
    FirstIsValid(course, reports, service, listenFd);
    ListenerReport(course[0].world, reports[i], service, listenFd);
    CourseAt(course, reports, i, service, listenFd);
    var ps;
    n, fds, ps := StageAccepts(course[0].world, course[i], course[i + 1], reports[i], service, listenFd);
    EveryoneTakenIn(course[i], course[i + 1], n, fds, ps);
  }

  // ---- runs of the dispatcher

  /** The k-th batch of a run. */
  lemma {:induction false} ChainedCourse(courses: seq<seq<Situation>>, taken: seq<seq<Report>>, proposed: seq<seq<Report>>,
                                         first: Situation, last: Situation, k: nat, service: Service, listenFd: int)
    requires Chained(courses, taken, proposed, first, last, service, listenFd) && k < |courses|
    ensures |courses| == |taken| <= |proposed| && Course(courses[k], taken[k], service, listenFd)
    ensures Awaited(proposed[k], taken[k], courses[k], listenFd)
    decreases |courses|
  {
    var n := |courses| - 1;
    if k < n {
      ChainedCourse(courses[..n], taken[..n], proposed, first, courses[n][0], k, service, listenFd);
    }
  }

  function Last(course: seq<Situation>): Situation
    requires course != []
  {
    course[|course| - 1]
  }

  /** The last batch of a run, and the run before it. */
  lemma {:induction false} ChainedLast(courses: seq<seq<Situation>>, taken: seq<seq<Report>>, proposed: seq<seq<Report>>,
                                       first: Situation, last: Situation, service: Service, listenFd: int)
    requires Chained(courses, taken, proposed, first, last, service, listenFd) && courses != []
    ensures var n := |courses| - 1;
            && |taken| == n + 1 && courses[n] != [] && Last(courses[n]) == last
            && Chained(courses[..n], taken[..n], proposed, first, courses[n][0], service, listenFd)
            && (n > 0 ==> |courses[n - 1]| == |taken[n - 1]| + 1)
  {
  }

  /** A run begins in its first situation and ends in its last. */
  lemma {:induction false} ChainedEnds(courses: seq<seq<Situation>>, taken: seq<seq<Report>>, proposed: seq<seq<Report>>,
                                       first: Situation, last: Situation, service: Service, listenFd: int)
    requires Chained(courses, taken, proposed, first, last, service, listenFd) && courses != []
    ensures courses[|courses| - 1] != [] && Last(courses[|courses| - 1]) == last
    ensures courses[0] != [] && courses[0][0] == first
    decreases |courses|
  {
    var n := |courses| - 1;
    if n > 0 {
      ChainedEnds(courses[..n], taken[..n], proposed, first, courses[n][0], service, listenFd);
    }
  }

  /** Nothing happens between two batches, and every batch but the last goes over all its
      reports. */
  lemma {:induction false} ChainedLink(courses: seq<seq<Situation>>, taken: seq<seq<Report>>, proposed: seq<seq<Report>>,
                                       first: Situation, last: Situation, k: nat, service: Service, listenFd: int)
    requires Chained(courses, taken, proposed, first, last, service, listenFd) && 0 < k < |courses| == |taken|
    ensures courses[k] != [] && courses[k - 1] != [] && courses[k][0] == Last(courses[k - 1])
    ensures |courses[k - 1]| == |taken[k - 1]| + 1
    decreases |courses|
  {
    var n := |courses| - 1;
    ChainedLast(courses, taken, proposed, first, last, service, listenFd);
    if k < n {
      ChainedLink(courses[..n], taken[..n], proposed, first, courses[n][0], k, service, listenFd);
    } else {
      ChainedLast(courses[..n], taken[..n], proposed, first, courses[n][0], service, listenFd);
    }
  }

  /** In every run of the dispatcher, every client reported readable, in error or hung up in
      some batch has been read in full by the end of that batch. */
  lemma {:induction false} RunReads(courses: seq<seq<Situation>>, taken: seq<seq<Report>>, proposed: seq<seq<Report>>,
                                    first: Situation, last: Situation, k: nat, i: nat, service: Service, listenFd: int)
    requires Chained(courses, taken, proposed, first, last, service, listenFd)
    requires k < |courses| == |taken| && i < |courses[k]| - 1 && i < |taken[k]|
    requires taken[k][i].fd != listenFd && ToRead(taken[k][i])
    ensures ReadInFull(courses[k][0].world, Last(courses[k]).world, taken[k][i].fd, courses[k][i].recvs)
  {
    ChainedCourse(courses, taken, proposed, first, last, k, service, listenFd);
    BatchReads(courses[k], taken[k], i, service, listenFd);
  }

  // ---- reading starts the writing

  /** What a client is owed after its reading handler is offered to the kernel at once: bytes
      are left only when the last offer was refused with EAGAIN or the script is used up. */
  lemma {:induction false} ReadTriesToWrite(s: Situation, p: Addr, service: Service)
    requires p in s.world.heap && p in s.world.books && !Throws(s, p)
    ensures var w' := AfterInput(s, p, service).world;
            p in w'.heap && p in w'.books && w'.heap[p].outbuffer != "" ==>
              var out := Offer(s, p, service);
              var wr := WriteAll(out, s.sends);
              && w'.books[p].sent + w'.heap[p].outbuffer == s.world.books[p].sent + out
              && wr.left == w'.heap[p].outbuffer
              && (Refused(wr, s.sends, EAGAIN) || UsedUp(wr, s.sends))
  {
    var out := Offer(s, p, service);
    if out != "" {
      WritingStops(out, s.sends);
      var wr := WriteAll(out, s.sends);
      Associate(s.world.books[p].sent, wr.sent, wr.left);
    }
  }

  // ---- how writing ends

  /** The offers of a script that do not stop the writing: something is taken, or the call
      is interrupted. */
  predicate GoesOn(s: SendResult) {
    s.limit > 0 || s.errno == EINTR
  }

  /** How writing ends, offer by offer: every offer but the last one used takes something
      or is interrupted. The last one takes the rest, or takes nothing and is answered
      EAGAIN or another error; or the script is used up, with bytes still left. */
  lemma {:induction false} WritingStops(out: string, sends: seq<SendResult>)
    requires out != ""
    ensures EndsWriting(WriteAll(out, sends), sends)
    decreases |sends|
  {
    if sends != [] {
      var n := Taken(sends[0], out);
      if 0 < n < |out| {
        WritingStops(out[n..], sends[1..]);
        WritesLater(WriteAll(out[n..], sends[1..]), WriteAll(out, sends), sends);
      } else if n == 0 && sends[0].errno == EINTR {
        WritingStops(out, sends[1..]);
        WritesLater(WriteAll(out, sends[1..]), WriteAll(out, sends), sends);
      }
    }
  }

  ghost predicate EndsWriting(w: Writing, sends: seq<SendResult>) {
    && |w.rest| <= |sends| && w.rest == sends[|sends| - |w.rest|..]
    && (forall j :: 0 <= j < |sends| - |w.rest| - 1 ==> GoesOn(sends[j]))
    && match w.end
       case Emptied => w.left == "" && |w.rest| < |sends| && LastUsed(w, sends).limit > 0
       case WouldBlock => w.left != "" && (Refused(w, sends, EAGAIN) || UsedUp(w, sends))
       case Broken => w.left != "" && Refused(w, sends, OTHER)
  }

  function LastUsed(w: Writing, sends: seq<SendResult>): SendResult
    requires |w.rest| < |sends|
  {
    sends[|sends| - |w.rest| - 1]
  }

  /** The last offer took nothing, and this is why. */
  ghost predicate Refused(w: Writing, sends: seq<SendResult>, errno: Errno) {
    |w.rest| < |sends| && LastUsed(w, sends) == SendResult(0, errno)
  }

  ghost predicate UsedUp(w: Writing, sends: seq<SendResult>) {
    w.rest == [] && forall j :: 0 <= j < |sends| ==> GoesOn(sends[j])
  }

  lemma {:induction false} WritesLater(w: Writing, later: Writing, sends: seq<SendResult>)
    requires sends != [] && GoesOn(sends[0]) && EndsWriting(w, sends[1..])
    requires later.rest == w.rest && later.end == w.end && later.left == w.left
    ensures EndsWriting(later, sends)
  {
    forall j | 1 <= j < |sends| ensures sends[j] == sends[1..][j - 1] {
    }
  }

  /** With nothing to write, which only an error or a hang-up can cause, the first answer
      that is no interruption decides, and no byte moves. */
  lemma {:induction false} WritingNothing(sends: seq<SendResult>)
    ensures var w := WriteAll("", sends);
            && w.sent == w.left == "" && w.end != Emptied
            && (w.end == Broken ==> |w.rest| < |sends| && LastUsed(w, sends).errno == OTHER)
    decreases |sends|
  {
    if sends != [] && sends[0].errno == EINTR {
      WritingNothing(sends[1..]);
    }
  }

  /** Output left on a live connection means that the last offer took nothing and was
      answered EAGAIN, or that no answer has come yet to the bytes still offered. */
  lemma {:induction false} PendingMeansRefused(w: World, p: Addr, sends: seq<SendResult>)
    requires p in w.heap && p in w.books && w.heap[p].outbuffer != ""
    ensures var wr := WriteAll(w.heap[p].outbuffer, sends);
            var w' := AfterSender(w, p, wr);
            && (p in w'.heap <==> wr.end != Broken)
            && (p in w'.heap && w'.heap[p].outbuffer != "" ==> Refused(wr, sends, EAGAIN) || UsedUp(wr, sends))
            && (p !in w'.heap ==> Refused(wr, sends, OTHER))
  {
    WritingStops(w.heap[p].outbuffer, sends);
  }
}
