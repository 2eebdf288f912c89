/** The edge-triggered epoll server: a table of connections, the kernel's interest
    masks, and handlers that read, answer, write and close. The results of recv, send,
    accept and epoll_wait come from scripts that every theorem quantifies over. */
module Reactor {
  import opened Text
  import opened Framing
  import opened Protocol

  /** A set of epoll flags. */
  datatype Mask = Mask(input: bool, output: bool, error: bool, hangup: bool, edge: bool)

  const EPOLLIN_ET := Mask(true, false, false, false, true)

  datatype Errno = EAGAIN | EINTR | OTHER

  /** What recv gives: some bytes (none when the peer has closed) or an error. */
  datatype RecvResult = Bytes(data: string) | RecvError(errno: Errno)

  /** What send gives: how many bytes the kernel takes at most, and the errno the
      caller finds when it took none. */
  datatype SendResult = SendResult(limit: nat, errno: Errno)

  /** What accept gives: a descriptor (the first free one from `pick` on) or an error. */
  datatype AcceptResult = Accepted(pick: nat) | AcceptError(errno: Errno)

  datatype Report = Report(fd: int, events: Mask)

  // ------------------------------------------------------------------ kernel

  /** What has passed through an open socket: all bytes recv gave and all that send took. */
  datatype Log = Log(received: string, sent: string)

  const NEW_LOG := Log("", "")

  class Kernel {
    var interest: map<int, Mask>     // what epoll_ctl has registered
    var sockets: set<int>            // the server's open sockets
    var logs: map<int, Log>          // what has passed through each of them
    const others: set<int>           // the other open descriptors
    var recvs: seq<RecvResult>
    var sends: seq<SendResult>
    var accepts: seq<AcceptResult>

    constructor (listenFd: int, others: set<int>,
                 recvs: seq<RecvResult>, sends: seq<SendResult>, accepts: seq<AcceptResult>)
      ensures interest == map[] && sockets == {listenFd} && logs == map[listenFd := NEW_LOG] && this.others == others
      ensures this.recvs == recvs && this.sends == sends && this.accepts == accepts
    {
      this.interest, this.sockets, this.others := map[], {listenFd}, others;
      this.logs := map[listenFd := NEW_LOG];
      this.recvs, this.sends, this.accepts := recvs, sends, accepts;
    }

    method Recv(fd: int) returns (r: RecvResult)
      requires fd in logs
      modifies this`recvs, this`logs
      ensures old(recvs) == [] ==> r == RecvError(EAGAIN) && recvs == []
      ensures old(recvs) != [] ==> r == old(recvs)[0] && recvs == old(recvs)[1..]
      ensures logs == if !r.Bytes? then old(logs)
                      else old(logs)[fd := Log(old(logs)[fd].received + r.data, old(logs)[fd].sent)]
    {
      if recvs == [] {
        r := RecvError(EAGAIN);
      } else {
        r, recvs := recvs[0], recvs[1..];
      }
      if r.Bytes? {
        logs := logs[fd := Log(logs[fd].received + r.data, logs[fd].sent)];
      }
    }

    method Send(fd: int, bytes: string) returns (n: nat, errno: Errno)
      requires fd in logs
      modifies this`sends, this`logs
      ensures n <= |bytes| && logs == old(logs)[fd := Log(old(logs)[fd].received, old(logs)[fd].sent + bytes[..n])]
      ensures old(sends) == [] ==> n == 0 && errno == EAGAIN && sends == []
      ensures old(sends) != [] ==> n == Taken(old(sends)[0], bytes) && errno == old(sends)[0].errno
                                   && sends == old(sends)[1..]
    {
      if sends == [] {
        n, errno := 0, EAGAIN;
      } else {
        n, errno := Taken(sends[0], bytes), sends[0].errno;
        sends := sends[1..];
      }
      logs := logs[fd := Log(logs[fd].received, logs[fd].sent + bytes[..n])];
    }

    method Accept() returns (fd: int, errno: Errno)
      modifies this`accepts, this`sockets, this`logs
      ensures old(accepts) == [] ==> fd < 0 && errno == EAGAIN && accepts == []
      ensures old(accepts) != [] ==> accepts == old(accepts)[1..]
      ensures old(accepts) != [] && old(accepts)[0].AcceptError? ==> fd < 0 && errno == old(accepts)[0].errno
      ensures old(accepts) != [] && old(accepts)[0].Accepted? ==> fd >= 0 && fd !in old(sockets) && fd !in others
      ensures sockets == if fd < 0 then old(sockets) else old(sockets) + {fd}
      ensures logs == if fd < 0 then old(logs) else old(logs)[fd := NEW_LOG]
    {
      if accepts == [] {
        fd, errno := -1, EAGAIN;
        return;
      }
      var r := accepts[0];
      accepts := accepts[1..];
      match r
      case AcceptError(e) => fd, errno := -1, e;
      case Accepted(pick) =>
        fd, errno := pick, OTHER;
        ghost var taken := set f | f in sockets + others && f >= fd;
        while fd in sockets || fd in others
          invariant fd >= 0
          invariant taken == set f | f in sockets + others && f >= fd
          decreases taken
        {
          taken := taken - {fd};
          fd := fd + 1;
        }
        sockets, logs := sockets + {fd}, logs[fd := NEW_LOG];
    }

    method CtlAdd(fd: int, mask: Mask) returns (ok: bool)
      modifies this`interest
      ensures ok == (fd !in old(interest) && fd in sockets)
      ensures interest == if ok then old(interest)[fd := mask] else old(interest)
    {
      ok := fd !in interest && fd in sockets;
      if ok { interest := interest[fd := mask]; }
    }

    method CtlMod(fd: int, mask: Mask) returns (ok: bool)
      modifies this`interest
      ensures ok == (fd in old(interest))
      ensures interest == if ok then old(interest)[fd := mask] else old(interest)
    {
      ok := fd in interest;
      if ok { interest := interest[fd := mask]; }
    }

    method CtlDel(fd: int) returns (ok: bool)
      modifies this`interest
      ensures ok == (fd in old(interest))
      ensures interest == old(interest) - {fd}
    {
      ok := fd in interest;
      interest := interest - {fd};
    }

    method Close(fd: int)
      modifies this`sockets, this`logs
      ensures sockets == old(sockets) - {fd} && logs == old(logs) - {fd}
    {
      sockets, logs := sockets - {fd}, logs - {fd};
    }

    /** epoll_wait: of a proposed list, the events it can report. */
    method Wait(proposed: seq<Report>, listenFd: int) returns (reports: seq<Report>)
      ensures Reportable(reports, interest, listenFd)
      ensures Reportable(proposed, interest, listenFd) ==> reports == proposed
    {
      reports := [];
      for i := 0 to |proposed|
        invariant Reportable(reports, interest, listenFd)
        invariant forall k :: 0 <= k < |reports| ==> exists j :: 0 <= j < i && proposed[j].fd == reports[k].fd
        invariant Reportable(proposed, interest, listenFd) ==> reports == proposed[..i]
      {
        var r := proposed[i];
        if r.fd in interest && forall k :: 0 <= k < |reports| ==> reports[k].fd != r.fd {
          reports := reports + [Report(r.fd, Visible(r.events, interest[r.fd], r.fd == listenFd))];
        }
      }
    }
  }

  /** The flags epoll_wait can report on a descriptor registered with `mask`: those in
      the mask, and an error or a hang-up on anything but the listening socket. */
  function Visible(flags: Mask, mask: Mask, listening: bool): Mask {
    Mask(flags.input && mask.input, flags.output && mask.output,
         flags.error && !listening, flags.hangup && !listening, false)
  }

  /** One batch of epoll_wait: at most one report for each registered descriptor. */
  predicate Reportable(reports: seq<Report>, interest: map<int, Mask>, listenFd: int) {
    && (forall i, j :: 0 <= i < j < |reports| ==> reports[i].fd != reports[j].fd)
    && (forall i :: 0 <= i < |reports| ==>
          && reports[i].fd in interest
          && reports[i].events == Visible(reports[i].events, interest[reports[i].fd], reports[i].fd == listenFd))
  }

  /** What can be reported on a descriptor: input and output only as far as its mask asks for
      them, errors and hang-ups always, but none of them on the listening socket. */
  lemma {:induction false} VisibleIff(flags: Mask, mask: Mask, listening: bool)
    ensures flags == Visible(flags, mask, listening) <==>
              && (flags.input ==> mask.input) && (flags.output ==> mask.output)
              && (flags.error || flags.hangup ==> !listening) && !flags.edge
  {
  }

  function Taken(s: SendResult, bytes: string): nat {
    if s.limit <= |bytes| then s.limit else |bytes|
  }

  // --------------------------------------------- what one handler run amounts to

  /** The bytes a recv has put into the buffer. */
  function Arrived(r: RecvResult): string {
    if r.Bytes? then r.data else ""
  }

  datatype Reading = Reading(data: string, alive: bool, rest: seq<RecvResult>)

  /** All the bytes up to the first EAGAIN, closing of the peer, or other error. */
  function ReadAll(recvs: seq<RecvResult>): Reading {
    if recvs == [] then Reading("", true, [])
    else
      match recvs[0]
      case Bytes(data) =>
        if data == "" then Reading("", false, recvs[1..])
        else
          var r := ReadAll(recvs[1..]);
          r.(data := data + r.data)
      case RecvError(EAGAIN) => Reading("", true, recvs[1..])
      case RecvError(EINTR) => ReadAll(recvs[1..])
      case RecvError(OTHER) => Reading("", false, recvs[1..])
  }

  datatype WriteEnd = Emptied | WouldBlock | Broken

  datatype Writing = Writing(sent: string, left: string, end: WriteEnd, rest: seq<SendResult>)

  /** Offer the buffer until it is empty, the kernel is full, or the peer is lost. */
  function WriteAll(out: string, sends: seq<SendResult>): (w: Writing)
    ensures w.sent + w.left == out
    ensures w.left != "" ==> w.end != Emptied
    decreases |sends|
  {
    if sends == [] then Writing("", out, WouldBlock, [])
    else
      var n := Taken(sends[0], out);
      if n > 0 then
        if n == |out| then Writing(out, "", Emptied, sends[1..])
        else
          var w := WriteAll(out[n..], sends[1..]);
          assert out == out[..n] + out[n..];
          w.(sent := out[..n] + w.sent)
      else
        match sends[0].errno
        case EAGAIN => Writing("", out, WouldBlock, sends[1..])
        case EINTR => WriteAll(out, sends[1..])
        case OTHER => Writing("", out, Broken, sends[1..])
  }

  /** The loop has read `data`; `r0` is what it will amount to. */
  ghost predicate ToRead(r0: Reading, data: string, recvs: seq<RecvResult>) {
    var r := ReadAll(recvs);
    r0 == r.(data := data + r.data)
  }

  lemma {:induction false} ToReadStep(r0: Reading, data: string, recvs: seq<RecvResult>)
    requires ToRead(r0, data, recvs)
    ensures recvs == [] ==> r0 == Reading(data, true, [])
    ensures recvs != [] ==>
              match recvs[0]
              case Bytes(bytes) =>
                if bytes == "" then r0 == Reading(data, false, recvs[1..])
                else ToRead(r0, data + bytes, recvs[1..])
              case RecvError(EAGAIN) => r0 == Reading(data, true, recvs[1..])
              case RecvError(EINTR) => ToRead(r0, data, recvs[1..])
              case RecvError(OTHER) => r0 == Reading(data, false, recvs[1..])
  {
  }

  /** The loop has written `done` and holds `out`; `w0` is what it will amount to. */
  ghost predicate ToWrite(w0: Writing, done: string, out: string, sends: seq<SendResult>) {
    var w := WriteAll(out, sends);
    w0 == w.(sent := done + w.sent)
  }

  lemma {:induction false} ToWriteStep(w0: Writing, done: string, out: string, sends: seq<SendResult>)
    requires ToWrite(w0, done, out, sends)
    ensures sends == [] ==> w0 == Writing(done + out[..0], out[0..], WouldBlock, [])
    ensures sends != [] ==>
              var n := Taken(sends[0], out);
              if n > 0 then
                if n == |out| then w0 == Writing(done + out[..n], out[n..], Emptied, sends[1..])
                else ToWrite(w0, done + out[..n], out[n..], sends[1..])
              else
                match sends[0].errno
                case EAGAIN => w0 == Writing(done + out[..0], out[0..], WouldBlock, sends[1..])
                case EINTR => ToWrite(w0, done + out[..0], out[0..], sends[1..])
                case OTHER => w0 == Writing(done + out[..0], out[0..], Broken, sends[1..])
  {
  }

  // -------------------------------------------------------------- connections

  /** A pointer to a connection. It may be followed while the heap holds it. */
  type Addr = nat

  datatype Conn = Conn(fd: int, listener: bool, inbuffer: string, outbuffer: string, events: Mask)

  /** The history of one connection: every byte recv gave, every byte send took, and
      every package cut off. */
  datatype Book = Book(received: string, sent: string, frames: seq<Frame>)

  datatype Account = Account(conn: Conn, book: Book)

  const NEW_BOOK := Book("", "", [])

  /** Everything a handler can reach: the live connection objects, the table from
      descriptors to them, what the kernel holds, the books of the live connections and
      the closed accounts. */
  datatype World = World(heap: map<Addr, Conn>, table: map<int, Addr>,
                         interest: map<int, Mask>, sockets: set<int>, logs: map<int, Log>,
                         books: map<Addr, Book>, closed: seq<Account>)

  // ---- what handlers do to a world

  function Added(w: World, fd: int, p: Addr, listener: bool): World {
    World(w.heap[p := Conn(fd, listener, "", "", EPOLLIN_ET)], w.table[fd := p],
          w.interest[fd := EPOLLIN_ET], w.sockets + {fd}, w.logs[fd := NEW_LOG], w.books[p := NEW_BOOK], w.closed)
  }

  function Removed(w: World, p: Addr): World
    requires p in w.heap && p in w.books
  {
    var fd := w.heap[p].fd;
    World(w.heap - {p}, w.table - {fd}, w.interest - {fd}, w.sockets - {fd}, w.logs - {fd}, w.books - {p},
          w.closed + [Account(w.heap[p], w.books[p])])
  }

  /** One connection and its book are rewritten, and the socket's log with the book. */
  function Put(w: World, p: Addr, c: Conn, b: Book): World {
    w.(heap := w.heap[p := c], books := w.books[p := b], logs := w.logs[c.fd := Log(b.received, b.sent)])
  }

  /** What passed through the socket of a connection is what its book says. */
  ghost predicate Tracked(w: World, p: Addr) {
    && p in w.heap && p in w.books
    && w.heap[p].fd in w.logs && w.logs[w.heap[p].fd] == Log(w.books[p].received, w.books[p].sent)
  }

  lemma {:induction false} PutSame(w: World, p: Addr)
    requires Tracked(w, p)
    ensures Put(w, p, w.heap[p], w.books[p]) == w
  {
    var w' := Put(w, p, w.heap[p], w.books[p]);
    assert w'.heap == w.heap && w'.books == w.books && w'.logs == w.logs;
  }

  lemma {:induction false} PutTwice(w: World, p: Addr, c1: Conn, b1: Book, c2: Conn, b2: Book)
    requires c1.fd == c2.fd
    ensures Put(Put(w, p, c1, b1), p, c2, b2) == Put(w, p, c2, b2)
  {
  }

  function Masked(w: World, p: Addr, mask: Mask): World
    requires p in w.heap
  {
    w.(heap := w.heap[p := w.heap[p].(events := mask)], interest := w.interest[w.heap[p].fd := mask])
  }

  function Received(w: World, p: Addr, data: string): World
    requires p in w.heap && p in w.books
  {
    var c, b := w.heap[p], w.books[p];
    Put(w, p, c.(inbuffer := c.inbuffer + data), b.(received := b.received + data))
  }

  function Handled(w: World, p: Addr, d: Drained, reply: string): World
    requires p in w.heap && p in w.books
  {
    var c, b := w.heap[p], w.books[p];
    Put(w, p, c.(inbuffer := d.rest, outbuffer := c.outbuffer + reply), b.(frames := b.frames + d.frames))
  }

  function Written(w: World, p: Addr, sent: string, left: string): World
    requires p in w.heap && p in w.books
  {
    var c, b := w.heap[p], w.books[p];
    Put(w, p, c.(outbuffer := left), b.(sent := b.sent + sent))
  }

  lemma {:induction false} WrittenNothing(w: World, p: Addr)
    requires Tracked(w, p)
    ensures Written(w, p, "", w.heap[p].outbuffer) == w
  {
    assert w.books[p].sent + "" == w.books[p].sent;
    PutSame(w, p);
  }

  lemma {:induction false} WrittenTwice(w: World, p: Addr, a: string, mid: string, b: string, left: string)
    requires p in w.heap && p in w.books
    ensures Written(Written(w, p, a, mid), p, b, left) == Written(w, p, a + b, left)
  {
    Associate(w.books[p].sent, a, b);
    var w1, w2 := Written(w, p, a, mid), Written(w, p, a + b, left);
    PutTwice(w, p, w1.heap[p], w1.books[p], w2.heap[p], w2.books[p]);
  }

  lemma {:induction false} ReceivedNothing(w: World, p: Addr)
    requires Tracked(w, p)
    ensures Received(w, p, "") == w
  {
    assert w.books[p].received + "" == w.books[p].received;
    assert w.heap[p].inbuffer + "" == w.heap[p].inbuffer;
    PutSame(w, p);
  }

  lemma {:induction false} ReceivedTwice(w: World, p: Addr, a: string, b: string)
    requires p in w.heap && p in w.books
    ensures Received(Received(w, p, a), p, b) == Received(w, p, a + b)
  {
    Associate(w.books[p].received, a, b);
    Associate(w.heap[p].inbuffer, a, b);
    var w1, w2 := Received(w, p, a), Received(w, p, a + b);
    PutTwice(w, p, w1.heap[p], w1.books[p], w2.heap[p], w2.books[p]);
  }

  lemma {:induction false} HandledNothing(w: World, p: Addr, service: Service)
    requires Tracked(w, p)
    ensures Handled(w, p, Drained([], w.heap[p].inbuffer, Starved), service.Replies(Payloads([]))) == w
  {
    assert service.Answers([]) == [];
    assert w.books[p].frames + [] == w.books[p].frames;
    assert w.heap[p].outbuffer + "" == w.heap[p].outbuffer;
    PutSame(w, p);
  }

  /** What handling does to the world does not depend on why the loop stopped. */
  lemma {:induction false} HandledAnyStop(w: World, p: Addr, d: Drained, reply: string)
    requires p in w.heap && p in w.books
    ensures Equals(Handled(w, p, Drained(d.frames, d.rest, Starved), reply), Handled(w, p, d, reply))
  {
  }

  lemma {:induction false} HandledTwice(w: World, p: Addr, service: Service,
                                        a: seq<Frame>, mid: string, b: seq<Frame>, rest: string)
    requires p in w.heap && p in w.books
    ensures var w1 := Handled(w, p, Drained(a, mid, Starved), service.Replies(Payloads(a)));
            Handled(w1, p, Drained(b, rest, Starved), service.Replies(Payloads(b)))
            == Handled(w, p, Drained(a + b, rest, Starved), service.Replies(Payloads(a + b)))
  {
    var w1 := Handled(w, p, Drained(a, mid, Starved), service.Replies(Payloads(a)));
    var w2 := Handled(w, p, Drained(a + b, rest, Starved), service.Replies(Payloads(a + b)));
    PayloadsAppend(a, b);
    RepliesAppend(service, Payloads(a), Payloads(b));
    Associate(w.heap[p].outbuffer, service.Replies(Payloads(a)), service.Replies(Payloads(b)));
    assert w.books[p].frames + a + b == w.books[p].frames + (a + b);
    PutTwice(w, p, w1.heap[p], w1.books[p], w2.heap[p], w2.books[p]);
  }

  /** The loop has cut `frames` off and holds `inbuffer`: what is left to reach `d0`. */
  ghost predicate Remaining(d0: Drained, frames: seq<Frame>, inbuffer: string, flag: bool) {
    if flag then frames == d0.frames && inbuffer == d0.rest && d0.stop != Threw
    else
      var d := Drain(inbuffer);
      d0 == Drained(frames + d.frames, d.rest, d.stop)
  }

  lemma {:induction false} RemainingStep(d0: Drained, frames: seq<Frame>, inbuffer: string)
    requires Remaining(d0, frames, inbuffer, false)
    ensures match ReadPackage(inbuffer)
            case Incomplete => Remaining(d0, frames, inbuffer, true)
            case Package(len, package, rest) =>
              var frames' := frames + [Frame(len, package)];
              if len > 0 && RemoveHeader(package, len).None? then
                d0 == Drained(frames', rest, Threw)
              else
                Remaining(d0, frames', rest, len <= 0)
  {
  }

  /** The world after Sender: closed when the peer is lost, else with the write event
      registered exactly if bytes are left. */
  function AfterSender(w: World, p: Addr, wr: Writing): World
    requires p in w.heap && p in w.books
  {
    var w' := Written(w, p, wr.sent, wr.left);
    if wr.end == Broken then Removed(w', p)
    else Masked(w', p, EPOLLIN_ET.(output := wr.left != ""))
  }

  /** The world after Reciver. */
  function AfterReciver(w: World, p: Addr, service: Service, r: Reading, sends: seq<SendResult>): World
    requires p in w.heap && p in w.books
  {
    var w1 := Received(w, p, r.data);
    if !r.alive then Removed(w1, p)
    else
      var d := Drain(w1.heap[p].inbuffer);
      var w2 := Handled(w1, p, d, service.Replies(Payloads(d.frames)));
      if d.stop == Threw || w2.heap[p].outbuffer == "" then w2
      else AfterSender(w2, p, WriteAll(w2.heap[p].outbuffer, sends))
  }

  // ---- worlds and scripts

  /** A world, and what the kernel will answer from here on. */
  datatype Situation = Situation(world: World, recvs: seq<RecvResult>, sends: seq<SendResult>, accepts: seq<AcceptResult>)

  /** What the reading handler finds makes removeHeader throw. */
  predicate Throws(s: Situation, p: Addr)
    requires p in s.world.heap
  {
    var r := ReadAll(s.recvs);
    r.alive && Drain(s.world.heap[p].inbuffer + r.data).stop == Threw
  }

  /** What the reading handler offers to send when it is done: its whole output buffer. */
  function Offer(s: Situation, p: Addr, service: Service): string
    requires p in s.world.heap
  {
    var c, r := s.world.heap[p], ReadAll(s.recvs);
    if !r.alive || Throws(s, p) then ""
    else c.outbuffer + service.Replies(Payloads(Drain(c.inbuffer + r.data).frames))
  }

  /** After the reading handler of a client. */
  function AfterInput(s: Situation, p: Addr, service: Service): Situation
    requires p in s.world.heap && p in s.world.books
  {
    var r, out := ReadAll(s.recvs), Offer(s, p, service);
    Situation(AfterReciver(s.world, p, service, r, s.sends), r.rest,
              if out == "" then s.sends else WriteAll(out, s.sends).rest, s.accepts)
  }

  /** After the writing handler of a client. */
  function AfterOutput(s: Situation, p: Addr): Situation
    requires p in s.world.heap && p in s.world.books
  {
    var wr := WriteAll(s.world.heap[p].outbuffer, s.sends);
    s.(world := AfterSender(s.world, p, wr), sends := wr.rest)
  }

  // ---- taking in new clients

  /** Accepting stops behind the first `n` answers: the last of them is the first EAGAIN,
      or there is no EAGAIN and they are all. */
  ghost predicate BacklogTaken(answers: seq<AcceptResult>, n: nat) {
    && n <= |answers|
    && (forall j :: 0 <= j < n - 1 ==> answers[j] != AcceptError(EAGAIN))
    && (n < |answers| ==> n > 0 && answers[n - 1] == AcceptError(EAGAIN))
  }

  /** How many of the answers are new connections. */
  function Arrivals(answers: seq<AcceptResult>): nat {
    if answers == [] then 0
    else Arrivals(answers[..|answers| - 1]) + (if answers[|answers| - 1].Accepted? then 1 else 0)
  }

  function AddedAll(w: World, fds: seq<int>, ps: seq<Addr>): World
    requires |fds| == |ps|
  {
    if fds == [] then w
    else
      var n := |fds| - 1;
      Added(AddedAll(w, fds[..n], ps[..n]), fds[n], ps[n], false)
  }

  /** Each of them on a descriptor and at an address that were free when it came. */
  ghost predicate Newcomers(w: World, fds: seq<int>, ps: seq<Addr>) {
    |fds| == |ps| &&
    (fds == [] ||
     var n := |fds| - 1;
     && Newcomers(w, fds[..n], ps[..n])
     && fds[n] !in AddedAll(w, fds[..n], ps[..n]).sockets && ps[n] !in AddedAll(w, fds[..n], ps[..n]).heap)
  }

  /** After the accepting handler: it has used `n` answers and added one connection for
      each that was one, on the descriptors `fds`. */
  ghost predicate TookIn(s: Situation, s': Situation, n: nat, fds: seq<int>, ps: seq<Addr>) {
    && BacklogTaken(s.accepts, n) && |fds| == Arrivals(s.accepts[..n]) && Newcomers(s.world, fds, ps)
    && s' == s.(world := AddedAll(s.world, fds, ps), accepts := s.accepts[n..])
  }

  /** Handling the report ends in the exception of removeHeader. */
  predicate Stops(s: Situation, r: Report, listenFd: int) {
    && r.fd != listenFd && (r.events.input || r.events.error || r.events.hangup)
    && r.fd in s.world.table && s.world.table[r.fd] in s.world.heap && Throws(s, s.world.table[r.fd])
  }

  /** The first half of handling a report: reading or accepting, if the report says so or
      tells of an error or a hang-up, on the object its descriptor leads to. */
  ghost predicate InputHalf(s: Situation, mid: Situation, r: Report, service: Service, listenFd: int) {
    && r.fd in s.world.table && s.world.table[r.fd] in s.world.heap && s.world.table[r.fd] in s.world.books
    && if !(r.events.input || r.events.error || r.events.hangup) then mid == s
       else if r.fd == listenFd then exists n, fds, ps :: TookIn(s, mid, n, fds, ps)
       else mid == AfterInput(s, s.world.table[r.fd], service)
  }

  /** The second half: writing, if the report says so or tells of an error or a hang-up and
      the connection is still there, on the same object. */
  ghost predicate OutputHalf(s: Situation, mid: Situation, s': Situation, r: Report, listenFd: int) {
    && r.fd in s.world.table
    && var p := s.world.table[r.fd];
       if (r.events.output || r.events.error || r.events.hangup) && r.fd in mid.world.table && !Stops(s, r, listenFd) then
         p in mid.world.heap && p in mid.world.books && s' == AfterOutput(mid, p)
       else s' == mid
  }

  // ---- the invariant

  /** A table entry agrees with its key and with the mask the kernel holds for it. */
  ghost predicate Entry(c: Conn, fd: int, mask: Mask, listenFd: int) {
    && c.fd == fd && c.listener == (fd == listenFd)
    && c.events == mask && mask == EPOLLIN_ET.(output := mask.output)
  }

  /** Table, interest set, open sockets and live objects coincide, entry by entry. */
  ghost predicate Registry(w: World, listenFd: int) {
    && (forall fd :: fd in w.table <==> fd in w.interest)
    && (forall fd :: fd in w.table <==> fd in w.sockets)
    && (forall fd :: fd in w.table <==> fd in w.logs)
    && listenFd in w.table
    && Entries(w, listenFd)
  }

  ghost predicate Entries(w: World, listenFd: int) {
    && (forall fd :: fd in w.table ==>
          && fd in w.interest && w.table[fd] in w.heap
          && Entry(w.heap[w.table[fd]], fd, w.interest[fd], listenFd))
    && (forall p :: p in w.heap ==> w.heap[p].fd in w.table && w.table[w.heap[p].fd] == p)
  }

  ghost predicate Kept(service: Service, c: Conn, b: Book) {
    Balanced(service, b.received, c.inbuffer, b.sent, c.outbuffer, b.frames)
  }

  /** The books balance for every client, live or closed. */
  ghost predicate BooksKept(w: World, service: Service) {
    && w.books.Keys == w.heap.Keys
    && (forall p :: p in w.heap ==> Tracked(w, p) && Kept(service, w.heap[p], w.books[p]))
    && (forall i :: 0 <= i < |w.closed| ==> Kept(service, w.closed[i].conn, w.closed[i].book))
  }

  /** A connection between two handler runs: everything complete is answered, and the
      write event is registered exactly while output is pending. */
  ghost predicate AtRest(c: Conn, b: Book) {
    && Digested(b.received, c.inbuffer, b.frames)
    && (c.events.output <==> c.outbuffer != "")
    && (c.listener ==> b == NEW_BOOK && c.inbuffer == c.outbuffer == "")
  }

  ghost predicate Valid(w: World, service: Service, listenFd: int) {
    && Registry(w, listenFd) && BooksKept(w, service)
    && forall p :: p in w.heap ==> AtRest(w.heap[p], w.books[p])
  }

  lemma {:induction false} LiveIsTracked(w: World, service: Service, listenFd: int, p: Addr)
    requires Valid(w, service, listenFd) && p in w.heap
    ensures Tracked(w, p) && w.heap[p].fd in w.interest
    ensures w.heap[p].events == w.interest[w.heap[p].fd] && w.heap[p].events.edge
  {
    var fd := w.heap[p].fd;
    assert w.table[fd] == p && Entry(w.heap[p], fd, w.interest[fd], listenFd);
  }

  /** Reading, answering and writing opens no socket. */
  lemma {:induction false} ReciverDisjoint(w: World, p: Addr, service: Service, r: Reading, sends: seq<SendResult>)
    requires p in w.heap && p in w.books
    ensures AfterReciver(w, p, service, r, sends).sockets <= w.sockets
  {
  }

  // ---- every handler keeps it

  /** A descriptor is open in the kernel but not yet in the table. */
  ghost predicate Admits(w: World, listenFd: int, fd: int) {
    && fd !in w.table
    && (forall f :: f in w.table <==> f in w.interest)
    && (forall f :: f in w.table <==> f in w.sockets)
    && (forall f :: f in w.table <==> f in w.logs)
    && (fd == listenFd || listenFd in w.table)
    && Entries(w, listenFd)
  }

  lemma {:induction false} AddedRegistry(w: World, listenFd: int, fd: int, p: Addr)
    requires Admits(w, listenFd, fd) && p !in w.heap
    ensures Registry(Added(w, fd, p, fd == listenFd), listenFd)
  {
  }

  lemma {:induction false} AddedBooks(w: World, service: Service, listenFd: int, fd: int, p: Addr)
    requires Admits(w, listenFd, fd) && p !in w.heap && BooksKept(w, service)
    ensures BooksKept(Added(w, fd, p, fd == listenFd), service)
  {
    BalancedNew(service);
    var w' := Added(w, fd, p, fd == listenFd);
    forall q | q in w'.heap ensures Tracked(w', q) && Kept(service, w'.heap[q], w'.books[q]) {
      if q != p {
        assert Tracked(w, q) && Kept(service, w.heap[q], w.books[q]);
        assert w.heap[q].fd in w.table;
      }
    }
  }

  lemma {:induction false} AddedKeeps(w: World, service: Service, listenFd: int, fd: int, p: Addr)
    requires Admits(w, listenFd, fd) && p !in w.heap && BooksKept(w, service)
    requires forall q :: q in w.heap ==> AtRest(w.heap[q], w.books[q])
    ensures Valid(Added(w, fd, p, fd == listenFd), service, listenFd)
  {
    AddedRegistry(w, listenFd, fd, p);
    AddedBooks(w, service, listenFd, fd, p);
    BalancedNew(service);
    var w' := Added(w, fd, p, fd == listenFd);
    assert AtRest(w'.heap[p], w'.books[p]);
  }

  lemma {:induction false} RemovedRegistry(w: World, listenFd: int, p: Addr)
    requires Registry(w, listenFd) && p in w.heap && p in w.books && !w.heap[p].listener
    ensures Registry(Removed(w, p), listenFd)
  {
  }

  lemma {:induction false} RemovedBooks(w: World, service: Service, listenFd: int, p: Addr)
    requires Registry(w, listenFd) && BooksKept(w, service) && p in w.heap
    ensures BooksKept(Removed(w, p), service)
  {
  }

  lemma {:induction false} RemovedKeeps(w: World, service: Service, listenFd: int, p: Addr)
    requires Registry(w, listenFd) && BooksKept(w, service)
    requires p in w.heap && !w.heap[p].listener
    requires forall q :: q in w.heap && q != p ==> AtRest(w.heap[q], w.books[q])
    ensures Valid(Removed(w, p), service, listenFd)
  {
    RemovedRegistry(w, listenFd, p);
    RemovedBooks(w, service, listenFd, p);
  }

  lemma {:induction false} PutRegistry(w: World, listenFd: int, p: Addr, c: Conn, b: Book)
    requires Registry(w, listenFd) && p in w.heap
    requires c.fd == w.heap[p].fd && c.listener == w.heap[p].listener && c.events == w.heap[p].events
    ensures Registry(Put(w, p, c, b), listenFd)
  {
  }

  lemma {:induction false} PutBooks(w: World, service: Service, listenFd: int, p: Addr, c: Conn, b: Book)
    requires Registry(w, listenFd) && BooksKept(w, service) && p in w.heap
    requires c.fd == w.heap[p].fd && Kept(service, c, b)
    ensures BooksKept(Put(w, p, c, b), service)
  {
  }

  /** Rewriting one connection without its descriptor or mask. */
  lemma {:induction false} PutKeeps(w: World, service: Service, listenFd: int, p: Addr, c: Conn, b: Book)
    requires Registry(w, listenFd) && BooksKept(w, service) && p in w.heap
    requires c.fd == w.heap[p].fd && c.listener == w.heap[p].listener && c.events == w.heap[p].events
    requires Kept(service, c, b)
    requires forall q :: q in w.heap && q != p ==> AtRest(w.heap[q], w.books[q])
    ensures Registry(Put(w, p, c, b), listenFd) && BooksKept(Put(w, p, c, b), service)
    ensures var w' := Put(w, p, c, b);
            forall q :: q in w'.heap && q != p ==> AtRest(w'.heap[q], w'.books[q])
  {
    PutRegistry(w, listenFd, p, c, b);
    PutBooks(w, service, listenFd, p, c, b);
  }

  lemma {:induction false} MaskedRegistry(w: World, listenFd: int, p: Addr, out: bool)
    requires Registry(w, listenFd) && p in w.heap
    ensures Registry(Masked(w, p, EPOLLIN_ET.(output := out)), listenFd)
  {
  }

  /** Registering the write event exactly while bytes are left puts a connection to rest. */
  lemma {:induction false} MaskedKeeps(w: World, service: Service, listenFd: int, p: Addr)
    requires Registry(w, listenFd) && BooksKept(w, service)
    requires p in w.heap && !w.heap[p].listener
    requires forall q :: q in w.heap && q != p ==> AtRest(w.heap[q], w.books[q])
    requires Digested(w.books[p].received, w.heap[p].inbuffer, w.books[p].frames)
    ensures Valid(Masked(w, p, EPOLLIN_ET.(output := w.heap[p].outbuffer != "")), service, listenFd)
  {
    var out := w.heap[p].outbuffer != "";
    MaskedRegistry(w, listenFd, p, out);
    var w' := Masked(w, p, EPOLLIN_ET.(output := out));
    assert AtRest(w'.heap[p], w'.books[p]);
    assert Kept(service, w'.heap[p], w'.books[p]) by {
      assert Kept(service, w.heap[p], w.books[p]);
    }
  }

  lemma {:induction false} SenderKeeps(w: World, service: Service, listenFd: int, p: Addr, wr: Writing)
    requires Registry(w, listenFd) && BooksKept(w, service)
    requires p in w.heap && !w.heap[p].listener
    requires forall q :: q in w.heap && q != p ==> AtRest(w.heap[q], w.books[q])
    requires Digested(w.books[p].received, w.heap[p].inbuffer, w.books[p].frames)
    requires wr.sent + wr.left == w.heap[p].outbuffer
    ensures Valid(AfterSender(w, p, wr), service, listenFd)
  {
    var c, b := w.heap[p], w.books[p];
    BalancedSend(service, b.received, c.inbuffer, b.sent, c.outbuffer, b.frames, wr.sent, wr.left);
    PutKeeps(w, service, listenFd, p, c.(outbuffer := wr.left), b.(sent := b.sent + wr.sent));
    var w' := Written(w, p, wr.sent, wr.left);
    assert w'.heap[p] == c.(outbuffer := wr.left) && w'.books[p] == b.(sent := b.sent + wr.sent);
    if wr.end == Broken {
      RemovedKeeps(w', service, listenFd, p);
    } else {
      MaskedKeeps(w', service, listenFd, p);
    }
  }

  /** What Reciver leaves behind when the request loop does not throw. */
  lemma {:induction false} ReciverKeeps(w: World, service: Service, listenFd: int, p: Addr,
                                        r: Reading, sends: seq<SendResult>)
    requires Valid(w, service, listenFd) && p in w.heap && !w.heap[p].listener
    requires r.alive ==> Drain(w.heap[p].inbuffer + r.data).stop != Threw
    ensures Valid(AfterReciver(w, p, service, r, sends), service, listenFd)
  {
    var c, b := w.heap[p], w.books[p];
    BalancedReceive(service, b.received, c.inbuffer, b.sent, c.outbuffer, b.frames, r.data);
    var c1, b1 := c.(inbuffer := c.inbuffer + r.data), b.(received := b.received + r.data);
    PutKeeps(w, service, listenFd, p, c1, b1);
    var w1 := Put(w, p, c1, b1);
    if r.alive {
      HandledKeeps(w1, service, listenFd, p, b.received, c.inbuffer, r.data);
      var d := Drain(c1.inbuffer);
      var w2 := Handled(w1, p, d, service.Replies(Payloads(d.frames)));
      if w2.heap[p].outbuffer == "" {
        assert w2.heap[p].events == c.events;
        assert c.outbuffer == "";
      } else {
        SenderKeeps(w2, service, listenFd, p, WriteAll(w2.heap[p].outbuffer, sends));
      }
    } else {
      RemovedKeeps(w1, service, listenFd, p);
    }
  }

  lemma {:induction false} HandledKeeps(w: World, service: Service, listenFd: int, p: Addr,
                                        received: string, inbuffer: string, data: string)
    requires Registry(w, listenFd) && BooksKept(w, service) && p in w.heap
    requires forall q :: q in w.heap && q != p ==> AtRest(w.heap[q], w.books[q])
    requires Digested(received, inbuffer, w.books[p].frames)
    requires w.books[p].received == received + data && w.heap[p].inbuffer == inbuffer + data
    ensures var d := Drain(w.heap[p].inbuffer);
            var w' := Handled(w, p, d, service.Replies(Payloads(d.frames)));
            && Registry(w', listenFd) && BooksKept(w', service)
            && (forall q :: q in w'.heap && q != p ==> AtRest(w'.heap[q], w'.books[q]))
            && Digested(w'.books[p].received, w'.heap[p].inbuffer, w'.books[p].frames)
  {
    var c, b := w.heap[p], w.books[p];
    var d := Drain(c.inbuffer);
    BalancedHandle(service, b.received, c.inbuffer, b.sent, c.outbuffer, b.frames);
    DigestMore(received, inbuffer, b.frames, data);
    PutKeeps(w, service, listenFd, p,
             c.(inbuffer := d.rest, outbuffer := c.outbuffer + service.Replies(Payloads(d.frames))),
             b.(frames := b.frames + d.frames));
  }

  /** Every connection of `w` is still there, the same object with the same state; every
      other one is new, and its descriptor was not open before. */
  ghost predicate Extends(w: World, w': World) {
    && (forall fd :: fd in w.table ==> fd in w'.table && w'.table[fd] == w.table[fd])
    && (forall p :: p in w.heap && p in w.books ==> p in w'.heap && p in w'.books && w'.heap[p] == w.heap[p] && w'.books[p] == w.books[p])
    && (forall p :: p in w'.heap && p in w'.books && p !in w.heap ==> w'.heap[p].fd !in w.sockets && w'.books[p] == NEW_BOOK)
    && w'.closed == w.closed && w.sockets <= w'.sockets
  }

  lemma {:induction false} ExtendsMore(w0: World, w: World, fd: int, p: Addr, listener: bool)
    requires Extends(w0, w) && fd !in w.sockets && fd !in w.table && p !in w.heap
    ensures Extends(w0, Added(w, fd, p, listener))
  {
  }

  lemma {:induction false} NewcomersMore(w: World, fds: seq<int>, ps: seq<Addr>, fd: int, p: Addr)
    requires Newcomers(w, fds, ps) && fd !in AddedAll(w, fds, ps).sockets && p !in AddedAll(w, fds, ps).heap
    ensures Newcomers(w, fds + [fd], ps + [p])
    ensures AddedAll(w, fds + [fd], ps + [p]) == Added(AddedAll(w, fds, ps), fd, p, false)
  {
    assert (fds + [fd])[..|fds|] == fds && (ps + [p])[..|ps|] == ps;
  }

  /** One turn of the accept loop: a connection is added exactly when one was there, on a
      free descriptor, and the loop stops exactly at EAGAIN. */
  ghost predicate TookOne(s: Situation, s': Situation, stop: bool, fd: int, p: Addr) {
    forall x: Seal {:trigger Open(x)} :: Open(x) ==>
      && stop == (s.accepts == [] || s.accepts[0] == AcceptError(EAGAIN))
      && s'.accepts == (if s.accepts == [] then [] else s.accepts[1..]) && s'.recvs == s.recvs && s'.sends == s.sends
      && if s.accepts != [] && s.accepts[0].Accepted? then
           && fd !in s.world.sockets && fd !in s.world.table && p !in s.world.heap
           && s'.world == Added(s.world, fd, p, false)
         else s'.world == s.world
  }

  lemma {:induction false} TookConnection(s: Situation, s': Situation, fd: int, p: Addr)
    requires s.accepts != [] && s.accepts[0].Accepted? && s'.accepts == s.accepts[1..]
    requires s'.recvs == s.recvs && s'.sends == s.sends
    requires fd !in s.world.sockets && fd !in s.world.table && p !in s.world.heap
    requires s'.world == Added(s.world, fd, p, false)
    ensures TookOne(s, s', false, fd, p)
  {
  }

  lemma {:induction false} TookNothing(s: Situation, s': Situation)
    requires s.accepts == [] || s.accepts[0].AcceptError?
    requires s'.accepts == (if s.accepts == [] then [] else s.accepts[1..])
    requires s'.recvs == s.recvs && s'.sends == s.sends && s'.world == s.world
    ensures TookOne(s, s', s.accepts == [] || s.accepts[0] == AcceptError(EAGAIN), 0, 0)
  {
  }

  /** The accept loop has used `n` answers, none of them EAGAIN. */
  ghost predicate Taking(s0: Situation, s: Situation, n: nat, fds: seq<int>, ps: seq<Addr>) {
    && n <= |s0.accepts| && (forall j :: 0 <= j < n ==> s0.accepts[j] != AcceptError(EAGAIN))
    && |fds| == Arrivals(s0.accepts[..n]) && Newcomers(s0.world, fds, ps) && Extends(s0.world, s.world)
    && s == s0.(world := AddedAll(s0.world, fds, ps), accepts := s0.accepts[n..])
  }

  lemma {:induction false} TakingFirst(s: Situation)
    ensures Taking(s, s, 0, [], [])
  {
    assert s.accepts[0..] == s.accepts && s.accepts[..0] == [];
  }

  lemma {:induction false} TakingNext(s0: Situation, s: Situation, s': Situation, n: nat, fds: seq<int>, ps: seq<Addr>,
                                      stop: bool, fd: int, p: Addr)
    requires Taking(s0, s, n, fds, ps) && TookOne(s, s', stop, fd, p)
    ensures var n' := if s.accepts == [] then n else n + 1;
            var one := s.accepts != [] && s.accepts[0].Accepted?;
            var fds', ps' := if one then fds + [fd] else fds, if one then ps + [p] else ps;
            && Extends(s0.world, s'.world)
            && if stop then TookIn(s0, s', n', fds', ps') else Taking(s0, s', n', fds', ps')
  {
    assert Open(Seal);
    var accepts := s0.accepts;
    if s.accepts != [] {
      assert accepts[..n + 1][..n] == accepts[..n] && accepts[n..][1..] == accepts[n + 1..];
      if s.accepts[0].Accepted? {
        ExtendsMore(s0.world, s.world, fd, p, false);
        NewcomersMore(s0.world, fds, ps, fd, p);
      }
    }
  }

  // ---- what a handler leaves alone

  /** The entry of `fd` is the one it was: same object, same state, same mask, same book. */
  ghost predicate Same(w: World, w': World, fd: int) {
    && fd in w.table && fd in w'.table && w'.table[fd] == w.table[fd]
    && w.table[fd] in w.heap && w.table[fd] in w'.heap && w'.heap[w.table[fd]] == w.heap[w.table[fd]]
    && fd in w.interest && fd in w'.interest && w'.interest[fd] == w.interest[fd]
    && w.table[fd] in w.books && w.table[fd] in w'.books && w'.books[w.table[fd]] == w.books[w.table[fd]]
  }

  /** The entries of all other descriptors are what they were. */
  ghost predicate Elsewhere(w: World, w': World, fd: int) {
    forall s: Seal {:trigger Open(s)} :: Open(s) ==> forall f :: f in w.table && f != fd ==> Same(w, w', f)
  }

  lemma {:induction false} SenderElsewhere(w: World, p: Addr, listenFd: int, wr: Writing)
    requires Registry(w, listenFd) && p in w.heap && w.books.Keys == w.heap.Keys
    ensures Elsewhere(w, AfterSender(w, p, wr), w.heap[p].fd)
  {
    assert Open(Seal);
  }

  lemma {:induction false} ReciverElsewhere(w: World, p: Addr, service: Service, listenFd: int,
                                            r: Reading, sends: seq<SendResult>)
    requires Registry(w, listenFd) && p in w.heap && w.books.Keys == w.heap.Keys
    ensures Elsewhere(w, AfterReciver(w, p, service, r, sends), w.heap[p].fd)
  {
    assert Open(Seal);
    var w' := AfterReciver(w, p, service, r, sends);
    forall f | f in w.table && f != w.heap[p].fd ensures Same(w, w', f) {
      assert w.heap[w.table[f]].fd == f;
      assert w.table[f] != p;
    }
  }

  lemma {:induction false} AccepterElsewhere(w: World, w': World, listenFd: int)
    requires Registry(w, listenFd) && Registry(w', listenFd) && Extends(w, w') && w.books.Keys == w.heap.Keys
    ensures Elsewhere(w, w', listenFd)
  {
    assert Open(Seal);
    forall f | f in w.table && f != listenFd ensures Same(w, w', f) {
      var p := w.table[f];
      assert Entry(w.heap[p], f, w.interest[f], listenFd) && Entry(w'.heap[p], f, w'.interest[f], listenFd);
    }
  }

  lemma {:induction false} ElsewhereNot(w: World, listenFd: int, fd: int)
    requires Registry(w, listenFd) && w.books.Keys == w.heap.Keys
    ensures Elsewhere(w, w, fd)
  {
    assert Open(Seal);
  }

  lemma {:induction false} ElsewhereTwice(a: World, b: World, c: World, fd: int)
    requires Elsewhere(a, b, fd) && Elsewhere(b, c, fd)
    ensures Elsewhere(a, c, fd)
  {
    assert Open(Seal);
    forall f | f in a.table && f != fd ensures Same(a, c, f) {
      assert Same(a, b, f) && Same(b, c, f);
    }
  }

  // ---- the history of a connection

  ghost predicate Grew(b: Book, b': Book) {
    b.received <= b'.received && b.sent <= b'.sent && b.frames <= b'.frames
  }

  /** A connection on `fd` with the history `b` was closed as one of the accounts from
      `from` on, with a longer history. */
  ghost predicate ClosedAs(closed: seq<Account>, from: nat, fd: int, b: Book) {
    exists i :: from <= i < |closed| && closed[i].conn.fd == fd && Grew(b, closed[i].book)
  }

  /** A connection is still there or has been closed, and its history has only grown. */
  ghost predicate Carried(w: World, w': World, p: Addr)
    requires p in w.heap && p in w.books
  {
    || (p in w'.heap && p in w'.books && w'.heap[p].fd == w.heap[p].fd && Grew(w.books[p], w'.books[p]))
    || ClosedAs(w'.closed, |w.closed|, w.heap[p].fd, w.books[p])
  }

  /** No history is lost or rewritten. */
  ghost predicate Moved(w: World, w': World) {
    forall s: Seal {:trigger Open(s)} :: Open(s) ==>
      w.closed <= w'.closed && forall p :: p in w.heap && p in w.books ==> Carried(w, w', p)
  }

  lemma {:induction false} MovedNot(w: World)
    ensures Moved(w, w)
  {
    assert Open(Seal);
  }

  lemma {:induction false} CarriedTwice(a: World, b: World, c: World, p: Addr)
    requires p in a.heap && p in a.books && Carried(a, b, p) && Moved(b, c) && a.closed <= b.closed
    ensures Carried(a, c, p)
  {
    assert Open(Seal);
    if ClosedAs(b.closed, |a.closed|, a.heap[p].fd, a.books[p]) {
      var i :| |a.closed| <= i < |b.closed| && b.closed[i].conn.fd == a.heap[p].fd && Grew(a.books[p], b.closed[i].book);
      assert c.closed[i] == b.closed[i];
    } else if ClosedAs(c.closed, |b.closed|, b.heap[p].fd, b.books[p]) {
      var i :| |b.closed| <= i < |c.closed| && c.closed[i].conn.fd == b.heap[p].fd && Grew(b.books[p], c.closed[i].book);
      assert Grew(a.books[p], c.closed[i].book);
    } else {
      assert Carried(b, c, p);
    }
  }

  lemma {:induction false} MovedTwice(a: World, b: World, c: World)
    requires Moved(a, b) && Moved(b, c)
    ensures Moved(a, c)
  {
    assert Open(Seal);
    forall p | p in a.heap && p in a.books ensures Carried(a, c, p) {
      CarriedTwice(a, b, c, p);
    }
  }

  lemma {:induction false} ExtendsMoves(w: World, w': World)
    requires Extends(w, w')
    ensures Moved(w, w')
  {
    assert Open(Seal);
  }

  lemma {:induction false} PutMoves(w: World, p: Addr, c: Conn, b: Book)
    requires p in w.heap && p in w.books && c.fd == w.heap[p].fd && Grew(w.books[p], b)
    ensures Moved(w, Put(w, p, c, b))
  {
    assert Open(Seal);
  }

  lemma {:induction false} MaskedMoves(w: World, p: Addr, mask: Mask)
    requires p in w.heap && p in w.books
    ensures Moved(w, Masked(w, p, mask))
  {
    assert Open(Seal);
  }

  lemma {:induction false} RemovedMoves(w: World, p: Addr)
    requires p in w.heap && p in w.books
    ensures Moved(w, Removed(w, p))
  {
    assert Open(Seal);
    var w' := Removed(w, p);
    assert w'.closed[|w.closed|] == Account(w.heap[p], w.books[p]);
    assert ClosedAs(w'.closed, |w.closed|, w.heap[p].fd, w.books[p]);
  }

  lemma {:induction false} SenderMoves(w: World, p: Addr, wr: Writing)
    requires p in w.heap && p in w.books
    ensures Moved(w, AfterSender(w, p, wr))
  {
    var c, b := w.heap[p], w.books[p];
    PutMoves(w, p, c.(outbuffer := wr.left), b.(sent := b.sent + wr.sent));
    var w1 := Written(w, p, wr.sent, wr.left);
    if wr.end == Broken {
      RemovedMoves(w1, p);
    } else {
      MaskedMoves(w1, p, EPOLLIN_ET.(output := wr.left != ""));
    }
    MovedTwice(w, w1, AfterSender(w, p, wr));
  }

  lemma {:induction false} HandledMoves(w: World, p: Addr, d: Drained, reply: string)
    requires p in w.heap && p in w.books
    ensures Moved(w, Handled(w, p, d, reply))
  {
    var c, b := w.heap[p], w.books[p];
    PutMoves(w, p, c.(inbuffer := d.rest, outbuffer := c.outbuffer + reply), b.(frames := b.frames + d.frames));
  }

  lemma {:induction false} ReciverMoves(w: World, p: Addr, service: Service, r: Reading, sends: seq<SendResult>)
    requires p in w.heap && p in w.books
    ensures Moved(w, AfterReciver(w, p, service, r, sends))
  {
    var c, b := w.heap[p], w.books[p];
    PutMoves(w, p, c.(inbuffer := c.inbuffer + r.data), b.(received := b.received + r.data));
    var w1, w' := Received(w, p, r.data), AfterReciver(w, p, service, r, sends);
    if !r.alive {
      RemovedMoves(w1, p);
    } else {
      var d := Drain(w1.heap[p].inbuffer);
      var w2 := Handled(w1, p, d, service.Replies(Payloads(d.frames)));
      HandledMoves(w1, p, d, service.Replies(Payloads(d.frames)));
      if d.stop == Threw || w2.heap[p].outbuffer == "" {
        MovedNot(w2);
      } else {
        SenderMoves(w2, p, WriteAll(w2.heap[p].outbuffer, sends));
      }
      MovedTwice(w1, w2, w');
    }
    MovedTwice(w, w1, w');
  }

  /** After the reading half a descriptor still leads to the object it led to, or to none. */
  lemma {:induction false} ReciverSameObject(w: World, p: Addr, service: Service, listenFd: int,
                                             r: Reading, sends: seq<SendResult>)
    requires Registry(w, listenFd) && p in w.heap && p in w.books
    ensures var w', fd := AfterReciver(w, p, service, r, sends), w.heap[p].fd;
            fd in w'.table ==> w'.table[fd] == w.table[fd] == p
  {
  }

  /** Nothing is ever written to the listening socket. */
  lemma {:induction false} QuietListener(w: World, service: Service, listenFd: int)
    requires Valid(w, service, listenFd)
    ensures listenFd in w.interest && !w.interest[listenFd].output
  {
    var p := w.table[listenFd];
    assert Entry(w.heap[p], listenFd, w.interest[listenFd], listenFd) && AtRest(w.heap[p], w.books[p]);
  }

  /** Some connection has received 2^31 - 1 bytes or more. */
  ghost predicate Oversized(w: World) {
    exists p :: p in w.books && INT_MAX <= |w.books[p].received|
  }

  lemma {:induction false} ThrewOversized(w: World, p: Addr, service: Service, r: Reading, sends: seq<SendResult>)
    requires BooksKept(w, service) && p in w.heap
    requires r.alive && Drain(w.heap[p].inbuffer + r.data).stop == Threw
    ensures Oversized(AfterReciver(w, p, service, r, sends))
  {
    assert Kept(service, w.heap[p], w.books[p]);
    BufferWithin(service, w.heap[p], w.books[p]);
    if Sized(w.heap[p].inbuffer + r.data) {
      DrainNeverThrows(w.heap[p].inbuffer + r.data);
    }
    var w' := AfterReciver(w, p, service, r, sends);
    assert p in w'.books && w'.books[p].received == w.books[p].received + r.data;
  }

  lemma {:induction false} BufferWithin(service: Service, c: Conn, b: Book)
    requires Kept(service, c, b)
    ensures |c.inbuffer| <= |b.received|
  {
    assert Open(Seal);
  }

  // ------------------------------------------------------------------- server

  lemma {:induction false} FreeAddress(s: set<Addr>)
    ensures exists p: Addr :: p !in s
  {
    var m := Highest(s);
    assert m + 1 !in s;
  }

  ghost function Highest(s: set<Addr>): (m: nat)
    ensures forall p :: p in s ==> p <= m
  {
    if s == {} then 0
    else
      var p :| p in s;
      var m := Highest(s - {p});
      assert s == (s - {p}) + {p};
      if p > m then p else m
  }

  // ---- one batch, report by report

  /** One report is handled, by way of `mid`: no history is rewritten and no other entry is
      touched. */
  ghost predicate Served(s: Situation, mid: Situation, s': Situation, r: Report, service: Service, listenFd: int) {
    forall x: Seal {:trigger Open(x)} :: Open(x) ==>
      && Valid(s.world, service, listenFd)
      && InputHalf(s, mid, r, service, listenFd) && OutputHalf(s, mid, s', r, listenFd)
      && Moved(s.world, s'.world) && Elsewhere(s.world, s'.world, r.fd)
  }

  /** One report of a batch that began in `w` is handled, on an entry that is what it was
      then. */
  ghost predicate Stage(w: World, s: Situation, s': Situation, r: Report, service: Service, listenFd: int) {
    exists mid :: HandledBy(w, s, mid, s', r, service, listenFd)
  }

  ghost predicate HandledBy(w: World, s: Situation, mid: Situation, s': Situation, r: Report,
                            service: Service, listenFd: int)
  {
    Same(w, s.world, r.fd) && Served(s, mid, s', r, service, listenFd)
  }

  lemma {:induction false} StageIs(w: World, s: Situation, mid: Situation, s': Situation, r: Report,
                                   service: Service, listenFd: int)
    requires Same(w, s.world, r.fd) && Served(s, mid, s', r, service, listenFd)
    ensures Stage(w, s, s', r, service, listenFd)
  {
    assert HandledBy(w, s, mid, s', r, service, listenFd);
  }

  /** The situations a batch goes through: each report is handled where the one before has
      left off, on an entry that is what it was when the batch began; an exception ends the
      batch. */
  ghost predicate Course(course: seq<Situation>, reports: seq<Report>, service: Service, listenFd: int)
    decreases |course|
  {
    && 0 < |course| <= |reports| + 1
    && (|course| == 1 ||
        var n := |course| - 1;
        && Course(course[..n], reports, service, listenFd)
        && (n > 1 ==> !Stops(course[n - 2], reports[n - 2], listenFd))
        && Stage(course[0].world, course[n - 1], course[n], reports[n - 1], service, listenFd))
  }

  /** The entries of the reports from `i` on are what they were in `w`, and no history was
      rewritten. */
  ghost predicate Pending(w: World, now: World, reports: seq<Report>, i: nat) {
    forall s: Seal {:trigger Open(s)} :: Open(s) ==>
      Moved(w, now) && forall j :: i <= j < |reports| ==> Same(w, now, reports[j].fd)
  }

  lemma {:induction false} PendingFirst(w: World, service: Service, reports: seq<Report>, listenFd: int)
    requires Valid(w, service, listenFd) && Reportable(reports, w.interest, listenFd)
    ensures Pending(w, w, reports, 0)
  {
    MovedNot(w);
    forall j | 0 <= j < |reports| ensures Same(w, w, reports[j].fd) {
      assert reports[j].fd in w.interest;
    }
  }

  /** The next report finds its object and its mask as they were when the batch began. */
  lemma {:induction false} PendingFinds(w: World, now: World, reports: seq<Report>, i: nat, listenFd: int)
    requires Pending(w, now, reports, i) && i < |reports| && Reportable(reports, w.interest, listenFd)
    ensures var r := reports[i];
            && Same(w, now, r.fd) && Moved(w, now)
            && r.events == Visible(r.events, now.interest[r.fd], r.fd == listenFd)
  {
    assert Open(Seal);
  }

  lemma {:induction false} PendingNext(w: World, now: World, after: World, reports: seq<Report>, i: nat, listenFd: int)
    requires Pending(w, now, reports, i) && i < |reports| && Reportable(reports, w.interest, listenFd)
    requires Moved(now, after) && Elsewhere(now, after, reports[i].fd)
    ensures Pending(w, after, reports, i + 1)
  {
    assert Open(Seal);
    MovedTwice(w, now, after);
    forall j | i < j < |reports| ensures Same(w, after, reports[j].fd) {
      assert Same(w, now, reports[j].fd) && Same(now, after, reports[j].fd);
    }
  }

  lemma {:induction false} PendingMoved(w: World, now: World, reports: seq<Report>, i: nat)
    requires Pending(w, now, reports, i)
    ensures Moved(w, now)
  {
    assert Open(Seal);
  }

  lemma {:induction false} CourseNext(course: seq<Situation>, after: Situation, reports: seq<Report>,
                                      service: Service, listenFd: int)
    requires Course(course, reports, service, listenFd) && |course| <= |reports|
    requires var i := |course| - 1;
             && (i > 0 ==> !Stops(course[i - 1], reports[i - 1], listenFd))
             && Stage(course[0].world, course[i], after, reports[i], service, listenFd)
    ensures Course(course + [after], reports, service, listenFd)
  {
    assert (course + [after])[..|course|] == course;
  }

  /** A batch that began in `s0` has handled its first `i` reports and has come to `now`. */
  ghost predicate Underway(s0: Situation, now: Situation, course: seq<Situation>, reports: seq<Report>, i: nat,
                           service: Service, listenFd: int)
  {
    exists rest :: UnderwayWith(s0, now, course, reports, i, rest, service, listenFd)
  }

  ghost predicate UnderwayWith(s0: Situation, now: Situation, course: seq<Situation>, reports: seq<Report>, i: nat,
                               rest: seq<Report>, service: Service, listenFd: int)
  {
    && i <= |reports| && rest == reports[i..] && |course| == i + 1
    && course[0] == s0 && course[i] == now && Course(course, reports, service, listenFd)
    && (i > 0 ==> !Stops(course[i - 1], reports[i - 1], listenFd))
  }

  lemma {:induction false} UnderwayFirst(s: Situation, reports: seq<Report>, service: Service, listenFd: int)
    ensures Underway(s, s, [s], reports, 0, service, listenFd)
  {
    assert UnderwayWith(s, s, [s], reports, 0, reports[0..], service, listenFd);
  }

  lemma {:induction false} UnderwayIs(s0: Situation, now: Situation, course: seq<Situation>, reports: seq<Report>, i: nat,
                                      service: Service, listenFd: int)
    requires Underway(s0, now, course, reports, i, service, listenFd)
    ensures i <= |reports| && |course| == i + 1 && course[0] == s0 && course[i] == now
    ensures Course(course, reports, service, listenFd)
    ensures i > 0 ==> !Stops(course[i - 1], reports[i - 1], listenFd)
  {
  }

  /** One report more: the batch is over, or goes on. */
  lemma {:induction false} UnderwayNext(s0: Situation, now: Situation, mid: Situation, after: Situation,
                                        course: seq<Situation>, reports: seq<Report>, i: nat, service: Service, listenFd: int)
    requires Underway(s0, now, course, reports, i, service, listenFd) && i < |reports|
    requires Same(s0.world, now.world, reports[i].fd) && Served(now, mid, after, reports[i], service, listenFd)
    ensures |course| == i + 1 && course[0] == s0 && course[i] == now && Course(course + [after], reports, service, listenFd)
    ensures !Stops(now, reports[i], listenFd) ==>
              Underway(s0, after, course + [after], reports, i + 1, service, listenFd)
  {
    UnderwayIs(s0, now, course, reports, i, service, listenFd);
    StageIs(s0.world, now, mid, after, reports[i], service, listenFd);
    CourseNext(course, after, reports, service, listenFd);
    if !Stops(now, reports[i], listenFd) {
      assert UnderwayWith(s0, after, course + [after], reports, i + 1, reports[i + 1..], service, listenFd);
    }
  }

  /** What epoll_wait reported before a batch: what was proposed, if it could be. */
  ghost predicate Awaited(proposed: seq<Report>, reports: seq<Report>, course: seq<Situation>, listenFd: int) {
    && course != [] && Reportable(reports, course[0].world.interest, listenFd)
    && (Reportable(proposed, course[0].world.interest, listenFd) ==> reports == proposed)
  }

  /** Batch follows on batch: each begins where the one before has ended, and each but the
      last goes over all its reports, which are what epoll_wait made of the proposed ones. */
  ghost predicate Chained(courses: seq<seq<Situation>>, taken: seq<seq<Report>>,
                          proposed: seq<seq<Report>>, first: Situation, last: Situation, service: Service, listenFd: int)
    decreases |courses|
  {
    && |courses| == |taken| <= |proposed|
    && if courses == [] then last == first
       else
         var n := |courses| - 1;
         && Course(courses[n], taken[n], service, listenFd)
         && Awaited(proposed[n], taken[n], courses[n], listenFd)
         && Chained(courses[..n], taken[..n], proposed, first, courses[n][0], service, listenFd)
         && (n > 0 ==> |courses[n - 1]| == |taken[n - 1]| + 1)
         && last == courses[n][|courses[n]| - 1]
  }

  lemma {:induction false} ChainedNext(courses: seq<seq<Situation>>, taken: seq<seq<Report>>,
                                       proposed: seq<seq<Report>>, first: Situation, last: Situation, course: seq<Situation>,
                                       reports: seq<Report>, service: Service, listenFd: int)
    requires Chained(courses, taken, proposed, first, last, service, listenFd)
    requires |taken| < |proposed| && Awaited(proposed[|taken|], reports, course, listenFd)
    requires Course(course, reports, service, listenFd) && course[0] == last
    requires courses != [] ==> |courses[|courses| - 1]| == |taken[|courses| - 1]| + 1
    ensures Chained(courses + [course], taken + [reports], proposed, first, course[|course| - 1], service, listenFd)
  {
    var cs, ts, n := courses + [course], taken + [reports], |courses|;
    assert cs[..n] == courses && ts[..n] == taken;
    assert cs[n] == course && ts[n] == reports;
    assert n > 0 ==> cs[n - 1] == courses[n - 1] && ts[n - 1] == taken[n - 1];
  }

  class EpollServer {
    const kernel: Kernel
    const service: Service
    const listenFd: int
    var heap: map<Addr, Conn>
    var connections: map<int, Addr>
    ghost var books: map<Addr, Book>
    ghost var closed: seq<Account>

    constructor (kernel: Kernel, service: Service, listenFd: int)
      ensures this.kernel == kernel && this.service == service && this.listenFd == listenFd
      ensures heap == map[] && connections == map[] && books == map[] && closed == []
    {
      this.kernel, this.service, this.listenFd := kernel, service, listenFd;
      heap, connections, books, closed := map[], map[], map[], [];
    }

    ghost function Abs(): World
      reads this, kernel
    {
      World(heap, connections, kernel.interest, kernel.sockets, kernel.logs, books, closed)
    }

    ghost function Now(): Situation
      reads this, kernel
    {
      Situation(Abs(), kernel.recvs, kernel.sends, kernel.accepts)
    }

    ghost predicate Invariant()
      reads this, kernel
    {
      && Valid(Abs(), service, listenFd)
      && kernel.sockets !! kernel.others && 0 in kernel.others
    }

    // ---- registration

    method InitServer()
      requires Abs() == World(map[], map[], map[], {listenFd}, map[listenFd := NEW_LOG], map[], [])
      requires listenFd !in kernel.others && 0 in kernel.others
      modifies this, kernel`interest
      ensures Invariant() && connections.Keys == kernel.interest.Keys == {listenFd}
      ensures Abs() == Added(World(map[], map[], map[], {}, map[], map[], []), listenFd, connections[listenFd], true)
    {
      ghost var nothing := World(map[], map[], map[], {}, map[], map[], []);
      ghost var p := AddConnection(listenFd, EPOLLIN_ET);
      assert Abs() == Added(nothing, listenFd, p, true);
      AddedKeeps(nothing, service, listenFd, listenFd, p);
    }

    /** The mask registered in the kernel is IN and ET whatever `event` says. */
    method AddConnection(fd: int, event: Mask) returns (ghost p: Addr)
      requires event == EPOLLIN_ET && fd in kernel.sockets && fd !in kernel.interest
      requires fd in kernel.logs && kernel.logs[fd] == NEW_LOG
      modifies this`heap, this`connections, this`books, kernel`interest
      ensures p !in old(heap)
      ensures Abs() == Added(old(Abs()), fd, p, fd == listenFd)
    {
      FreeAddress(heap.Keys);
      var conn: Addr :| conn !in heap;
      heap := heap[conn := Conn(fd, fd == listenFd, "", "", event)];
      books := books[conn := NEW_BOOK];
      connections := connections[fd := conn];
      var ok := kernel.CtlAdd(fd, EPOLLIN_ET);
      assert ok;
      p := conn;
      assert kernel.sockets == kernel.sockets + {fd} && kernel.logs == kernel.logs[fd := NEW_LOG];
    }

    // ---- handlers

    /** A descriptor that accept has just returned goes into the table and the kernel. */
    method Admit(sock: int, ghost s: Situation) returns (ghost p: Addr)
      requires Valid(s.world, service, listenFd) && sock !in s.world.sockets && sock !in kernel.others
      requires Abs() == s.world.(sockets := s.world.sockets + {sock}, logs := s.world.logs[sock := NEW_LOG])
      requires s.accepts != [] && s.accepts[0].Accepted? && kernel.accepts == s.accepts[1..]
      requires kernel.recvs == s.recvs && kernel.sends == s.sends
      requires s.world.sockets !! kernel.others && 0 in kernel.others
      modifies this`heap, this`connections, this`books, kernel`interest
      ensures Invariant() && Abs() == Added(s.world, sock, p, false)
      ensures TookOne(s, Now(), false, sock, p)
    {
      p := AddConnection(sock, EPOLLIN_ET);
      assert Abs() == Added(s.world, sock, p, false);
      AddedKeeps(s.world, service, listenFd, sock, p);
      TookConnection(s, Now(), sock, p);
    }

    /** One accept: it adds one connection exactly when one was there, and stops the loop
        exactly at EAGAIN. */
    method AcceptOne() returns (stop: bool, ghost fd: int, ghost p: Addr)
      requires Invariant()
      modifies this`heap, this`connections, this`books, kernel`accepts, kernel`sockets, kernel`logs, kernel`interest
      ensures Invariant()
      ensures TookOne(old(Now()), Now(), stop, fd, p)
      ensures |kernel.accepts| < |old(kernel.accepts)| || stop
    {
      ghost var s := Now();
      stop, fd, p := false, 0, 0;
      var sock, err := kernel.Accept();
      if sock > 0 {
        p := Admit(sock, s);
        fd := sock;
      } else {
        assert Abs() == s.world;
        stop := err == EAGAIN;
        TookNothing(s, Now());
      }
    }

    /** Accept until the backlog is empty: one connection for each that was waiting before
        the first EAGAIN. Nothing registered before is touched. */
    method Accepter(conn: Addr) returns (ghost n: nat, ghost fds: seq<int>, ghost ps: seq<Addr>)
      requires Invariant() && conn in heap && heap[conn].listener
      modifies this`heap, this`connections, this`books, kernel`accepts, kernel`sockets, kernel`logs, kernel`interest
      ensures Invariant() && Extends(old(Abs()), Abs())
      ensures TookIn(old(Now()), Now(), n, fds, ps)
    {
      ghost var s0 := Now();
      n, fds, ps := 0, [], [];
      TakingFirst(s0);
      while true
        invariant Invariant() && Taking(s0, Now(), n, fds, ps)
        decreases |kernel.accepts|
      {
        ghost var s := Now();
        ghost var fd, p;
        var stop;
        stop, fd, p := AcceptOne();
        TakingNext(s0, s, Now(), n, fds, ps, stop, fd, p);
        if s.accepts != [] {
          if s.accepts[0].Accepted? {
            fds, ps := fds + [fd], ps + [p];
          }
          n := n + 1;
        }
        if stop { break; }
      }
    }

    /** Unregister, forget, close and free. */
    method Excepter(conn: Addr)
      requires conn in heap && conn in books
      modifies this, kernel`interest, kernel`sockets, kernel`logs
      ensures Abs() == Removed(old(Abs()), conn)
    {
      var fd := heap[conn].fd;
      var _ := kernel.CtlDel(fd);
      connections := connections - {fd};
      kernel.Close(fd);
      closed := closed + [Account(heap[conn], books[conn])];
      books := books - {conn};
      heap := heap - {conn};
    }

    method EnableReadWrite(conn: Addr, readable: bool, writeable: bool) returns (ok: bool)
      requires conn in heap && heap[conn].fd in kernel.interest
      modifies this`heap, kernel`interest
      ensures ok && Abs() == Masked(old(Abs()), conn, Mask(readable, writeable, false, false, true))
    {
      var mask := Mask(readable, writeable, false, false, true);
      heap := heap[conn := heap[conn].(events := mask)];
      ok := kernel.CtlMod(heap[conn].fd, mask);
    }

    /** One send, and the erasure of what it took. */
    method SendOnce(conn: Addr) returns (n: nat, err: Errno)
      requires Tracked(Abs(), conn)
      modifies this`heap, this`books, kernel`sends, kernel`logs
      ensures var out, sends := old(heap)[conn].outbuffer, old(kernel.sends);
              && n <= |out|
              && Abs() == Written(old(Abs()), conn, out[..n], out[n..])
              && (sends == [] ==> n == 0 && err == EAGAIN && kernel.sends == [])
              && (sends != [] ==> n == Taken(sends[0], out) && err == sends[0].errno && kernel.sends == sends[1..])
    {
      ghost var world := Abs();
      var out := heap[conn].outbuffer;
      n, err := kernel.Send(heap[conn].fd, out);
      if n > 0 {
        heap := heap[conn := heap[conn].(outbuffer := out[n..])];
        books := books[conn := books[conn].(sent := books[conn].sent + out[..n])];
      } else {
        assert out[..0] == "" && out[0..] == out;
        assert books[conn].sent + "" == books[conn].sent;
        assert kernel.logs == world.logs[heap[conn].fd := Log(books[conn].received, books[conn].sent + "")];
        assert kernel.logs == world.logs;
        WrittenNothing(world, conn);
      }
    }

    /** The writing loop; false when the peer was lost and the connection is freed. */
    method SendLoop(conn: Addr) returns (flag: bool)
      requires Tracked(Abs(), conn) && heap[conn].events.edge
      modifies this, kernel`interest, kernel`sockets, kernel`logs, kernel`sends
      ensures var w := WriteAll(old(heap)[conn].outbuffer, old(kernel.sends));
              var world := Written(old(Abs()), conn, w.sent, w.left);
              && flag == (w.end != Broken) && kernel.sends == w.rest
              && Abs() == if flag then world else Removed(world, conn)
    {
      ghost var world, done, w0 := Abs(), "", WriteAll(heap[conn].outbuffer, kernel.sends);
      WrittenNothing(world, conn);
      flag := true;
      while true
        invariant Tracked(Abs(), conn) && heap[conn].events.edge && flag
        invariant ToWrite(w0, done, heap[conn].outbuffer, kernel.sends)
        invariant Abs() == Written(world, conn, done, heap[conn].outbuffer)
        decreases |kernel.sends|
      {
        ghost var out := heap[conn].outbuffer;
        ToWriteStep(w0, done, out, kernel.sends);
        var n, err := SendOnce(conn);
        WrittenTwice(world, conn, done, out, out[..n], out[n..]);
        done := done + out[..n];
        if n > 0 {
          if heap[conn].outbuffer == "" { break; }
        } else {
          if err == EAGAIN {
            break;
          } else if err == EINTR {
            continue;
          } else {
            flag := false;
            Excepter(conn);
            break;
          }
        }
        if !heap[conn].events.edge { break; }
      }
    }

    /** Write what can be written, then register the write event exactly if bytes are left. */
    method Sender(conn: Addr)
      requires Tracked(Abs(), conn) && heap[conn].events.edge && heap[conn].fd in kernel.interest
      modifies this, kernel`interest, kernel`sockets, kernel`logs, kernel`sends
      ensures var w := WriteAll(old(heap)[conn].outbuffer, old(kernel.sends));
              Abs() == AfterSender(old(Abs()), conn, w) && kernel.sends == w.rest
    {
      var flag := SendLoop(conn);
      if !flag { return; }
      var pending := heap[conn].outbuffer != "";
      var _ := EnableReadWrite(conn, true, pending);
    }

    /** One recv on the connection's own socket; exactly the bytes received are appended. */
    method RecvOnce(conn: Addr) returns (r: RecvResult)
      requires Tracked(Abs(), conn)
      modifies this`heap, this`books, kernel`recvs, kernel`logs
      ensures Abs() == Received(old(Abs()), conn, Arrived(r))
      ensures old(kernel.recvs) == [] ==> r == RecvError(EAGAIN) && kernel.recvs == []
      ensures old(kernel.recvs) != [] ==> r == old(kernel.recvs)[0] && kernel.recvs == old(kernel.recvs)[1..]
    {
      ghost var w := Abs();
      ReceivedNothing(w, conn);
      r := kernel.Recv(heap[conn].fd);
      if r.Bytes? && r.data != "" {
        heap := heap[conn := heap[conn].(inbuffer := heap[conn].inbuffer + r.data)];
        books := books[conn := books[conn].(received := books[conn].received + r.data)];
      } else if r.Bytes? {
        assert kernel.logs == w.logs[heap[conn].fd := Log(books[conn].received + "", books[conn].sent)];
        assert books[conn].received + "" == books[conn].received && kernel.logs == w.logs;
      }
    }

    /** Read until the kernel has no more; false when the connection was closed and freed. */
    method HandleRecive(conn: Addr) returns (ret: bool)
      requires Tracked(Abs(), conn) && heap[conn].events.edge
      modifies this, kernel`interest, kernel`sockets, kernel`logs, kernel`recvs
      ensures var r := ReadAll(old(kernel.recvs));
              var world := Received(old(Abs()), conn, r.data);
              && ret == r.alive && kernel.recvs == r.rest
              && Abs() == if ret then world else Removed(world, conn)
    {
      ghost var world, data, r0 := Abs(), "", ReadAll(kernel.recvs);
      ReceivedNothing(world, conn);
      ret := true;
      while true
        invariant Tracked(Abs(), conn) && heap[conn].events.edge && ret
        invariant ToRead(r0, data, kernel.recvs)
        invariant Abs() == Received(world, conn, data)
        decreases |kernel.recvs|
      {
        ToReadStep(r0, data, kernel.recvs);
        var result := RecvOnce(conn);
        ReceivedTwice(world, conn, data, Arrived(result));
        data := data + Arrived(result);
        if result.Bytes? && result.data != "" {
        } else if result == RecvError(EAGAIN) {
          break;
        } else if result == RecvError(EINTR) {
          continue;
        } else {
          // the peer has closed, or any other error
          Excepter(conn);
          ret := false;
          break;
        }
        if !heap[conn].events.edge { break; }
      }
    }

    /** readPackage on the input buffer: 0 stands for incomplete and for an empty payload. */
    method CutPackage(conn: Addr) returns (len: int, package: string)
      requires Tracked(Abs(), conn)
      modifies this`heap, this`books
      ensures match ReadPackage(old(heap)[conn].inbuffer)
              case Incomplete => len == 0 && Abs() == old(Abs())
              case Package(l, p, rest) =>
                && len == l && package == p
                && Abs() == Handled(old(Abs()), conn, Drained([Frame(l, p)], rest, Starved), "")
    {
      len, package := 0, "";
      var inbuffer := heap[conn].inbuffer;
      var found := Find(inbuffer, CRLF, 0);
      if found.None? { return; }
      var declared := Atoi(inbuffer[..found.value]);
      var total := TotalSize(declared, found.value);
      if total < 0 || total > |inbuffer| { return; }
      len, package := declared, inbuffer[..total];
      heap := heap[conn := heap[conn].(inbuffer := inbuffer[total..])];
      books := books[conn := books[conn].(frames := books[conn].frames + [Frame(len, package)])];
      assert heap[conn].outbuffer + "" == heap[conn].outbuffer;
    }

    /** One round of the request loop: cut a package off and queue its answer. `flag`
        ends the loop; `threw` stands for the exception of removeHeader, which ends the
        program. */
    method HandleOne(conn: Addr) returns (flag: bool, threw: bool)
      requires Tracked(Abs(), conn)
      modifies this`heap, this`books
      ensures match ReadPackage(old(heap)[conn].inbuffer)
              case Incomplete => flag && !threw && Abs() == old(Abs())
              case Package(len, package, rest) =>
                var f := Frame(len, package);
                && flag == (len <= 0)
                && threw == (len > 0 && RemoveHeader(package, len).None?)
                && Abs() == Handled(old(Abs()), conn, Drained([f], rest, Starved), service.Replies(Payloads([f])))
    {
      flag, threw := false, false;
      ghost var world := Abs();
      var len, requestStr := CutPackage(conn);
      RepliesOne(service, Frame(len, requestStr));
      if len > 0 {
        var payload := RemoveHeader(requestStr, len);
        if payload.None? { threw := true; return; }
        var req := service.deserialize(payload.value);
        var resp := service.func(req);
        var responseStr := AddHeader(service.serialize(resp));
        heap := heap[conn := heap[conn].(outbuffer := heap[conn].outbuffer + responseStr)];
        assert world.heap[conn].outbuffer + "" == world.heap[conn].outbuffer;
      } else {
        flag := true;
      }
    }

    /** Answer every complete package in the input buffer. */
    method HandleRequest(conn: Addr) returns (threw: bool)
      requires Tracked(Abs(), conn)
      modifies this`heap, this`books
      ensures var d := Drain(old(heap)[conn].inbuffer);
              && threw == (d.stop == Threw)
              && Abs() == Handled(old(Abs()), conn, d, service.Replies(Payloads(d.frames)))
    {
      ghost var world, d0, frames := Abs(), Drain(heap[conn].inbuffer), [];
      HandledNothing(world, conn, service);
      HandledAnyStop(world, conn, d0, service.Replies(Payloads(d0.frames)));
      threw := false;
      var flag := false;
      while !flag
        invariant Tracked(Abs(), conn) && !threw
        invariant Equals(Abs(), Handled(world, conn, Drained(frames, heap[conn].inbuffer, Starved), service.Replies(Payloads(frames))))
        invariant Remaining(d0, frames, heap[conn].inbuffer, flag)
        decreases !flag, |heap[conn].inbuffer|
      {
        ghost var inbuffer := heap[conn].inbuffer;
        ghost var c := ReadPackage(inbuffer);
        RemainingStep(d0, frames, inbuffer);
        flag, threw := HandleOne(conn);
        if c.Package? {
          HandledTwice(world, conn, service, frames, inbuffer, [Frame(c.len, c.package)], c.rest);
          frames := frames + [Frame(c.len, c.package)];
        }
        if threw { return; }
      }
    }

    /** Read everything, answer everything complete, and start writing the answers. */
    method Reciver(conn: Addr) returns (threw: bool)
      requires Invariant() && conn in heap && !heap[conn].listener
      modifies this, kernel`interest, kernel`sockets, kernel`logs, kernel`recvs, kernel`sends
      ensures var r := ReadAll(old(kernel.recvs));
              && Abs() == AfterReciver(old(Abs()), conn, service, r, old(kernel.sends))
              && threw == (r.alive && Drain(old(heap)[conn].inbuffer + r.data).stop == Threw)
      ensures Now() == AfterInput(old(Now()), conn, service) && threw == Throws(old(Now()), conn)
      ensures !threw ==> Invariant()
    {
      ghost var w, r, sends := Abs(), ReadAll(kernel.recvs), kernel.sends;
      LiveIsTracked(w, service, listenFd, conn);
      ReciverDisjoint(w, conn, service, r, sends);
      if r.alive ==> Drain(heap[conn].inbuffer + r.data).stop != Threw {
        ReciverKeeps(w, service, listenFd, conn, r, sends);
      }
      threw := ReadAndAnswer(conn);
    }

    /** The body of the reader, on any connection whose socket agrees with its book. */
    method ReadAndAnswer(conn: Addr) returns (threw: bool)
      requires Tracked(Abs(), conn) && heap[conn].events.edge && heap[conn].fd in kernel.interest
      modifies this, kernel`interest, kernel`sockets, kernel`logs, kernel`recvs, kernel`sends
      ensures var r := ReadAll(old(kernel.recvs));
              && Abs() == AfterReciver(old(Abs()), conn, service, r, old(kernel.sends))
              && threw == (r.alive && Drain(old(heap)[conn].inbuffer + r.data).stop == Threw)
      ensures Now() == AfterInput(old(Now()), conn, service)
    {
      threw := false;
      var ret := HandleRecive(conn);
      if !ret { return; }
      threw := HandleRequest(conn);
      if threw { return; }
      if heap[conn].outbuffer != "" {
        Sender(conn);
      }
    }

    /** The reading half of one report, if the descriptor is still in the table. The
        handler runs on the object `on`; afterwards the descriptor still leads to that
        object, or to none. */
    method OnInput(fd: int) returns (threw: bool, ghost on: Option<Addr>)
      requires Invariant()
      modifies this, kernel
      ensures on == if fd in old(connections) then Some(old(connections)[fd]) else None
      ensures on.None? ==> !threw && Now() == old(Now())
      ensures on.Some? && fd == listenFd ==>
                && !threw && Extends(old(Abs()), Abs())
                && exists n, fds, ps :: TookIn(old(Now()), Now(), n, fds, ps)
      ensures on.Some? && fd != listenFd ==>
                && on.value in old(heap) && on.value in old(books)
                && Now() == AfterInput(old(Now()), on.value, service) && threw == Throws(old(Now()), on.value)
      ensures fd in connections ==> on == Some(connections[fd])
      ensures !threw ==> Invariant()
      ensures threw ==> Oversized(Abs())
      ensures Elsewhere(old(Abs()), Abs(), fd) && Moved(old(Abs()), Abs())
    {
      threw, on := false, None;
      ghost var w, r, sends := Abs(), ReadAll(kernel.recvs), kernel.sends;
      if fd in connections {
        var conn := connections[fd];
        on := Some(conn);
        assert Entry(heap[conn], fd, kernel.interest[fd], listenFd);
        if heap[conn].listener {
          ghost var n, fds, ps := Accepter(conn);
          ExtendsMoves(w, Abs());
          AccepterElsewhere(w, Abs(), listenFd);
        } else {
          ReciverSameObject(w, conn, service, listenFd, r, sends);
          ReciverMoves(w, conn, service, r, sends);
          ReciverElsewhere(w, conn, service, listenFd, r, sends);
          threw := Reciver(conn);
          if threw {
            ThrewOversized(w, conn, service, r, sends);
          }
        }
      } else {
        MovedNot(w);
        ElsewhereNot(w, listenFd, fd);
      }
    }

    /** The writing half of one report, if the descriptor is still in the table, on the
        object `on`. */
    method OnOutput(fd: int) returns (ghost on: Option<Addr>)
      requires Invariant() && fd != listenFd
      modifies this, kernel
      ensures on == if fd in old(connections) then Some(old(connections)[fd]) else None
      ensures on.None? ==> Now() == old(Now())
      ensures on.Some? ==>
                && on.value in old(heap) && on.value in old(books)
                && Now() == AfterOutput(old(Now()), on.value)
      ensures Invariant() && Elsewhere(old(Abs()), Abs(), fd) && Moved(old(Abs()), Abs())
    {
      on := None;
      ghost var w, sends := Abs(), kernel.sends;
      if fd in connections {
        var conn := connections[fd];
        on := Some(conn);
        assert Entry(heap[conn], fd, kernel.interest[fd], listenFd) && AtRest(heap[conn], books[conn]);
        ghost var wr := WriteAll(heap[conn].outbuffer, sends);
        SenderKeeps(w, service, listenFd, conn, wr);
        SenderElsewhere(w, conn, listenFd, wr);
        SenderMoves(w, conn, wr);
        Sender(conn);
      } else {
        MovedNot(w);
        ElsewhereNot(w, listenFd, fd);
      }
    }

    /** Handle one report: errors are turned into reading and writing, and each handler
        is looked up in the table again. `mid` is what the writing half found. */
    method Dispatch(r: Report) returns (threw: bool, ghost mid: Situation)
      requires Invariant() && r.fd in connections
      requires r.events == Visible(r.events, kernel.interest[r.fd], r.fd == listenFd)
      modifies this, kernel
      ensures InputHalf(old(Now()), mid, r, service, listenFd) && OutputHalf(old(Now()), mid, Now(), r, listenFd)
      ensures threw == Stops(old(Now()), r, listenFd)
      ensures !threw ==> Invariant()
      ensures threw ==> Oversized(Abs())
      ensures Elsewhere(old(Abs()), Abs(), r.fd) && Moved(old(Abs()), Abs())
    {
      ghost var w := Abs();
      QuietListener(w, service, listenFd);
      assert Entry(heap[connections[r.fd]], r.fd, kernel.interest[r.fd], listenFd);
      MovedNot(w);
      ElsewhereNot(w, listenFd, r.fd);
      threw := false;
      var event := r.events;
      if event.error || event.hangup {
        event := event.(input := true, output := true);
      }
      if event.input {
        ghost var on;
        threw, on := OnInput(r.fd);
      }
      mid := Now();
      if !threw && event.output {
        ghost var on := OnOutput(r.fd);
        ElsewhereTwice(w, mid.world, Abs(), r.fd);
        MovedTwice(w, mid.world, Abs());
      }
    }

    /** What a batch needs to know of one report. */
    method HandleReport(r: Report) returns (threw: bool, ghost mid: Situation)
      requires Invariant() && r.fd in connections
      requires r.events == Visible(r.events, kernel.interest[r.fd], r.fd == listenFd)
      modifies this, kernel
      ensures Served(old(Now()), mid, Now(), r, service, listenFd)
      ensures threw == Stops(old(Now()), r, listenFd)
      ensures !threw ==> Invariant()
      ensures threw ==> Oversized(Abs())
      ensures Elsewhere(old(Abs()), Abs(), r.fd) && Moved(old(Abs()), Abs())
    {
      threw, mid := Dispatch(r);
    }

    /** The next report of a batch that began in `s0`. */
    method NextReport(reports: seq<Report>, i: nat, ghost s0: Situation, ghost course: seq<Situation>) returns (threw: bool)
      requires Invariant() && i < |reports| && Reportable(reports, s0.world.interest, listenFd)
      requires Pending(s0.world, Abs(), reports, i) && Underway(s0, Now(), course, reports, i, service, listenFd)
      modifies this, kernel
      ensures |course| == i + 1 && course[0] == s0 && threw == Stops(course[i], reports[i], listenFd)
      ensures Course(course + [Now()], reports, service, listenFd)
      ensures !threw ==> Invariant() && Underway(s0, Now(), course + [Now()], reports, i + 1, service, listenFd)
      ensures threw ==> Oversized(Abs())
      ensures Pending(s0.world, Abs(), reports, i + 1)
    {
      ghost var before := Now();
      PendingFinds(s0.world, before.world, reports, i, listenFd);
      ghost var mid;
      threw, mid := HandleReport(reports[i]);
      UnderwayNext(s0, before, mid, Now(), course, reports, i, service, listenFd);
      PendingNext(s0.world, before.world, Abs(), reports, i, listenFd);
    }

    /** One batch. `course` holds the situations it goes through, the one it began in and
        the one after each report. */
    method LoopOnce(reports: seq<Report>) returns (threw: bool, ghost course: seq<Situation>)
      requires Invariant() && Reportable(reports, kernel.interest, listenFd)
      modifies this, kernel
      ensures Course(course, reports, service, listenFd)
      ensures course[0] == old(Now()) && course[|course| - 1] == Now()
      ensures if threw then |course| > 1 && Stops(course[|course| - 2], reports[|course| - 2], listenFd)
              else |course| == |reports| + 1
      ensures !threw ==> Invariant()
      ensures threw ==> Oversized(Abs())
      ensures Moved(old(Abs()), Abs())
    {
      ghost var s0 := Now();
      threw, course := false, [Now()];
      PendingFirst(s0.world, service, reports, listenFd);
      UnderwayFirst(s0, reports, service, listenFd);
      for i := 0 to |reports|
        invariant !threw && Invariant() && Pending(s0.world, Abs(), reports, i)
        invariant Underway(s0, Now(), course, reports, i, service, listenFd)
      {
        threw := NextReport(reports, i, s0, course);
        course := course + [Now()];
        if threw {
          PendingMoved(s0.world, Abs(), reports, i + 1);
          return;
        }
      }
      UnderwayIs(s0, Now(), course, reports, |reports|, service, listenFd);
      PendingMoved(s0.world, Abs(), reports, |reports|);
    }

    /** The dispatcher over any sequence of batches the kernel may report: `courses`
        holds the course of each batch it took up, `taken` the reports in it. */
    method Dispatcher(batches: seq<seq<Report>>)
      returns (threw: bool, ghost taken: seq<seq<Report>>, ghost courses: seq<seq<Situation>>)
      requires Invariant()
      modifies this, kernel
      ensures Chained(courses, taken, batches, old(Now()), Now(), service, listenFd)
      ensures |courses| == |taken| <= |batches| && (!threw ==> |taken| == |batches|)
      ensures !threw ==> Invariant()
      ensures threw ==> Oversized(Abs())
      ensures Moved(old(Abs()), Abs())
    {
      threw, taken, courses := false, [], [];
      MovedNot(Abs());
      for i := 0 to |batches|
        invariant !threw && Invariant() && Moved(old(Abs()), Abs())
        invariant |courses| == |taken| == i && Chained(courses, taken, batches, old(Now()), Now(), service, listenFd)
        invariant i > 0 ==> |courses[i - 1]| == |taken[i - 1]| + 1
      {
        ghost var before := Now();
        var reports := kernel.Wait(batches[i], listenFd);
        ghost var course;
        threw, course := LoopOnce(reports);
        MovedTwice(old(Abs()), before.world, Abs());
        ChainedNext(courses, taken, batches, old(Now()), before, course, reports, service, listenFd);
        taken, courses := taken + [reports], courses + [course];
        if threw { return; }
      }
    }
  }
}
