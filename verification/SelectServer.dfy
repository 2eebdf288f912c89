/** The select server's table of descriptors: an array of slots, rebuilt into a bitmap
    before every select and scanned after it. */
module SelectServer {
  import opened Text

  const FD_SIZE: nat := 1024
  const NO_FD: int := -1

  datatype Event = Nothing | ReadEvent

  datatype Slot = Slot(fd: int, event: Event)

  type Table = seq<Slot>

  /** What recv gives: some bytes, or the end of the connection or an error. */
  datatype Received = Data(bytes: string) | Broken

  /** What one select gives, and what accept and recv then return. */
  datatype Turn = Timeout | Failed | Fired(bits: set<int>, client: int, recv: map<int, Received>)

  const EMPTY := Slot(NO_FD, Nothing)

  /** The listening socket sits in slot 0, live descriptors are watched for reading and
      pairwise different, and the other live slots hold exactly the open connections. */
  ghost predicate Tidy(t: Table, listenFd: int, open: set<int>) {
    && |t| == FD_SIZE && t[0] == Slot(listenFd, ReadEvent) && listenFd >= 0
    && (forall i :: 0 <= i < |t| ==> t[i] == EMPTY || (t[i].fd >= 0 && t[i].event == ReadEvent))
    && (forall i, j :: 0 <= i < j < |t| && t[i].fd != NO_FD ==> t[i].fd != t[j].fd)
    && (forall i :: 0 < i < |t| && t[i].fd != NO_FD ==> t[i].fd in open)
    && (forall f :: f in open ==> InTable(t, f))
  }

  ghost predicate InTable(t: Table, f: int) {
    f >= 0 && exists i :: 0 < i < |t| && t[i].fd == f
  }

  /** The table after a connection was accepted: it takes the first free slot, if any. */
  function Placed(t: Table, client: int, pos: nat): (r: Table)
    requires 0 < pos <= |t|
    ensures |r| == |t|
    decreases |t| - pos
  {
    if pos == |t| then t
    else if t[pos].fd == NO_FD then t[pos := Slot(client, ReadEvent)]
    else Placed(t, client, pos + 1)
  }

  /** No slot but that of the listening socket is free. */
  ghost predicate Full(t: Table) {
    forall i :: 0 < i < |t| ==> t[i].fd != NO_FD
  }

  /** The table after the ready connections in the first `n` slots were served: the
      broken ones are gone. */
  function Swept(t: Table, ready: set<int>, recv: map<int, Received>, n: nat): (r: Table)
    requires n <= |t|
    ensures |r| == |t|
    ensures forall i :: 0 <= i < |t| ==>
      r[i] == if 0 < i < n && t[i].fd in ready && Outcome(recv, t[i].fd).Broken? then EMPTY else t[i]
  {
    if n <= 1 then t
    else
      var before := Swept(t, ready, recv, n - 1);
      if t[n - 1].fd in ready && Outcome(recv, t[n - 1].fd).Broken? then before[n - 1 := EMPTY] else before
  }

  function Outcome(recv: map<int, Received>, fd: int): Received {
    if fd in recv then recv[fd] else Broken
  }

  /** The ready connections, in the order of their slots. */
  function Ready(t: Table, ready: set<int>, n: nat): seq<int>
    requires n <= |t|
  {
    if n <= 1 then []
    else Ready(t, ready, n - 1) + (if t[n - 1].fd in ready then [t[n - 1].fd] else [])
  }

  /** The bytes up to the first NUL. */
  function CString(s: string): string {
    if s == "" || s[0] == '\0' then "" else [s[0]] + CString(s[1..])
  }

  /** The reply to what was received: the last byte is cut off. */
  function Echo(bytes: string): string {
    CString(if bytes == "" then "" else bytes[..|bytes| - 1]) + " server echo: "
  }

  function Replies(served: seq<int>, recv: map<int, Received>): seq<(int, string)> {
    if served == [] then []
    else
      var n := |served| - 1;
      var o := Outcome(recv, served[n]);
      Replies(served[..n], recv) + (if o.Data? then [(served[n], Echo(o.bytes))] else [])
  }

  // ------------------------------------------------------------ the lemmas

  /** A line without NUL comes back without its last byte and with the mark of the echo;
      what follows a NUL is dropped. */
  lemma {:induction false} EchoIs(line: string, last: char, rest: string)
    requires forall i :: 0 <= i < |line| ==> line[i] != '\0'
    ensures Echo(line + [last]) == line + " server echo: "
    ensures Echo(line + ['\0'] + rest + [last]) == line + " server echo: "
  {
    assert (line + [last])[..|line|] == line + "";
    UpToNul(line, "");
    var t := line + ['\0'] + rest + [last];
    assert t[..|t| - 1] == line + (['\0'] + rest);
    UpToNul(line, ['\0'] + rest);
  }

  lemma {:induction false} UpToNul(line: string, tail: string)
    requires forall i :: 0 <= i < |line| ==> line[i] != '\0'
    requires tail == "" || tail[0] == '\0'
    ensures CString(line + tail) == line
  {
    if line == "" {
      assert line + tail == tail;
    } else {
      assert (line + tail)[1..] == line[1..] + tail;
      UpToNul(line[1..], tail);
    }
  }

  lemma {:induction false} OneMore(open: set<int>, f: int)
    requires f !in open
    ensures multiset(open + {f}) == multiset(open) + multiset{f}
  {
  }

  /** The search stops at the first free slot. */
  lemma {:induction false} PlacedFirst(t: Table, client: int, pos: nat, i: nat)
    requires 0 < pos <= i <= |t| && forall k :: pos <= k < i ==> t[k].fd != NO_FD
    requires i < |t| ==> t[i].fd == NO_FD
    decreases i - pos
    ensures Placed(t, client, pos) == if i < |t| then t[i := Slot(client, ReadEvent)] else t
  {
    if pos < i {
      PlacedFirst(t, client, pos + 1, i);
    }
  }

  lemma {:induction false} StillInTable(t: Table, i: nat, slot: Slot, f: int)
    requires 0 < i < |t| && InTable(t, f) && t[i].fd != f
    ensures InTable(t[i := slot], f)
  {
    var j :| 0 < j < |t| && t[j].fd == f;
    assert t[i := slot][j].fd == f;
  }

  lemma {:induction false} FilledTidy(t: Table, listenFd: int, open: set<int>, client: int, i: nat)
    requires Tidy(t, listenFd, open) && client >= 0 && client !in open && client != listenFd
    requires 0 < i < |t| && t[i].fd == NO_FD
    ensures Tidy(t[i := Slot(client, ReadEvent)], listenFd, open + {client})
  {
    var r := t[i := Slot(client, ReadEvent)];
    forall f | f in open + {client} ensures InTable(r, f) {
      if f == client {
        assert r[i].fd == f;
      } else {
        StillInTable(t, i, Slot(client, ReadEvent), f);
      }
    }
    forall k | 0 <= k < |t| && t[k].fd != NO_FD ensures t[k].fd != client {
      assert k == 0 || t[k].fd in open;
    }
  }

  /** Emptying one slot closes one connection. */
  lemma {:induction false} EmptiedTidy(t: Table, listenFd: int, open: set<int>, i: nat)
    requires Tidy(t, listenFd, open) && 0 < i < |t| && t[i].fd != NO_FD
    ensures t[i].fd in open && Tidy(t[i := EMPTY], listenFd, open - {t[i].fd})
  {
    forall f | f in open - {t[i].fd} ensures InTable(t[i := EMPTY], f) {
      StillInTable(t, i, EMPTY, f);
    }
  }

  /** A scan serves every ready connection once and nothing else. */
  lemma {:induction false} ReadyOnce(t: Table, listenFd: int, open: set<int>, ready: set<int>, n: nat)
    requires Tidy(t, listenFd, open) && n <= |t| && NO_FD !in ready
    ensures var s := Ready(t, ready, n);
            && (forall i, j :: 0 <= i < j < |s| ==> s[i] != s[j])
            && (forall f :: f in s <==> exists i :: 0 < i < n && t[i].fd == f && f in ready)
  {
    if n > 1 {
      ReadyOnce(t, listenFd, open, ready, n - 1);
      var s := Ready(t, ready, n - 1);
      forall f | f in s ensures f != t[n - 1].fd {
        var i :| 0 < i < n - 1 && t[i].fd == f && f in ready;
      }
      forall f ensures f in Ready(t, ready, n) <==> f in s || (f == t[n - 1].fd && f in ready) {
      }
    }
  }

  function AfterAccept(t: Table, listenFd: int, ready: set<int>, client: int): (r: Table)
    requires |t| > 0
    ensures |r| == |t|
  {
    if listenFd in ready && client >= 0 then Placed(t, client, 1) else t
  }

  lemma {:induction false} PlacedChanges(t: Table, client: int, pos: nat)
    requires 0 < pos <= |t|
    ensures var r := Placed(t, client, pos);
            && |r| == |t|
            && forall i :: 0 <= i < |t| ==>
                 r[i] == t[i] || (i >= pos && t[i].fd == NO_FD && r[i] == Slot(client, ReadEvent))
    decreases |t| - pos
  {
    if pos < |t| && t[pos].fd != NO_FD {
      PlacedChanges(t, client, pos + 1);
    }
  }

  /** A connection accepted during a scan is not ready in that scan. */
  lemma {:induction false} AcceptKeepsReady(t: Table, listenFd: int, open: set<int>, ready: set<int>, client: int)
    requires Tidy(t, listenFd, open) && ready <= open + {listenFd}
    requires client < 0 || (client !in open && client != listenFd)
    ensures var t1 := AfterAccept(t, listenFd, ready, client);
            && |t1| == |t| && t1[0] == t[0]
            && Ready(t1, ready, |t|) == Ready(t, ready, |t|)
            && (client >= 0 ==> client !in Ready(t1, ready, |t|))
  {
    assert forall f :: f in open ==> f >= 0 by {
      assert forall f :: f in open ==> InTable(t, f);
    }
    PlacedChanges(t, client, 1);
    SameReady(t, AfterAccept(t, listenFd, ready, client), ready, |t|);
    ReadyOnce(t, listenFd, open, ready, |t|);
  }

  lemma {:induction false} SameReady(t: Table, t1: Table, ready: set<int>, n: nat)
    requires |t| == |t1| && n <= |t|
    requires forall i :: 0 <= i < |t| ==> t1[i] == t[i] || (t1[i].fd !in ready && t[i].fd !in ready)
    ensures Ready(t1, ready, n) == Ready(t, ready, n)
  {
    if n > 1 {
      SameReady(t, t1, ready, n - 1);
    }
  }

  lemma {:induction false} SweptNext(t: Table, ready: set<int>, recv: map<int, Received>, i: nat)
    requires i < |t|
    ensures Equals(Swept(t, ready, recv, i + 1),
                   if i > 0 && t[i].fd in ready && Outcome(recv, t[i].fd).Broken?
                   then Swept(t, ready, recv, i)[i := EMPTY] else Swept(t, ready, recv, i))
  {
  }

  /** The reply the scan of one more slot adds. */
  lemma {:induction false} RepliesNext(t: Table, ready: set<int>, recv: map<int, Received>, i: nat, sent: seq<(int, string)>)
    requires i < |t|
    ensures Equals(sent + Replies(Ready(t, ready, i + 1), recv),
                   if i > 0 && t[i].fd in ready && Outcome(recv, t[i].fd).Data?
                   then sent + Replies(Ready(t, ready, i), recv) + [(t[i].fd, Echo(Outcome(recv, t[i].fd).bytes))]
                   else sent + Replies(Ready(t, ready, i), recv))
  {
    var s := Ready(t, ready, i);
    if i > 0 {
      assert s + [] == s && (s + [t[i].fd])[..|s|] == s;
    }
    assert Replies(s, recv) + [] == Replies(s, recv);
    var o := Outcome(recv, t[i].fd);
    if i > 0 && t[i].fd in ready && o.Data? {
      assert sent + (Replies(s, recv) + [(t[i].fd, Echo(o.bytes))]) == sent + Replies(s, recv) + [(t[i].fd, Echo(o.bytes))];
    }
  }

  /** Every time a descriptor was accepted it was closed again, except at most once: then
      it is in exactly one slot. */
  lemma {:induction false} AcceptedOnce(t: Table, listenFd: int, open: set<int>, accepts: multiset<int>, closes: multiset<int>, f: int)
    requires Tidy(t, listenFd, open) && accepts == closes + multiset(open)
    ensures accepts[f] == closes[f] + if InTable(t, f) then 1 else 0
    ensures forall i, j :: 0 < i < j < |t| && t[i].fd == f && f != NO_FD ==> t[j].fd != f
  {
    if InTable(t, f) {
      var i :| 0 < i < |t| && t[i].fd == f;
      assert f in open;
    }
  }

  // ---------------------------------------------------- turns of the server loop

  function Live(t: Table): set<int> {
    set i | 0 <= i < |t| && t[i].fd != NO_FD :: t[i].fd
  }

  /** The live descriptors are the listening socket and the open connections. */
  lemma {:induction false} LiveIs(t: Table, listenFd: int, open: set<int>)
    requires Tidy(t, listenFd, open)
    ensures Live(t) == open + {listenFd}
  {
    forall f ensures f in Live(t) <==> f in open + {listenFd} {
      if f in open {
        assert InTable(t, f);
        var i :| 0 < i < |t| && t[i].fd == f;
        assert t[i].fd in Live(t);
      } else if f == listenFd {
        assert t[0].fd in Live(t);
      }
    }
  }

  /** What select hands on: of the bits it has set those that were watched; accept gives no
      descriptor in use. */
  function Watched(t: Table, turn: Turn): Turn {
    match turn
    case Fired(bits, client, recv) => Fired(bits * Live(t), if client in Live(t) then NO_FD else client, recv)
    case _ => turn
  }

  /** The table after one turn of the loop, and the replies sent in it. */
  function TableAfter(t: Table, listenFd: int, turn: Turn): (r: Table)
    requires |t| == FD_SIZE
    ensures |r| == FD_SIZE
  {
    match Watched(t, turn)
    case Fired(ready, client, recv) => Swept(AfterAccept(t, listenFd, ready, client), ready, recv, FD_SIZE)
    case _ => t
  }

  function SentIn(t: Table, turn: Turn): seq<(int, string)>
    requires |t| == FD_SIZE
  {
    match Watched(t, turn)
    case Fired(ready, client, recv) => Replies(Ready(t, ready, FD_SIZE), recv)
    case _ => []
  }

  /** The table after all turns of a script, and the replies sent in them. */
  function TableRun(t: Table, listenFd: int, script: seq<Turn>): (r: Table)
    requires |t| == FD_SIZE
    ensures |r| == FD_SIZE
  {
    if script == [] then t
    else TableAfter(TableRun(t, listenFd, script[..|script| - 1]), listenFd, script[|script| - 1])
  }

  function SentRun(t: Table, listenFd: int, script: seq<Turn>): seq<(int, string)>
    requires |t| == FD_SIZE
  {
    if script == [] then []
    else
      var n := |script| - 1;
      SentRun(t, listenFd, script[..n]) + SentIn(TableRun(t, listenFd, script[..n]), script[n])
  }

  lemma {:induction false} NextTurn(t: Table, listenFd: int, script: seq<Turn>, k: nat, sent: seq<(int, string)>)
    requires |t| == FD_SIZE && k < |script|
    ensures var t1 := TableRun(t, listenFd, script[..k]);
            && Equals(TableRun(t, listenFd, script[..k + 1]), TableAfter(t1, listenFd, script[k]))
            && Equals(sent + SentRun(t, listenFd, script[..k + 1]),
                      sent + SentRun(t, listenFd, script[..k]) + SentIn(t1, script[k]))
  {
    assert script[..k + 1][..k] == script[..k];
    var a, b := SentRun(t, listenFd, script[..k]), SentIn(TableRun(t, listenFd, script[..k]), script[k]);
    assert sent + (a + b) == sent + a + b;
  }

  /** The replies to one client, in order. */
  function To(sent: seq<(int, string)>, f: int): seq<string> {
    if sent == [] then []
    else To(sent[..|sent| - 1], f) + (if sent[|sent| - 1].0 == f then [sent[|sent| - 1].1] else [])
  }

  lemma {:induction false} ToAppend(a: seq<(int, string)>, b: seq<(int, string)>, f: int)
    ensures To(a + b, f) == To(a, f) + To(b, f)
  {
    if b == [] {
      assert a + b == a && To(a, f) + [] == To(a, f);
    } else {
      var n := |b| - 1;
      assert (a + b)[..|a + b| - 1] == a + b[..n];
      ToAppend(a, b[..n], f);
    }
  }

  /** The replies to one of the connections served. */
  function ReplyTo(fd: int, recv: map<int, Received>): seq<(int, string)> {
    var o := Outcome(recv, fd);
    if o.Data? then [(fd, Echo(o.bytes))] else []
  }

  lemma {:induction false} OneReplyTo(fd: int, recv: map<int, Received>, f: int)
    ensures To(ReplyTo(fd, recv), f) ==
              if fd == f && Outcome(recv, f).Data? then [Echo(Outcome(recv, f).bytes)] else []
  {
    assert ReplyTo(fd, recv) != [] ==> ReplyTo(fd, recv)[..0] == [];
  }

  lemma {:induction false} NotServed(served: seq<int>, recv: map<int, Received>, f: int)
    requires f !in served
    ensures To(Replies(served, recv), f) == []
  {
    if served != [] {
      var n := |served| - 1;
      NotServed(served[..n], recv, f);
      OneReplyTo(served[n], recv, f);
      ToAppend(Replies(served[..n], recv), ReplyTo(served[n], recv), f);
    }
  }

  lemma {:induction false} RepliesTo(served: seq<int>, recv: map<int, Received>, f: int)
    requires forall i, j :: 0 <= i < j < |served| ==> served[i] != served[j]
    ensures To(Replies(served, recv), f) ==
              if f in served && Outcome(recv, f).Data? then [Echo(Outcome(recv, f).bytes)] else []
  {
    if f !in served {
      NotServed(served, recv, f);
    } else {
      var n := |served| - 1;
      OneReplyTo(served[n], recv, f);
      ToAppend(Replies(served[..n], recv), ReplyTo(served[n], recv), f);
      if f == served[n] {
        NotServed(served[..n], recv, f);
      } else {
        RepliesTo(served[..n], recv, f);
      }
    }
  }

  /** What one turn answers to a client: to one that is connected and ready, the echo of
      what it sent, once; to anyone else nothing. */
  function AnswerIn(t: Table, turn: Turn, f: int): seq<string> {
    match turn
    case Fired(bits, _, recv) =>
      if f in Connections(t) && f in bits && Outcome(recv, f).Data? then [Echo(Outcome(recv, f).bytes)] else []
    case _ => []
  }

  /** The connections in the table: every slot but that of the listening socket. */
  function Connections(t: Table): set<int> {
    set i | 0 < i < |t| && t[i].fd != NO_FD :: t[i].fd
  }

  lemma {:induction false} ConnectionsAre(t: Table, listenFd: int, open: set<int>)
    requires Tidy(t, listenFd, open)
    ensures Connections(t) == open && listenFd !in open
  {
    forall f ensures f in Connections(t) <==> f in open {
      if f in open {
        assert InTable(t, f);
        var i :| 0 < i < |t| && t[i].fd == f;
        assert t[i].fd in Connections(t);
      }
    }
    assert listenFd in open ==> InTable(t, listenFd);
  }

  lemma {:induction false} TurnAnswers(t: Table, listenFd: int, open: set<int>, turn: Turn, f: int)
    requires Tidy(t, listenFd, open)
    ensures To(SentIn(t, turn), f) == AnswerIn(t, turn, f)
  {
    match Watched(t, turn)
    case Fired(ready, client, recv) =>
      LiveIs(t, listenFd, open);
      ConnectionsAre(t, listenFd, open);
      assert NO_FD !in ready;
      ReadyOnce(t, listenFd, open, ready, FD_SIZE);
      RepliesTo(Ready(t, ready, FD_SIZE), recv, f);
      if f in open {
        assert InTable(t, f);
      }
    case _ =>
  }

  /** What a turn does to the connections: it closes those that were ready and broken, and
      adds the accepted one, if there is a free slot. */
  lemma {:induction false} TurnConnects(t: Table, listenFd: int, open: set<int>, turn: Turn)
    requires Tidy(t, listenFd, open)
    ensures match Watched(t, turn)
            case Fired(ready, client, recv) =>
              forall f :: f in Connections(TableAfter(t, listenFd, turn)) <==>
                          (f in open && !(f in ready && Outcome(recv, f).Broken?))
                          || (f == client && client >= 0 && listenFd in ready && !Full(t))
            case _ => TableAfter(t, listenFd, turn) == t
  {
    match Watched(t, turn)
    case Fired(ready, client, recv) =>
      LiveIs(t, listenFd, open);
      ConnectionsAre(t, listenFd, open);
      var t1 := AfterAccept(t, listenFd, ready, client);
      var t2 := Swept(t1, ready, recv, FD_SIZE);
      AcceptConnects(t, listenFd, open, ready, client);
      forall f ensures f in Connections(t2) <==> f in Connections(t1) && !(f in ready && Outcome(recv, f).Broken?) {
        if f in Connections(t1) {
          var i :| 0 < i < |t1| && t1[i].fd != NO_FD && t1[i].fd == f;
          assert t2[i] == if f in ready && Outcome(recv, f).Broken? then EMPTY else t1[i];
        }
      }
    case _ =>
  }

  lemma {:induction false} AcceptConnects(t: Table, listenFd: int, open: set<int>, ready: set<int>, client: int)
    requires Tidy(t, listenFd, open) && (client < 0 || (client !in open && client != listenFd))
    ensures forall f :: f in Connections(AfterAccept(t, listenFd, ready, client)) <==>
                        f in open || (f == client && client >= 0 && listenFd in ready && !Full(t))
  {
    ConnectionsAre(t, listenFd, open);
    var t1 := AfterAccept(t, listenFd, ready, client);
    if listenFd in ready && client >= 0 {
      var i := FirstFree(t, 1);
      PlacedFirst(t, client, 1, i);
      if i < |t| {
        assert t1 == t[i := Slot(client, ReadEvent)];
        forall f ensures f in Connections(t1) <==> f in open || f == client {
          if f == client {
            assert t1[i].fd == f;
          } else if f in open {
            var j :| 0 < j < |t| && t[j].fd != NO_FD && t[j].fd == f;
            assert t1[j].fd == f;
          }
        }
      }
    }
  }

  function FirstFree(t: Table, pos: nat): (i: nat)
    requires pos <= |t|
    ensures pos <= i <= |t| && (i < |t| ==> t[i].fd == NO_FD)
    ensures forall k :: pos <= k < i ==> t[k].fd != NO_FD
    decreases |t| - pos
  {
    if pos == |t| || t[pos].fd == NO_FD then pos else FirstFree(t, pos + 1)
  }

  /** What all turns of a script answer to a client. */
  function AnswersTo(t: Table, listenFd: int, script: seq<Turn>, f: int): seq<string>
    requires |t| == FD_SIZE
  {
    if script == [] then []
    else
      var n := |script| - 1;
      AnswersTo(t, listenFd, script[..n], f) + AnswerIn(TableRun(t, listenFd, script[..n]), script[n], f)
  }

  /** Over any sequence of select results, each client gets the echo of every message that
      came while it was connected and ready, once and in order, and nothing else. */
  lemma {:induction false} RunAnswers(t: Table, listenFd: int, open: set<int>, script: seq<Turn>, f: int)
    requires Tidy(t, listenFd, open)
    ensures To(SentRun(t, listenFd, script), f) == AnswersTo(t, listenFd, script, f)
    ensures Tidy(TableRun(t, listenFd, script), listenFd, Connections(TableRun(t, listenFd, script)))
  {
    ConnectionsAre(t, listenFd, open);
    if script != [] {
      var n := |script| - 1;
      RunAnswers(t, listenFd, open, script[..n], f);
      var t1 := TableRun(t, listenFd, script[..n]);
      ToAppend(SentRun(t, listenFd, script[..n]), SentIn(t1, script[n]), f);
      TurnAnswers(t1, listenFd, Connections(t1), script[n], f);
      TurnTidy(t1, listenFd, Connections(t1), script[n]);
    }
  }

  /** A turn keeps the table tidy. */
  lemma {:induction false} TurnTidy(t: Table, listenFd: int, open: set<int>, turn: Turn)
    requires Tidy(t, listenFd, open)
    ensures Tidy(TableAfter(t, listenFd, turn), listenFd, Connections(TableAfter(t, listenFd, turn)))
  {
    ConnectionsAre(t, listenFd, open);
    match Watched(t, turn)
    case Fired(ready, client, recv) =>
      LiveIs(t, listenFd, open);
      var t1 := AfterAccept(t, listenFd, ready, client);
      AcceptTidy(t, listenFd, open, ready, client);
      SweptTidy(t1, listenFd, Connections(t1), ready, recv);
    case _ =>
  }

  lemma {:induction false} AcceptTidy(t: Table, listenFd: int, open: set<int>, ready: set<int>, client: int)
    requires Tidy(t, listenFd, open) && (client < 0 || (client !in open && client != listenFd))
    ensures var t1 := AfterAccept(t, listenFd, ready, client); Tidy(t1, listenFd, Connections(t1))
  {
    ConnectionsAre(t, listenFd, open);
    var i := FirstFree(t, 1);
    PlacedFirst(t, client, 1, i);
    if listenFd in ready && client >= 0 && i < |t| {
      FilledTidy(t, listenFd, open, client, i);
      ConnectionsAre(t[i := Slot(client, ReadEvent)], listenFd, open + {client});
    }
  }

  lemma {:induction false} SweptTidy(t: Table, listenFd: int, open: set<int>, ready: set<int>, recv: map<int, Received>)
    requires Tidy(t, listenFd, open)
    ensures var r := Swept(t, ready, recv, FD_SIZE); Tidy(r, listenFd, Connections(r))
  {
    var r := Swept(t, ready, recv, FD_SIZE);
    forall f | f in Connections(r) ensures InTable(r, f) {
      var i :| 0 < i < |r| && r[i].fd != NO_FD && r[i].fd == f;
    }
    forall i | 0 < i < |r| && r[i].fd != NO_FD ensures r[i].fd in Connections(r) {
    }
  }

  // -------------------------------------------------------------- the server

  class SelectServer {
    const listenFd: int
    const fdArray: array<Slot>
    var open: set<int>                 // the kernel's view: connections not closed yet
    ghost var accepts: multiset<int>   // history: descriptors accept has returned
    ghost var closes: multiset<int>    // history: descriptors closed
    ghost var sent: seq<(int, string)> // history: replies sent

    /** The table is tidy, and every connection ever accepted is either in its one slot or
        has been closed once. */
    ghost predicate Valid()
      reads this, fdArray
    {
      && Tidy(fdArray[..], listenFd, open)
      && accepts == closes + multiset(open)
    }

    constructor (listenFd: int)
      requires listenFd >= 0
      ensures Valid() && fresh(fdArray) && this.listenFd == listenFd
      ensures open == {} && accepts == closes == multiset{} && sent == []
    {
      this.listenFd := listenFd;
      fdArray := new Slot[FD_SIZE](i => EMPTY);
      open, accepts, closes, sent := {}, multiset{}, multiset{}, [];
      new;
      fdArray[0] := Slot(listenFd, ReadEvent);
    }

    /** The bitmap handed to select is exactly the live descriptors, and the bound is
        their largest. */
    method Collect() returns (rdfds: set<int>, maxfd: int)
      requires Valid()
      ensures rdfds == open + {listenFd}
      ensures maxfd in rdfds && forall f :: f in rdfds ==> f <= maxfd
    {
      rdfds, maxfd := {}, fdArray[0].fd;
      for i := 0 to FD_SIZE
        invariant forall k :: 0 <= k < i && fdArray[k].fd != NO_FD ==> fdArray[k].fd in rdfds
        invariant forall f :: f in rdfds ==> f in open + {listenFd} && f <= maxfd
        invariant maxfd == listenFd || maxfd in rdfds
      {
        if fdArray[i].fd == NO_FD {
          continue;
        }
        if fdArray[i].event == ReadEvent {
          rdfds := rdfds + {fdArray[i].fd};
        }
        if fdArray[i].fd > maxfd {
          maxfd := fdArray[i].fd;
        }
      }
      assert fdArray[..][0].fd == listenFd && listenFd in rdfds;
      forall f | f in open ensures f in rdfds {
        assert InTable(fdArray[..], f);
        var i :| 0 < i < FD_SIZE && fdArray[..][i].fd == f;
      }
      assert forall f :: f in open + {listenFd} <==> f in rdfds;
      assert rdfds == open + {listenFd};
    }

    /** Accepting puts the new connection into the first free slot, or closes it. */
    method Accepter(client: int)
      requires Valid() && (client < 0 || (client !in open && client != listenFd))
      modifies this, fdArray
      ensures Valid() && sent == old(sent)
      ensures fdArray[..] == if client < 0 then old(fdArray[..]) else Placed(old(fdArray[..]), client, 1)
      ensures open == if client < 0 || Full(old(fdArray[..])) then old(open) else old(open) + {client}
      ensures accepts == if client < 0 then old(accepts) else old(accepts) + multiset{client}
    {
      if client < 0 {
        return;
      }
      ghost var t := fdArray[..];
      accepts := accepts + multiset{client};
      var pos := 1;
      while pos < FD_SIZE
        invariant 1 <= pos <= FD_SIZE
        invariant forall i :: 0 < i < pos ==> t[i].fd != NO_FD
      {
        if fdArray[pos].fd == NO_FD {
          break;
        }
        pos := pos + 1;
      }
      PlacedFirst(t, client, 1, pos);
      if pos >= FD_SIZE {
        closes := closes + multiset{client};
      } else {
        fdArray[pos] := Slot(client, ReadEvent);
        assert fdArray[..] == t[pos := Slot(client, ReadEvent)];
        FilledTidy(t, listenFd, open, client, pos);
        OneMore(open, client);
        open := open + {client};
      }
    }

    /** Serving a connection answers what came, or closes it and frees its slot. */
    method IOService(i: nat, received: Received)
      requires Valid() && 0 < i < FD_SIZE && fdArray[i].fd != NO_FD
      modifies this, fdArray
      ensures Valid() && accepts == old(accepts)
      ensures fdArray[..] == if received.Broken? then old(fdArray[..])[i := EMPTY] else old(fdArray[..])
      ensures open == if received.Broken? then old(open) - {old(fdArray[i].fd)} else old(open)
      ensures closes == if received.Broken? then old(closes) + multiset{old(fdArray[i].fd)} else old(closes)
      ensures sent == if received.Data? then old(sent) + [(old(fdArray[i].fd), Echo(received.bytes))] else old(sent)
    {
      var fd := fdArray[i].fd;
      EmptiedTidy(fdArray[..], listenFd, open, i);
      match received
      case Data(bytes) =>
        sent := sent + [(fd, Echo(bytes))];
      case Broken =>
        closes := closes + multiset{fd};
        open := open - {fd};
        fdArray[i] := EMPTY;
    }

    /** One scan after select: the new connection, if the listening socket was ready, is
        placed and not served; every ready connection is served once, in slot order; the
        broken ones are closed and everything else stays. */
    method HandlerEvent(ready: set<int>, client: int, recv: map<int, Received>)
      requires Valid() && ready <= open + {listenFd}
      requires client < 0 || (client !in open && client != listenFd)
      modifies this, fdArray
      ensures Valid()
      ensures fdArray[..] == Swept(AfterAccept(old(fdArray[..]), listenFd, ready, client), ready, recv, FD_SIZE)
      ensures sent == old(sent) + Replies(Ready(old(fdArray[..]), ready, FD_SIZE), recv)
      ensures accepts == if listenFd in ready && client >= 0 then old(accepts) + multiset{client} else old(accepts)
    {
      ghost var t, t1 := fdArray[..], AfterAccept(fdArray[..], listenFd, ready, client);
      AcceptKeepsReady(t, listenFd, open, ready, client);
      assert old(sent) + [] == old(sent);
      for i := 0 to FD_SIZE
        invariant Valid()
        invariant i == 0 ==> fdArray[..] == t && open == old(open) && accepts == old(accepts)
        invariant i > 0 ==> Equals(fdArray[..], Swept(t1, ready, recv, i))
        invariant i > 0 ==> accepts == if listenFd in ready && client >= 0 then old(accepts) + multiset{client} else old(accepts)
        invariant Equals(sent, old(sent) + Replies(Ready(t1, ready, i), recv))
      {
        SweptNext(t1, ready, recv, i);
        RepliesNext(t1, ready, recv, i, old(sent));
        assert fdArray[..][i] == fdArray[i] == t1[i] && fdArray[..][0] == Slot(listenFd, ReadEvent);
        if fdArray[i].fd == NO_FD {
          continue;
        }
        if fdArray[i].event == ReadEvent && fdArray[i].fd in ready {
          if fdArray[i].fd == listenFd {
            Accepter(client);
          } else {
            IOService(i, Outcome(recv, fdArray[i].fd));
          }
        }
      }
    }

    /** One turn of the loop: select only leaves bits that were set, and accept never
        returns a descriptor in use. */
    method ServeTurn(turn: Turn)
      requires Valid()
      modifies this, fdArray
      ensures Valid() && old(accepts) <= accepts
      ensures fdArray[..] == TableAfter(old(fdArray[..]), listenFd, turn)
      ensures sent == old(sent) + SentIn(old(fdArray[..]), turn)
    {
      ghost var t, sent0 := fdArray[..], sent;
      LiveIs(t, listenFd, open);
      var rdfds, maxfd := Collect();
      match turn
      case Timeout => assert sent0 + [] == sent0;
      case Failed => assert sent0 + [] == sent0;
      case Fired(bits, client, recv) =>
        var accepted := if client in rdfds then NO_FD else client;
        assert Equals(rdfds, Live(t)) && Watched(t, turn) == Fired(bits * rdfds, accepted, recv);
        HandlerEvent(bits * rdfds, accepted, recv);
    }

    /** The loop of the server over any sequence of select results. */
    method StartServer(script: seq<Turn>)
      requires Valid()
      modifies this, fdArray
      ensures Valid() && old(accepts) <= accepts
      ensures fdArray[..] == TableRun(old(fdArray[..]), listenFd, script)
      ensures sent == old(sent) + SentRun(old(fdArray[..]), listenFd, script)
    {
      ghost var t, sent0 := fdArray[..], sent;
      assert sent0 + [] == sent0 && script[..0] == [];
      for k := 0 to |script|
        invariant Valid() && old(accepts) <= accepts
        invariant Equals(fdArray[..], TableRun(t, listenFd, script[..k]))
        invariant Equals(sent, sent0 + SentRun(t, listenFd, script[..k]))
      {
        NextTurn(t, listenFd, script, k, sent0);
        ServeTurn(script[k]);
      }
      assert script[..|script|] == script;
    }
  }
}
