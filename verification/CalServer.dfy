/** The first calculator server: one thread a client, one recv and at most one package a
    turn. */
module CalServer {
  import opened Text
  import opened Framing
  import opened Protocol

  /** How far the service of one client has come. `threw` stands for the exception of
      removeHeader. */
  datatype Session = Session(buffer: string, sent: string, over: bool, threw: bool)

  /** One turn of the loop; an empty chunk is the end of the connection or an error. */
  function Turn(service: Service, s: Session, chunk: string): Session {
    if s.over then s
    else if chunk == "" then s.(over := true)
    else
      match ReadPackage(s.buffer + chunk)
      case Incomplete => s.(buffer := s.buffer + chunk)
      case Package(len, package, rest) =>
        if len == -1 then s.(buffer := rest, over := true)     // taken for an error
        else if len == 0 then s.(buffer := rest)               // taken for incomplete
        else
          match RemoveHeader(package, len)
          case None => s.(buffer := rest, over := true, threw := true)
          case Some(p) => s.(buffer := rest, sent := s.sent + AddHeader(service.Answer(p)))
  }

  function Serve(service: Service, chunks: seq<string>): Session {
    if chunks == [] then Session("", "", false, false)
    else Turn(service, Serve(service, chunks[..|chunks| - 1]), chunks[|chunks| - 1])
  }

  /** readPackage of this server: receive once, then cut one package off. */
  method ReceivePackage(chunk: string, buffer: string) returns (n: int, package: string, inbuffer: string)
    ensures chunk == "" ==> n == -1 && inbuffer == buffer
    ensures chunk != "" ==>
              match ReadPackage(buffer + chunk)
              case Incomplete => n == 0 && inbuffer == buffer + chunk
              case Package(l, p, rest) => n == l && package == p && inbuffer == rest
  {
    n, package, inbuffer := -1, "", buffer;
    if chunk == "" { return; }
    inbuffer := inbuffer + chunk;
    n := 0;
    var pos := Find(inbuffer, CRLF, 0);
    if pos.None? { return; }
    var len := Atoi(inbuffer[..pos.value]);
    var total := TotalSize(len, pos.value);
    if total < 0 || total > |inbuffer| { return; }
    n, package, inbuffer := len, inbuffer[..total], inbuffer[total..];
  }

  /** The service loop over whatever recv gives. */
  method ServiceIO(service: Service, chunks: seq<string>) returns (sent: string, inbuffer: string, threw: bool)
    ensures var s := Serve(service, chunks);
            sent == s.sent && inbuffer == s.buffer && threw == s.threw
  {
    sent, inbuffer, threw := "", "", false;
    var i := 0;
    while i < |chunks|
      invariant i <= |chunks|
      invariant Serve(service, chunks[..i]) == Session(inbuffer, sent, false, false)
      invariant !threw
    {
      assert chunks[..i + 1][..i] == chunks[..i];
      var n, package;
      n, package, inbuffer := ReceivePackage(chunks[i], inbuffer);
      i := i + 1;
      if n == -1 {
        Stays(service, chunks, i);
        return;
      } else if n == 0 {
        continue;
      }
      var payload := RemoveHeader(package, n);
      if payload.None? {
        threw := true;
        Stays(service, chunks, i);
        return;
      }
      var resp := service.func(service.deserialize(payload.value));
      sent := sent + AddHeader(service.serialize(resp));
    }
    assert chunks[..|chunks|] == chunks;
  }

  /** A service that is over stays over. */
  lemma {:induction false} Stays(service: Service, chunks: seq<string>, k: nat)
    requires k <= |chunks| && Serve(service, chunks[..k]).over
    ensures Serve(service, chunks) == Serve(service, chunks[..k])
    decreases |chunks|
  {
    if k < |chunks| {
      var init := chunks[..|chunks| - 1];
      assert init[..k] == chunks[..k];
      Stays(service, init, k);
    } else {
      assert chunks[..k] == chunks;
    }
  }

  /** On a prefix of a stream every package that comes off is the next payload's. */
  lemma {:induction false} NextPackage(payloads: seq<string>, buffer: string)
    requires forall i :: 0 <= i < |payloads| ==> Carries(payloads[i])
    requires buffer <= Stream(payloads) && ReadPackage(buffer).Package?
    ensures payloads != [] && ReadPackage(buffer).len == |payloads[0]| > 0
    ensures RemoveHeader(ReadPackage(buffer).package, ReadPackage(buffer).len) == Some(payloads[0])
  {
    DrainOfPrefix(payloads, buffer);
    var frames := Drain(buffer).frames;
    assert frames[0] == Frame(ReadPackage(buffer).len, ReadPackage(buffer).package);
    assert frames[0] == FrameOf(payloads[0]);
    ReadsBackIffFits(payloads[0], "");
  }

  /** Whatever the chunks, a client that sends a prefix of a well-formed stream is sent
      the answers to a prefix of its payloads, in order, and the bytes not answered yet
      are in the buffer. */
  lemma {:induction false} ServesPrefix(service: Service, payloads: seq<string>, chunks: seq<string>)
    requires forall i :: 0 <= i < |payloads| ==> Carries(payloads[i])
    requires forall i :: 0 <= i < |chunks| ==> chunks[i] != ""
    requires Join(chunks) <= Stream(payloads)
    ensures var s, done := Serve(service, chunks), ReadChunks(chunks).payloads;
            && !s.over && !s.threw && done <= payloads
            && s.sent == service.Replies(done) && Stream(done) + s.buffer == Join(chunks)
  {
    OlderReaderYieldsPrefix(payloads, chunks);
    ServesAsRead(service, payloads, chunks);
  }

  lemma {:induction false} ServesAsRead(service: Service, payloads: seq<string>, chunks: seq<string>)
    requires forall i :: 0 <= i < |payloads| ==> Carries(payloads[i])
    requires forall i :: 0 <= i < |chunks| ==> chunks[i] != ""
    requires Join(chunks) <= Stream(payloads)
    ensures var r := ReadChunks(chunks);
            Serve(service, chunks) == Session(r.buffer, service.Replies(r.payloads), false, false)
  {
    if chunks == [] {
      assert service.Answers([]) == [];
    } else {
      var init, chunk := chunks[..|chunks| - 1], chunks[|chunks| - 1];
      assert Join(init) <= Stream(payloads);
      ServesAsRead(service, payloads, init);
      OlderReaderYieldsPrefix(payloads, init);
      var r := ReadChunks(init);
      Associate(Stream(r.payloads), r.buffer, chunk);
      assert r.payloads == payloads[..|r.payloads|];
      StillToCome(payloads, |r.payloads|, r.buffer + chunk);
      if ReadPackage(r.buffer + chunk).Package? {
        NextPackage(payloads[|r.payloads|..], r.buffer + chunk);
        RepliesSnoc(service, r.payloads, payloads[|r.payloads|]);
      }
    }
  }

  /** What this server has sent tells how many payloads it has answered. */
  lemma {:induction false} AnsweredAfter(service: Service, payloads: seq<string>, chunks: seq<string>, n: nat)
    requires forall i :: 0 <= i < |payloads| ==> Carries(payloads[i])
    requires forall i :: 0 <= i < |chunks| ==> chunks[i] != ""
    requires n <= |chunks| && Join(chunks) <= Stream(payloads)
    ensures AnsweredAll(service, payloads, chunks, n) <==> ReadAfter(chunks, n) == CompleteAfter(payloads, chunks, n)
  {
    JoinPrefix(chunks, n);
    ServesPrefix(service, payloads, chunks[..n]);
    var done := ReadChunks(chunks[..n]).payloads;
    assert payloads[..|done|] == done;
    RepliesTell(service, payloads, |done|, CompleteAfter(payloads, chunks, n));
  }

  /** Everything complete in the first `n` chunks has been answered. */
  ghost predicate AnsweredAll(service: Service, payloads: seq<string>, chunks: seq<string>, n: nat)
    requires n <= |chunks|
  {
    Serve(service, chunks[..n]).sent == service.Replies(payloads[..CompleteAfter(payloads, chunks, n)])
  }

  /** This server has answered every complete request after every chunk exactly when no
      chunk completes more than one. */
  lemma {:induction false} AnswersAllIff(service: Service, payloads: seq<string>, chunks: seq<string>)
    requires forall i :: 0 <= i < |payloads| ==> Carries(payloads[i])
    requires forall i :: 0 <= i < |chunks| ==> chunks[i] != ""
    requires Join(chunks) <= Stream(payloads)
    ensures (forall n: nat :: n <= |chunks| ==> AnsweredAll(service, payloads, chunks, n)) <==> OneAtATime(payloads, chunks)
  {
    forall n: nat | n <= |chunks|
      ensures AnsweredAll(service, payloads, chunks, n) <==> ReadAfter(chunks, n) == CompleteAfter(payloads, chunks, n)
    {
      AnsweredAfter(service, payloads, chunks, n);
    }
    KeepsUpIff(payloads, chunks);
  }

  /** It does fall behind: of two requests that arrive in one chunk only the first is
      answered, and the second waits for more bytes. */
  lemma {:induction false} PipelinedWaits(service: Service, p: string, q: string)
    requires Carries(p) && Carries(q)
    ensures Serve(service, [AddHeader(p) + AddHeader(q)])
         == Session(AddHeader(q), AddHeader(service.Answer(p)), false, false)
  {
    ReadsBackIffFits(p, AddHeader(q));
    var chunks := [AddHeader(p) + AddHeader(q)];
    assert chunks[..0] == [];
    assert "" + chunks[0] == chunks[0];
    assert "" + AddHeader(service.Answer(p)) == AddHeader(service.Answer(p));
  }

  /** What one turn of the loop can end in, for any bytes: nothing complete and no more than
      that, an empty payload passed over, a length of -1 taken for the end, an exception, or
      one answer. */
  lemma {:induction false} TurnOutcomes(service: Service, s: Session, chunk: string)
    requires !s.over && chunk != ""
    ensures var s', c := Turn(service, s, chunk), ReadPackage(s.buffer + chunk);
            && (s'.over <==> c.Package? && (c.len == -1 || (c.len != 0 && RemoveHeader(c.package, c.len).None?)))
            && (s'.sent != s.sent <==> c.Package? && c.len != 0 && c.len != -1 && RemoveHeader(c.package, c.len).Some?)
            && |s'.buffer| + (if c.Package? then |c.package| else 0) == |s.buffer| + |chunk|
  {
    var c := ReadPackage(s.buffer + chunk);
    if c.Package? && c.len != 0 && c.len != -1 && RemoveHeader(c.package, c.len).Some? {
      assert |Turn(service, s, chunk).sent| > |s.sent|;
    }
  }

  lemma {:induction false} ServeOne(service: Service, chunks: seq<string>, chunk: string)
    ensures Serve(service, chunks + [chunk]) == Turn(service, Serve(service, chunks), chunk)
  {
    assert (chunks + [chunk])[..|chunks|] == chunks;
  }

  /** An empty payload gets no answer, and what is behind it in the chunk waits. */
  lemma {:induction false} EmptyPayloadTurn(service: Service, sent: string, rest: string)
    ensures Turn(service, Session("", sent, false, false), AddHeader("") + rest) == Session(rest, sent, false, false)
  {
    assert |NatToString(0)| == 1;
    assert "" + (AddHeader("") + rest) == AddHeader("") + rest;
    ReadsBackIffFits("", rest);
  }

  /** Whole, a request is answered in the turn it comes in. */
  lemma {:induction false} WholeRequestTurn(service: Service, p: string)
    requires Carries(p)
    ensures Turn(service, Session("", "", false, false), AddHeader(p)) == Session("", AddHeader(service.Answer(p)), false, false)
  {
    assert "" + AddHeader(p) == AddHeader(p);
    WholePackage(p);
    ReadsBackIffFits(p, "");
    assert "" + AddHeader(service.Answer(p)) == AddHeader(service.Answer(p));
  }

  /** An empty payload gets no answer: a request in the same chunk waits for more bytes, one
      in the next chunk is answered. */
  lemma {:induction false} EmptyPayloadSkipped(service: Service, p: string)
    requires Carries(p)
    ensures Serve(service, [] + [AddHeader("") + AddHeader(p)]) == Session(AddHeader(p), "", false, false)
    ensures Serve(service, [] + [AddHeader("") + ""] + [AddHeader(p)])
            == Session("", AddHeader(service.Answer(p)), false, false)
  {
    ServeOne(service, [], AddHeader("") + AddHeader(p));
    ServeOne(service, [], AddHeader("") + "");
    ServeOne(service, [] + [AddHeader("") + ""], AddHeader(p));
    EmptyPayloadTurn(service, "", AddHeader(p));
    EmptyPayloadTurn(service, "", "");
    WholeRequestTurn(service, p);
  }
}
