/** The calculator client in conversation with the first server: one request, then the
    answer to it, then the next request. */
module Client {
  import opened Text
  import opened Framing
  import opened Protocol
  import opened Codec
  import opened CalServer

  // ------------------------------------------------------- waiting for an answer

  /** What the receiving loop comes to on some chunks: more are needed, or readPackage has
      returned `n`, which is not 0. */
  datatype Answer = Waiting(buffer: string) | Got(n: int, package: string, buffer: string)

  function Await(buffer: string, chunks: seq<string>): Answer
    decreases |chunks|
  {
    if chunks == [] then Waiting(buffer)
    else if chunks[0] == "" then Got(-1, "", buffer)
    else
      match ReadPackage(buffer + chunks[0])
      case Incomplete => Await(buffer + chunks[0], chunks[1..])
      case Package(len, package, rest) =>
        if len == 0 then Await(rest, chunks[1..]) else Got(len, package, rest)
  }

  /** The loop that goes back to readPackage while it returns 0. */
  method AwaitAnswer(chunks: seq<string>, before: string) returns (n: int, package: string, buffer: string)
    ensures match Await(before, chunks)
            case Waiting(b) => n == 0 && buffer == b
            case Got(m, p, b) => n == m != 0 && buffer == b && (m != -1 ==> package == p)
  {
    n, package, buffer := 0, "", before;
    var i := 0;
    assert chunks[0..] == chunks;
    while i < |chunks|
      invariant i <= |chunks| && n == 0
      invariant Await(buffer, chunks[i..]) == Await(before, chunks)
    {
      assert chunks[i..][0] == chunks[i] && chunks[i..][1..] == chunks[i + 1..];
      n, package, buffer := ReceivePackage(chunks[i], buffer);
      if n != 0 { return; }
      i := i + 1;
    }
  }

  /** When the waiting is over: at the first chunk that is the end of the connection or that
      makes a package complete whose length is not 0; until then everything stays in the
      buffer but the empty packages. */
  lemma {:induction false} AwaitEnds(buffer: string, chunks: seq<string>)
    ensures match Await(buffer, chunks)
            case Waiting(_) => forall k :: 0 <= k < |chunks| ==> chunks[k] != ""
            case Got(n, package, rest) =>
              n != 0 && exists k :: 0 <= k < |chunks| && EndsAt(buffer, chunks, k, n, package, rest)
    decreases |chunks|
  {
    if chunks != [] && chunks[0] != "" {
      var c := ReadPackage(buffer + chunks[0]);
      var next := if c.Incomplete? then buffer + chunks[0] else c.rest;
      if c.Incomplete? || c.len == 0 {
        AwaitEnds(next, chunks[1..]);
        if Await(next, chunks[1..]).Got? {
          var Got(n, package, rest) := Await(next, chunks[1..]);
          var k :| 0 <= k < |chunks| - 1 && EndsAt(next, chunks[1..], k, n, package, rest);
          assert chunks[..k + 1][1..] == chunks[1..][..k] && chunks[..k + 1][0] == chunks[0];
          assert EndsAt(buffer, chunks, k + 1, n, package, rest);
        }
      } else {
        assert chunks[..0] == [];
        assert EndsAt(buffer, chunks, 0, c.len, c.package, c.rest);
      }
    } else if chunks != [] {
      assert chunks[..0] == [];
      assert EndsAt(buffer, chunks, 0, -1, "", buffer);
    }
  }

  /** The waiting has not ended before chunk `k`, and ends with it. */
  ghost predicate EndsAt(buffer: string, chunks: seq<string>, k: int, n: int, package: string, rest: string) {
    && 0 <= k < |chunks| && Await(buffer, chunks[..k]).Waiting?
    && var before := Await(buffer, chunks[..k]).buffer;
       if chunks[k] == "" then n == -1 && rest == before
       else ReadPackage(before + chunks[k]) == Package(n, package, rest)
  }

  lemma {:induction false} JoinHead(chunks: seq<string>)
    requires chunks != []
    ensures Join(chunks) == chunks[0] + Join(chunks[1..])
    decreases |chunks|
  {
    if |chunks| > 1 {
      var n := |chunks| - 1;
      JoinHead(chunks[..n]);
      assert chunks[..n][1..] == chunks[1..][..n - 1];
      Associate(chunks[0], Join(chunks[1..][..n - 1]), chunks[n]);
    } else {
      assert chunks[..0] == [] && chunks[1..] == [];
    }
  }

  predicate NoneEmpty(chunks: seq<string>) {
    forall i :: 0 <= i < |chunks| ==> chunks[i] != ""
  }

  /** The first of the chunks that make up the rest of a package ends it, or leaves it
      incomplete and more chunks to come. */
  lemma {:induction false} FirstChunk(payload: string, buffer: string, chunks: seq<string>)
    requires Carries(payload) && NoneEmpty(chunks) && chunks != []
    requires buffer + Join(chunks) == AddHeader(payload)
    ensures |chunks| == 1 ==> ReadPackage(buffer + chunks[0]) == Package(|payload|, AddHeader(payload), "")
    ensures |chunks| > 1 ==> ReadPackage(buffer + chunks[0]) == Incomplete
    ensures NoneEmpty(chunks[1..]) && (buffer + chunks[0]) + Join(chunks[1..]) == AddHeader(payload)
  {
    JoinHead(chunks);
    Associate(buffer, chunks[0], Join(chunks[1..]));
    var b := buffer + chunks[0];
    if |chunks| == 1 {
      assert b + "" == b;
      ReadsBackIffFits(payload, "");
    } else {
      JoinHead(chunks[1..]);
      assert b == AddHeader(payload)[..|b|];
      ProperPrefixStarves(payload, |b|);
    }
  }

  /** The client waits exactly until the chunks of one package are there, and then has it
      whole and nothing else. */
  lemma {:induction false} AwaitsOne(payload: string, buffer: string, chunks: seq<string>)
    requires Carries(payload) && NoneEmpty(chunks) && chunks != []
    requires buffer + Join(chunks) == AddHeader(payload)
    ensures Await(buffer, chunks) == Got(|payload|, AddHeader(payload), "")
    ensures forall k :: 0 <= k < |chunks| ==> Await(buffer, chunks[..k]).Waiting?
    decreases |chunks|
  {
    FirstChunk(payload, buffer, chunks);
    if |chunks| > 1 {
      AwaitsOne(payload, buffer + chunks[0], chunks[1..]);
      forall k | 0 < k < |chunks| ensures Await(buffer, chunks[..k]).Waiting? {
        assert chunks[..k][1..] == chunks[1..][..k - 1];
      }
    }
  }

  // ------------------------------------------------------------ the server's side

  /** The service of a client goes on with more chunks. */
  function Continue(service: Service, s: Session, chunks: seq<string>): Session
    decreases |chunks|
  {
    if chunks == [] then s else Continue(service, Turn(service, s, chunks[0]), chunks[1..])
  }

  lemma {:induction false} ServeMore(service: Service, before: seq<string>, chunks: seq<string>)
    ensures Serve(service, before + chunks) == Continue(service, Serve(service, before), chunks)
    decreases |chunks|
  {
    if chunks == [] {
      assert before + chunks == before;
    } else {
      var next := before + [chunks[0]];
      assert next[..|next| - 1] == before;
      assert before + chunks == next + chunks[1..];
      ServeMore(service, next, chunks[1..]);
    }
  }

  /** The chunks of one package make the server answer it once and leave nothing behind. */
  lemma {:induction false} ServesOne(service: Service, s: Session, payload: string, chunks: seq<string>)
    requires !s.over && Carries(payload) && NoneEmpty(chunks) && chunks != []
    requires s.buffer + Join(chunks) == AddHeader(payload)
    ensures Continue(service, s, chunks) == s.(buffer := "", sent := s.sent + AddHeader(service.Answer(payload)))
    decreases |chunks|
  {
    FirstChunk(payload, s.buffer, chunks);
    ReadsBackIffFits(payload, "");
    if |chunks| > 1 {
      ServesOne(service, Turn(service, s, chunks[0]), payload, chunks[1..]);
    } else {
      assert Continue(service, Turn(service, s, chunks[0]), chunks[1..]) == Turn(service, s, chunks[0]);
    }
  }

  // ------------------------------------------------------------- the conversation

  /** One turn of the client's loop: the request, the chunks its bytes arrive in at the
      server, and the chunks the answer arrives in at the client. */
  datatype Round = Round(request: Request, up: seq<string>, down: seq<string>)

  /** All chunks the server got in the first `n` rounds. */
  function Ups(rounds: seq<Round>, n: nat): seq<string>
    requires n <= |rounds|
  {
    if n == 0 then [] else Ups(rounds, n - 1) + rounds[n - 1].up
  }

  /** The network: whatever is sent arrives, in any chunks that are not empty. */
  ghost predicate Arrives(chunks: seq<string>, payload: string) {
    forall s: Seal {:trigger Open(s)} :: Open(s) ==> NoneEmpty(chunks) && Join(chunks) == AddHeader(payload)
  }

  /** A payload the framing carries, and the chunks it arrives in. */
  ghost predicate Sent(chunks: seq<string>, payload: string) {
    forall s: Seal {:trigger Open(s)} :: Open(s) ==> Carries(payload) && Arrives(chunks, payload)
  }

  ghost predicate Delivered(service: Service, rounds: seq<Round>, i: nat)
    requires i < |rounds|
  {
    var r := rounds[i];
    && Arrives(r.up, SerializeRequest(r.request))
    && NoneEmpty(r.down) && Serve(service, Ups(rounds, i)).sent + Join(r.down) == Serve(service, Ups(rounds, i + 1)).sent
  }

  predicate Speakable(func: Request -> Response, r: Request) {
    IsInt(r.x) && IsInt(r.y) && r.op != ' ' && IsInt(func(r).result) && IsInt(func(r).code)
  }

  lemma {:induction false} AnswerOf(func: Request -> Response, unset: Request, r: Request)
    requires Speakable(func, r)
    ensures Carries(SerializeRequest(r)) && Carries(SerializeResponse(func(r)))
    ensures TextService(func, unset).Answer(SerializeRequest(r)) == SerializeResponse(func(r))
  {
    MessagesCarry(r, func(r));
    RequestRoundTrip(r);
  }

  /** The session these chunks lead to, still going on and with nothing left in its buffer. */
  ghost predicate Idle(service: Service, chunks: seq<string>, session: Session) {
    session == Serve(service, chunks) && session.buffer == "" && !session.over && !session.threw
  }

  /** Between two requests: the chunks so far have all been used up. */
  ghost predicate Ready(service: Service, chunks: seq<string>) {
    exists session :: Idle(service, chunks, session)
  }

  /** The chunks of one request take a ready server to a ready server that has sent one
      more answer. */
  lemma {:induction false} OneRound(service: Service, before: seq<string>, up: seq<string>, payload: string)
    requires Ready(service, before) && Sent(up, payload)
    ensures Ready(service, before + up)
    ensures Serve(service, before + up).sent == Serve(service, before).sent + AddHeader(service.Answer(payload))
  {
    assert Open(Seal);
    ServeMore(service, before, up);
    assert "" + Join(up) == Join(up);
    ServesOne(service, Serve(service, before), payload, up);
    assert Idle(service, before + up, Serve(service, before + up));
  }

  lemma {:induction false} ReadyFirst(service: Service)
    ensures Ready(service, [])
  {
    assert Idle(service, [], Serve(service, []));
  }

  /** The chunks are those of one package. */
  ghost predicate OnePackage(chunks: seq<string>) {
    exists payload :: Sent(chunks, payload)
  }

  lemma {:induction false} StaysReady(service: Service, before: seq<string>, up: seq<string>)
    requires Ready(service, before) && OnePackage(up)
    ensures Ready(service, before + up)
  {
    var payload :| Sent(up, payload);
    OneRound(service, before, up, payload);
  }

  /** Between rounds the server is ready. */
  lemma {:induction false} BetweenRounds(service: Service, rounds: seq<Round>, n: nat)
    requires n <= |rounds|
    requires forall i: nat :: i < n ==> OnePackage(rounds[i].up)
    ensures Ready(service, Ups(rounds, n))
  {
    if n == 0 {
      ReadyFirst(service);
    } else {
      BetweenRounds(service, rounds, n - 1);
      StaysReady(service, Ups(rounds, n - 1), rounds[n - 1].up);
    }
  }

  /** The whole conversation, for any requests and any chunks both ways: in every round the
      client waits for exactly one package, which holds the result of the request of that
      round, and then both buffers are empty again. */
  lemma {:induction false} Conversation(func: Request -> Response, unset: Request, rounds: seq<Round>, i: nat)
    requires i < |rounds|
    requires forall k: nat :: k < |rounds| ==> Speakable(func, rounds[k].request) && Delivered(TextService(func, unset), rounds, k)
    ensures var answer := SerializeResponse(func(rounds[i].request));
            && Await("", rounds[i].down) == Got(|answer|, AddHeader(answer), "")
            && (forall k :: 0 <= k < |rounds[i].down| ==> Await("", rounds[i].down[..k]).Waiting?)
            && RemoveHeader(AddHeader(answer), |answer|) == Some(answer)
            && DeserializeResponse(answer) == Some(func(rounds[i].request))
    ensures Ready(TextService(func, unset), Ups(rounds, i + 1))
  {
    var service, r := TextService(func, unset), rounds[i];
    assert Speakable(func, r.request) && Delivered(service, rounds, i);
    forall k: nat | k < |rounds| ensures OnePackage(rounds[k].up) {
      assert Speakable(func, rounds[k].request) && Delivered(service, rounds, k);
      AnswerOf(func, unset, rounds[k].request);
      assert Sent(rounds[k].up, SerializeRequest(rounds[k].request));
    }
    BetweenRounds(service, rounds, i);
    AnswerOf(func, unset, r.request);
    assert Sent(r.up, SerializeRequest(r.request));
    OneRound(service, Ups(rounds, i), r.up, SerializeRequest(r.request));
    var answer := SerializeResponse(func(r.request));
    Cancel(Serve(service, Ups(rounds, i)).sent, Join(r.down), AddHeader(answer));
    assert "" + Join(r.down) == Join(r.down);
    AwaitsOne(answer, "", r.down);
    ReadsBackIffFits(answer, "");
    ResponseRoundTrip(func(r.request));
  }

  lemma {:induction false} Cancel(a: string, b: string, c: string)
    requires a + b == a + c
    ensures b == c
  {
    assert b == (a + b)[|a|..] && c == (a + c)[|a|..];
  }
}
