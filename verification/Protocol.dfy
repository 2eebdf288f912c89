/** The messages of the calculator protocol and the service a server computes with them. */
module Protocol {
  import opened Text
  import opened Framing

  datatype Request = Request(x: int, y: int, op: char)

  datatype Response = Response(result: int, code: int)

  /** What a server does to one payload; the serializer is a parameter. */
  datatype Service = Service(deserialize: string -> Request,
                             func: Request -> Response,
                             serialize: Response -> string)
  {
    function Answer(payload: string): string {
      serialize(func(deserialize(payload)))
    }

    function Answers(payloads: seq<string>): (a: seq<string>)
      ensures |a| == |payloads|
    {
      seq(|payloads|, i requires 0 <= i < |payloads| => Answer(payloads[i]))
    }

    /** The bytes owed for these payloads: one framed answer each, in order. */
    function Replies(payloads: seq<string>): string {
      Stream(Answers(payloads))
    }
  }

  lemma {:induction false} RepliesSnoc(s: Service, payloads: seq<string>, p: string)
    ensures s.Replies(payloads + [p]) == s.Replies(payloads) + AddHeader(s.Answer(p))
  {
    assert s.Answers(payloads + [p]) == s.Answers(payloads) + [s.Answer(p)];
    StreamSnoc(s.Answers(payloads), s.Answer(p));
  }

  /** The reply owed for one package cut off. */
  lemma {:induction false} RepliesOne(s: Service, f: Frame)
    ensures s.Replies(Payloads([f])) ==
              if f.len > 0 && RemoveHeader(f.package, f.len).Some?
              then AddHeader(s.Answer(RemoveHeader(f.package, f.len).value)) else ""
  {
    assert [f][1..] == [];
    var p := RemoveHeader(f.package, f.len);
    if f.len > 0 && p.Some? {
      assert Payloads([f]) == [] + [p.value];
      RepliesSnoc(s, [], p.value);
    } else {
      assert Payloads([f]) == [];
    }
    assert s.Answers([]) == [];
  }

  /** Every payload is owed some bytes, so the replies tell how many were answered. */
  lemma {:induction false} RepliesTell(s: Service, payloads: seq<string>, a: nat, b: nat)
    requires a <= |payloads| && b <= |payloads|
    ensures s.Replies(payloads[..a]) == s.Replies(payloads[..b]) <==> a == b
  {
    if a < b {
      RepliesGrow(s, payloads, a, b);
    } else if b < a {
      RepliesGrow(s, payloads, b, a);
    }
  }

  lemma {:induction false} RepliesGrow(s: Service, payloads: seq<string>, a: nat, b: nat)
    requires a < b <= |payloads|
    ensures |s.Replies(payloads[..a])| < |s.Replies(payloads[..b])|
  {
    var before, p := payloads[..b - 1], payloads[b - 1];
    assert before + [p] == payloads[..b];
    RepliesSnoc(s, before, p);
    if a < b - 1 {
      RepliesGrow(s, payloads, a, b - 1);
    }
  }

  // ------------------------------------------------ the books of one connection

  /** Both sides of a connection balance: what came in is the packages cut off and the
      rest in the buffer; what went out and what is still to go out are the replies. */
  ghost predicate Balanced(service: Service, received: string, inbuffer: string,
                           sent: string, outbuffer: string, frames: seq<Frame>)
  {
    forall s: Seal {:trigger Open(s)} :: Open(s) ==>
      && received == Packages(frames) + inbuffer
      && sent + outbuffer == service.Replies(Payloads(frames))
  }

  /** Everything complete in a stream that starves has been cut off. */
  ghost predicate Digested(received: string, inbuffer: string, frames: seq<Frame>) {
    forall s: Seal {:trigger Open(s)} :: Open(s) ==>
      (Drain(received).stop == Starved ==> frames == Drain(received).frames && inbuffer == Drain(received).rest)
  }

  lemma {:induction false} BalancedNew(service: Service)
    ensures Balanced(service, "", "", "", "", []) && Digested("", "", [])
  {
  }

  lemma {:induction false} BalancedReceive(service: Service, received: string, inbuffer: string,
                                           sent: string, outbuffer: string, frames: seq<Frame>, data: string)
    requires Balanced(service, received, inbuffer, sent, outbuffer, frames)
    ensures Balanced(service, received + data, inbuffer + data, sent, outbuffer, frames)
  {
    assert Open(Seal);
    Associate(Packages(frames), inbuffer, data);
  }

  lemma {:induction false} BalancedSend(service: Service, received: string, inbuffer: string,
                                        sent: string, outbuffer: string, frames: seq<Frame>, out: string, left: string)
    requires Balanced(service, received, inbuffer, sent, outbuffer, frames)
    requires out + left == outbuffer
    ensures Balanced(service, received, inbuffer, sent + out, left, frames)
  {
    assert Open(Seal);
    Associate(sent, out, left);
  }

  /** One run of the request loop keeps the books. */
  lemma {:induction false} BalancedHandle(service: Service, received: string, inbuffer: string,
                                          sent: string, outbuffer: string, frames: seq<Frame>)
    requires Balanced(service, received, inbuffer, sent, outbuffer, frames)
    ensures var d := Drain(inbuffer);
            Balanced(service, received, d.rest, sent, outbuffer + service.Replies(Payloads(d.frames)), frames + d.frames)
  {
    assert Open(Seal);
    var d := Drain(inbuffer);
    DrainConserves(inbuffer);
    PackagesAppend(frames, d.frames);
    PayloadsAppend(frames, d.frames);
    Associate(Packages(frames), Packages(d.frames), d.rest);
    RepliesAppend(service, Payloads(frames), Payloads(d.frames));
    Associate(sent, outbuffer, service.Replies(Payloads(d.frames)));
  }

  lemma {:induction false} RepliesAppend(s: Service, a: seq<string>, b: seq<string>)
    ensures s.Replies(a + b) == s.Replies(a) + s.Replies(b)
  {
    assert s.Answers(a + b)[..|a|] == s.Answers(a);
    assert s.Answers(a + b)[|a|..] == s.Answers(b);
    StreamSplit(s.Answers(a + b), |a|);
  }

  /** Appending what was received and draining keeps a stream digested. */
  lemma {:induction false} DigestMore(received: string, inbuffer: string, frames: seq<Frame>, data: string)
    requires Digested(received, inbuffer, frames)
    ensures var d := Drain(inbuffer + data);
            Digested(received + data, d.rest, frames + d.frames)
  {
    assert Open(Seal);
    if Drain(received + data).stop == Starved {
      StarvedPrefix(received, data);
      DrainContinues(received, data);
    }
  }
}
