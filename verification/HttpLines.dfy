/** The line reader of the HTTP server: how a request is taken apart, and how the parts of
    a response are found again (the message form of section 5 of RFC 1945). */
module HttpLines {
  import opened Text
  import Framing

  const SEP: string := "\r\n"
  const WEB_ROOT: string := "./wwwroot"
  const DEFAULT_PAGE: string := "index.html"

  datatype HttpRequest = HttpRequest(verb: string, url: string, version: string,
                                     body: seq<string>, path: string, suffix: string)

  // ------------------------------------------------------------ reading lines

  datatype Line = Line(text: string, rest: string)

  /** Takes the first line off a message; without a separator the line is empty and the
      message stays. */
  function ReadLine(message: string): (l: Line)
    ensures |l.rest| <= |message|
    ensures Find(message, SEP, 0).Some? ==> |l.rest| < |message|
  {
    match Find(message, SEP, 0)
    case None => Line("", message)
    case Some(pos) => Line(message[..pos], message[pos + |SEP|..])
  }

  /** The lines of a message that end in a separator, and what follows the last of them. */
  function Lines(message: string): seq<string>
    decreases |message|
  {
    if Find(message, SEP, 0).None? then []
    else [ReadLine(message).text] + Lines(ReadLine(message).rest)
  }

  function Rest(message: string): string
    decreases |message|
  {
    if Find(message, SEP, 0).None? then message else Rest(ReadLine(message).rest)
  }

  function Unlines(lines: seq<string>): string {
    if lines == [] then "" else lines[0] + SEP + Unlines(lines[1..])
  }

  /** No byte is lost: the lines, each followed by a separator, and the rest are the
      message, and the rest holds no separator. */
  lemma {:induction false} LinesLossless(message: string)
    ensures Unlines(Lines(message)) + Rest(message) == message
    ensures Find(Rest(message), SEP, 0).None?
    decreases |message|
  {
    if Find(message, SEP, 0).Some? {
      var l := ReadLine(message);
      CutAt(message, SEP);
      LinesLossless(l.rest);
      UnlinesCons(l.text, Lines(l.rest), Rest(l.rest));
    }
  }

  lemma {:induction false} UnlinesCons(line: string, lines: seq<string>, rest: string)
    ensures Unlines([line] + lines) + rest == line + SEP + (Unlines(lines) + rest)
  {
  }

  predicate Terminated(message: string) {
    message == "" || (|message| >= 2 && message[|message| - 2..] == SEP)
  }

  /** Nothing follows the last line exactly when the message ends in a separator. */
  lemma {:induction false} RestEmptyIff(message: string)
    ensures Rest(message) == "" <==> Terminated(message)
    decreases |message|
  {
    var r := Find(message, SEP, 0);
    if r.None? {
      if |message| >= 2 {
        assert !Occurs(message, SEP, |message| - 2);
      }
    } else {
      var rest := ReadLine(message).rest;
      RestEmptyIff(rest);
      assert message[r.value..r.value + 2] == SEP;
      if |rest| >= 2 {
        assert message[|message| - 2..] == rest[|rest| - 2..];
      } else if |rest| == 1 {
        assert message[|message| - 2] == SEP[1];
        assert message[|message| - 2..][0] == message[|message| - 2];
      } else {
        assert message[|message| - 2..] == message[r.value..r.value + 2];
      }
    }
  }

  // ------------------------------------------------------- taking a request apart

  function WordLength(s: string): (n: nat)
    ensures n <= |s|
  {
    if s == "" || IsSpace(s[0]) then 0 else 1 + WordLength(s[1..])
  }

  /** One extraction from a string stream: skip white space, take a word. */
  function Word(s: string): Line {
    var t := SkipSpace(s);
    Line(t[..WordLength(t)], t[WordLength(t)..])
  }

  predicate IsWord(s: string) {
    s != "" && forall i :: 0 <= i < |s| ==> !IsSpace(s[i])
  }

  /** A word comes off the front of a line when white space or nothing follows it. */
  lemma {:induction false} WordFirst(w: string, rest: string)
    requires IsWord(w) && (rest == "" || IsSpace(rest[0]))
    ensures Word(w + rest) == Line(w, rest) && Word(" " + (w + rest)) == Line(w, rest)
  {
    assert (w + rest)[0] == w[0];
    WordEnds(w, rest);
    assert (w + rest)[..|w|] == w && (w + rest)[|w|..] == rest;
    assert (" " + (w + rest))[1..] == w + rest;
  }

  lemma {:induction false} WordEnds(w: string, rest: string)
    requires forall i :: 0 <= i < |w| ==> !IsSpace(w[i])
    requires rest == "" || IsSpace(rest[0])
    ensures WordLength(w + rest) == |w|
  {
    if w == "" {
      assert w + rest == rest;
    } else {
      assert (w + rest)[1..] == w[1..] + rest;
      WordEnds(w[1..], rest);
    }
  }

  /** The request line gives back its three words. */
  lemma {:induction false} RequestLineWords(verb: string, url: string, version: string)
    requires IsWord(verb) && IsWord(url) && IsWord(version)
    ensures var one := Word(verb + " " + url + " " + version);
            var two := Word(one.rest);
            one.text == verb && two.text == url && Word(two.rest).text == version
  {
    var tail := " " + (url + (" " + (version + "")));
    assert verb + " " + url + " " + version == verb + tail;
    WordFirst(verb, tail);
    WordFirst(url, " " + (version + ""));
    WordFirst(version, "");
  }

  /** The file a request asks for. */
  function PathOf(url: string): string {
    var path := WEB_ROOT + url;
    if path[|path| - 1] == '/' then path + DEFAULT_PAGE else path
  }

  /** The path is the url under the web root, with the default page for a directory, so it
      never ends in a slash. */
  lemma {:induction false} PathHasNoFinalSlash(url: string)
    ensures WEB_ROOT + url <= PathOf(url) && PathOf(url)[|PathOf(url)| - 1] != '/'
    ensures PathOf(url) == WEB_ROOT + url <==> url == "" || url[|url| - 1] != '/'
  {
    var path := WEB_ROOT + url;
    if url != "" {
      assert path[|path| - 1] == url[|url| - 1];
    }
    if path[|path| - 1] == '/' {
      assert PathOf(url)[|path| + |DEFAULT_PAGE| - 1] == DEFAULT_PAGE[|DEFAULT_PAGE| - 1];
    }
  }

  function LastDot(path: string): (r: Option<nat>)
    ensures r.Some? ==> r.value < |path|
  {
    if path == "" then None
    else if path[|path| - 1] == '.' then Some(|path| - 1)
    else LastDot(path[..|path| - 1])
  }

  /** What std::string::rfind finds. */
  lemma {:induction false} LastDotIs(path: string)
    ensures var r := LastDot(path);
            match r
            case None => forall i :: 0 <= i < |path| ==> path[i] != '.'
            case Some(p) => path[p] == '.' && forall i :: p < i < |path| ==> path[i] != '.'
  {
    if path != "" {
      LastDotIs(path[..|path| - 1]);
    }
  }

  function SuffixOf(path: string): string {
    match LastDot(path)
    case None => ".html"
    case Some(p) => path[p..]
  }

  /** The web root holds a dot, so the default suffix is never used: a path with no dot of
      its own takes everything from the root's dot on as its suffix. */
  lemma {:induction false} SuffixIsAPiece(url: string)
    ensures LastDot(PathOf(url)).Some? && SuffixOf(PathOf(url)) == PathOf(url)[LastDot(PathOf(url)).value..]
    ensures (forall i :: 0 <= i < |url| ==> url[i] != '.') && (url == "" || url[|url| - 1] != '/') ==>
              SuffixOf(PathOf(url)) == PathOf(url)
  {
    var path := PathOf(url);
    LastDotIs(path);
    assert path[0] == '.';
    if (forall i :: 0 <= i < |url| ==> url[i] != '.') && (url == "" || url[|url| - 1] != '/') {
      assert path == WEB_ROOT + url;
      forall i | 1 <= i < |path| ensures path[i] != '.' {
        assert i >= |WEB_ROOT| ==> path[i] == url[i - |WEB_ROOT|];
      }
    }
  }

  /** Takes a request apart. On a message that does not end in a separator the loop would
      not end. */
  method Desarialize(message: string) returns (req: HttpRequest, rest: string)
    requires Terminated(message)
    ensures rest == ""
    ensures message != "" ==> Unlines([ReadLine(message).text] + req.body) == message
    ensures message == "" ==> req.body == [] && req.url == ""
    ensures var one := Word(ReadLine(message).text);
            var two := Word(one.rest);
            req.verb == one.text && req.url == two.text && req.version == Word(two.rest).text
    ensures req.path == PathOf(req.url) && req.suffix == SuffixOf(req.path)
  {
    RestEmptyIff(message);
    LinesLossless(message);
    var first := ReadLine(message);
    rest := first.rest;
    var one := Word(first.text);
    var two := Word(one.rest);
    var body: seq<string> := [];
    while rest != ""
      invariant Rest(rest) == ""
      invariant message != "" ==> Lines(message) == [first.text] + (body + Lines(rest))
      invariant message == "" ==> rest == "" && body == []
      decreases |rest|
    {
      RestReads(rest);
      var l := ReadLine(rest);
      Shift(body, l.text, Lines(l.rest));
      rest := l.rest;
      body := body + [l.text];
    }
    assert body + [] == body;
    var path := PathOf(two.text);
    req := HttpRequest(one.text, two.text, Word(two.rest).text, body, path, SuffixOf(path));
  }

  lemma {:induction false} Shift(a: seq<string>, x: string, b: seq<string>)
    ensures a + ([x] + b) == a + [x] + b
  {
  }

  /** The message left after the request line and `k` turns of the loop. */
  function Remaining(message: string, k: nat): string {
    if k == 0 then ReadLine(message).rest
    else
      var m := Remaining(message, k - 1);
      if m == "" then m else ReadLine(m).rest
  }

  /** The loop ends exactly on the messages that are empty or end in a separator. */
  lemma {:induction false} LoopEndsIff(message: string)
    ensures (exists k: nat :: Remaining(message, k) == "") <==> Terminated(message)
  {
    RestEmptyIff(message);
    if Terminated(message) {
      RestStays(message, 0);
      var k := RemainingEnds(message, 0);
    } else {
      forall k: nat ensures Remaining(message, k) != "" {
        RestStays(message, k);
      }
    }
  }

  lemma {:induction false} RestStep(message: string)
    ensures Equals(Rest(ReadLine(message).rest), Rest(message))
  {
  }

  lemma {:induction false} RestStays(message: string, k: nat)
    ensures Equals(Rest(Remaining(message, k)), Rest(message))
  {
    if k == 0 {
      RestStep(message);
    } else {
      RestStays(message, k - 1);
      RestStep(Remaining(message, k - 1));
    }
  }

  lemma {:induction false} RestReads(message: string)
    requires Rest(message) == "" && message != ""
    ensures |ReadLine(message).rest| < |message| && Rest(ReadLine(message).rest) == ""
    ensures Lines(message) == [ReadLine(message).text] + Lines(ReadLine(message).rest)
  {
  }

  lemma {:induction false} RemainingNext(message: string, k: nat)
    requires Remaining(message, k) != ""
    ensures Equals(Remaining(message, k + 1), ReadLine(Remaining(message, k)).rest)
  {
  }

  lemma {:induction false} RemainingEnds(message: string, k: nat) returns (end: nat)
    requires Rest(Remaining(message, k)) == ""
    ensures Remaining(message, end) == ""
    decreases |Remaining(message, k)|
  {
    end := k;
    if Remaining(message, k) != "" {
      RestReads(Remaining(message, k));
      RemainingNext(message, k);
      end := RemainingEnds(message, k + 1);
    }
  }

  // ------------------------------------------------------------ the response

  const LENGTH_FIELD: string := "Content-Length: "

  function ContentType(suffix: string): string {
    "Content_Type: " +
    (if suffix == ".html" || suffix == ".htm" then "text/html"
     else if suffix == ".jpg" then "image/jpeg" else "")
  }

  function Status(found: bool): string {
    if found then "HTTP/1.0 200 OK" else "HTTP/1.0 404 Not Found"
  }

  function Response(found: bool, suffix: string, body: string): string {
    Status(found) + SEP + (LENGTH_FIELD + NatToString(|body|) + SEP + (ContentType(suffix) + SEP + (SEP + body)))
  }

  datatype Head = Head(fields: seq<string>, body: string)

  /** Reading lines up to the first empty one. */
  function ReadHead(message: string): Head
    decreases |message|
  {
    var l := ReadLine(message);
    if Find(message, SEP, 0).None? || l.text == "" then Head([], l.rest)
    else Head([l.text] + ReadHead(l.rest).fields, ReadHead(l.rest).body)
  }

  predicate OneLine(s: string) {
    forall i :: 0 <= i < |s| ==> s[i] != '\r'
  }

  lemma {:induction false} PlainFields(found: bool, suffix: string, n: nat)
    ensures OneLine(Status(found)) && Status(found) != ""
    ensures OneLine(ContentType(suffix)) && ContentType(suffix) != ""
    ensures OneLine(LENGTH_FIELD + NatToString(n))
  {
  }

  lemma {:induction false} HeadCons(line: string, rest: string)
    requires OneLine(line)
    ensures ReadHead(line + SEP + rest) ==
              if line == "" then Head([], rest) else Head([line] + ReadHead(rest).fields, ReadHead(rest).body)
  {
    var m := line + SEP + rest;
    Framing.FieldEnd(line, rest);
    assert m[|line| + 2..] == rest;
    assert ReadLine(m) == Line(line, rest);
  }

  /** Whatever the body holds, reading the head of a response leaves exactly the body, and
      the length field is its size. */
  lemma {:induction false} ResponseParses(found: bool, suffix: string, body: string)
    ensures ReadHead(Response(found, suffix, body)) ==
              Head([Status(found), LENGTH_FIELD + NatToString(|body|), ContentType(suffix)], body)
    ensures |body| <= INT_MAX ==> Atoi((LENGTH_FIELD + NatToString(|body|))[|LENGTH_FIELD|..]) == |body|
  {
    var length, content := LENGTH_FIELD + NatToString(|body|), ContentType(suffix);
    PlainFields(found, suffix, |body|);
    HeadCons("", body);
    assert "" + SEP + body == SEP + body;
    HeadCons(content, SEP + body);
    HeadCons(length, content + SEP + (SEP + body));
    HeadCons(Status(found), length + SEP + (content + SEP + (SEP + body)));
    assert [Status(found)] + ([length] + ([content] + [])) == [Status(found), length, content];
    assert length[|LENGTH_FIELD|..] == NatToString(|body|);
    if |body| <= INT_MAX {
      AtoiInvertsPrint(|body|);
    }
  }

  // ------------------------------------------------------------ the handler

  /** What readFile finds under a path: nothing, a file it cannot open, of which it knows the
      size, or a file it can read. */
  datatype Found = Missing | Locked(size: nat) | Content(bytes: string)

  /** What readFile leaves in its output parameter: for a file that cannot be opened as many
      NULs as it has bytes. */
  function ReadFile(found: Found): string {
    match found
    case Missing => ""
    case Locked(size) => seq(size, _ => '\0')
    case Content(bytes) => bytes
  }

  /** What an answer is, read back line by line: a file that can be read comes whole under the
      status line 200, anything else under 404; length and type are those of the body and of
      the path. */
  predicate RightAnswer(found: Found, suffix: string, response: string) {
    var head := ReadHead(response);
    && |head.fields| == 3
    && (match found
        case Missing => head.fields[0] == "HTTP/1.0 404 Not Found" && head.body == ""
        case Locked(size) =>
          && head.fields[0] == "HTTP/1.0 404 Not Found" && |head.body| == size
          && forall c :: c in head.body ==> c == '\0'
        case Content(bytes) => head.fields[0] == "HTTP/1.0 200 OK" && head.body == bytes)
    && head.fields[1] == "Content-Length: " + NatToString(|head.body|)
    && head.fields[2] == "Content_Type: " + (if suffix == ".html" || suffix == ".htm" then "text/html"
                                             else if suffix == ".jpg" then "image/jpeg" else "")
  }

  lemma {:induction false} AnswersRight(found: Found, suffix: string)
    ensures RightAnswer(found, suffix, Response(found.Content?, suffix, ReadFile(found)))
  {
    ResponseParses(found.Content?, suffix, ReadFile(found));
  }

  /** The handler over any file system. */
  method HandlerHttpRequest(message: string, files: string -> Found) returns (response: string)
    requires Terminated(message)
    ensures var path := PathOf(Word(Word(ReadLine(message).text).rest).text);
            RightAnswer(files(path), SuffixOf(path), response)
  {
    var req, rest := Desarialize(message);
    var found := files(req.path);
    var body := ReadFile(found);
    if found.Content? {
      response := "HTTP/1.0 200 OK" + SEP;
    } else {
      response := "HTTP/1.0 404 Not Found" + SEP;
    }
    response := response + (LENGTH_FIELD + NatToString(|body|) + SEP + (ContentType(req.suffix) + SEP + (SEP + body)));
    assert Equals(response, Response(found.Content?, req.suffix, ReadFile(found)));
    AnswersRight(found, req.suffix);
  }
}
