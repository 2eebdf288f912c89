/** The length-prefixed framing of the calculator protocol: "<length> CRLF payload CRLF".
    The reader works on a byte stream that arrives in arbitrary chunks. */
module Framing {
  import opened Text

  const CRLF: string := "\r\n"

  // ------------------------------------------------------ the three helpers

  function AddHeader(payload: string): (r: string)
    ensures |r| == |NatToString(|payload|)| + |payload| + 4
  {
    NatToString(|payload|) + CRLF + payload + CRLF
  }

  /** The slice std::string::substr(n - length - 2, length) takes from the end of a
      package; None is the std::out_of_range it throws when the start lies outside. A
      negative length counts as a huge one. */
  function RemoveHeader(package: string, length: int): Option<string> {
    var start := |package| - length - 2;
    if 0 <= start <= |package| then
      Some(package[start..if 0 <= length <= |package| - start then start + length else |package|])
    else
      None
  }

  /** removeHeader for every package and length: the `length` bytes in front of the last two;
      for the two negative lengths that start inside the package all that is behind the start;
      for anything else an exception. */
  lemma {:induction false} RemoveHeaderIs(package: string, length: int)
    ensures var n, r := |package|, RemoveHeader(package, length);
            && (0 <= length <= n - 2 ==> r == Some(package[..n - 2][n - 2 - length..]))
            && (length == -1 && n >= 1 ==> r == Some([package[n - 1]]))
            && (length == -2 ==> r == Some(""))
            && (r.None? <==> length > n - 2 || length < -2)
  {
    var n := |package|;
    if 0 <= length <= n - 2 {
      assert package[..n - 2][n - 2 - length..] == package[n - 2 - length..n - 2];
    } else if length == -1 && n >= 1 {
      assert package[n - 1..n] == [package[n - 1]];
    } else if length == -2 {
      assert package[n..n] == "";
    }
  }

  /** What one attempt to cut a package off the front of a buffer gives. */
  datatype Cut = Incomplete | Package(len: int, package: string, rest: string)

  /** The package size as the code computes it, truncated to a 32-bit integer. */
  function TotalSize(len: int, field: nat): int {
    Wrap32(len + field + 4)
  }

  /** One readPackage. A negative size compares as a huge unsigned one, so it reads
      as an incomplete package. */
  function ReadPackage(buffer: string): (c: Cut)
    ensures c.Package? ==> |c.package| + |c.rest| == |buffer|
  {
    match Find(buffer, CRLF, 0)
    case None => Incomplete
    case Some(pos) =>
      var len := Atoi(buffer[..pos]);
      var total := TotalSize(len, pos);
      if total < 0 || total > |buffer| then Incomplete
      else Package(len, buffer[..total], buffer[total..])
  }

  /** A package once cut off a buffer stays cut off when more bytes arrive. */
  lemma {:induction false} ReadPackageExtend(a: string, b: string)
    requires ReadPackage(a).Package?
    ensures ReadPackage(a + b) == ReadPackage(a).(rest := ReadPackage(a).rest + b)
  {
    FindExtend(a, b, CRLF, 0);
    var pos := Find(a, CRLF, 0).value;
    assert (a + b)[..pos] == a[..pos];
    var total := TotalSize(Atoi(a[..pos]), pos);
    assert (a + b)[..total] == a[..total];
    assert (a + b)[total..] == a[total..] + b;
  }

  // ------------------------------------------------------------ the drain

  datatype Frame = Frame(len: int, package: string)

  /** Why the loop over a buffer stopped: nothing complete is left, a package with a
      length that is not positive was cut off, or removeHeader threw. */
  datatype Stop = Starved | NotPositive | Threw

  datatype Drained = Drained(frames: seq<Frame>, rest: string, stop: Stop)

  /** HandleRequest's loop: cut packages off until one is missing or has a length
      that is not positive. */
  function Drain(buffer: string): (d: Drained)
    decreases |buffer|
  {
    match ReadPackage(buffer)
    case Incomplete => Drained([], buffer, Starved)
    case Package(len, package, rest) =>
      var first := Frame(len, package);
      if len <= 0 then Drained([first], rest, NotPositive)
      else if RemoveHeader(package, len).None? then Drained([first], rest, Threw)
      else
        var d := Drain(rest);
        Drained([first] + d.frames, d.rest, d.stop)
  }

  /** No byte is lost: the packages cut off and what is left are the buffer. */
  lemma {:induction false} DrainConserves(buffer: string)
    ensures Packages(Drain(buffer).frames) + Drain(buffer).rest == buffer
    decreases |buffer|
  {
    var c := ReadPackage(buffer);
    if c.Package? {
      assert buffer == c.package + c.rest;
      var first := Frame(c.len, c.package);
      if c.len <= 0 || RemoveHeader(c.package, c.len).None? {
        assert [first][1..] == [];
      } else {
        DrainConserves(c.rest);
        assert ([first] + Drain(c.rest).frames)[1..] == Drain(c.rest).frames;
      }
    }
  }

  function Packages(frames: seq<Frame>): string {
    if frames == [] then "" else frames[0].package + Packages(frames[1..])
  }

  /** The payloads the loop hands on: those of the packages with a positive length. */
  function Payloads(frames: seq<Frame>): seq<string> {
    if frames == [] then []
    else
      var p := RemoveHeader(frames[0].package, frames[0].len);
      (if frames[0].len > 0 && p.Some? then [p.value] else []) + Payloads(frames[1..])
  }

  lemma {:induction false} PackagesAppend(a: seq<Frame>, b: seq<Frame>)
    ensures Packages(a + b) == Packages(a) + Packages(b)
  {
    if a == [] {
      assert a + b == b;
    } else {
      assert (a + b)[1..] == a[1..] + b;
      PackagesAppend(a[1..], b);
    }
  }

  lemma {:induction false} PayloadsAppend(a: seq<Frame>, b: seq<Frame>)
    ensures Payloads(a + b) == Payloads(a) + Payloads(b)
  {
    if a == [] {
      assert a + b == b;
    } else {
      assert (a + b)[1..] == a[1..] + b;
      PayloadsAppend(a[1..], b);
    }
  }

  lemma {:induction false} FirstThenRest(f: Frame, a: seq<Frame>, b: seq<Frame>)
    ensures ([f] + a) + b == [f] + (a + b)
  {
  }

  /** Draining as bytes arrive is draining once: a buffer that starved can be
      continued with whatever comes next. */
  lemma {:induction false} DrainContinues(a: string, b: string)
    requires Drain(a).stop == Starved
    ensures var d, e := Drain(a), Drain(Drain(a).rest + b);
            Drain(a + b) == Drained(d.frames + e.frames, e.rest, e.stop)
    decreases |a|
  {
    var c := ReadPackage(a);
    if c.Package? {
      ReadPackageExtend(a, b);
      DrainContinues(c.rest, b);
      FirstThenRest(Frame(c.len, c.package), Drain(c.rest).frames, Drain(Drain(a).rest + b).frames);
    }
  }

  /** A drain that stopped on a package stops there whatever follows, so every prefix
      of a stream that starves has starved too. */
  lemma {:induction false} StarvedPrefix(a: string, b: string)
    requires Drain(a + b).stop == Starved
    ensures Drain(a).stop == Starved
    decreases |a|
  {
    if ReadPackage(a).Package? {
      ReadPackageExtend(a, b);
      StarvedPrefix(ReadPackage(a).rest, b);
    }
  }

  // ------------------------------------------- every buffer, well-formed or not

  /** Below this size no package length computed by the reader can wrap around twice. */
  predicate Sized(buffer: string) {
    |buffer| < INT_MAX
  }

  /** For a positive length the payload is the slice just after the first CRLF. */
  lemma {:induction false} PositiveSlice(buffer: string)
    requires Sized(buffer)
    requires ReadPackage(buffer).Package? && ReadPackage(buffer).len > 0
    ensures var c, pos := ReadPackage(buffer), Find(buffer, CRLF, 0).value;
            && pos + 2 + c.len + 2 == |c.package|
            && RemoveHeader(c.package, c.len) == Some(buffer[pos + 2..pos + 2 + c.len])
  {
    var c, pos := ReadPackage(buffer), Find(buffer, CRLF, 0).value;
    assert c.len + pos + 4 < 0x1_0000_0000;
    assert |c.package| == c.len + pos + 4;
    assert c.package[pos + 2..pos + 2 + c.len] == buffer[pos + 2..pos + 2 + c.len];
  }

  /** The loop never throws on a buffer below 2^31 - 1 bytes. */
  lemma {:induction false} DrainNeverThrows(buffer: string)
    requires Sized(buffer)
    ensures Drain(buffer).stop != Threw
    decreases |buffer|
  {
    var c := ReadPackage(buffer);
    if c.Package? && c.len > 0 {
      PositiveSlice(buffer);
      DrainNeverThrows(c.rest);
    }
  }

  function Blanks(n: nat): (s: string)
    ensures |s| == n && forall i :: 0 <= i < n ==> s[i] == ' '
  {
    seq(n, i => ' ')
  }

  /** The bound is sharp: at every size from 2^31 - 1 on there is a buffer on which the
      loop throws, a length field of blanks and 2147483647 whose size wraps to nothing. */
  lemma {:induction false} SizedIsSharp(n: nat)
    requires INT_MAX <= n
    ensures exists b: string :: |b| == n && Drain(b).stop == Threw
  {
    DigitsAre();
    var field := Blanks(INT_MAX - 12) + NatToString(INT_MAX);
    var b := field + CRLF + Blanks(n - INT_MAX);
    FieldEnd(field, Blanks(n - INT_MAX));
    FieldValue(INT_MAX - 12, INT_MAX);
    assert ReadPackage(b) == Package(INT_MAX, b[..0], b[0..]);
  }

  /** A field without a carriage return ends at the first CRLF. */
  lemma {:induction false} FieldEnd(field: string, tail: string)
    requires forall j :: 0 <= j < |field| ==> field[j] != '\r'
    ensures Find(field + CRLF + tail, CRLF, 0) == Some(|field|)
    ensures (field + CRLF + tail)[..|field|] == field
  {
    var b := field + CRLF + tail;
    forall j | 0 <= j < |field| ensures !Occurs(b, CRLF, j) {
      assert b[j] == field[j];
      assert 0 <= j <= |b| - 2 ==> b[j..j + 2][0] == b[j];
    }
    assert b[|field|..|field| + 2] == CRLF;
    FindIs(b, CRLF, 0, |field|);
  }

  lemma {:induction false} FieldValue(blanks: nat, z: nat)
    requires z <= INT_MAX
    ensures Atoi(Blanks(blanks) + NatToString(z)) == z
  {
    var s := NatToString(z);
    AtoiReads(Blanks(blanks), "", z, "");
    assert "" + (s + "") == s;
  }

  lemma {:induction false} DigitsAre()
    ensures |NatToString(INT_MAX)| == 10
  {
  }

  // ----------------------------------------------------- well-formed streams

  /** The payloads the framing can carry: not empty, and the package size fits an int. */
  predicate Carries(payload: string) {
    0 < |payload| && |AddHeader(payload)| <= INT_MAX
  }

  function Stream(payloads: seq<string>): string {
    if payloads == [] then "" else AddHeader(payloads[0]) + Stream(payloads[1..])
  }

  function FrameOf(payload: string): Frame {
    Frame(|payload|, AddHeader(payload))
  }

  function Frames(payloads: seq<string>): (f: seq<Frame>)
    ensures |f| == |payloads|
    ensures forall i :: 0 <= i < |f| ==> f[i] == FrameOf(payloads[i])
  {
    seq(|payloads|, i requires 0 <= i < |payloads| => FrameOf(payloads[i]))
  }

  /** One readPackage gives an encoded payload back whole, whatever follows it, exactly
      when the package size fits an int. */
  lemma {:induction false} ReadsBackIffFits(payload: string, rest: string)
    ensures ReadPackage(AddHeader(payload) + rest) == Package(|payload|, AddHeader(payload), rest)
            <==> |AddHeader(payload)| <= INT_MAX
    ensures |AddHeader(payload)| <= INT_MAX ==> RemoveHeader(AddHeader(payload), |payload|) == Some(payload)
  {
    var s := NatToString(|payload|);
    var b := AddHeader(payload) + rest;
    FieldEnd(s, payload + CRLF + rest);
    assert b == s + CRLF + (payload + CRLF + rest);
    if |payload| <= INT_MAX {
      AtoiInvertsPrint(|payload|);
      var total := |AddHeader(payload)|;
      assert total == |payload| + |s| + 4;
      assert b[..total] == AddHeader(payload) && b[total..] == rest;
      assert AddHeader(payload)[|s| + 2..|s| + 2 + |payload|] == payload;
    } else {
      assert Atoi(s) <= INT_MAX;
    }
  }

  /** An empty payload stops the loop: its package comes off, and the bytes behind it stay
      unread, complete or not. */
  lemma {:induction false} EmptyPayloadStops(rest: string)
    ensures Drain(AddHeader("") + rest) == Drained([FrameOf("")], rest, NotPositive)
  {
    assert |NatToString(0)| == 1;
    ReadsBackIffFits("", rest);
  }

  /** Through the loop: an encoded payload comes off whole and the bytes behind it are
      drained as they would be alone, exactly for the payloads the framing carries. */
  lemma {:induction false} DecodesIffCarries(payload: string, rest: string)
    ensures Drain(AddHeader(payload) + rest)
            == Drained([FrameOf(payload)] + Drain(rest).frames, Drain(rest).rest, Drain(rest).stop)
            <==> Carries(payload)
  {
    ReadsBackIffFits(payload, rest);
    var buffer := AddHeader(payload) + rest;
    if payload == "" {
      EmptyPayloadStops(rest);
      StarvedKeeps(rest);
    } else if !Carries(payload) && Drain(buffer).frames != [] && Drain(buffer).frames[0] == FrameOf(payload) {
      WholeFrame(buffer, payload, rest);
    }
  }

  /** A loop that ends on a length that is not positive has cut that package off. */
  lemma {:induction false} StarvedKeeps(buffer: string)
    ensures Drain(buffer).stop == NotPositive ==> Drain(buffer).frames != []
  {
  }

  lemma {:induction false} WholeFrame(buffer: string, payload: string, rest: string)
    requires buffer == AddHeader(payload) + rest
    requires Drain(buffer).frames != [] && Drain(buffer).frames[0] == FrameOf(payload)
    ensures ReadPackage(buffer) == Package(|payload|, AddHeader(payload), rest)
  {
    var c := ReadPackage(buffer);
    assert c.package + c.rest == buffer;
    assert buffer[|AddHeader(payload)|..] == rest;
  }

  /** The bytes of a package: the length in decimal digits up to the first CRLF, the payload
      right behind it, and a CRLF as the last two bytes. */
  lemma {:induction false} PackageLayout(payload: string)
    ensures var r, n := AddHeader(payload), |NatToString(|payload|)|;
            && |r| == n + 2 + |payload| + 2
            && Find(r, "\r\n", 0) == Some(n) && (forall i :: 0 <= i < n ==> IsDigit(r[i]))
            && DigitsToNat(r[..n]) == |payload|
            && r[n + 2..n + 2 + |payload|] == payload
            && r[|r| - 2] == '\r' && r[|r| - 1] == '\n'
  {
    var s := NatToString(|payload|);
    FieldEnd(s, payload + CRLF);
    assert AddHeader(payload) == s + CRLF + (payload + CRLF);
    DigitsToNatPrint(|payload|);
  }

  lemma {:induction false} CutInTwo(s: string, n: nat)
    requires n <= |s|
    ensures s[..n] + s[n..] == s
  {
  }

  lemma {:induction false} WholePackage(payload: string)
    requires Carries(payload)
    ensures ReadPackage(AddHeader(payload)) == Package(|payload|, AddHeader(payload), "")
  {
    assert AddHeader(payload) + "" == AddHeader(payload);
    ReadsBackIffFits(payload, "");
  }

  /** Cut short anywhere, an encoded payload is incomplete. */
  lemma {:induction false} ProperPrefixStarves(payload: string, n: nat)
    requires Carries(payload) && n < |AddHeader(payload)|
    ensures ReadPackage(AddHeader(payload)[..n]) == Incomplete
  {
    var a, b := AddHeader(payload)[..n], AddHeader(payload)[n..];
    if ReadPackage(a).Package? {
      ReadPackageExtend(a, b);
      CutInTwo(AddHeader(payload), n);
      WholePackage(payload);
    }
  }

  /** How many whole packages lie in the first `n` bytes of a stream. */
  function CompleteIn(payloads: seq<string>, n: nat): (k: nat)
    ensures k <= |payloads|
  {
    if payloads == [] || n < |AddHeader(payloads[0])| then 0
    else 1 + CompleteIn(payloads[1..], n - |AddHeader(payloads[0])|)
  }

  lemma {:induction false} CompleteInIsLargest(payloads: seq<string>, n: nat)
    requires n <= |Stream(payloads)|
    ensures var k := CompleteIn(payloads, n);
            && |Stream(payloads[..k])| <= n
            && (k < |payloads| ==> n < |Stream(payloads[..k + 1])|)
  {
    if payloads != [] {
      var k := CompleteIn(payloads, n);
      if k == 0 {
        assert payloads[..1][1..] == [];
        assert Stream(payloads[..1][1..]) == "";
      } else {
        CompleteInIsLargest(payloads[1..], n - |AddHeader(payloads[0])|);
        assert payloads[..k][1..] == payloads[1..][..k - 1];
        if k < |payloads| {
          assert payloads[..k + 1][1..] == payloads[1..][..k];
        }
      }
    }
  }

  lemma {:induction false} PrefixTail(s: string, a: string, b: string)
    requires s <= a + b && |a| <= |s|
    ensures s == a + s[|a|..] && s[|a|..] <= b
  {
  }

  /** Every prefix of a well-formed stream drains to exactly the packages complete in
      it and keeps the unfinished rest. */
  lemma {:induction false} DrainOfPrefix(payloads: seq<string>, s: string)
    requires forall i :: 0 <= i < |payloads| ==> Carries(payloads[i])
    requires s <= Stream(payloads)
    ensures Drain(s).frames == Frames(payloads[..CompleteIn(payloads, |s|)]) && Drain(s).stop == Starved
  {
    if payloads == [] {
      assert s == "";
    } else {
      var p, head, tail := payloads[0], AddHeader(payloads[0]), payloads[1..];
      if |s| < |head| {
        ProperPrefixStarves(p, |s|);
        assert s == head[..|s|];
      } else {
        PrefixTail(s, head, Stream(tail));
        var s' := s[|head|..];
        DecodesIffCarries(p, s');
        DrainOfPrefix(tail, s');
        var k := CompleteIn(tail, |s'|);
        FramesOfPrefix(payloads, k);
        assert CompleteIn(payloads, |s|) == k + 1;
        assert Drain(s).frames == [FrameOf(p)] + Drain(s').frames;
      }
    }
  }

  lemma {:induction false} FramesOfPrefix(payloads: seq<string>, k: nat)
    requires k < |payloads|
    ensures Frames(payloads[..k + 1]) == [FrameOf(payloads[0])] + Frames(payloads[1..][..k])
  {
  }

  lemma {:induction false} PayloadsOfFrames(payloads: seq<string>)
    requires forall i :: 0 <= i < |payloads| ==> Carries(payloads[i])
    ensures Payloads(Frames(payloads)) == payloads
    ensures Packages(Frames(payloads)) == Stream(payloads)
  {
    if payloads != [] {
      assert Frames(payloads)[1..] == Frames(payloads[1..]);
      ReadsBackIffFits(payloads[0], "");
      PayloadsOfFrames(payloads[1..]);
    }
  }

  // ------------------------------------------------------ arbitrary chunks

  function Join(chunks: seq<string>): string {
    if chunks == [] then "" else Join(chunks[..|chunks| - 1]) + chunks[|chunks| - 1]
  }

  /** Append a chunk, drain, and so on: the state after all of `chunks`. */
  function DrainChunks(chunks: seq<string>): Drained {
    if chunks == [] then Drained([], "", Starved)
    else
      var before := DrainChunks(chunks[..|chunks| - 1]);
      var d := Drain(before.rest + chunks[|chunks| - 1]);
      Drained(before.frames + d.frames, d.rest, d.stop)
  }

  /** Chunk invariance: on a stream that starves, the loop run after every chunk gives
      what one run over all the bytes gives. */
  lemma {:induction false} ChunkInvariance(chunks: seq<string>)
    requires Drain(Join(chunks)).stop == Starved
    ensures DrainChunks(chunks) == Drain(Join(chunks))
  {
    if chunks != [] {
      var init, last := chunks[..|chunks| - 1], chunks[|chunks| - 1];
      StarvedPrefix(Join(init), last);
      ChunkInvariance(init);
      DrainContinues(Join(init), last);
    }
  }

  /** For any payloads the framing carries, delivered in any chunks and stopped
      anywhere, the append-then-drain loop has produced exactly the complete ones. */
  lemma {:induction false} ChunkedStreamDecodes(payloads: seq<string>, chunks: seq<string>)
    requires forall i :: 0 <= i < |payloads| ==> Carries(payloads[i])
    requires Join(chunks) <= Stream(payloads)
    ensures var k, d := CompleteIn(payloads, |Join(chunks)|), DrainChunks(chunks);
            && Payloads(d.frames) == payloads[..k]
            && Stream(payloads[..k]) + d.rest == Join(chunks)
            && d.stop == Starved
    ensures Join(chunks) == Stream(payloads) ==> Payloads(DrainChunks(chunks).frames) == payloads && DrainChunks(chunks).rest == ""
  {
    var k := CompleteIn(payloads, |Join(chunks)|);
    DrainOfPrefix(payloads, Join(chunks));
    DrainConserves(Join(chunks));
    ChunkInvariance(chunks);
    PayloadsOfFrames(payloads[..k]);
    if Join(chunks) == Stream(payloads) {
      WholeStream(payloads);
      assert payloads[..k] == payloads;
    }
  }

  lemma {:induction false} WholeStream(payloads: seq<string>)
    ensures CompleteIn(payloads, |Stream(payloads)|) == |payloads|
  {
    if payloads != [] {
      WholeStream(payloads[1..]);
    }
  }

  // ------------------------- the older reader: one package per received chunk

  datatype Reader = Reader(payloads: seq<string>, buffer: string)

  /** One call of the 7.20 reader: append what recv gave, then cut off at most one package. */
  function ReadOne(r: Reader, chunk: string): Reader {
    var c := ReadPackage(r.buffer + chunk);
    if c.Incomplete? then r.(buffer := r.buffer + chunk)
    else
      var p := RemoveHeader(c.package, c.len);
      Reader(if c.len > 0 && p.Some? then r.payloads + [p.value] else r.payloads, c.rest)
  }

  function ReadChunks(chunks: seq<string>): Reader {
    if chunks == [] then Reader([], "")
    else ReadOne(ReadChunks(chunks[..|chunks| - 1]), chunks[|chunks| - 1])
  }

  /** An empty payload is passed over by this reader. */
  lemma {:induction false} OlderReaderPassesEmpty(r: Reader, rest: string)
    requires r.buffer == ""
    ensures ReadOne(r, AddHeader("") + rest) == Reader(r.payloads, rest)
  {
    assert |NatToString(0)| == 1;
    assert "" + (AddHeader("") + rest) == AddHeader("") + rest;
    ReadsBackIffFits("", rest);
  }

  lemma {:induction false} StreamSplit(payloads: seq<string>, k: nat)
    requires k <= |payloads|
    ensures Stream(payloads) == Stream(payloads[..k]) + Stream(payloads[k..])
  {
    if k == 0 {
      assert payloads[..0] == [] && payloads[0..] == payloads;
    } else {
      StreamSplit(payloads[1..], k - 1);
      assert payloads[1..][..k - 1] == payloads[..k][1..] && payloads[..k][0] == payloads[0];
      assert payloads[1..][k - 1..] == payloads[k..];
      Associate(AddHeader(payloads[0]), Stream(payloads[..k][1..]), Stream(payloads[k..]));
    }
  }

  /** The older reader falls behind but never goes wrong: what it has returned is
      always a prefix of the payloads sent, and the rest is still in its buffer. */
  lemma {:induction false} OlderReaderYieldsPrefix(payloads: seq<string>, chunks: seq<string>)
    requires forall i :: 0 <= i < |payloads| ==> Carries(payloads[i])
    requires Join(chunks) <= Stream(payloads)
    ensures var r := ReadChunks(chunks);
            && r.payloads <= payloads
            && Stream(r.payloads) + r.buffer == Join(chunks)
  {
    if chunks != [] {
      var init, last := chunks[..|chunks| - 1], chunks[|chunks| - 1];
      OlderReaderYieldsPrefix(payloads, init);
      var r := ReadChunks(init);
      assert payloads[..|r.payloads|] == r.payloads;
      assert Stream(r.payloads) + (r.buffer + last) == Join(chunks);
      OlderReaderStep(payloads, r, last);
    }
  }

  lemma {:induction false} OlderReaderStep(payloads: seq<string>, r: Reader, chunk: string)
    requires forall i :: 0 <= i < |payloads| ==> Carries(payloads[i])
    requires r.payloads <= payloads
    requires Stream(payloads[..|r.payloads|]) + (r.buffer + chunk) <= Stream(payloads)
    ensures ReadOne(r, chunk).payloads <= payloads
    ensures Stream(ReadOne(r, chunk).payloads) + ReadOne(r, chunk).buffer == Stream(r.payloads) + (r.buffer + chunk)
  {
    StillToCome(payloads, |r.payloads|, r.buffer + chunk);
    ReadOneOfStream(r, payloads[|r.payloads|..], chunk);
    if |r.payloads| < |payloads| {
      ExtendPrefix(r.payloads, payloads);
    }
  }

  lemma {:induction false} StillToCome(payloads: seq<string>, k: nat, buffer: string)
    requires k <= |payloads| && Stream(payloads[..k]) + buffer <= Stream(payloads)
    ensures buffer <= Stream(payloads[k..])
  {
    var a := Stream(payloads[..k]);
    StreamSplit(payloads, k);
    PrefixTail(a + buffer, a, Stream(payloads[k..]));
    assert (a + buffer)[|a|..] == buffer;
  }

  lemma {:induction false} Associate(a: string, b: string, c: string)
    ensures (a + b) + c == a + (b + c)
  {
  }

  lemma {:induction false} ExtendPrefix(a: seq<string>, b: seq<string>)
    requires a <= b && |a| < |b|
    ensures a + [b[|a|]] <= b
  {
  }

  lemma {:induction false} ReadOneOfStream(r: Reader, todo: seq<string>, chunk: string)
    requires forall i :: 0 <= i < |todo| ==> Carries(todo[i])
    requires r.buffer + chunk <= Stream(todo)
    ensures ReadOne(r, chunk).payloads == r.payloads
            || (todo != [] && ReadOne(r, chunk).payloads == r.payloads + [todo[0]])
    ensures Stream(ReadOne(r, chunk).payloads) + ReadOne(r, chunk).buffer == Stream(r.payloads) + (r.buffer + chunk)
  {
    var buffer := r.buffer + chunk;
    if todo != [] && |AddHeader(todo[0])| <= |buffer| {
      ReadOneWhole(r, todo, chunk);
    } else if todo != [] {
      assert buffer == AddHeader(todo[0])[..|buffer|];
      ProperPrefixStarves(todo[0], |buffer|);
    } else {
      assert buffer == "";
    }
  }

  lemma {:induction false} ReadOneWhole(r: Reader, todo: seq<string>, chunk: string)
    requires todo != [] && Carries(todo[0])
    requires r.buffer + chunk <= Stream(todo) && |AddHeader(todo[0])| <= |r.buffer + chunk|
    ensures ReadOne(r, chunk).payloads == r.payloads + [todo[0]]
    ensures Stream(ReadOne(r, chunk).payloads) + ReadOne(r, chunk).buffer == Stream(r.payloads) + (r.buffer + chunk)
  {
    var buffer, head := r.buffer + chunk, AddHeader(todo[0]);
    PrefixTail(buffer, head, Stream(todo[1..]));
    var rest := buffer[|head|..];
    ReadsBackIffFits(todo[0], rest);
    StreamSnoc(r.payloads, todo[0]);
    Associate(Stream(r.payloads), head, rest);
  }

  lemma {:induction false} StreamSnoc(done: seq<string>, payload: string)
    ensures Stream(done + [payload]) == Stream(done) + AddHeader(payload)
  {
    StreamSplit(done + [payload], |done|);
    assert (done + [payload])[..|done|] == done;
    assert (done + [payload])[|done|..] == [payload];
    assert [payload][1..] == [];
    assert Stream([payload]) == AddHeader(payload) + Stream([]);
  }

  // ----------------------------------------- when the older reader keeps up

  /** How many packages are complete after the first `n` chunks. */
  function CompleteAfter(payloads: seq<string>, chunks: seq<string>, n: nat): nat
    requires n <= |chunks|
  {
    CompleteIn(payloads, |Join(chunks[..n])|)
  }

  /** How many the older reader has returned after the first `n` chunks. */
  function ReadAfter(chunks: seq<string>, n: nat): nat
    requires n <= |chunks|
  {
    |ReadChunks(chunks[..n]).payloads|
  }

  lemma {:induction false} CompleteBehind(payloads: seq<string>, k: nat, n: nat)
    requires k <= |payloads|
    ensures CompleteIn(payloads, |Stream(payloads[..k])| + n) == k + CompleteIn(payloads[k..], n)
  {
    if k == 0 {
      assert payloads[0..] == payloads && payloads[..0] == [];
    } else {
      CompleteBehind(payloads[1..], k - 1, n);
      assert payloads[1..][..k - 1] == payloads[..k][1..] && payloads[1..][k - 1..] == payloads[k..];
    }
  }

  /** One recv of the older reader returns a payload exactly when its buffer then holds a
      whole package. */
  lemma {:induction false} ReadOneCounts(r: Reader, todo: seq<string>, chunk: string)
    requires forall i :: 0 <= i < |todo| ==> Carries(todo[i])
    requires r.buffer + chunk <= Stream(todo)
    ensures |ReadOne(r, chunk).payloads| == |r.payloads| + if CompleteIn(todo, |r.buffer + chunk|) > 0 then 1 else 0
  {
    var buffer := r.buffer + chunk;
    if todo != [] && |AddHeader(todo[0])| <= |buffer| {
      ReadOneWhole(r, todo, chunk);
    } else if todo != [] {
      assert buffer == AddHeader(todo[0])[..|buffer|];
      ProperPrefixStarves(todo[0], |buffer|);
    } else {
      assert buffer == "";
    }
  }

  /** The reader has returned the first payloads of a stream, and its buffer with the next
      chunk is where the stream goes on. */
  ghost predicate Behind(payloads: seq<string>, done: seq<string>, buffer: string) {
    forall s: Seal {:trigger Open(s)} :: Open(s) ==>
      && (forall i :: 0 <= i < |payloads| ==> Carries(payloads[i]))
      && done <= payloads && Stream(done) + buffer <= Stream(payloads)
  }

  lemma {:induction false} CompleteCounts(payloads: seq<string>, done: seq<string>, buffer: string)
    requires Behind(payloads, done, buffer)
    ensures |done| <= |payloads|
    ensures CompleteIn(payloads, |Stream(done) + buffer|) == |done| + CompleteIn(payloads[|done|..], |buffer|)
  {
    assert Open(Seal);
    assert payloads[..|done|] == done;
    CompleteBehind(payloads, |done|, |buffer|);
  }

  lemma {:induction false} ReturnedCounts(payloads: seq<string>, r: Reader, chunk: string)
    requires Behind(payloads, r.payloads, r.buffer + chunk)
    ensures |r.payloads| <= |payloads|
    ensures |ReadOne(r, chunk).payloads| ==
              |r.payloads| + if CompleteIn(payloads[|r.payloads|..], |r.buffer + chunk|) > 0 then 1 else 0
  {
    assert Open(Seal);
    assert payloads[..|r.payloads|] == r.payloads;
    StillToCome(payloads, |r.payloads|, r.buffer + chunk);
    ReadOneCounts(r, payloads[|r.payloads|..], chunk);
  }

  lemma {:induction false} PaceStep(payloads: seq<string>, r: Reader, chunk: string)
    requires Behind(payloads, r.payloads, r.buffer + chunk)
    ensures var complete := CompleteIn(payloads, |Stream(r.payloads) + (r.buffer + chunk)|);
            |ReadOne(r, chunk).payloads| == if |r.payloads| < complete then |r.payloads| + 1 else complete
  {
    CompleteCounts(payloads, r.payloads, r.buffer + chunk);
    ReturnedCounts(payloads, r, chunk);
  }

  lemma {:induction false} OneChunkMore(chunks: seq<string>, n: nat)
    requires n < |chunks|
    ensures Join(chunks[..n + 1]) == Join(chunks[..n]) + chunks[n]
    ensures ReadChunks(chunks[..n + 1]) == ReadOne(ReadChunks(chunks[..n]), chunks[n])
  {
    assert chunks[..n + 1][..n] == chunks[..n];
  }

  lemma {:induction false} StillBehind(payloads: seq<string>, chunks: seq<string>, n: nat)
    requires forall i :: 0 <= i < |payloads| ==> Carries(payloads[i])
    requires n < |chunks| && Join(chunks[..n + 1]) <= Stream(payloads)
    ensures var r := ReadChunks(chunks[..n]);
            && Behind(payloads, r.payloads, r.buffer + chunks[n])
            && Equals(Stream(r.payloads) + (r.buffer + chunks[n]), Join(chunks[..n + 1]))
  {
    OneChunkMore(chunks, n);
    OlderReaderYieldsPrefix(payloads, chunks[..n]);
    var r := ReadChunks(chunks[..n]);
    Associate(Stream(r.payloads), r.buffer, chunks[n]);
  }

  /** The pace of the older reader: one package a chunk, and never more than are complete. */
  lemma {:induction false} OlderReaderPace(payloads: seq<string>, chunks: seq<string>, n: nat)
    requires forall i :: 0 <= i < |payloads| ==> Carries(payloads[i])
    requires n < |chunks| && Join(chunks[..n + 1]) <= Stream(payloads)
    ensures var complete := CompleteAfter(payloads, chunks, n + 1);
            ReadAfter(chunks, n + 1) == if ReadAfter(chunks, n) < complete then ReadAfter(chunks, n) + 1 else complete
  {
    OneChunkMore(chunks, n);
    StillBehind(payloads, chunks, n);
    PaceStep(payloads, ReadChunks(chunks[..n]), chunks[n]);
  }

  lemma {:induction false} JoinPrefix(chunks: seq<string>, n: nat)
    requires n <= |chunks|
    ensures Join(chunks[..n]) <= Join(chunks)
    decreases |chunks|
  {
    if n < |chunks| {
      var init := chunks[..|chunks| - 1];
      assert init[..n] == chunks[..n];
      JoinPrefix(init, n);
    } else {
      assert chunks[..n] == chunks;
    }
  }

  /** The older reader has returned everything complete after every chunk exactly when no
      chunk completes more than one package. */
  lemma {:induction false} KeepsUpIff(payloads: seq<string>, chunks: seq<string>)
    requires forall i :: 0 <= i < |payloads| ==> Carries(payloads[i])
    requires Join(chunks) <= Stream(payloads)
    ensures (forall n: nat :: n <= |chunks| ==> ReadAfter(chunks, n) == CompleteAfter(payloads, chunks, n))
            <==> OneAtATime(payloads, chunks)
  {
    forall n: nat | n < |chunks|
      ensures var complete := CompleteAfter(payloads, chunks, n + 1);
              ReadAfter(chunks, n + 1) == if ReadAfter(chunks, n) < complete then ReadAfter(chunks, n) + 1 else complete
    {
      JoinPrefix(chunks, n + 1);
      OlderReaderPace(payloads, chunks, n);
    }
    if OneAtATime(payloads, chunks) {
      forall n: nat | n <= |chunks| ensures ReadAfter(chunks, n) == CompleteAfter(payloads, chunks, n) {
        KeepsUp(payloads, chunks, n);
      }
    } else {
      var n: nat :| n < |chunks| && CompleteAfter(payloads, chunks, n + 1) > CompleteAfter(payloads, chunks, n) + 1;
      assert ReadAfter(chunks, n + 1) <= ReadAfter(chunks, n) + 1;
    }
  }

  /** Each chunk completes at most one package. */
  ghost predicate OneAtATime(payloads: seq<string>, chunks: seq<string>) {
    forall n: nat :: n < |chunks| ==> CompleteAfter(payloads, chunks, n + 1) <= CompleteAfter(payloads, chunks, n) + 1
  }

  lemma {:induction false} KeepsUp(payloads: seq<string>, chunks: seq<string>, n: nat)
    requires forall i :: 0 <= i < |payloads| ==> Carries(payloads[i])
    requires Join(chunks) <= Stream(payloads) && OneAtATime(payloads, chunks) && n <= |chunks|
    ensures ReadAfter(chunks, n) == CompleteAfter(payloads, chunks, n)
  {
    if n == 0 {
      assert chunks[..0] == [];
    } else {
      KeepsUp(payloads, chunks, n - 1);
      JoinPrefix(chunks, n);
      OlderReaderPace(payloads, chunks, n - 1);
      OneChunkMore(chunks, n - 1);
      MoreComplete(payloads, |Join(chunks[..n - 1])|, |Join(chunks[..n])|);
    }
  }

  lemma {:induction false} MoreComplete(payloads: seq<string>, m: nat, n: nat)
    requires m <= n
    ensures CompleteIn(payloads, m) <= CompleteIn(payloads, n)
  {
    if payloads != [] && |AddHeader(payloads[0])| <= m {
      MoreComplete(payloads[1..], m - |AddHeader(payloads[0])|, n - |AddHeader(payloads[0])|);
    }
  }
}
