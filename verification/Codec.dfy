/** The text form of the calculator messages (fields joined by a space) and the client's
    reading of a typed formula. */
module Codec {
  import opened Text
  import opened Framing
  import opened Protocol

  const SEP: string := " "

  // ----------------------------------------------------------- splitstrings

  /** The pieces between separators; nothing after a separator at the very end. */
  function Pieces(s: string, sep: string): seq<string>
    requires |sep| > 0
    decreases |s|
  {
    if s == "" then []
    else
      match Find(s, sep, 0)
      case None => [s]
      case Some(i) => [s[..i]] + Pieces(s[i + |sep|..], sep)
  }

  function JoinWith(v: seq<string>, sep: string): string {
    if v == [] then ""
    else if |v| == 1 then v[0]
    else v[0] + sep + JoinWith(v[1..], sep)
  }

  lemma {:induction false} OccursShift(s: string, pat: string, start: nat, j: nat)
    requires start <= |s|
    ensures Occurs(s[start..], pat, j) <==> Occurs(s, pat, start + j)
  {
  }

  lemma {:induction false} FindShift(s: string, pat: string, start: nat)
    requires start <= |s|
    ensures Find(s, pat, start).None? <==> Find(s[start..], pat, 0).None?
    ensures Find(s, pat, start).Some? ==> Find(s[start..], pat, 0) == Some(Find(s, pat, start).value - start)
  {
    var t, r := s[start..], Find(s, pat, start);
    forall j: nat ensures Occurs(t, pat, j) <==> Occurs(s, pat, start + j) {
      OccursShift(s, pat, start, j);
    }
    if r.Some? {
      FindIs(t, pat, 0, r.value - start);
    }
  }

  lemma {:induction false} PiecesCut(t: string, sep: string, i: nat, piece: string, rest: string)
    requires |sep| > 0 && Find(t, sep, 0) == Some(i) && piece == t[..i] && rest == t[i + |sep|..]
    ensures Equals(Pieces(t, sep), [piece] + Pieces(rest, sep))
  {
  }

  lemma {:induction false} Regroup(v: seq<string>, p: seq<string>, s: string, w: seq<string>)
    requires Equals(p, [s] + w)
    ensures Equals(v + p, v + [s] + w)
  {
    assert v + p == v + [s] + w;
  }

  /** Cutting the piece off that ends at the first separator from `start` on. */
  lemma {:induction false} PiecesFrom(s: string, sep: string, start: nat)
    requires |sep| > 0 && start < |s|
    ensures Find(s, sep, start).None? ==> Equals(Pieces(s[start..], sep), [s[start..]])
    ensures Find(s, sep, start).Some? ==>
              Equals(Pieces(s[start..], sep),
                   [s[start..Find(s, sep, start).value]] + Pieces(s[Find(s, sep, start).value + |sep|..], sep))
  {
    FindShift(s, sep, start);
    var pos := Find(s, sep, start);
    if pos.Some? {
      SliceOfRest(s, start, pos.value, |sep|);
      PiecesCut(s[start..], sep, pos.value - start, s[start..pos.value], s[pos.value + |sep|..]);
    }
  }

  lemma {:induction false} SliceOfRest(s: string, start: nat, i: nat, n: nat)
    requires start <= i && i + n <= |s|
    ensures s[start..][..i - start] == s[start..i] && s[start..][i - start + n..] == s[i + n..]
  {
  }

  /** The pieces from `start` on, pushed onto a vector one after the other. */
  function SplitFrom(s: string, sep: string, start: nat, v: seq<string>): seq<string>
    requires |sep| > 0
    decreases |s| - start
  {
    if start >= |s| then v
    else
      match Find(s, sep, start)
      case None => v + [s[start..]]
      case Some(i) => SplitFrom(s, sep, i + |sep|, v + [s[start..i]])
  }

  /** Unrolling once. */
  lemma {:induction false} SplitFromStep(s: string, sep: string, start: nat, v: seq<string>)
    requires |sep| > 0 && start < |s|
    ensures var pos := Find(s, sep, start);
            Equals(SplitFrom(s, sep, start, v),
                   if pos.None? then v + [s[start..]]
                   else SplitFrom(s, sep, pos.value + |sep|, v + [s[start..pos.value]]))
  {
  }

  lemma {:induction false} PushStep(s: string, sep: string, start: nat, v: seq<string>)
    requires |sep| > 0 && start < |s|
    ensures var pos := Find(s, sep, start);
            Equals(v + Pieces(s[start..], sep),
                 if pos.None? then v + [s[start..]]
                 else v + [s[start..pos.value]] + Pieces(s[pos.value + |sep|..], sep))
  {
    PiecesFrom(s, sep, start);
    var pos := Find(s, sep, start);
    if pos.Some? {
      Regroup(v, Pieces(s[start..], sep), s[start..pos.value], Pieces(s[pos.value + |sep|..], sep));
    }
  }

  lemma {:induction false} SplitFromEnd(s: string, sep: string, v: seq<string>)
    requires |sep| > 0
    ensures Equals(SplitFrom(s, sep, |s|, v), v + Pieces(s[|s|..], sep))
  {
    assert s[|s|..] == "" && v + [] == v;
  }

  /** One turn moves a piece from the rest to the vector, or is the last one. */
  lemma {:induction false} TurnPushes(s: string, sep: string, start: nat, v: seq<string>)
    returns (last: bool, next: nat, more: seq<string>)
    requires |sep| > 0 && start < |s|
    ensures last ==> Equals(SplitFrom(s, sep, start, v), v + Pieces(s[start..], sep))
    ensures start < next <= |s|
    ensures !last ==>
              && Equals(SplitFrom(s, sep, start, v), SplitFrom(s, sep, next, more))
              && Equals(v + Pieces(s[start..], sep), more + Pieces(s[next..], sep))
  {
    PushStep(s, sep, start, v);
    SplitFromStep(s, sep, start, v);
    var pos := Find(s, sep, start);
    last, next, more := pos.None?, |s|, [];
    if pos.Some? {
      next, more := pos.value + |sep|, v + [s[start..pos.value]];
    }
  }

  lemma {:induction false} SplitFromPushes(s: string, sep: string, start: nat, v: seq<string>)
    requires |sep| > 0 && start <= |s|
    ensures Equals(SplitFrom(s, sep, start, v), v + Pieces(s[start..], sep))
    decreases |s| - start
  {
    if start == |s| {
      SplitFromEnd(s, sep, v);
    } else {
      var last, next, more := TurnPushes(s, sep, start, v);
      if !last {
        SplitFromPushes(s, sep, next, more);
      }
    }
  }

  /** The splitting loop appends the pieces to what the vector held. */
  method SplitStrings(str: string, sep: string, before: seq<string>) returns (result: seq<string>)
    requires |sep| > 0
    ensures result == before + Pieces(str, sep)
  {
    result := before;
    var start: nat := 0;
    while start < |str|
      invariant Equals(SplitFrom(str, sep, start, result), SplitFrom(str, sep, 0, before))
    {
      var pos := Find(str, sep, start);
      if pos.None? {
        break;
      }
      result := result + [str[start..pos.value]];
      start := pos.value + |sep|;
    }
    if start < |str| {
      result := result + [str[start..]];
    }
    SplitFromPushes(str, sep, 0, before);
    assert str[0..] == str;
  }

  lemma {:induction false} JoinCons(a: string, v: seq<string>, sep: string)
    ensures JoinWith([a] + v, sep) == if v == [] then a else a + sep + JoinWith(v, sep)
  {
  }

  /** Splitting loses nothing but a separator at the end. */
  lemma {:induction false} SplitLossless(s: string, sep: string)
    requires |sep| > 0
    ensures var v := Pieces(s, sep);
            s == JoinWith(v, sep) || (v != [] && s == JoinWith(v, sep) + sep)
    decreases |s|
  {
    if s != "" && Find(s, sep, 0).Some? {
      CutAt(s, sep);
      var i := Find(s, sep, 0).value;
      var a, rest := s[..i], s[i + |sep|..];
      var w := Pieces(rest, sep);
      SplitLossless(rest, sep);
      JoinCons(a, w, sep);
      if w != [] {
        Associate(a + sep, JoinWith(w, sep), sep);
      }
    }
  }

  /** No piece holds a separator. */
  lemma {:induction false} PiecesHoldNone(s: string, sep: string)
    requires |sep| > 0
    ensures forall i :: 0 <= i < |Pieces(s, sep)| ==> Find(Pieces(s, sep)[i], sep, 0).None?
    decreases |s|
  {
    if s != "" && Find(s, sep, 0).Some? {
      CutAt(s, sep);
      PiecesHoldNone(s[Find(s, sep, 0).value + |sep|..], sep);
    }
  }

  /** The lists of pieces that survive being joined: no separator appears before its
      place, and the last piece is neither empty nor holds one. */
  predicate Splittable(v: seq<string>, sep: string)
    requires |sep| > 0
  {
    if v == [] then true
    else if |v| == 1 then v[0] != "" && Find(v[0], sep, 0).None?
    else Find(v[0] + sep, sep, 0) == Some(|v[0]|) && Splittable(v[1..], sep)
  }

  /** Where the first separator of a string with a separator in it is found. */
  lemma {:induction false} FirstPiece(a: string, rest: string, sep: string)
    requires |sep| > 0
    ensures Find(a + sep, sep, 0).Some? && Find(a + sep, sep, 0).value <= |a|
    ensures Pieces(a + sep + rest, sep) != []
    ensures Find(a + sep, sep, 0).value < |a| ==> |Pieces(a + sep + rest, sep)[0]| < |a|
    ensures Find(a + sep, sep, 0).value == |a| ==> Pieces(a + sep + rest, sep) == [a] + Pieces(rest, sep)
  {
    var s := a + sep + rest;
    assert (a + sep)[|a|..|a| + |sep|] == sep;
    assert Occurs(a + sep, sep, |a|);
    FindExtend(a + sep, rest, sep, 0);
    assert s[..|a|] == a && s[|a| + |sep|..] == rest;
  }

  /** Splitting inverts joining on exactly those lists. */
  lemma {:induction false} SplitInvertsJoin(v: seq<string>, sep: string)
    requires |sep| > 0
    ensures Pieces(JoinWith(v, sep), sep) == v <==> Splittable(v, sep)
  {
    if |v| >= 2 {
      FirstPiece(v[0], JoinWith(v[1..], sep), sep);
      SplitInvertsJoin(v[1..], sep);
      assert v == [v[0]] + v[1..];
    }
  }

  /** An empty last piece is the one thing joining hides. */
  lemma {:induction false} SplitDropsEmptyTail(v: seq<string>, sep: string)
    requires |sep| > 0
    requires forall i :: 0 <= i < |v| ==> Find(v[i] + sep, sep, 0) == Some(|v[i]|)
    ensures Pieces(JoinWith(v + [""], sep), sep) == v
  {
    if v != [] {
      var w := v[1..] + [""];
      assert v + [""] == [v[0]] + w;
      JoinCons(v[0], w, sep);
      FirstPiece(v[0], JoinWith(w, sep), sep);
      SplitDropsEmptyTail(v[1..], sep);
    }
  }

  predicate SpaceFree(s: string) {
    forall i :: 0 <= i < |s| ==> s[i] != ' '
  }

  lemma {:induction false} SpaceFreeFind(s: string)
    ensures SpaceFree(s) <==> Find(s, SEP, 0).None?
    ensures SpaceFree(s) ==> Find(s + SEP, SEP, 0) == Some(|s|)
  {
    forall t: string, j | 0 <= j < |t| ensures Occurs(t, SEP, j) <==> t[j] == ' ' {
      assert t[j..j + 1] == [t[j]];
    }
    if SpaceFree(s) {
      assert (s + SEP)[|s|] == ' ';
      assert forall j :: 0 <= j < |s| ==> (s + SEP)[j] == s[j];
      FindIs(s + SEP, SEP, 0, |s|);
    }
  }

  lemma {:induction false} DigitsSpaceFree(z: int)
    ensures SpaceFree(IntToString(z))
  {
  }

  // ---------------------------------------------------------------- messages

  /** The values the C++ fields hold. */
  predicate IsInt(z: int) {
    INT_MIN <= z <= INT_MAX
  }

  function SerializeRequest(r: Request): string {
    IntToString(r.x) + SEP + [r.op] + SEP + IntToString(r.y)
  }

  function SerializeResponse(r: Response): string {
    IntToString(r.result) + SEP + IntToString(r.code)
  }

  function DeserializeRequest(s: string): Option<Request> {
    var v := Pieces(s, SEP);
    if |v| != 3 || |v[1]| != 1 then None else Some(Request(Atoi(v[0]), Atoi(v[2]), v[1][0]))
  }

  function DeserializeResponse(s: string): Option<Response> {
    var v := Pieces(s, SEP);
    if |v| != 2 then None else Some(Response(Atoi(v[0]), Atoi(v[1])))
  }

  class RequestMessage {
    var x: int
    var y: int
    var op: char

    constructor (x: int, y: int, op: char)
      ensures this.x == x && this.y == y && this.op == op
    {
      this.x, this.y, this.op := x, y, op;
    }

    method Deserialize(instr: string) returns (ok: bool)
      modifies this
      ensures ok == DeserializeRequest(instr).Some?
      ensures Request(x, y, op) == if ok then DeserializeRequest(instr).value else old(Request(x, y, op))
    {
      var v := SplitStrings(instr, SEP, []);
      if |v| != 3 {
        return false;
      }
      if |v[1]| != 1 {
        return false;
      }
      x := Atoi(v[0]);
      y := Atoi(v[2]);
      op := v[1][0];
      return true;
    }
  }

  class ResponseMessage {
    var result: int
    var code: int

    constructor (result: int, code: int)
      ensures this.result == result && this.code == code
    {
      this.result, this.code := result, code;
    }

    method Deserialize(instr: string) returns (ok: bool)
      modifies this
      ensures ok == DeserializeResponse(instr).Some?
      ensures Response(result, code) == if ok then DeserializeResponse(instr).value else old(Response(result, code))
    {
      var v := SplitStrings(instr, SEP, []);
      if |v| != 2 {
        return false;
      }
      result := Atoi(v[0]);
      code := Atoi(v[1]);
      return true;
    }
  }

  /** A space-free field followed by a separator is the first piece. */
  lemma {:induction false} FieldFirst(a: string, rest: string)
    requires SpaceFree(a)
    ensures Pieces(a + SEP + rest, SEP) == [a] + Pieces(rest, SEP)
  {
    SpaceFreeFind(a);
    FirstPiece(a, rest, SEP);
  }

  lemma {:induction false} FieldLast(b: string)
    requires SpaceFree(b)
    ensures Pieces(b, SEP) == if b == "" then [] else [b]
  {
    SpaceFreeFind(b);
  }

  lemma {:induction false} ThreePieces(a: string, op: string, b: string)
    requires SpaceFree(a) && SpaceFree(op) && SpaceFree(b)
    ensures Pieces(a + SEP + op + SEP + b, SEP) == [a, op] + Pieces(b, SEP)
    ensures Pieces(b, SEP) == if b == "" then [] else [b]
  {
    Associate(a + SEP, op, SEP);
    Associate(a + SEP, op + SEP, b);
    FieldFirst(a, op + SEP + b);
    FieldFirst(op, b);
    FieldLast(b);
  }

  /** A request comes back from its text unless its operator is the separator itself. */
  lemma {:induction false} RequestRoundTrip(r: Request)
    requires IsInt(r.x) && IsInt(r.y)
    ensures DeserializeRequest(SerializeRequest(r)) == if r.op != ' ' then Some(r) else None
  {
    var a, b := IntToString(r.x), IntToString(r.y);
    DigitsSpaceFree(r.x);
    DigitsSpaceFree(r.y);
    AtoiInvertsPrint(r.x);
    AtoiInvertsPrint(r.y);
    if r.op != ' ' {
      ThreePieces(a, [r.op], b);
    } else {
      FourPieces(a, b);
    }
  }

  /** With the separator as operator the middle is two empty pieces. */
  lemma {:induction false} FourPieces(a: string, b: string)
    requires SpaceFree(a) && SpaceFree(b) && b != ""
    ensures |Pieces(a + SEP + [' '] + SEP + b, SEP)| == 4
  {
    assert a + SEP + [' '] + SEP + b == a + SEP + ("" + SEP + ("" + SEP + b));
    FieldFirst(a, "" + SEP + ("" + SEP + b));
    FieldFirst("", "" + SEP + b);
    FieldFirst("", b);
    FieldLast(b);
  }

  lemma {:induction false} ResponseRoundTrip(r: Response)
    requires IsInt(r.result) && IsInt(r.code)
    ensures DeserializeResponse(SerializeResponse(r)) == Some(r)
  {
    var a, b := IntToString(r.result), IntToString(r.code);
    DigitsSpaceFree(r.result);
    DigitsSpaceFree(r.code);
    FieldFirst(a, b);
    FieldLast(b);
    AtoiInvertsPrint(r.result);
    AtoiInvertsPrint(r.code);
  }

  /** A text a request is read from: three space-free fields, the middle one a single
      character, the last one empty only before a final separator. */
  predicate RequestForm(s: string, a: string, op: char, b: string) {
    && SpaceFree(a) && op != ' ' && SpaceFree(b)
    && ((s == a + SEP + [op] + SEP + b && b != "") || s == a + SEP + [op] + SEP + (b + SEP))
  }

  lemma {:induction false} ThreeTerminated(a: string, op: string, b: string)
    requires SpaceFree(a) && SpaceFree(op) && SpaceFree(b)
    ensures Pieces(a + SEP + op + SEP + (b + SEP), SEP) == [a, op, b]
  {
    Associate(a + SEP, op, SEP);
    Associate(a + SEP, op + SEP, b + SEP);
    FieldFirst(a, op + SEP + (b + SEP));
    FieldFirst(op, b + SEP);
    assert b + SEP + "" == b + SEP;
    FieldFirst(b, "");
  }

  lemma {:induction false} FormIsRead(s: string, a: string, op: char, b: string)
    requires RequestForm(s, a, op, b)
    ensures DeserializeRequest(s) == Some(Request(Atoi(a), Atoi(b), op))
  {
    if s == a + SEP + [op] + SEP + b && b != "" {
      ThreePieces(a, [op], b);
    } else {
      ThreeTerminated(a, [op], b);
    }
  }

  /** The texts accepted are exactly those of that form. */
  lemma {:induction false} RequestTexts(s: string)
    ensures DeserializeRequest(s).Some? <==> exists a, op, b :: RequestForm(s, a, op, b)
  {
    if DeserializeRequest(s).Some? {
      var v := Pieces(s, SEP);
      var a, op, b := v[0], v[1][0], v[2];
      SplitLossless(s, SEP);
      PiecesHoldNone(s, SEP);
      SpaceFreeFind(a);
      SpaceFreeFind(v[1]);
      SpaceFreeFind(b);
      assert v[1] == [op] && v[1][0] == op;
      assert v == [a] + ([[op]] + [b]);
      JoinCons(a, [[op]] + [b], SEP);
      JoinCons([op], [b], SEP);
      Associate(a + SEP, [op], SEP);
      Associate(a + SEP, [op] + SEP, b);
      Associate(a + SEP + [op] + SEP, b, SEP);
      if b == "" {
        ThreePieces(a, [op], b);
      }
      assert RequestForm(s, a, op, b);
    } else if a, op, b :| RequestForm(s, a, op, b) {
      FormIsRead(s, a, op, b);
    }
  }

  /** A text a response is read from: the result, then the code, both free of spaces, the
      last one empty only before a final separator. */
  predicate ResponseForm(s: string, a: string, b: string) {
    SpaceFree(a) && SpaceFree(b) && ((s == a + " " + b && b != "") || s == a + " " + (b + " "))
  }

  /** The texts a response is read from are exactly those of that form, and the first field
      is the result. */
  lemma {:induction false} ResponseTexts(s: string)
    ensures DeserializeResponse(s).Some? <==> exists a, b :: ResponseForm(s, a, b)
    ensures forall a, b :: ResponseForm(s, a, b) ==> DeserializeResponse(s) == Some(Response(Atoi(a), Atoi(b)))
  {
    forall a, b | ResponseForm(s, a, b) ensures DeserializeResponse(s) == Some(Response(Atoi(a), Atoi(b))) {
      TwoPieces(s, a, b);
    }
    if DeserializeResponse(s).Some? {
      var v := Pieces(s, SEP);
      var a, b := v[0], v[1];
      SplitLossless(s, SEP);
      PiecesHoldNone(s, SEP);
      SpaceFreeFind(a);
      SpaceFreeFind(b);
      assert v == [a] + [b];
      JoinCons(a, [b], SEP);
      Associate(a + SEP, b, SEP);
      if b == "" {
        FieldFirst(a, "");
        assert a + SEP + "" == a + SEP;
      }
      assert ResponseForm(s, a, b);
    }
  }

  lemma {:induction false} TwoPieces(s: string, a: string, b: string)
    requires ResponseForm(s, a, b)
    ensures Pieces(s, SEP) == [a, b]
  {
    if s == a + " " + b && b != "" {
      FieldFirst(a, b);
      FieldLast(b);
    } else {
      FieldFirst(a, b + SEP);
      assert b + SEP + "" == b + SEP;
      FieldFirst(b, "");
    }
  }

  /** Both messages are written with their fields in that order. */
  lemma {:induction false} WrittenForms(r: Request, p: Response)
    ensures r.op != ' ' ==> RequestForm(SerializeRequest(r), IntToString(r.x), r.op, IntToString(r.y))
    ensures ResponseForm(SerializeResponse(p), IntToString(p.result), IntToString(p.code))
  {
    DigitsSpaceFree(r.x);
    DigitsSpaceFree(r.y);
    DigitsSpaceFree(p.result);
    DigitsSpaceFree(p.code);
  }

  // ------------------------------------------------------------ splitFormula

  datatype Stat = Left | Operator | Right

  /** What must be digits for the client's scan to end: everything behind the operator. */
  function Tail(formula: string): string {
    var d := DigitRun(formula);
    if d < |formula| then formula[d + 1..] else ""
  }

  /** The request a formula stands for; an operator that is never read keeps the value
      of the uninitialised variable. */
  function FormulaRequest(formula: string, uninitialised: char): Request {
    var d := DigitRun(formula);
    Request(Atoi(formula[..d]), Atoi(Tail(formula)), if d < |formula| then formula[d] else uninitialised)
  }

  lemma {:induction false} GrowSlice(s: string, a: nat, i: nat)
    requires a <= i < |s|
    ensures s[a..i] + [s[i]] == s[a..i + 1]
  {
  }

  method SplitFormula(formula: string, uninitialised: char) returns (req: Request)
    requires AllDigits(Tail(formula))
    ensures req == FormulaRequest(formula, uninitialised)
  {
    var left, right := "", "";
    var op := uninitialised;
    var i := 0;
    var stat := Left;
    ghost var d := DigitRun(formula);
    assert forall k :: 0 <= k < d ==> formula[..d][k] == formula[k];
    while i < |formula|
      invariant 0 <= i <= |formula|
      invariant left == formula[..if i <= d then i else d]
      invariant stat.Left? ==> i <= d && right == "" && op == uninitialised
      invariant stat.Operator? ==> i == d < |formula| && right == "" && op == uninitialised
      invariant stat.Right? ==> d < i && right == formula[d + 1..i] && op == formula[d]
      decreases |formula| - i, if stat.Left? then 1 else 0
    {
      match stat
      case Left =>
        if IsDigit(formula[i]) {
          left, i := left + [formula[i]], i + 1;
        } else {
          stat := Operator;
        }
      case Operator =>
        op, i := formula[i], i + 1;
        stat := Right;
      case Right =>
        assert formula[i] == Tail(formula)[i - d - 1] && IsDigit(formula[i]);
        GrowSlice(formula, d + 1, i);
        if IsDigit(formula[i]) {
          right, i := right + [formula[i]], i + 1;
        }
    }
    assert formula[..|formula|] == formula;
    req := Request(Atoi(left), Atoi(right), op);
  }

  /** One turn of the loop, as a value. */
  datatype Scan = Scan(i: nat, stat: Stat)

  function ScanStep(formula: string, s: Scan): Scan {
    if s.i >= |formula| then s
    else
      match s.stat
      case Left => if IsDigit(formula[s.i]) then s.(i := s.i + 1) else s.(stat := Operator)
      case Operator => Scan(s.i + 1, Right)
      case Right => if IsDigit(formula[s.i]) then s.(i := s.i + 1) else s
  }

  function ScanAfter(formula: string, k: nat): Scan {
    if k == 0 then Scan(0, Left) else ScanStep(formula, ScanAfter(formula, k - 1))
  }

  /** The loop ends exactly when everything behind the operator is a digit; on any other
      formula it turns for ever at the first such character. */
  lemma {:induction false} ScanEndsIff(formula: string)
    ensures (exists k: nat :: ScanAfter(formula, k).i >= |formula|) <==> AllDigits(Tail(formula))
  {
    var d := DigitRun(formula);
    if AllDigits(Tail(formula)) {
      ScanLeft(formula, d);
      if d < |formula| {
        ScanRight(formula, |formula| - d - 1);
        assert ScanAfter(formula, |formula| + 1).i >= |formula|;
      } else {
        assert ScanAfter(formula, d).i >= |formula|;
      }
    } else {
      var m :| 0 <= m < |Tail(formula)| && !IsDigit(Tail(formula)[m]);
      forall k: nat ensures ScanAfter(formula, k).i < |formula| {
        ScanNeverPasses(formula, d + 1 + m, k);
      }
    }
  }

  lemma {:induction false} ScanLeft(formula: string, k: nat)
    requires k <= DigitRun(formula)
    ensures ScanAfter(formula, k) == Scan(k, Left)
  {
    if k > 0 {
      ScanLeft(formula, k - 1);
      assert formula[..DigitRun(formula)][k - 1] == formula[k - 1];
    }
  }

  lemma {:induction false} ScanRight(formula: string, k: nat)
    requires DigitRun(formula) < |formula| && k <= |Tail(formula)| && AllDigits(Tail(formula))
    ensures ScanAfter(formula, DigitRun(formula) + 2 + k) == Scan(DigitRun(formula) + 1 + k, Right)
  {
    var d := DigitRun(formula);
    if k == 0 {
      ScanLeft(formula, d);
      assert ScanAfter(formula, d + 1) == Scan(d, Operator);
    } else {
      ScanRight(formula, k - 1);
      assert formula[d + k] == Tail(formula)[k - 1];
    }
  }

  lemma {:induction false} ScanNeverPasses(formula: string, m: nat, k: nat)
    requires DigitRun(formula) < m < |formula| && !IsDigit(formula[m])
    ensures var s := ScanAfter(formula, k);
            s.i <= if s.stat.Right? then m else DigitRun(formula)
  {
    if k > 0 {
      ScanNeverPasses(formula, m, k - 1);
    }
  }

  /** A formula printed from two non-negative numbers and an operator that is not a digit
      is read back as that request. */
  lemma {:induction false} FormulaRoundTrip(x: nat, op: char, y: nat, uninitialised: char)
    requires x <= INT_MAX && y <= INT_MAX && !IsDigit(op)
    ensures var formula := NatToString(x) + [op] + NatToString(y);
            AllDigits(Tail(formula)) && FormulaRequest(formula, uninitialised) == Request(x, y, op)
  {
    var a, b := NatToString(x), NatToString(y);
    var formula := a + [op] + b;
    assert formula == a + ([op] + b);
    DigitRunPrefix(a, [op] + b);
    assert formula[..|a|] == a && Tail(formula) == b;
    AtoiInvertsPrint(x);
    AtoiInvertsPrint(y);
  }

  // ---------------------------------------------------------- the whole path

  function Pow10(k: nat): nat {
    if k == 0 then 1 else 10 * Pow10(k - 1)
  }

  lemma {:induction false} PrintLength(n: nat, k: nat)
    requires 0 < k && n < Pow10(k)
    ensures |NatToString(n)| <= k
  {
    if n >= 10 {
      PrintLength(n / 10, k - 1);
    }
  }

  /** Every message fits the framing. */
  lemma {:induction false} MessagesCarry(r: Request, s: Response)
    requires IsInt(r.x) && IsInt(r.y) && IsInt(s.result) && IsInt(s.code)
    ensures Carries(SerializeRequest(r)) && Carries(SerializeResponse(s))
  {
    assert Pow10(5) == 100000 && Pow10(10) == 10000000000;
    forall z | IsInt(z) ensures |IntToString(z)| <= 11 {
      PrintLength(if z < 0 then -z else z, 10);
    }
    PrintLength(|SerializeRequest(r)|, 2);
    PrintLength(|SerializeResponse(s)|, 2);
  }

  /** The server's view of a payload; a text that is no request leaves the request object
      as it was made. */
  function TextService(func: Request -> Response, unset: Request): Service {
    Service(p => if DeserializeRequest(p).Some? then DeserializeRequest(p).value else unset, func, SerializeResponse)
  }

  function Serialized(requests: seq<Request>): (p: seq<string>)
    ensures |p| == |requests|
  {
    seq(|requests|, i requires 0 <= i < |requests| => SerializeRequest(requests[i]))
  }

  /** Between two peers that append and drain as the reactor does: any requests, pipelined
      and cut into any chunks both ways, come back as their results, in order. */
  lemma {:induction false} DrainingPeers(requests: seq<Request>, func: Request -> Response, unset: Request,
                                         up: seq<string>, down: seq<string>)
    requires forall i :: 0 <= i < |requests| ==>
      var r := requests[i];
      IsInt(r.x) && IsInt(r.y) && r.op != ' ' && IsInt(func(r).result) && IsInt(func(r).code)
    requires Join(up) == Stream(Serialized(requests))
    requires Join(down) == TextService(func, unset).Replies(Payloads(DrainChunks(up).frames))
    ensures var got := Payloads(DrainChunks(down).frames);
            && |got| == |requests|
            && forall i :: 0 <= i < |got| ==> DeserializeResponse(got[i]) == Some(func(requests[i]))
  {
    var sent := Serialized(requests);
    forall i | 0 <= i < |requests| ensures Carries(sent[i]) {
      MessagesCarry(requests[i], func(requests[i]));
    }
    ChunkedStreamDecodes(sent, up);
    var service := TextService(func, unset);
    var answers := service.Answers(sent);
    forall i | 0 <= i < |requests|
      ensures answers[i] == SerializeResponse(func(requests[i])) && Carries(answers[i])
      ensures DeserializeResponse(answers[i]) == Some(func(requests[i]))
    {
      RequestRoundTrip(requests[i]);
      ResponseRoundTrip(func(requests[i]));
      MessagesCarry(requests[i], func(requests[i]));
    }
    ChunkedStreamDecodes(answers, down);
  }
}
