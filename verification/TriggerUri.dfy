/** The frozen `trigger://` grammar: its parser and its printer. */
module TriggerUri {
  import opened Text
  import opened WellFormed
  import opened UriCodec
  import opened Numbers

  const SLASH: Unit := 0x2F
  const QUESTION: Unit := 0x3F
  const HASH: Unit := 0x23
  const AMPERSAND: Unit := 0x26
  const EQUALS: Unit := 0x3D
  const PLUS: Unit := 0x2B

  /** A JavaScript number as a line: whole and representable, infinite, or anything else. */
  datatype Num = Whole(n: nat) | Infinity | Unusable

  type Line = x: Num | x.Whole? ==> IsDouble(x.n) && x.n < Pow2(1024) witness Infinity

  datatype Resource =
    | Runs
    | Run(runId: Str)
    | Span(spanRunId: Str, spanId: Str)
    | ErrorGroup(fingerprint: Str)
    | Queue(name: Str)
    | Deployment(version: Str)
    | Report(reportKey: Str)
    | Source(sha: Str, path: Str, line: Option<Line>)
    | Investigation(investigationId: Str)

  datatype Uri = Uri(projectRef: Str, environmentId: Str, resource: Resource)

  datatype Failure =
    | EmptyInput | WrongScheme | HasFragment | EmptySegment | MalformedEscape | TooFewSegments
    | QueryNotSupported | WrongShape | UnknownKind | UnknownParam | BadLine

  datatype Result<+T> = Ok(value: T) | Fail(failure: Failure)

  const SCHEME: Str := [0x74, 0x72, 0x69, 0x67, 0x67, 0x65, 0x72, 0x3A, 0x2F, 0x2F] // trigger://
  const RUNS: Str := [0x72, 0x75, 0x6E, 0x73] // runs
  const RUN: Str := [0x72, 0x75, 0x6E] // run
  const SPAN: Str := [0x73, 0x70, 0x61, 0x6E] // span
  const ERROR: Str := [0x65, 0x72, 0x72, 0x6F, 0x72] // error
  const QUEUE: Str := [0x71, 0x75, 0x65, 0x75, 0x65] // queue
  const DEPLOYMENT: Str := [0x64, 0x65, 0x70, 0x6C, 0x6F, 0x79, 0x6D, 0x65, 0x6E, 0x74] // deployment
  const REPORT: Str := [0x72, 0x65, 0x70, 0x6F, 0x72, 0x74] // report
  const SOURCE: Str := [0x73, 0x6F, 0x75, 0x72, 0x63, 0x65] // source
  const INVESTIGATION: Str := [0x69, 0x6E, 0x76, 0x65, 0x73, 0x74, 0x69, 0x67, 0x61, 0x74, 0x69, 0x6F, 0x6E] // investigation
  const LINE_PREFIX: Str := [0x6C, 0x69, 0x6E, 0x65, 0x3D] // line=
  const LINE: Str := [0x6C, 0x69, 0x6E, 0x65] // line

  /** Everything before the first `c`. */
  function Before(s: Str, c: Unit): (r: Str)
    ensures c !in r && r <= s
    ensures r == s <==> c !in s
    ensures r != s ==> s[|r|] == c
  {
    if s == [] || s[0] == c then [] else [s[0]] + Before(s[1..], c)
  }

  /** Everything after the first `c`; empty where there is none. */
  function After(s: Str, c: Unit): Str {
    if c in s then s[|Before(s, c)| + 1..] else []
  }

  lemma AroundFirst(s: Str, c: Unit)
    requires c in s
    ensures s == Before(s, c) + [c] + After(s, c)
  {
    var n := |Before(s, c)|;
    assert s[..n] == Before(s, c) && s[n] == c;
    assert s == s[..n] + [s[n]] + s[n + 1..];
  }

  /** Decode every path segment; the first bad one decides. */
  function DecodeAll(raw: seq<Str>): (r: Result<seq<Str>>)
    ensures r.Ok? ==> |r.value| == |raw|
  {
    if raw == [] then Ok([])
    else if Decode(raw[0]).None? then Fail(MalformedEscape)
    else if Decode(raw[0]).value == [] then Fail(EmptySegment)
    else
      match DecodeAll(raw[1..]) {
        case Fail(f) => Fail(f)
        case Ok(rest) => Ok([Decode(raw[0]).value] + rest)
      }
  }

  /** One name or value of a query string (`application/x-www-form-urlencoded`), as UTF-8 octets. */
  function FormDecode(s: Str): seq<Byte>
    requires IsWellFormed(s)
  {
    if s == [] then []
    else if s[0] == PLUS then [0x20] + FormDecode(s[1..])
    else if EscapedByte(s, 0).Some? then
      RestAfterEscape(s);
      [EscapedByte(s, 0).value] + FormDecode(s[3..])
    else
      RestIsWellFormed(s);
      Utf8(FirstScalar(s)) + FormDecode(s[|Utf16(FirstScalar(s))|..])
  }

  lemma RestAfterEscape(s: Str)
    requires IsWellFormed(s) && EscapedByte(s, 0).Some?
    ensures IsWellFormed(s[3..])
  {
    assert IsWellFormed(s[1..]);
    assert s[1..][1..] == s[2..] && IsWellFormed(s[2..]);
    assert s[2..][1..] == s[3..];
  }

  predicate OctetsAreDigits(o: seq<Byte>) {
    o != [] && forall b :: b in o ==> 48 <= b <= 57
  }

  function AsText(o: seq<Byte>): (r: Str)
    ensures |r| == |o|
    ensures forall i :: 0 <= i < |o| ==> r[i] as int == o[i]
  {
    seq(|o|, i requires 0 <= i < |o| => o[i] as Unit)
  }

  lemma DigitOctetsAreDigits(o: seq<Byte>)
    requires OctetsAreDigits(o)
    ensures AllDigits(AsText(o))
  {
    forall u | u in AsText(o) ensures IsDigit(u) {
      var i :| 0 <= i < |o| && AsText(o)[i] == u;
      assert o[i] in o;
    }
  }

  /** `Number(value)` on a digit string. */
  function ReadNumber(digits: Str): (r: Line)
    requires AllDigits(digits)
  {
    var n := Round(DigitsValue(digits));
    RoundIsIdempotent(DigitsValue(digits));
    if n < Pow2(1024) then Whole(n) else Infinity
  }

  predicate BelowOne(x: Line) {
    x == Whole(0)
  }

  /** What one `name=value` pair says about the line. */
  function ParsePair(pair: Str): Result<Line>
    requires IsWellFormed(pair)
  {
    SplitPairIsWellFormed(pair);
    var name := FormDecode(Before(pair, EQUALS));
    var value := FormDecode(After(pair, EQUALS));
    if AsText(name) != LINE then Fail(UnknownParam)
    else if !OctetsAreDigits(value) then Fail(BadLine)
    else
      DigitOctetsAreDigits(value);
      var x := ReadNumber(AsText(value));
      if BelowOne(x) then Fail(BadLine) else Ok(x)
  }

  /** The pairs in order; a later `line` overrides an earlier one. */
  function ParsePairs(pairs: seq<Str>, line: Option<Line>): Result<Option<Line>>
    requires forall p :: p in pairs ==> IsWellFormed(p)
  {
    if pairs == [] then Ok(line)
    else if pairs[0] == [] then ParsePairs(pairs[1..], line)
    else
      match ParsePair(pairs[0]) {
        case Fail(f) => Fail(f)
        case Ok(x) => ParsePairs(pairs[1..], Some(x))
      }
  }

  /** The `&`-separated pairs of a query string, without one leading `?`, lone surrogates replaced. */
  function QueryPairs(query: Str): (r: seq<Str>)
    ensures forall p :: p in r ==> IsWellFormed(p)
  {
    var text := ToWellFormed(if query != [] && query[0] == QUESTION then query[1..] else query);
    ToWellFormedRepairs(if query != [] && query[0] == QUESTION then query[1..] else query);
    SplitKeepsWellFormed(text, AMPERSAND);
    Split(text, AMPERSAND)
  }

  function ParseLine(query: Str): Result<Option<Line>> {
    if query == [] then Ok(None) else ParsePairs(QueryPairs(query), None)
  }

  function ParseResource(kind: Str, tail: seq<Str>, query: Str): Result<Resource> {
    if kind != SOURCE && query != [] then Fail(QueryNotSupported)
    else if kind == RUNS then if tail == [] then Ok(Runs) else Fail(WrongShape)
    else if kind == RUN then
      if |tail| == 1 then Ok(Run(tail[0]))
      else if |tail| == 3 && tail[1] == SPAN then Ok(Span(tail[0], tail[2]))
      else Fail(WrongShape)
    else if kind == ERROR then if |tail| == 1 then Ok(ErrorGroup(tail[0])) else Fail(WrongShape)
    else if kind == QUEUE then if |tail| == 1 then Ok(Queue(tail[0])) else Fail(WrongShape)
    else if kind == DEPLOYMENT then if |tail| == 1 then Ok(Deployment(tail[0])) else Fail(WrongShape)
    else if kind == REPORT then if |tail| == 1 then Ok(Report(tail[0])) else Fail(WrongShape)
    else if kind == INVESTIGATION then if |tail| == 1 then Ok(Investigation(tail[0])) else Fail(WrongShape)
    else if kind == SOURCE then
      if |tail| < 2 then Fail(WrongShape)
      else
        match ParseLine(query) {
          case Fail(f) => Fail(f)
          case Ok(line) => Ok(Source(tail[0], Join(tail[1..], [SLASH]), line))
        }
    else Fail(UnknownKind)
  }

  /** What follows the scheme: path segments, then a query. */
  function ParseRest(rest: Str): Result<Uri> {
    if HASH in rest then Fail(HasFragment)
    else
      var raw := Split(Before(rest, QUESTION), SLASH);
      if [] in raw then Fail(EmptySegment)
      else
        match DecodeAll(raw) {
          case Fail(f) => Fail(f)
          case Ok(segments) => ParseSegments(segments, After(rest, QUESTION))
        }
  }

  function ParseSegments(segments: seq<Str>, query: Str): Result<Uri> {
    if |segments| < 3 then Fail(TooFewSegments)
    else
      match ParseResource(segments[2], segments[3..], query) {
        case Fail(f) => Fail(f)
        case Ok(resource) => Ok(Uri(segments[0], segments[1], resource))
      }
  }

  /** `safeParseTriggerUri`. */
  function Parse(input: Str): Result<Uri> {
    if input == [] then Fail(EmptyInput)
    else if !(SCHEME <= input) then Fail(WrongScheme)
    else ParseRest(input[|SCHEME|..])
  }

  /** The path segments that name a resource, before encoding. */
  function Tail(r: Resource): (t: seq<Str>)
    ensures t != []
  {
    match r
    case Runs => [RUNS]
    case Run(id) => [RUN, id]
    case Span(run, id) => [RUN, run, SPAN, id]
    case ErrorGroup(f) => [ERROR, f]
    case Queue(n) => [QUEUE, n]
    case Deployment(v) => [DEPLOYMENT, v]
    case Report(k) => [REPORT, k]
    case Source(sha, path, _) => [SOURCE, sha] + Split(path, SLASH)
    case Investigation(id) => [INVESTIGATION, id]
  }

  /** `segment`: None where it throws. */
  function FormatSegment(s: Str): (r: Option<Str>)
    ensures r.Some? <==> s != [] && IsWellFormed(s)
  {
    if s == [] then None else Encode(s)
  }

  predicate Encodable(s: Str) {
    s != [] && IsWellFormed(s)
  }

  predicate AllEncodable(segments: seq<Str>) {
    forall i :: 0 <= i < |segments| ==> Encodable(segments[i])
  }

  function FormatSegments(segments: seq<Str>): (r: Option<seq<Str>>)
    ensures r.Some? ==> |r.value| == |segments|
    ensures r.Some? <==> AllEncodable(segments)
  {
    if segments == [] then Some([])
    else
      assert AllEncodable(segments) <==> Encodable(segments[0]) && AllEncodable(segments[1..]) by {
        if Encodable(segments[0]) && AllEncodable(segments[1..]) {
          assert forall i :: 1 <= i < |segments| ==> segments[i] == segments[1..][i - 1];
        }
      }
      match (FormatSegment(segments[0]), FormatSegments(segments[1..])) {
        case (Some(first), Some(rest)) => Some([first] + rest)
        case _ => None
      }
  }

  /** The `?line=` suffix; None where `assertLine` throws. */
  function FormatQuery(r: Resource): Option<Str> {
    if !r.Source? || r.line.None? then Some([])
    else if r.line.value.Whole? && r.line.value.n >= 1 then Some([QUESTION] + LINE_PREFIX + ToText(r.line.value.n))
    else None
  }

  /** `formatTriggerUri`; None where it throws. */
  function Format(u: Uri): Option<Str> {
    match (FormatSegments([u.projectRef, u.environmentId] + Tail(u.resource)), FormatQuery(u.resource)) {
      case (Some(segments), Some(query)) => Some(SCHEME + (Join(segments, [SLASH]) + query))
      case _ => None
    }
  }

  // ---- Splitting keeps strings well-formed ----

  lemma {:induction false} WellFormedAroundUnit(a: Str, c: Unit, b: Str)
    requires !IsHigh(c) && !IsLow(c)
    ensures IsWellFormed(a + [c] + b) <==> IsWellFormed(a) && IsWellFormed(b)
    decreases |a|
  {
    var s := a + [c] + b;
    if a == [] {
      assert s[1..] == b;
    } else if IsHigh(a[0]) {
      if |a| >= 2 {
        assert s[2..] == a[2..] + [c] + b;
        WellFormedAroundUnit(a[2..], c, b);
      } else {
        assert s[1] == c;
      }
    } else {
      assert s[1..] == a[1..] + [c] + b;
      WellFormedAroundUnit(a[1..], c, b);
    }
  }

  lemma {:induction false} SplitKeepsWellFormed(s: Str, c: Unit)
    requires !IsHigh(c) && !IsLow(c)
    ensures IsWellFormed(s) <==> forall p :: p in Split(s, c) ==> IsWellFormed(p)
    decreases |s|
  {
    if c in s {
      var a := Before(s, c);
      var b := s[|a| + 1..];
      assert s == a + [c] + b;
      WellFormedAroundUnit(a, c, b);
      SplitAtSeparator(a, c, b);
      SplitKeepsWellFormed(b, c);
      assert a in [a] + Split(b, c);
      assert forall p :: p in [a] + Split(b, c) <==> p == a || p in Split(b, c);
    } else {
      SplitWithoutSeparator(s, c);
      assert s in [s];
    }
  }

  lemma BeforeAfter(s: Str, c: Unit)
    requires !IsHigh(c) && !IsLow(c) && IsWellFormed(s)
    ensures IsWellFormed(Before(s, c)) && IsWellFormed(After(s, c))
  {
    if c in s {
      AroundFirst(s, c);
      WellFormedAroundUnit(Before(s, c), c, After(s, c));
    }
  }

  lemma SplitPairIsWellFormed(pair: Str)
    requires IsWellFormed(pair)
    ensures IsWellFormed(Before(pair, EQUALS)) && IsWellFormed(After(pair, EQUALS))
  {
    BeforeAfter(pair, EQUALS);
  }

  // ---- The loops of the parser ----

  method DecodeSegments(raw: seq<Str>) returns (r: Result<seq<Str>>)
    ensures r == DecodeAll(raw)
  {
    var segments: seq<Str> := [];
    assert raw[0..] == raw;
    assert DecodeAll(raw).Ok? ==> [] + DecodeAll(raw).value == DecodeAll(raw).value;
    for i := 0 to |raw|
      invariant DecodeAll(raw) == Prepend(segments, DecodeAll(raw[i..]))
    {
      var decoded := Decode(raw[i]);
      if decoded.None? { return Fail(MalformedEscape); }
      if |decoded.value| == 0 { return Fail(EmptySegment); }
      assert raw[i..][1..] == raw[i + 1..];
      assert DecodeAll(raw[i..]) == Prepend([decoded.value], DecodeAll(raw[i + 1..]));
      if DecodeAll(raw[i + 1..]).Ok? {
        assert segments + ([decoded.value] + DecodeAll(raw[i + 1..]).value)
            == segments + [decoded.value] + DecodeAll(raw[i + 1..]).value;
      }
      segments := segments + [decoded.value];
    }
    r := Ok(segments);
    assert segments + [] == segments;
  }

  ghost function Prepend(done: seq<Str>, rest: Result<seq<Str>>): Result<seq<Str>> {
    if rest.Ok? then Ok(done + rest.value) else rest
  }

  method ParseLineParam(query: Str) returns (r: Result<Option<Line>>)
    ensures r == ParseLine(query)
  {
    if |query| == 0 { return Ok(None); }
    var pairs := QueryPairs(query);
    assert pairs[0..] == pairs;
    var line: Option<Line> := None;
    for i := 0 to |pairs|
      invariant ParseLine(query) == ParsePairs(pairs[i..], line)
    {
      assert pairs[i] in pairs && pairs[i..][1..] == pairs[i + 1..];
      if pairs[i] != [] {
        var x := ParsePair(pairs[i]);
        if x.Fail? { return Fail(x.failure); }
        line := Some(x.value);
      }
    }
    r := Ok(line);
  }

  method SafeParseTriggerUri(input: Str) returns (r: Result<Uri>)
    ensures r == Parse(input)
  {
    if |input| == 0 { return Fail(EmptyInput); }
    if !(SCHEME <= input) { return Fail(WrongScheme); }
    var rest := input[|SCHEME|..];
    if HASH in rest { return Fail(HasFragment); }
    var raw := Split(Before(rest, QUESTION), SLASH);
    if [] in raw { return Fail(EmptySegment); }
    var segments := DecodeSegments(raw);
    if segments.Fail? { return Fail(segments.failure); }
    if |segments.value| < 3 { return Fail(TooFewSegments); }
    var resource := ParseResource(segments.value[2], segments.value[3..], After(rest, QUESTION));
    if resource.Fail? { return Fail(resource.failure); }
    r := Ok(Uri(segments.value[0], segments.value[1], resource.value));
  }
}
