/** How far the parser and the printer of `trigger://` URIs undo each other. */
module TriggerUriRoundTrip {
  import opened Text
  import opened WellFormed
  import opened UriCodec
  import opened Numbers
  import opened TriggerUri

  /** Every field non-empty and free of lone surrogates, no empty path component. */
  predicate FieldsEncodable(u: Uri) {
    Encodable(u.projectRef) && Encodable(u.environmentId) && ResourceEncodable(u.resource)
  }

  predicate ResourceEncodable(r: Resource) {
    match r
    case Runs => true
    case Run(id) => Encodable(id)
    case Span(run, id) => Encodable(run) && Encodable(id)
    case ErrorGroup(f) => Encodable(f)
    case Queue(n) => Encodable(n)
    case Deployment(v) => Encodable(v)
    case Report(k) => Encodable(k)
    case Source(sha, path, _) => Encodable(sha) && IsWellFormed(path) && [] !in Split(path, SLASH)
    case Investigation(id) => Encodable(id)
  }

  /** A line is a positive whole number. */
  predicate LineIsPositive(u: Uri) {
    u.resource.Source? && u.resource.line.Some? ==> u.resource.line.value.Whole? && u.resource.line.value.n >= 1
  }

  /** A line is printed in digits: below 10^21. */
  predicate LineIsPrintable(u: Uri) {
    LineIsPositive(u)
    && (u.resource.Source? && u.resource.line.Some? ==> u.resource.line.value.n < EXPONENT_FORM_FROM)
  }

  predicate IsPlain(s: Str) {
    forall i :: 0 <= i < |s| ==> IsUnescaped(s[i])
  }

  lemma {:induction false} PlainIsWellFormed(s: Str)
    requires IsPlain(s)
    ensures IsWellFormed(s)
  {
    if s != [] {
      assert IsUnescaped(s[0]);
      assert forall i :: 0 <= i < |s| - 1 ==> s[1..][i] == s[i + 1];
      PlainIsWellFormed(s[1..]);
    }
  }

  lemma LettersAreEncodable(s: Str)
    requires s != [] && forall i :: 0 <= i < |s| ==> 97 <= s[i] <= 122
    ensures Encodable(s)
  {
    hide IsWellFormed;
    PlainIsWellFormed(s);
  }

  lemma RunKindsAreEncodable()
    ensures Encodable(RUNS) && Encodable(RUN) && Encodable(SPAN)
  {
    hide Encodable, IsPlain, IsWellFormed;
    LettersAreEncodable(RUNS);
    LettersAreEncodable(RUN);
    LettersAreEncodable(SPAN);
  }

  lemma ShortKindsAreEncodable()
    ensures Encodable(ERROR) && Encodable(QUEUE) && Encodable(REPORT) && Encodable(SOURCE)
  {
    hide Encodable, IsPlain, IsWellFormed;
    LettersAreEncodable(ERROR);
    LettersAreEncodable(QUEUE);
    LettersAreEncodable(REPORT);
    LettersAreEncodable(SOURCE);
  }

  lemma LongKindsAreEncodable()
    ensures Encodable(DEPLOYMENT) && Encodable(INVESTIGATION)
  {
    hide Encodable, IsPlain, IsWellFormed;
    LettersAreEncodable(DEPLOYMENT);
    LettersAreEncodable(INVESTIGATION);
  }

  lemma AllEncodableAppend(a: seq<Str>, b: seq<Str>)
    ensures AllEncodable(a + b) <==> AllEncodable(a) && AllEncodable(b)
  {
    if AllEncodable(a + b) {
      assert forall i :: 0 <= i < |a| ==> a[i] == (a + b)[i];
      assert forall i :: 0 <= i < |b| ==> b[i] == (a + b)[|a| + i];
    }
  }

  lemma SourceTailIsEncodableExactly(sha: Str, path: Str)
    ensures AllEncodable([SOURCE, sha] + Split(path, SLASH))
       <==> Encodable(sha) && IsWellFormed(path) && [] !in Split(path, SLASH)
  {
    hide IsWellFormed;
    ShortKindsAreEncodable();
    AllEncodableAppend([SOURCE, sha], Split(path, SLASH));
    PairIsEncodableExactly(SOURCE, sha);
    SplitKeepsWellFormed(path, SLASH);
    AllEncodableMembers(Split(path, SLASH));
  }

  lemma AllEncodableMembers(parts: seq<Str>)
    ensures AllEncodable(parts) <==> [] !in parts && forall p :: p in parts ==> IsWellFormed(p)
  {
    hide IsWellFormed;
    if [] !in parts && forall p :: p in parts ==> IsWellFormed(p) {
      forall i | 0 <= i < |parts| ensures Encodable(parts[i]) {
        assert parts[i] in parts;
      }
    }
  }

  lemma PairIsEncodableExactly(a: Str, b: Str)
    ensures AllEncodable([a, b]) <==> Encodable(a) && Encodable(b)
  {
    assert [a, b][0] == a && [a, b][1] == b;
  }

  lemma TailIsEncodableExactly(r: Resource)
    ensures AllEncodable(Tail(r)) <==> ResourceEncodable(r)
  {
    hide IsWellFormed;
    RunKindsAreEncodable();
    ShortKindsAreEncodable();
    LongKindsAreEncodable();
    match r {
      case Source(sha, path, _) => SourceTailIsEncodableExactly(sha, path);
      case Span(run, id) =>
        PairIsEncodableExactly(RUN, run);
        PairIsEncodableExactly(SPAN, id);
        AllEncodableAppend([RUN, run], [SPAN, id]);
        assert Tail(r) == [RUN, run] + [SPAN, id];
      case Runs =>
      case _ => PairIsEncodableExactly(Tail(r)[0], Tail(r)[1]);
    }
  }

  /** Printing succeeds exactly on encodable fields and a positive line. */
  lemma FormatSucceedsExactly(u: Uri)
    ensures Format(u).Some? <==> FieldsEncodable(u) && LineIsPositive(u)
  {
    AllEncodableAppend([u.projectRef, u.environmentId], Tail(u.resource));
    PairIsEncodableExactly(u.projectRef, u.environmentId);
    TailIsEncodableExactly(u.resource);
  }

  /** Encoded segments hold no separator, and decode to what was encoded. */
  lemma {:induction false} SegmentsReadBack(segments: seq<Str>)
    requires FormatSegments(segments).Some?
    ensures var parts := FormatSegments(segments).value;
      && DecodeAll(parts) == Ok(segments)
      && [] !in parts
      && forall p :: p in parts ==> IsUriSafe(p)
  {
    if segments != [] {
      var parts := FormatSegments(segments).value;
      assert Encodable(segments[0]);
      assert AllEncodable(segments[1..]);
      SegmentsReadBack(segments[1..]);
      DecodeUndoesEncode(segments[0]);
      EncodeIsUriSafe(segments[0]);
      assert parts[1..] == FormatSegments(segments[1..]).value;
      assert [segments[0]] + segments[1..] == segments;
    }
  }

  lemma {:induction false} JoinIsUriSafeOrSlash(parts: seq<Str>)
    requires forall p :: p in parts ==> IsUriSafe(p)
    ensures forall u :: u in Join(parts, [SLASH]) ==> IsUnescaped(u) || u == PERCENT || u == SLASH
  {
    if parts != [] {
      assert parts[0] in parts;
      JoinIsUriSafeOrSlash(parts[1..]);
    }
  }

  lemma BeforeAndAfterQuery(path: Str, query: Str)
    requires QUESTION !in path
    requires query == [] || query[0] == QUESTION
    ensures Before(path + query, QUESTION) == path
    ensures After(path + query, QUESTION) == if query == [] then [] else query[1..]
  {
    var s := path + query;
    var b := Before(s, QUESTION);
    if query == [] {
      assert s == path;
    } else {
      assert s[|path|] == QUESTION;
      assert forall i :: 0 <= i < |path| ==> s[i] == path[i];
      assert |b| <= |path| by {
        assert forall i :: 0 <= i < |b| ==> b[i] == s[i];
      }
      assert |path| <= |b| by { assert QUESTION in s; }
      assert b == s[..|b|] == path;
      assert s[|path| + 1..] == query[1..];
    }
  }

  lemma ParseAfterScheme(rest: Str)
    ensures Parse(SCHEME + rest) == ParseRest(rest)
  {
    assert (SCHEME + rest)[|SCHEME|..] == rest;
  }

  /** The parser reduced to its resource step, on a string built from encoded segments. */
  lemma ParseRestOfFormatted(segments: seq<Str>, query: Str)
    requires |segments| >= 3 && FormatSegments(segments).Some?
    requires query == [] || query[0] == QUESTION
    requires HASH !in query
    ensures ParseRest(Join(FormatSegments(segments).value, [SLASH]) + query)
         == ParseSegments(segments, if query == [] then [] else query[1..])
  {
    var parts := FormatSegments(segments).value;
    SegmentsReadBack(segments);
    JoinedPathParts(parts, query);
  }

  lemma JoinedPathParts(parts: seq<Str>, query: Str)
    requires parts != [] && forall p :: p in parts ==> IsUriSafe(p)
    requires query == [] || query[0] == QUESTION
    requires HASH !in query
    ensures var rest := Join(parts, [SLASH]) + query;
      && HASH !in rest
      && Split(Before(rest, QUESTION), SLASH) == parts
      && After(rest, QUESTION) == if query == [] then [] else query[1..]
  {
    var path := Join(parts, [SLASH]);
    JoinIsUriSafeOrSlash(parts);
    BeforeAndAfterQuery(path, query);
    forall p | p in parts ensures SLASH !in p { assert IsUriSafe(p); }
    SplitUndoesJoin(parts, SLASH);
  }

  lemma ParseTail(r: Resource)
    requires !r.Source?
    ensures ParseResource(Tail(r)[0], Tail(r)[1..], []) == Ok(r)
  {
  }

  /** Reading `?line=<digits>`, and refusing any other printed number. */
  lemma ParseLineOfPrinted(x: Line)
    requires x.Whole? && x.n >= 1
    ensures ParseLine(LINE_PREFIX + ToText(x.n)) == if x.n < EXPONENT_FORM_FROM then Ok(Some(x)) else Fail(BadLine)
  {
    var query := LINE_PREFIX + ToText(x.n);
    LineQueryIsOnePair(x.n);
    LinePairValue(x);
    assert query != [];
    assert ParsePairs([], Some(x)) == Ok(Some(x));
    assert [query][1..] == [];
  }

  lemma LineQueryIsOnePair(n: nat)
    ensures IsWellFormed(LINE_PREFIX + ToText(n))
    ensures QueryPairs(LINE_PREFIX + ToText(n)) == [LINE_PREFIX + ToText(n)]
  {
    var query := LINE_PREFIX + ToText(n);
    PrintedTextIsPlain(n);
    forall u | u in query ensures u < 0x80 && u != AMPERSAND {
      if u in ToText(n) { assert IsNumeralText(ToText(n)); }
    }
    AsciiIsWellFormed(query);
    ToWellFormedRepairs(query);
    assert query[0] == 0x6C;
    SplitWithoutSeparator(query, AMPERSAND);
  }

  lemma LinePairValue(x: Line)
    requires x.Whole? && x.n >= 1
    requires IsWellFormed(LINE_PREFIX + ToText(x.n))
    ensures ParsePair(LINE_PREFIX + ToText(x.n)) == if x.n < EXPONENT_FORM_FROM then Ok(x) else Fail(BadLine)
  {
    LinePairParts(ToText(x.n));
    SplitPairIsWellFormed(LINE_PREFIX + ToText(x.n));
    LineNameDecodes();
    PrintedNumberReadsBack(x.n);
    PrintedNumberOctets(x.n);
  }

  lemma PrintedDigitsAreSome(n: nat)
    ensures n < EXPONENT_FORM_FROM ==> ToText(n) != []
  {
    hide Shortest, Decimal;
  }

  /** A printed number survives form decoding exactly when it is digits only. */
  lemma PrintedNumberOctets(n: nat)
    requires IsWellFormed(ToText(n))
    requires AllDigits(ToText(n)) <==> n < EXPONENT_FORM_FROM
    ensures OctetsAreDigits(FormDecode(ToText(n))) <==> n < EXPONENT_FORM_FROM
    ensures n < EXPONENT_FORM_FROM ==> AsText(FormDecode(ToText(n))) == ToText(n)
  {
    hide ToText, IsWellFormed, FormDecode;
    var text := ToText(n);
    PrintedTextIsPlain(n);
    PrintedDigitsAreSome(n);
    forall u | u in text ensures u < 0x80 && u != PERCENT { assert IsNumeralText(text); }
    FormDecodeOfPlain(text);
    var value := FormDecode(text);
    if n < EXPONENT_FORM_FROM {
      forall i | 0 <= i < |text| ensures IsDigit(text[i]) { assert text[i] in text; }
    } else {
      var u :| u in text && !IsDigit(u);
      var k :| 0 <= k < |text| && text[k] == u;
      assert value[k] in value;
    }
  }

  lemma LineNameDecodes()
    ensures IsWellFormed(LINE) && AsText(FormDecode(LINE)) == LINE
  {
    AsciiIsWellFormed(LINE);
    FormDecodeOfPlain(LINE);
  }

  lemma LinePairParts(text: Str)
    ensures Before(LINE_PREFIX + text, EQUALS) == LINE
    ensures After(LINE_PREFIX + text, EQUALS) == text
  {
    var s := LINE_PREFIX + text;
    assert s[0] == 0x6C && s[1] == 0x69 && s[2] == 0x6E && s[3] == 0x65 && s[4] == EQUALS;
    var b := Before(s, EQUALS);
    assert EQUALS in s;
    assert forall i :: 0 <= i < |b| ==> b[i] == s[i];
    assert |b| == 4;
    assert s[5..] == text;
  }

  lemma {:induction false} AsciiIsWellFormed(s: Str)
    requires forall u :: u in s ==> u < 0x80
    ensures IsWellFormed(s)
  {
    if s != [] {
      assert s[0] in s;
      assert forall u :: u in s[1..] ==> u in s;
      AsciiIsWellFormed(s[1..]);
    }
  }

  /** Without escapes, only `+` is read as something else. */
  lemma {:induction false} FormDecodeOfPlain(s: Str)
    requires forall u :: u in s ==> u < 0x80 && u != PERCENT
    requires IsWellFormed(s)
    ensures |FormDecode(s)| == |s|
    ensures forall i :: 0 <= i < |s| ==> FormDecode(s)[i] == if s[i] == PLUS then 0x20 else s[i] as int
  {
    if s != [] {
      assert s[0] in s;
      assert forall u :: u in s[1..] ==> u in s;
      FormDecodeOfPlain(s[1..]);
      if s[0] != PLUS {
        assert FirstScalar(s) == s[0] as int;
        assert Utf8(FirstScalar(s)) == [s[0] as int];
        assert s[|Utf16(FirstScalar(s))|..] == s[1..];
      }
    }
  }

  /** A printed number is made of digits, `.`, `e` and `+`. */
  predicate IsNumeralText(s: Str) {
    forall u :: u in s ==> IsDigit(u) || u == 0x2E || u == 0x65 || u == 0x2B
  }

  lemma PrintedTextIsPlain(x: nat)
    ensures IsNumeralText(ToText(x))
  {
    assert Lit(".") == [0x2E] && Lit("e+") == [0x65, 0x2B];
  }

  /** Printing then parsing gives the value back exactly when the line is printed in digits. */
  lemma FormatThenParse(u: Uri)
    ensures (Format(u).Some? && Parse(Format(u).value) == Ok(u)) <==> FieldsEncodable(u) && LineIsPrintable(u)
    ensures Format(u).Some? && !LineIsPrintable(u) ==> Parse(Format(u).value) == Fail(BadLine)
  {
    FormatSucceedsExactly(u);
    if Format(u).Some? {
      var segments := [u.projectRef, u.environmentId] + Tail(u.resource);
      var query := FormatQuery(u.resource).value;
      assert segments[2] == Tail(u.resource)[0] && segments[3..] == Tail(u.resource)[1..];
      QueryOfPrinted(u.resource);
      ParseAfterScheme(Join(FormatSegments(segments).value, [SLASH]) + query);
      ParseRestOfFormatted(segments, query);
      if u.resource.Source? {
        ParseSource(u.resource);
      } else {
        ParseTail(u.resource);
      }
    }
  }

  lemma QueryOfPrinted(r: Resource)
    requires FormatQuery(r).Some?
    ensures var query := FormatQuery(r).value;
      && (query == [] || query[0] == QUESTION)
      && HASH !in query
      && (r.Source? && r.line.Some? ==> query != [] && query[1..] == LINE_PREFIX + ToText(r.line.value.n))
      && (!(r.Source? && r.line.Some?) ==> query == [])
  {
    hide ToText;
    if r.Source? && r.line.Some? {
      PrintedTextIsPlain(r.line.value.n);
      var text := ToText(r.line.value.n);
      assert HASH !in text;
      assert FormatQuery(r).value == [QUESTION] + LINE_PREFIX + text;
      assert FormatQuery(r).value[1..] == LINE_PREFIX + text;
    }
  }

  lemma ParseSource(r: Resource)
    requires r.Source? && FormatQuery(r).Some?
    ensures var query := FormatQuery(r).value;
      ParseResource(Tail(r)[0], Tail(r)[1..], if query == [] then [] else query[1..])
      == if r.line.Some? && r.line.value.n >= EXPONENT_FORM_FROM then Fail(BadLine) else Ok(r)
  {
    QueryOfPrinted(r);
    var tail := Tail(r)[1..];
    assert tail == [r.sha] + Split(r.path, SLASH);
    assert tail[1..] == Split(r.path, SLASH);
    JoinUndoesSplit(r.path, SLASH);
    if r.line.Some? {
      ParseLineOfPrinted(r.line.value);
    }
  }

  /** The concrete case: a line of 10^21 is printed with an exponent, which the parser refuses. */
  lemma ALineOf10To21IsNotReadBack()
    ensures IsDouble(EXPONENT_FORM_FROM) && EXPONENT_FORM_FROM < Pow2(1024)
    ensures var u := Uri([0x70], [0x65], Source([0x73], [0x66], Some(Whole(EXPONENT_FORM_FROM))));
      Format(u).Some? && Parse(Format(u).value) == Fail(BadLine)
  {
    hide IsDouble, Format, Parse;
    TenTo21IsDouble();
    var u := Uri([0x70], [0x65], Source([0x73], [0x66], Some(Whole(EXPONENT_FORM_FROM))));
    SplitWithoutSeparator([0x66], SLASH);
    FormatSucceedsExactly(u);
    FormatThenParse(u);
  }

  // ---- Printing is injective, where the round trip fails as well ----

  /** What a printed value consists of: its segments, and its query without the question mark. */
  lemma PrintedParts(u: Uri)
    requires Format(u).Some?
    ensures var segments := [u.projectRef, u.environmentId] + Tail(u.resource);
      && var query := FormatQuery(u.resource).value;
      && var rest := Format(u).value[|SCHEME|..];
      && DecodeAll(Split(Before(rest, QUESTION), SLASH)) == Ok(segments)
      && After(rest, QUESTION) == if query == [] then [] else query[1..]
  {
    hide Split, Before, After, DecodeAll, Join, Tail;
    var segments, query := [u.projectRef, u.environmentId] + Tail(u.resource), FormatQuery(u.resource).value;
    var parts := FormatSegments(segments).value;
    QueryOfPrinted(u.resource);
    SegmentsReadBack(segments);
    JoinedPathParts(parts, query);
    assert Format(u).value[|SCHEME|..] == Join(parts, [SLASH]) + query;
  }

  lemma SameSourceLine(r: Resource, t: Resource)
    requires r.Source? && t.Source? && FormatQuery(r).Some? && FormatQuery(t).Some?
    requires var q, p := FormatQuery(r).value, FormatQuery(t).value;
      (if q == [] then [] else q[1..]) == (if p == [] then [] else p[1..])
    ensures r.line == t.line
  {
    hide ToText, FormatQuery;
    QueryOfPrinted(r);
    QueryOfPrinted(t);
    FormattedLines(r);
    FormattedLines(t);
    if r.line.Some? && t.line.Some? {
      var m, n := r.line.value.n, t.line.value.n;
      assert ToText(m) == (LINE_PREFIX + ToText(m))[|LINE_PREFIX|..];
      assert ToText(n) == (LINE_PREFIX + ToText(n))[|LINE_PREFIX|..];
      ToTextIsInjective(m, n);
    }
  }

  lemma FormattedLines(r: Resource)
    requires r.Source? && FormatQuery(r).Some?
    ensures r.line.Some? ==> r.line.value.Whole?
  {
  }

  lemma TailNamesItsKind(r: Resource)
    ensures Tail(r)[0] == SOURCE <==> r.Source?
    ensures r.Source? ==> Tail(r) == [SOURCE, r.sha] + Split(r.path, SLASH)
  {
    assert REPORT[0] != SOURCE[0];
  }

  lemma SameResource(r: Resource, t: Resource)
    requires Tail(r) == Tail(t) && FormatQuery(r).Some? && FormatQuery(t).Some?
    requires var q, p := FormatQuery(r).value, FormatQuery(t).value;
      (if q == [] then [] else q[1..]) == (if p == [] then [] else p[1..])
    ensures r == t
  {
    hide Tail, Split, Join, FormatQuery, ParseResource;
    TailNamesItsKind(r);
    TailNamesItsKind(t);
    if r.Source? {
      assert Split(r.path, SLASH) == Tail(r)[2..] == Split(t.path, SLASH);
      assert r.sha == Tail(r)[1] == t.sha;
      JoinUndoesSplit(r.path, SLASH);
      JoinUndoesSplit(t.path, SLASH);
      SameSourceLine(r, t);
    } else {
      ParseTail(r);
      ParseTail(t);
    }
  }

  /** Two values that print alike are the same value, whether or not the text is read back. */
  lemma FormatIsInjective(u: Uri, v: Uri)
    requires Format(u).Some? && Format(u) == Format(v)
    ensures u == v
  {
    hide Split, Before, After, DecodeAll, Tail, FormatQuery;
    PrintedParts(u);
    PrintedParts(v);
    FormattedQuery(u);
    FormattedQuery(v);
    var a, b := [u.projectRef, u.environmentId] + Tail(u.resource), [v.projectRef, v.environmentId] + Tail(v.resource);
    assert a == b && a[0] == u.projectRef && b[0] == v.projectRef && a[1] == u.environmentId && b[1] == v.environmentId;
    assert a[2..] == Tail(u.resource) && b[2..] == Tail(v.resource);
    SameResource(u.resource, v.resource);
  }

  lemma FormattedQuery(u: Uri)
    requires Format(u).Some?
    ensures FormatQuery(u.resource).Some?
  {
  }
}
