/** Exactly which inputs the parser accepts, and what it reads in them, from the text alone. */
module TriggerUriAcceptance {
  import opened Text
  import opened WellFormed
  import opened UriCodec
  import opened Numbers
  import opened TriggerUri
  import opened TriggerUriRoundTrip
  import opened TriggerUriCanonical

  // ---- The grammar ----

  /** The scheme, path components between slashes, and perhaps a question mark and a query; no fragment. */
  predicate IsWrittenAs(input: Str, raw: seq<Str>, query: Option<Str>) {
    && raw != []
    && (forall p :: p in raw ==> SLASH !in p && QUESTION !in p && HASH !in p)
    && (query.Some? ==> HASH !in query.value)
    && input == Lit("trigger://") + (Join(raw, [SLASH]) + if query.Some? then [QUESTION] + query.value else [])
  }

  /** Every component decodes to something. */
  predicate DecodeTo(raw: seq<Str>, segments: seq<Str>) {
    |raw| == |segments| && forall i :: 0 <= i < |raw| ==> segments[i] != [] && Decode(raw[i]) == Some(segments[i])
  }

  /** The number of a digit string, as a double. */
  function NumberOf(n: nat): (x: Line) {
    RoundIsIdempotent(n);
    if Round(n) < Pow2(1024) then Whole(Round(n)) else Infinity
  }

  /** `line=` and digits that are not all zero, either side perhaps escaped. */
  predicate IsLinePair(pair: Str, name: Str, value: Str, n: nat) {
    && IsWellFormed(pair) && pair == name + [EQUALS] + value && EQUALS !in name
    && IsWellFormed(name) && AsText(FormDecode(name)) == Lit("line")
    && IsWellFormed(value) && FormDecode(value) != []
    && (forall b :: b in FormDecode(value) ==> 48 <= b <= 57)
    && AllDigits(AsText(FormDecode(value))) && DigitsValue(AsText(FormDecode(value))) == n && n >= 1
  }

  ghost predicate SaysLine(pair: Str, x: Line) {
    exists name, value, n :: IsLinePair(pair, name, value, n) && x == NumberOf(n)
  }

  function NonEmpty(pairs: seq<Str>): seq<Str> {
    if pairs == [] then [] else (if pairs[0] == [] then [] else [pairs[0]]) + NonEmpty(pairs[1..])
  }

  /** The pairs of a query that say something: one question mark at its start and lone surrogates do not matter. */
  function SayingPairs(query: Str): seq<Str> {
    NonEmpty(Split(ToWellFormed(if query != [] && query[0] == QUESTION then query[1..] else query), AMPERSAND))
  }

  /** Every pair is a line, and the last one counts. */
  ghost predicate SaysLines(pairs: seq<Str>, line: Option<Line>) {
    && (forall p :: p in pairs ==> exists x :: SaysLine(p, x))
    && (pairs == [] <==> line.None?)
    && (pairs != [] ==> SaysLine(pairs[|pairs| - 1], line.value))
  }

  /** Which value the decoded components and the query stand for. */
  ghost predicate Denotes(segments: seq<Str>, query: Str, u: Uri) {
    && |segments| >= 3 && u.projectRef == segments[0] && u.environmentId == segments[1]
    && var rest := segments[2..];
       match u.resource {
         case Runs => query == [] && rest == [Lit("runs")]
         case Run(id) => query == [] && rest == [Lit("run"), id]
         case Span(run, id) => query == [] && rest == [Lit("run"), run, Lit("span"), id]
         case ErrorGroup(f) => query == [] && rest == [Lit("error"), f]
         case Queue(n) => query == [] && rest == [Lit("queue"), n]
         case Deployment(v) => query == [] && rest == [Lit("deployment"), v]
         case Report(k) => query == [] && rest == [Lit("report"), k]
         case Investigation(id) => query == [] && rest == [Lit("investigation"), id]
         case Source(sha, path, line) =>
           && |rest| >= 3 && rest[0] == Lit("source") && rest[1] == sha && path == Join(rest[2..], [SLASH])
           && SaysLines(SayingPairs(query), line)
       }
  }

  ghost predicate Spells(input: Str, u: Uri, raw: seq<Str>, segments: seq<Str>, query: Option<Str>) {
    IsWrittenAs(input, raw, query) && DecodeTo(raw, segments) && Denotes(segments, if query.Some? then query.value else [], u)
  }

  // ---- Lines ----

  lemma LineName()
    ensures LINE == Lit("line")
  {
  }

  lemma NumberIsRead(digits: Str)
    requires AllDigits(digits)
    ensures ReadNumber(digits) == NumberOf(DigitsValue(digits))
    ensures BelowOne(ReadNumber(digits)) <==> DigitsValue(digits) == 0
  {
    hide Round, Pow2, DigitsValue;
    RoundIsIdempotent(DigitsValue(digits));
    PowersGrow(0, 1024);
  }

  lemma AcceptedPairSaysLine(pair: Str)
    requires IsWellFormed(pair) && ParsePair(pair).Ok?
    ensures SaysLine(pair, ParsePair(pair).value)
  {
    hide IsWellFormed, FormDecode, DigitsValue, AsText, NumberOf, Before, After;
    LineName();
    SplitPairIsWellFormed(pair);
    PairParts(pair);
    var name, value := Before(pair, EQUALS), After(pair, EQUALS);
    DigitOctetsAreDigits(FormDecode(value));
    var digits := AsText(FormDecode(value));
    NumberIsRead(digits);
    assert IsLinePair(pair, name, value, DigitsValue(digits));
  }

  lemma LinePairIsAccepted(pair: Str, name: Str, value: Str, n: nat)
    requires IsLinePair(pair, name, value, n)
    ensures ParsePair(pair) == Ok(NumberOf(n))
  {
    hide IsWellFormed, FormDecode, DigitsValue, AsText, NumberOf, Before, After, ReadNumber;
    LineName();
    SplitPairIsWellFormed(pair);
    FirstSeparator(pair, name, value);
    NumberIsRead(AsText(FormDecode(value)));
  }

  lemma PairExactly(pair: Str, x: Line)
    requires IsWellFormed(pair)
    ensures ParsePair(pair) == Ok(x) <==> SaysLine(pair, x)
  {
    hide ParsePair, IsLinePair, NumberOf, IsWellFormed;
    if ParsePair(pair) == Ok(x) { AcceptedPairSaysLine(pair); }
    if SaysLine(pair, x) {
      var name, value, n :| IsLinePair(pair, name, value, n) && x == NumberOf(n);
      LinePairIsAccepted(pair, name, value, n);
    }
  }

  /** A pair that is accepted has a separator: without one its value would be empty. */
  lemma PairParts(pair: Str)
    requires IsWellFormed(pair) && ParsePair(pair).Ok?
    ensures pair == Before(pair, EQUALS) + [EQUALS] + After(pair, EQUALS)
  {
    hide Before, DigitsValue, AsText, Round;
    if EQUALS in pair { AroundFirst(pair, EQUALS); }
  }

  lemma FirstSeparator(pair: Str, name: Str, value: Str)
    requires pair == name + [EQUALS] + value && EQUALS !in name
    ensures Before(pair, EQUALS) == name && After(pair, EQUALS) == value
  {
    hide Before, After;
    assert pair[|name|] == EQUALS;
    AroundFirst(pair, EQUALS);
    FirstSeparatorIsUnique(Before(pair, EQUALS), After(pair, EQUALS), name, value, EQUALS);
  }

  lemma {:induction false} PairsExactly(pairs: seq<Str>, before: Option<Line>, line: Option<Line>)
    requires forall p :: p in pairs ==> IsWellFormed(p)
    ensures ParsePairs(pairs, before) == Ok(line) <==>
      if NonEmpty(pairs) == [] then line == before else SaysLines(NonEmpty(pairs), line)
  {
    hide IsWellFormed, SaysLine, ParsePair;
    if pairs != [] {
      assert pairs[0] in pairs;
      var rest := pairs[1..];
      if pairs[0] == [] {
        PairsExactly(rest, before, line);
        assert [] + NonEmpty(rest) == NonEmpty(rest);
      } else {
        forall x ensures ParsePair(pairs[0]) == Ok(x) <==> SaysLine(pairs[0], x) { PairExactly(pairs[0], x); }
        var all := [pairs[0]] + NonEmpty(rest);
        if ParsePair(pairs[0]).Ok? {
          PairsExactly(rest, Some(ParsePair(pairs[0]).value), line);
          FirstPair(pairs[0], NonEmpty(rest), ParsePair(pairs[0]).value, line);
        } else {
          assert pairs[0] in all;
        }
      }
    }
  }

  lemma FirstPair(first: Str, rest: seq<Str>, x: Line, line: Option<Line>)
    requires SaysLine(first, x) && forall y :: SaysLine(first, y) ==> y == x
    ensures SaysLines([first] + rest, line) <==> if rest == [] then line == Some(x) else SaysLines(rest, line)
  {
    hide SaysLine;
    var all := [first] + rest;
    assert forall p :: p in all <==> p == first || p in rest;
    if rest != [] { assert all[|all| - 1] == rest[|rest| - 1]; }
  }

  lemma LineExactly(query: Str, line: Option<Line>)
    ensures ParseLine(query) == Ok(line) <==> SaysLines(SayingPairs(query), line)
  {
    hide SaysLine, ParsePairs, ToWellFormed;
    if query == [] {
      NoPairs();
    } else {
      PairsExactly(QueryPairs(query), None, line);
    }
  }

  lemma NoPairs()
    ensures SayingPairs([]) == []
  {
    var none: seq<Str> := [[]];
    assert Split([], AMPERSAND) == none && none[1..] == [];
  }

  // ---- Kinds ----

  lemma KindNames()
    ensures RUNS == Lit("runs") && RUN == Lit("run") && SPAN == Lit("span") && ERROR == Lit("error") && QUEUE == Lit("queue")
    ensures DEPLOYMENT == Lit("deployment") && REPORT == Lit("report") && SOURCE == Lit("source") && INVESTIGATION == Lit("investigation")
    ensures SCHEME == Lit("trigger://")
  {
    hide Lit;
    ShortKindNames();
    ReportAndSource();
    LongKindNames();
    SchemeName();
  }

  lemma ShortKindNames()
    ensures RUNS == Lit("runs") && RUN == Lit("run") && SPAN == Lit("span") && ERROR == Lit("error") && QUEUE == Lit("queue")
  {
  }

  lemma ReportAndSource()
    ensures REPORT == Lit("report") && SOURCE == Lit("source")
  {
  }

  lemma LongKindNames()
    ensures DEPLOYMENT == Lit("deployment") && INVESTIGATION == Lit("investigation")
  {
  }

  lemma SchemeName()
    ensures SCHEME == Lit("trigger://")
  {
  }

  lemma KindsDiffer()
    ensures |RUNS| == 4 && |RUN| == 3 && |SPAN| == 4 && |ERROR| == |QUEUE| == 5 && |DEPLOYMENT| == 10
    ensures |REPORT| == |SOURCE| == 6 && |INVESTIGATION| == 13
    ensures ERROR != QUEUE && REPORT != SOURCE
  {
    assert ERROR[0] != QUEUE[0] && REPORT[0] != SOURCE[0];
  }

  lemma SourceExactly(segments: seq<Str>, query: Str, u: Uri)
    requires |segments| >= 3 && segments[2] == SOURCE
    ensures ParseSegments(segments, query) == Ok(u) <==> Denotes(segments, query, u)
  {
    hide ParseLine, SaysLines, SayingPairs, Lit, Join;
    KindNames();
    KindsDiffer();
    var rest := segments[2..];
    assert rest[0] == segments[2] && segments[3..] == rest[1..];
    if |rest| >= 3 {
      assert segments[3] == rest[1] && segments[3..][1..] == rest[2..];
      if ParseLine(query).Ok? { LineExactly(query, ParseLine(query).value); }
      if u.resource.Source? { LineExactly(query, u.resource.line); }
    }
  }

  lemma OtherKindsExactly(segments: seq<Str>, query: Str, u: Uri)
    requires |segments| >= 3 && segments[2] != SOURCE
    ensures ParseSegments(segments, query) == Ok(u) <==> Denotes(segments, query, u)
  {
    hide ParseLine, SaysLines, SayingPairs, Lit, Join;
    KindNames();
    KindsDiffer();
    var rest := segments[2..];
    assert rest[0] == segments[2] && segments[3..] == rest[1..];
  }

  // ---- The whole input ----

  lemma {:induction false} SplitHasNoNewUnits(s: Str, c: Unit, u: Unit)
    requires u !in s
    ensures forall p :: p in Split(s, c) ==> u !in p
  {
    if s != [] {
      assert s == [s[0]] + s[1..];
      SplitHasNoNewUnits(s[1..], c, u);
      var rest := Split(s[1..], c);
      assert rest[0] in rest && s[0] in s;
      forall p | p in Split(s, c) ensures u !in p {
        if p !in rest && p != [] { assert p == [s[0]] + rest[0]; }
      }
    }
  }

  lemma {:induction false} JoinHasNoNewUnits(parts: seq<Str>, u: Unit)
    requires u != SLASH && forall p :: p in parts ==> u !in p
    ensures u !in Join(parts, [SLASH])
  {
    if parts != [] {
      assert parts[0] in parts && forall p :: p in parts[1..] ==> p in parts;
      JoinHasNoNewUnits(parts[1..], u);
    }
  }

  /** An accepted input spells its value. */
  lemma AcceptedIsSpelled(input: Str, u: Uri)
    requires Parse(input) == Ok(u)
    ensures exists raw, segments, query :: Spells(input, u, raw, segments, query)
  {
    hide ParseSegments, Denotes, Decode, Split, Before, After, Join, Lit;
    KindNames();
    var rest := input[|SCHEME|..];
    var raw, segments, text := ParsedParts(input);
    assert HASH !in rest by { NoFragment(input); }
    var path := Before(rest, QUESTION);
    JoinUndoesSplit(path, SLASH);
    SplitHasNoNewUnits(path, SLASH, QUESTION);
    SplitHasNoNewUnits(path, SLASH, HASH);
    var query := if QUESTION in rest then Some(text) else None;
    RestParts(rest);
    SegmentsExactly(segments, text, u);
    assert IsWrittenAs(input, raw, query);
    assert Spells(input, u, raw, segments, query);
  }

  lemma NoFragment(input: Str)
    requires Parse(input).Ok?
    ensures HASH !in input[|SCHEME|..]
  {
  }

  lemma RestParts(rest: Str)
    requires HASH !in rest
    ensures rest == Before(rest, QUESTION) + if QUESTION in rest then [QUESTION] + After(rest, QUESTION) else []
    ensures QUESTION !in rest ==> After(rest, QUESTION) == []
    ensures HASH !in Before(rest, QUESTION) && HASH !in After(rest, QUESTION)
  {
    hide Before, After;
    if QUESTION in rest {
      AroundFirst(rest, QUESTION);
      Regrouped(Before(rest, QUESTION), [QUESTION], After(rest, QUESTION));
      NotInParts(Before(rest, QUESTION), QUESTION, After(rest, QUESTION), HASH);
    } else {
      NothingAfter(rest, QUESTION);
      assert rest + [] == rest;
    }
  }

  lemma Regrouped(a: Str, b: Str, c: Str)
    ensures a + b + c == a + (b + c)
  {
  }

  lemma NothingAfter(s: Str, c: Unit)
    requires c !in s
    ensures Before(s, c) == s && After(s, c) == []
  {
    hide Before;
  }

  lemma NotInParts(a: Str, c: Unit, b: Str, u: Unit)
    requires u !in a + [c] + b
    ensures u !in a && u !in b
  {
  }

  lemma SegmentsExactly(segments: seq<Str>, query: Str, u: Uri)
    requires |segments| >= 3
    ensures ParseSegments(segments, query) == Ok(u) <==> Denotes(segments, query, u)
  {
    hide ParseSegments, Denotes;
    if segments[2] == SOURCE {
      SourceExactly(segments, query, u);
    } else {
      OtherKindsExactly(segments, query, u);
    }
  }

  /** And whatever spells a value is accepted as that value. */
  lemma SpelledIsAccepted(input: Str, u: Uri, raw: seq<Str>, segments: seq<Str>, query: Option<Str>)
    requires Spells(input, u, raw, segments, query)
    ensures Parse(input) == Ok(u)
  {
    hide ParseSegments, Decode, Split, Before, After, Join, Lit, DecodeAll;
    KindNames();
    var path := Join(raw, [SLASH]);
    var suffix := if query.Some? then [QUESTION] + query.value else [];
    var text := if query.Some? then query.value else [];
    assert suffix == [] || suffix[1..] == text;
    JoinHasNoNewUnits(raw, QUESTION);
    JoinHasNoNewUnits(raw, HASH);
    BeforeAndAfterQuery(path, suffix);
    SplitUndoesJoin(raw, SLASH);
    DecodeAllOf(raw, segments);
    ParseAfterScheme(path + suffix);
    SegmentsExactly(segments, text, u);
    NoEmptyPart(raw, segments);
  }

  lemma NoEmptyPart(raw: seq<Str>, segments: seq<Str>)
    requires DecodeTo(raw, segments)
    ensures [] !in raw
  {
    forall i | 0 <= i < |raw| ensures raw[i] != [] {
      assert Decode(raw[i]) == Some(segments[i]) && Decode([]) == Some([]);
    }
  }

  /**
    The parser accepts exactly the spellings of the grammar, and reads exactly what they denote:
    components that decode to something, at least three of them, the kind's own number of ids,
    a query only on a source, made of lines alone, of which the last one counts.
   */
  lemma AcceptsExactly(input: Str, u: Uri)
    ensures Parse(input) == Ok(u) <==> exists raw, segments, query :: Spells(input, u, raw, segments, query)
  {
    hide Parse, Spells;
    if Parse(input) == Ok(u) { AcceptedIsSpelled(input, u); }
    if exists raw, segments, query :: Spells(input, u, raw, segments, query) {
      var raw, segments, query :| Spells(input, u, raw, segments, query);
      SpelledIsAccepted(input, u, raw, segments, query);
    }
  }
}
