/** Parsing, then printing: which accepted inputs have a canonical spelling. */
module TriggerUriCanonical {
  import opened Text
  import opened WellFormed
  import opened UriCodec
  import opened Numbers
  import opened TriggerUri
  import opened TriggerUriRoundTrip

  /** Every field free of lone surrogates. */
  predicate FieldsWellFormed(u: Uri) {
    IsWellFormed(u.projectRef) && IsWellFormed(u.environmentId) && ResourceWellFormed(u.resource)
  }

  predicate ResourceWellFormed(r: Resource) {
    match r
    case Runs => true
    case Run(id) => IsWellFormed(id)
    case Span(run, id) => IsWellFormed(run) && IsWellFormed(id)
    case ErrorGroup(f) => IsWellFormed(f)
    case Queue(n) => IsWellFormed(n)
    case Deployment(v) => IsWellFormed(v)
    case Report(k) => IsWellFormed(k)
    case Source(sha, path, _) => IsWellFormed(sha) && IsWellFormed(path)
    case Investigation(id) => IsWellFormed(id)
  }

  /** What a caller can read off a parsed value: no empty path component, a line below 10^21. */
  predicate HasCanonicalSpelling(u: Uri) {
    u.resource.Source? ==>
      && [] !in Split(u.resource.path, SLASH)
      && (u.resource.line.Some? ==> u.resource.line.value.Whole? && u.resource.line.value.n < EXPONENT_FORM_FROM)
  }

  lemma {:induction false} DecodedSegmentsAreNonEmpty(raw: seq<Str>)
    requires DecodeAll(raw).Ok?
    ensures forall i :: 0 <= i < |raw| ==> DecodeAll(raw).value[i] != [] && Decode(raw[i]) == Some(DecodeAll(raw).value[i])
  {
    if raw != [] {
      DecodedSegmentsAreNonEmpty(raw[1..]);
      assert forall i :: 1 <= i < |raw| ==> raw[i] == raw[1..][i - 1];
    }
  }

  lemma {:induction false} ParsedLineIsPositive(pairs: seq<Str>, line: Option<Line>)
    requires forall p :: p in pairs ==> IsWellFormed(p)
    requires line != Some(Whole(0)) && line != Some(Unusable)
    requires ParsePairs(pairs, line).Ok?
    ensures ParsePairs(pairs, line).value != Some(Whole(0)) && ParsePairs(pairs, line).value != Some(Unusable)
  {
    if pairs != [] {
      assert pairs[0] in pairs;
      var next := if pairs[0] == [] then line else Some(ParsePair(pairs[0]).value);
      ParsedLineIsPositive(pairs[1..], next);
    }
  }

  /** The segments an accepted input is made of, all non-empty, and the resource they name. */
  lemma ParsedParts(input: Str) returns (raw: seq<Str>, segments: seq<Str>, query: Str)
    requires Parse(input).Ok?
    ensures input == SCHEME + input[|SCHEME|..]
    ensures raw == Split(Before(input[|SCHEME|..], QUESTION), SLASH) && query == After(input[|SCHEME|..], QUESTION)
    ensures DecodeAll(raw) == Ok(segments) && |segments| >= 3
    ensures forall i :: 0 <= i < |raw| ==> segments[i] != [] && Decode(raw[i]) == Some(segments[i])
    ensures ParseSegments(segments, query) == Parse(input)
  {
    raw := Split(Before(input[|SCHEME|..], QUESTION), SLASH);
    query := After(input[|SCHEME|..], QUESTION);
    segments := DecodeAll(raw).value;
    DecodedSegmentsAreNonEmpty(raw);
  }

  /** The fields of a parsed resource are its segments. */
  lemma ParsedResourceFields(kind: Str, tail: seq<Str>, query: Str)
    requires ParseResource(kind, tail, query).Ok?
    requires forall i :: 0 <= i < |tail| ==> tail[i] != []
    ensures var r := ParseResource(kind, tail, query).value;
      && (r.Source? ==> |tail| >= 2 && r.sha == tail[0] && r.path == Join(tail[1..], [SLASH]))
      && (r.Source? ==> r.line != Some(Whole(0)) && r.line != Some(Unusable))
      && (!r.Source? && ResourceWellFormed(r) ==> ResourceEncodable(r))
      && ((forall i :: 0 <= i < |tail| ==> IsWellFormed(tail[i])) && !r.Source? ==> ResourceWellFormed(r))
  {
    hide IsWellFormed;
    if kind == SOURCE && query != [] {
      ParsedLineIsPositive(QueryPairs(query), None);
    }
  }

  /** What the parser promises of every value it accepts. */
  lemma ParsedFields(input: Str)
    requires Parse(input).Ok?
    ensures var u := Parse(input).value;
      && u.projectRef != [] && u.environmentId != []
      && (!u.resource.Source? && ResourceWellFormed(u.resource) ==> ResourceEncodable(u.resource))
      && (u.resource.Source? ==> u.resource.sha != [] && u.resource.line != Some(Whole(0)) && u.resource.line != Some(Unusable))
  {
    hide IsWellFormed;
    var raw, segments, query := ParsedParts(input);
    ParsedResourceFields(segments[2], segments[3..], query);
  }

  /**
    Formatting a parsed value gives it back exactly when no field has a lone surrogate, no path
    component is empty and the line is below 10^21.
   */
  lemma ParseThenFormat(input: Str)
    requires Parse(input).Ok?
    ensures var u := Parse(input).value;
      (Format(u).Some? && Parse(Format(u).value) == Ok(u)) <==> FieldsWellFormed(u) && HasCanonicalSpelling(u)
  {
    hide IsWellFormed, Split, Format, Parse;
    var u := Parse(input).value;
    ParsedFields(input);
    FormatThenParse(u);
    EncodableFieldsAreWellFormed(u);
  }

  lemma EncodableFieldsAreWellFormed(u: Uri)
    ensures FieldsEncodable(u) ==> FieldsWellFormed(u)
  {
    hide IsWellFormed;
  }

  lemma {:induction false} DecodeKeepsWellFormed(s: Str)
    requires IsWellFormed(s) && Decode(s).Some?
    ensures IsWellFormed(Decode(s).value)
  {
    if s == [] {
    } else if s[0] != PERCENT {
      if IsHigh(s[0]) {
        DecodeKeepsWellFormed(s[2..]);
        var d := Decode(s).value;
        assert s[1..][1..] == s[2..];
        assert d[2..] == Decode(s[2..]).value;
      } else {
        DecodeKeepsWellFormed(s[1..]);
        assert Decode(s).value[1..] == Decode(s[1..]).value;
      }
    } else {
      var n := SequenceLength(EscapedByte(s, 0).value);
      EscapesAreWellFormed(s, n);
      DecodeKeepsWellFormed(s[3 * n..]);
      var c := DecodeUtf8(EscapedBytes(s, n).value).value;
      ScalarThenWellFormed(c, Decode(s[3 * n..]).value);
    }
  }

  lemma {:induction false} EscapesAreWellFormed(s: Str, n: nat)
    requires IsWellFormed(s) && EscapedBytes(s, n).Some?
    ensures IsWellFormed(s[3 * n..])
  {
    if n > 0 {
      RestAfterEscape(s);
      EscapesAreWellFormed(s[3..], n - 1);
      assert s[3..][3 * (n - 1)..] == s[3 * n..];
    }
  }

  lemma ScalarThenWellFormed(c: int, tail: Str)
    requires IsScalar(c) && IsWellFormed(tail)
    ensures IsWellFormed(Utf16(c) + tail)
  {
    var s := Utf16(c) + tail;
    assert s[|Utf16(c)|..] == tail;
  }

  lemma {:induction false} JoinKeepsWellFormed(parts: seq<Str>)
    requires forall i :: 0 <= i < |parts| ==> IsWellFormed(parts[i])
    ensures IsWellFormed(Join(parts, [SLASH]))
  {
    if |parts| > 1 {
      JoinKeepsWellFormed(parts[1..]);
      WellFormedAroundUnit(parts[0], SLASH, Join(parts[1..], [SLASH]));
    }
  }

  /** A well-formed input has well-formed fields. */
  lemma WellFormedInputHasWellFormedFields(input: Str)
    requires IsWellFormed(input) && Parse(input).Ok?
    ensures FieldsWellFormed(Parse(input).value)
  {
    var raw, segments, query := ParsedParts(input);
    var rest := input[|SCHEME|..];
    SchemeThenWellFormed(rest);
    BeforeAfter(rest, QUESTION);
    SplitKeepsWellFormed(Before(rest, QUESTION), SLASH);
    forall i | 0 <= i < |raw| ensures IsWellFormed(segments[i]) {
      assert raw[i] in raw;
      DecodeKeepsWellFormed(raw[i]);
    }
    var tail := segments[3..];
    ParsedResourceFields(segments[2], tail, query);
    if |tail| > 0 { JoinKeepsWellFormed(tail[1..]); }
  }

  lemma SchemeThenWellFormed(rest: Str)
    requires IsWellFormed(SCHEME + rest)
    ensures IsWellFormed(rest)
  {
    var head: Str := SCHEME[..9];
    assert SCHEME == head + [SLASH];
    assert SCHEME + rest == head + [SLASH] + rest;
    WellFormedAroundUnit(head, SLASH, rest);
  }

  /** One pass through the parser and the printer; None where either refuses. */
  function Canonical(input: Str): Option<Str> {
    match Parse(input)
    case Fail(_) => None
    case Ok(u) => Format(u)
  }

  /**
    Every well-formed accepted input with a canonical spelling reaches it in one pass: the
    spelling means the same value and is its own canonical form.
   */
  lemma CanonicalFormIsStable(input: Str)
    requires IsWellFormed(input) && Parse(input).Ok?
    ensures HasCanonicalSpelling(Parse(input).value) <==>
      Canonical(input).Some? && Parse(Canonical(input).value) == Parse(input)
    ensures HasCanonicalSpelling(Parse(input).value) ==> Canonical(Canonical(input).value) == Canonical(input)
  {
    WellFormedInputHasWellFormedFields(input);
    ParseThenFormat(input);
  }

  /** An escaped slash alone as a path is accepted, and its value cannot be printed. */
  lemma EscapedSlashHasNoCanonicalSpelling()
    ensures var input := SCHEME + Join([[0x70], [0x65], SOURCE, [0x73], [0x25, 0x32, 0x46]], [SLASH]);
      && Parse(input) == Ok(Uri([0x70], [0x65], Source([0x73], [SLASH], None)))
      && Canonical(input) == None
  {
    var parts: seq<Str> := [[0x70], [0x65], SOURCE, [0x73], [0x25, 0x32, 0x46]];
    ParseAfterScheme(Join(parts, [SLASH]));
    EscapedSlashParses();
    SlashHasEmptyComponents();
    FormatSucceedsExactly(Uri([0x70], [0x65], Source([0x73], [SLASH], None)));
  }

  lemma SlashHasEmptyComponents()
    ensures [] in Split([SLASH], SLASH)
  {
    var none: Str := [];
    SplitAtSeparator(none, SLASH, none);
    assert none + [SLASH] + none == [SLASH];
    assert ([none] + Split(none, SLASH))[0] == [];
  }

  lemma EscapedSlashParses()
    ensures ParseRest(Join([[0x70], [0x65], SOURCE, [0x73], [0x25, 0x32, 0x46]], [SLASH]))
         == Ok(Uri([0x70], [0x65], Source([0x73], [SLASH], None)))
  {
    hide IsUriSafe, Join;
    var parts: seq<Str> := [[0x70], [0x65], SOURCE, [0x73], [0x25, 0x32, 0x46]];
    var segments: seq<Str> := [[0x70], [0x65], SOURCE, [0x73], [SLASH]];
    EscapedSlashPartsAreUriSafe();
    JoinedPathParts(parts, []);
    assert Join(parts, [SLASH]) + [] == Join(parts, [SLASH]);
    EscapedSlashSegments();
    EscapedSlashResource();
  }

  lemma EscapedSlashResource()
    ensures ParseSegments([[0x70], [0x65], SOURCE, [0x73], [SLASH]], [])
         == Ok(Uri([0x70], [0x65], Source([0x73], [SLASH], None)))
  {
    var segments: seq<Str> := [[0x70], [0x65], SOURCE, [0x73], [SLASH]];
    assert segments[3..] == [[0x73], [SLASH]] && segments[3..][1..] == [[SLASH]];
  }

  lemma EscapedSlashPartsAreUriSafe()
    ensures forall p :: p in [[0x70], [0x65], SOURCE, [0x73], [0x25, 0x32, 0x46]] ==> IsUriSafe(p)
  {
  }

  lemma {:induction false} DecodeWithoutEscapes(s: Str)
    requires forall i :: 0 <= i < |s| ==> s[i] != PERCENT
    ensures Decode(s) == Some(s)
  {
    if s != [] {
      DecodeWithoutEscapes(s[1..]);
      assert s == [s[0]] + s[1..];
    }
  }

  lemma EscapedSlashDecodes()
    ensures Decode([0x25, 0x32, 0x46]) == Some([SLASH])
  {
    var text: Str := [0x25, 0x32, 0x46];
    var none: Str := [];
    assert EscapeAll(Utf8(0x2F)) == text by {
      assert Utf8(0x2F) == [0x2F] && EscapeAll([0x2F]) == Escape(0x2F) + EscapeAll([]);
    }
    assert text + none == text;
    DecodeOneScalar(0x2F, none);
    assert Utf16(0x2F) + none == [SLASH];
  }

  lemma {:induction false} DecodeAllOf(raw: seq<Str>, segments: seq<Str>)
    requires |raw| == |segments|
    requires forall i :: 0 <= i < |raw| ==> segments[i] != [] && Decode(raw[i]) == Some(segments[i])
    ensures DecodeAll(raw) == Ok(segments)
  {
    hide Decode;
    if raw != [] {
      DecodeAllOf(raw[1..], segments[1..]);
      assert segments == [segments[0]] + segments[1..];
    }
  }

  lemma EscapedSlashSegments()
    ensures DecodeAll([[0x70], [0x65], SOURCE, [0x73], [0x25, 0x32, 0x46]])
         == Ok([[0x70], [0x65], SOURCE, [0x73], [SLASH]])
  {
    hide DecodeAll, Decode;
    DecodeWithoutEscapes([0x70]);
    DecodeWithoutEscapes([0x65]);
    DecodeWithoutEscapes(SOURCE);
    DecodeWithoutEscapes([0x73]);
    EscapedSlashDecodes();
    DecodeAllOf([[0x70], [0x65], SOURCE, [0x73], [0x25, 0x32, 0x46]], [[0x70], [0x65], SOURCE, [0x73], [SLASH]]);
  }
}
