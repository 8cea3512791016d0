/** The schema scanner of the foreign-key guard: comments and strings scrubbed line by line, lines joined while a bracket is open. */
module LogicalLines {
  import opened Text

  const SPACE: Unit := 0x20
  const NEWLINE: Unit := 0x0A
  const QUOTE: Unit := 0x22
  const SLASH: Unit := 0x2F
  const BACKSLASH: Unit := 0x5C

  // ---- One line ----

  /** Where a scan stands: outside strings, in one (after a backslash or not), or past a comment's start. */
  datatype Mode = Code | InString(escaped: bool) | Comment

  /** The mode after one unit; `next` is the rest of the line behind it. */
  function Advanced(m: Mode, u: Unit, next: Str): Mode {
    match m
    case Comment => Comment
    case InString(true) => InString(false)
    case InString(false) => if u == BACKSLASH then InString(true) else if u == QUOTE then Code else m
    case Code => if u == QUOTE then InString(false) else if u == SLASH && next != [] && next[0] == SLASH then Comment else Code
  }

  /** Where a scan of the text ends. */
  function ScanEnd(s: Str, m: Mode): Mode {
    if s == [] then m else ScanEnd(s[1..], Advanced(m, s[0], s[1..]))
  }

  /** The line without its comment. */
  function CodeOf(s: Str, m: Mode): Str {
    if s == [] || Advanced(m, s[0], s[1..]).Comment? then [] else [s[0]] + CodeOf(s[1..], Advanced(m, s[0], s[1..]))
  }

  /** The same with every unit of a string, its quotes included, blanked out. */
  function Masked(s: Str, m: Mode): Str {
    if s == [] || Advanced(m, s[0], s[1..]).Comment? then []
    else
      [if m.InString? || s[0] == QUOTE then SPACE else s[0]] + Masked(s[1..], Advanced(m, s[0], s[1..]))
  }

  // ---- The same by counting quotes ----

  /** How many backslashes stand directly before position `k`. */
  function Backslashes(s: Str, k: nat): nat
    requires k <= |s|
  {
    if k == 0 || s[k - 1] != BACKSLASH then 0 else 1 + Backslashes(s, k - 1)
  }

  /** A quote that opens or closes a string: behind an odd run of backslashes inside one it does neither. */
  predicate IsDelimiter(s: Str, k: nat)
    requires k < |s|
    decreases k, 1
  {
    s[k] == QUOTE && !(Delimiters(s, k) % 2 == 1 && Backslashes(s, k) % 2 == 1)
  }

  /** How many of the first `k` units are delimiters; a position is inside a string when they are odd. */
  function Delimiters(s: Str, k: nat): nat
    requires k <= |s|
    decreases k, 0
  {
    if k == 0 then 0 else Delimiters(s, k - 1) + if IsDelimiter(s, k - 1) then 1 else 0
  }

  /** Two slashes outside strings. */
  predicate IsCommentAt(s: Str, k: nat)
    requires k < |s|
  {
    k + 1 < |s| && s[k] == SLASH && s[k + 1] == SLASH && Delimiters(s, k) % 2 == 0
  }

  /** Where the first comment from `k` on begins, or the end of the line. */
  function CommentStart(s: Str, k: nat): (n: nat)
    requires k <= |s|
    ensures k <= n <= |s|
    ensures n < |s| ==> IsCommentAt(s, n)
    ensures forall j :: k <= j < n ==> !IsCommentAt(s, j)
    decreases |s| - k
  {
    if k == |s| || IsCommentAt(s, k) then k else CommentStart(s, k + 1)
  }

  /** A unit of a string, or a quote, is blanked out. */
  function Blanked(s: Str, k: nat): Unit
    requires k < |s|
  {
    if s[k] == QUOTE || Delimiters(s, k) % 2 == 1 then SPACE else s[k]
  }

  function ModeAt(s: Str, k: nat): Mode
    requires k <= |s|
  {
    if Delimiters(s, k) % 2 == 0 then Code else InString(Backslashes(s, k) % 2 == 1)
  }

  lemma OneUnitFurther(s: Str, k: nat)
    requires k < |s|
    ensures Advanced(ModeAt(s, k), s[k], s[k + 1..]) == if IsCommentAt(s, k) then Comment else ModeAt(s, k + 1)
  {
    assert k + 1 < |s| ==> s[k + 1..][0] == s[k + 1];
    var d, b := Delimiters(s, k), Backslashes(s, k);
    assert Delimiters(s, k + 1) == d + if s[k] == QUOTE && !(d % 2 == 1 && b % 2 == 1) then 1 else 0;
    assert Backslashes(s, k + 1) == if s[k] == BACKSLASH then b + 1 else 0;
    assert (d + 1) % 2 == 1 - d % 2 && (b + 1) % 2 == 1 - b % 2;
  }

  lemma ScrubStep(s: Str, m: Mode)
    requires s != []
    ensures var next := Advanced(m, s[0], s[1..]);
      && CodeOf(s, m) == (if next.Comment? then [] else [s[0]] + CodeOf(s[1..], next))
      && Masked(s, m) == (if next.Comment? then [] else [if m.InString? || s[0] == QUOTE then SPACE else s[0]] + Masked(s[1..], next))
  {
  }

  /** The units from `k` up to `n`, blanked out where they are. */
  function Blanks(s: Str, k: nat, n: nat): (r: Str)
    requires k <= n <= |s|
    ensures |r| == n - k
    ensures forall i :: 0 <= i < n - k ==> r[i] == Blanked(s, k + i)
    decreases n - k
  {
    if k == n then [] else [Blanked(s, k)] + Blanks(s, k + 1, n)
  }

  lemma {:induction false} ScannedFrom(s: Str, k: nat)
    requires k <= |s|
    ensures var n := CommentStart(s, k);
      CodeOf(s[k..], ModeAt(s, k)) == s[k..n] && Masked(s[k..], ModeAt(s, k)) == Blanks(s, k, n)
    decreases |s| - k
  {
    hide Advanced, ModeAt, IsCommentAt, Delimiters, CodeOf, Masked;
    var rest := s[k..];
    InStringExactly(s, k);
    if k == |s| {
      assert rest == [] && s[k..k] == [];
      NothingScrubbed(ModeAt(s, k));
    } else {
      assert rest[0] == s[k] && rest[1..] == s[k + 1..];
      OneUnitFurther(s, k);
      ScrubStep(rest, ModeAt(s, k));
      if !IsCommentAt(s, k) {
        NoCommentYet(s, k);
        ScannedFrom(s, k + 1);
        var n := CommentStart(s, k);
        assert s[k..n] == [s[k]] + s[k + 1..n];
      }
    }
  }

  lemma NothingScrubbed(m: Mode)
    ensures CodeOf([], m) == [] && Masked([], m) == []
  {
  }

  lemma InStringExactly(s: Str, k: nat)
    requires k <= |s|
    ensures ModeAt(s, k).InString? <==> Delimiters(s, k) % 2 == 1
    ensures !ModeAt(s, k).Comment?
  {
    hide Delimiters;
  }

  lemma NoCommentYet(s: Str, k: nat)
    requires k < |s| && !IsCommentAt(s, k)
    ensures CommentStart(s, k) == CommentStart(s, k + 1) && !ModeAt(s, k + 1).Comment?
  {
    hide IsCommentAt, Delimiters;
  }

  /**
    The code of a line is the line up to its first comment, two slashes with an even number of
    string delimiters before them; the mask is the code with strings and their quotes blanked out.
   */
  predicate IsScrubbed(line: Str, code: Str, masked: Str) {
    var n := CommentStart(line, 0);
    code == line[..n] && |masked| == n && forall i :: 0 <= i < n ==> masked[i] == Blanked(line, i)
  }

  lemma ScrubbedExactly(line: Str)
    ensures IsScrubbed(line, CodeOf(line, Code), Masked(line, Code))
  {
    hide CodeOf, Masked, Blanked, CommentStart;
    ScannedFrom(line, 0);
    assert line[0..] == line && Delimiters(line, 0) == 0;
  }

  /** `scrubLine`. */
  method ScrubLine(line: Str) returns (code: Str, masked: Str)
    ensures code == CodeOf(line, Code) && masked == Masked(line, Code)
    ensures IsScrubbed(line, code, masked)
  {
    hide IsScrubbed, CodeOf, Masked, Advanced;
    ScrubbedExactly(line);
    code, masked := [], [];
    var inString, escaped := false, false;
    ghost var mode: Mode := Code;
    var i := 0;
    assert line[0..] == line;
    while i < |line|
      invariant i <= |line|
      invariant mode == if inString then InString(escaped) else Code
      invariant !inString ==> !escaped
      invariant code + CodeOf(line[i..], mode) == CodeOf(line, Code)
      invariant masked + Masked(line[i..], mode) == Masked(line, Code)
    {
      var ch := line[i];
      ghost var rest, next := line[i..], Advanced(mode, line[i], line[i + 1..]);
      assert rest[0] == ch && rest[1..] == line[i + 1..];
      ScrubStep(rest, mode);
      ScannerMoves(line, i, mode);
      Regrouped(code, [ch], CodeOf(line[i + 1..], next));
      Regrouped(masked, [if mode.InString? || ch == QUOTE then SPACE else ch], Masked(line[i + 1..], next));
      i := i + 1;
      if inString {
        code := code + [ch];
        masked := masked + [SPACE];
        if escaped { escaped := false; }
        else if ch == BACKSLASH { escaped := true; }
        else if ch == QUOTE { inString := false; }
        mode := next;
        continue;
      }
      if ch == QUOTE {
        inString := true;
        code := code + [ch];
        masked := masked + [SPACE];
        mode := next;
        continue;
      }
      if ch == SLASH && i < |line| && line[i] == SLASH {
        assert next == Comment;
        return;
      }
      code := code + [ch];
      masked := masked + [ch];
      mode := next;
    }
    assert line[i..] == [];
    NothingScrubbed(mode);
  }

  /** One step of the flags. */
  lemma ScannerMoves(line: Str, i: nat, mode: Mode)
    requires i < |line|
    ensures Advanced(mode, line[i], line[i + 1..]) ==
      match mode {
        case Comment => Comment
        case InString(escaped) =>
          if escaped then InString(false) else if line[i] == BACKSLASH then InString(true) else if line[i] == QUOTE then Code else mode
        case Code =>
          if line[i] == QUOTE then InString(false)
          else if line[i] == SLASH && i + 1 < |line| && line[i + 1] == SLASH then Comment else Code
      }
  {
  }

  lemma Regrouped(a: Str, b: Str, c: Str)
    ensures a + (b + c) == a + b + c
  {
  }

  // ---- Joining lines ----

  function BracketDepth(depth: nat, u: Unit): nat {
    if u == 0x28 || u == 0x5B then depth + 1
    else if u == 0x29 || u == 0x5D then (if depth == 0 then 0 else depth - 1)
    else depth
  }

  function DepthAfter(masked: Str, depth: nat): nat {
    if masked == [] then depth else DepthAfter(masked[1..], BracketDepth(depth, masked[0]))
  }

  /** Brackets opened less brackets closed. */
  function Surplus(masked: Str): int {
    if masked == [] then 0
    else
      (if masked[0] == 0x28 || masked[0] == 0x5B then 1 else if masked[0] == 0x29 || masked[0] == 0x5D then -1 else 0)
      + Surplus(masked[1..])
  }

  /**
    The depth behind a line is the largest surplus of any of its tails, or what was open before
    with the surplus of the whole line: a closing bracket too many is forgotten.
   */
  lemma {:induction false} DepthIsTheLargestSurplus(masked: Str, depth: nat)
    ensures DepthAfter(masked, depth) >= depth + Surplus(masked)
    ensures forall k :: 0 <= k <= |masked| ==> DepthAfter(masked, depth) >= Surplus(masked[k..])
    ensures DepthAfter(masked, depth) == depth + Surplus(masked)
         || exists k :: 0 <= k <= |masked| && DepthAfter(masked, depth) == Surplus(masked[k..])
    decreases |masked|
  {
    if masked != [] {
      var rest, next, d := masked[1..], BracketDepth(depth, masked[0]), DepthAfter(masked, depth);
      DepthIsTheLargestSurplus(rest, next);
      forall k | 0 <= k <= |masked| ensures d >= Surplus(masked[k..]) {
        if k > 0 {
          assert masked[k..] == rest[k - 1..];
        } else {
          assert masked[0..] == masked && d >= Surplus(rest[0..]) && rest[0..] == rest;
        }
      }
      if d != next + Surplus(rest) {
        var k :| 0 <= k <= |rest| && d == Surplus(rest[k..]);
        assert masked[k + 1..] == rest[k..];
      } else if next != depth + Surplus(masked) - Surplus(rest) {
        assert masked[1..] == rest && d == Surplus(masked[1..]);
      }
    }
  }

  /** A line with code on it: the code, trimmed, and the mask its brackets are counted in. */
  datatype Piece = Piece(text: Str, masked: Str)

  function PieceOf(line: Str): Piece {
    Piece(Trim(CodeOf(line, Code)), Masked(line, Code))
  }

  /** The lines with code on them, in order. */
  function Pieces(lines: seq<Str>): (r: seq<Piece>)
    ensures forall p :: p in r ==> p.text != []
  {
    if lines == [] then []
    else (if PieceOf(lines[0]).text == [] then [] else [PieceOf(lines[0])]) + Pieces(lines[1..])
  }

  /** The joined lines so far, the one being joined, and how many brackets it has open. */
  datatype Joining = Joining(out: seq<Str>, buf: Str, depth: nat)

  const START: Joining := Joining([], [], 0)

  function Joined(buf: Str, text: Str): Str {
    if buf == [] then text else buf + [SPACE] + text
  }

  function Advance(j: Joining, p: Piece): Joining {
    var buf, depth := Joined(j.buf, p.text), DepthAfter(p.masked, j.depth);
    if depth == 0 then Joining(j.out + [buf], [], 0) else Joining(j.out, buf, depth)
  }

  function Run(j: Joining, pieces: seq<Piece>): Joining
    decreases |pieces|
  {
    if pieces == [] then j else Run(Advance(j, pieces[0]), pieces[1..])
  }

  function Output(j: Joining): seq<Str> {
    if j.buf == [] then j.out else j.out + [j.buf]
  }

  function LogicalLinesOf(body: Str): seq<Str> {
    Output(Run(START, Pieces(Split(body, NEWLINE))))
  }

  lemma PiecesStep(lines: seq<Str>, i: nat)
    requires i < |lines|
    ensures var p, rest := PieceOf(lines[i]), Pieces(lines[i + 1..]);
      Pieces(lines[i..]) == if p.text == [] then rest else [p] + rest
  {
    hide PieceOf;
    assert lines[i..][0] == lines[i] && lines[i..][1..] == lines[i + 1..];
    assert [] + Pieces(lines[i + 1..]) == Pieces(lines[i + 1..]);
  }

  lemma NoPiecesLeft(j: Joining, lines: seq<Str>)
    ensures Run(j, Pieces(lines[|lines|..])) == j
  {
    assert lines[|lines|..] == [];
  }

  lemma RunStep(j: Joining, p: Piece, rest: seq<Piece>)
    ensures Run(j, [p] + rest) == Run(Advance(j, p), rest)
  {
    hide Advance;
    assert ([p] + rest)[1..] == rest;
  }

  lemma DepthStep(masked: Str, k: nat, depth: nat)
    requires k < |masked|
    ensures DepthAfter(masked[k..], depth) == DepthAfter(masked[k + 1..], BracketDepth(depth, masked[k]))
  {
    hide BracketDepth;
    assert masked[k..][0] == masked[k] && masked[k..][1..] == masked[k + 1..];
  }

  lemma DepthAtTheEnds(masked: Str, depth: nat)
    ensures DepthAfter(masked[0..], depth) == DepthAfter(masked, depth) && DepthAfter(masked[|masked|..], depth) == depth
  {
    assert masked[0..] == masked;
  }

  /** The brackets of one line. */
  method CountBrackets(masked: Str, before: nat) returns (depth: nat)
    ensures depth == DepthAfter(masked, before)
  {
    hide DepthAfter;
    depth := before;
    DepthAtTheEnds(masked, before);
    for k := 0 to |masked|
      invariant DepthAfter(masked[k..], depth) == DepthAfter(masked, before)
    {
      DepthStep(masked, k, depth);
      if masked[k] == 0x28 || masked[k] == 0x5B { depth := depth + 1; }
      else if masked[k] == 0x29 || masked[k] == 0x5D { depth := if depth == 0 then 0 else depth - 1; }
    }
    DepthAtTheEnds(masked, depth);
  }

  /** `toLogicalLines`. */
  method ToLogicalLines(body: Str) returns (lines: seq<Str>)
    ensures lines == LogicalLinesOf(body)
  {
    hide CodeOf, Masked, Split, Trim, IsScrubbed, Run, Pieces, DepthAfter;
    var raw := Split(body, NEWLINE);
    lines := [];
    var buf: Str, depth: nat := [], 0;
    assert raw[0..] == raw;
    for i := 0 to |raw|
      invariant Run(Joining(lines, buf, depth), Pieces(raw[i..])) == Run(START, Pieces(raw))
    {
      PiecesStep(raw, i);
      var code, masked := ScrubLine(raw[i]);
      var trimmed := Trim(code);
      assert PieceOf(raw[i]) == Piece(trimmed, masked);
      if trimmed == [] { continue; }
      RunStep(Joining(lines, buf, depth), Piece(trimmed, masked), Pieces(raw[i + 1..]));
      buf := if buf == [] then trimmed else buf + [SPACE] + trimmed;
      depth := CountBrackets(masked, depth);
      if depth == 0 {
        lines := lines + [buf];
        buf := [];
      }
    }
    NoPiecesLeft(Joining(lines, buf, depth), raw);
    if buf != [] { lines := lines + [buf]; }
  }
}
