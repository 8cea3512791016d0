/** Breaking a line at a space: exactly when the joined lines stay the same. */
module NewlineForSpace {
  import opened Text
  import opened LogicalLines

  // ---- Scrubbing ----

  /** Where the scan of `a` ends in plain code, it goes on behind a space as if a new line began there. */
  lemma {:induction false} ScanResumes(a: Str, b: Str, m: Mode)
    requires ScanEnd(a, m) == Code
    ensures CodeOf(a + [SPACE] + b, m) == a + [SPACE] + CodeOf(b, Code)
    ensures Masked(a + [SPACE] + b, m) == Masked(a, m) + [SPACE] + Masked(b, Code)
    ensures CodeOf(a, m) == a
    decreases |a|
  {
    hide *;
    ScanEndStep(a, m);
    if a == [] {
      SpaceIsCode(b, m);
      assert a + [SPACE] + b == [SPACE] + b;
    } else {
      var u, rest := a[0], a[1..];
      var next := Advanced(m, u, rest);
      CommentsDoNotEnd(rest);
      ScanResumes(rest, b, next);
      ScanOne(u, rest, [SPACE] + b, m);
      assert a == [u] + rest;
      Regrouped([u], rest, [SPACE], b);
      Regrouped([u], rest, [SPACE], CodeOf(b, Code));
      Regrouped([if m.InString? || u == QUOTE then SPACE else u], Masked(rest, next), [SPACE], Masked(b, Code));
    }
  }

  lemma ScanEndStep(a: Str, m: Mode)
    ensures ScanEnd(a, m) == if a == [] then m else ScanEnd(a[1..], Advanced(m, a[0], a[1..]))
    ensures a == [] ==> CodeOf(a, m) == [] && Masked(a, m) == []
  {
  }

  lemma Regrouped(w: Str, x: Str, y: Str, z: Str)
    ensures w + x + y + z == w + (x + (y + z))
    ensures x + y + z == x + (y + z)
  {
    assert w + x + y + z == w + (x + (y + z));
    assert x + y + z == x + (y + z);
  }

  lemma SpaceIsCode(b: Str, m: Mode)
    requires m == Code
    ensures CodeOf([SPACE] + b, m) == [SPACE] + CodeOf(b, Code)
    ensures Masked([SPACE] + b, m) == [SPACE] + Masked(b, Code)
  {
    assert ([SPACE] + b)[1..] == b;
  }

  /** One unit further, where what follows does not begin a comment. */
  lemma ScanOne(u: Unit, rest: Str, tail: Str, m: Mode)
    requires tail != [] && tail[0] == SPACE && !Advanced(m, u, rest).Comment?
    ensures Advanced(m, u, rest + tail) == Advanced(m, u, rest)
    ensures CodeOf([u] + (rest + tail), m) == [u] + CodeOf(rest + tail, Advanced(m, u, rest))
    ensures Masked([u] + (rest + tail), m) == [if m.InString? || u == QUOTE then SPACE else u] + Masked(rest + tail, Advanced(m, u, rest))
    ensures CodeOf([u] + rest, m) == [u] + CodeOf(rest, Advanced(m, u, rest))
    ensures Masked([u] + rest, m) == [if m.InString? || u == QUOTE then SPACE else u] + Masked(rest, Advanced(m, u, rest))
  {
    assert ([u] + rest)[1..] == rest && ([u] + (rest + tail))[1..] == rest + tail;
  }

  lemma {:induction false} CommentsDoNotEnd(s: Str)
    ensures ScanEnd(s, Comment) == Comment
  {
    if s != [] { CommentsDoNotEnd(s[1..]); }
  }

  lemma {:induction false} DepthOfConcatenation(x: Str, y: Str, depth: nat)
    ensures DepthAfter(x + y, depth) == DepthAfter(y, DepthAfter(x, depth))
    decreases |x|
  {
    if x == [] {
      assert x + y == y;
    } else {
      assert (x + y)[1..] == x[1..] + y;
      DepthOfConcatenation(x[1..], y, BracketDepth(depth, x[0]));
    }
  }

  lemma BrokenDepth(a: Str, b: Str, depth: nat)
    requires ScanEnd(a, Code) == Code
    ensures DepthAfter(Masked(a + [SPACE] + b, Code), depth) == DepthAfter(Masked(b, Code), DepthAfter(Masked(a, Code), depth))
  {
    var x, y := Masked(a, Code), Masked(b, Code);
    ScanResumes(a, b, Code);
    DepthOfConcatenation(x + [SPACE], y, depth);
    DepthOfConcatenation(x, [SPACE], depth);
    assert DepthAfter([SPACE], DepthAfter(x, depth)) == DepthAfter(x, depth);
  }

  // ---- Trimming around the space ----

  lemma {:induction false} TrimStartBefore(a: Str, tail: Str)
    requires TrimStart(a) != []
    ensures TrimStart(a + tail) == TrimStart(a) + tail
  {
    assert (a + tail)[0] == a[0];
    if IsSpace(a[0]) {
      assert (a + tail)[1..] == a[1..] + tail;
      TrimStartBefore(a[1..], tail);
    }
  }

  lemma {:induction false} TrimEndBehind(head: Str, b: Str)
    requires TrimEnd(b) != []
    ensures TrimEnd(head + b) == head + TrimEnd(b)
  {
    var s := head + b;
    assert s[|s| - 1] == b[|b| - 1];
    if IsSpace(b[|b| - 1]) {
      assert s[..|s| - 1] == head + b[..|b| - 1];
      TrimEndBehind(head, b[..|b| - 1]);
    }
  }

  lemma NothingToTrimEnd(s: Str)
    ensures |TrimEnd(s)| == |s| <==> s == [] || !IsSpace(s[|s| - 1])
  {
  }

  lemma NothingToTrimStart(s: Str)
    ensures |TrimStart(s)| == |s| <==> s == [] || !IsSpace(s[0])
  {
  }

  lemma TrimOf(s: Str)
    ensures Trim(s) == TrimEnd(TrimStart(s))
    ensures s == s[..|s| - |TrimStart(s)|] + TrimStart(s)
  {
    hide TrimStart, TrimEnd, IsSpace;
    TrimStartIsASuffix(s);
  }

  lemma LastUnit(lead: Str, t: Str)
    requires t != []
    ensures (lead + t)[|lead + t| - 1] == t[|t| - 1]
  {
  }

  lemma TrimmedEnds(s: Str)
    requires Trim(s) != []
    ensures s != [] && TrimStart(s) != [] && TrimEnd(s) != []
    ensures |Trim(s)| <= |TrimStart(s)| && |Trim(s)| <= |TrimEnd(s)|
    ensures |Trim(s)| == |TrimStart(s)| <==> !IsSpace(s[|s| - 1])
    ensures |Trim(s)| == |TrimEnd(s)| <==> !IsSpace(s[0])
    ensures !IsSpace(s[|s| - 1]) ==> Trim(s) == TrimStart(s)
    ensures !IsSpace(s[0]) ==> Trim(s) == TrimEnd(s)
  {
    hide *;
    var t := TrimStart(s);
    var lead := s[..|s| - |t|];
    TrimOf(s);
    LastUnit(lead, t);
    NothingToTrimEnd(t);
    TrimEndIsAPrefix(t);
    NothingToTrimStart(s);
    TrimEndBehind(lead, t);
    if !IsSpace(s[0]) { assert lead == []; }
  }

  /** The trimmed line is the trimmed halves with one space between them exactly if the space has no white space beside it. */
  lemma TrimmedHalves(a: Str, b: Str)
    requires Trim(a) != [] && Trim(b) != []
    ensures a != [] && b != []
    ensures |Trim(a + [SPACE] + b)| > |Trim(a)|
    ensures Trim(a + [SPACE] + b) == Trim(a) + [SPACE] + Trim(b) <==> !IsSpace(a[|a| - 1]) && !IsSpace(b[0])
    ensures Trim(a + [SPACE] + b) != Trim(a) + [SPACE] + Trim(b) ==> |Trim(a + [SPACE] + b)| > |Trim(a) + [SPACE] + Trim(b)|
  {
    hide Trim, TrimStart, TrimEnd, IsSpace;
    TrimmedEnds(a);
    TrimmedEnds(b);
    TrimmedJoin(a, b);
    var left, right := TrimStart(a), TrimEnd(b);
    assert |left + [SPACE] + right| == |left| + 1 + |right|;
    assert |Trim(a) + [SPACE] + Trim(b)| == |Trim(a)| + 1 + |Trim(b)|;
  }

  lemma TrimmedJoin(a: Str, b: Str)
    requires TrimStart(a) != [] && TrimEnd(b) != []
    ensures Trim(a + [SPACE] + b) == TrimStart(a) + [SPACE] + TrimEnd(b)
  {
    hide TrimStart, TrimEnd, IsSpace;
    TrimStartBefore(a, [SPACE] + b);
    assert a + [SPACE] + b == a + ([SPACE] + b);
    assert TrimStart(a) + ([SPACE] + b) == TrimStart(a) + [SPACE] + b;
    TrimEndBehind(TrimStart(a) + [SPACE], b);
  }

  // ---- Joining ----

  lemma {:induction false} RunOfConcatenation(j: Joining, x: seq<Piece>, y: seq<Piece>)
    ensures Run(j, x + y) == Run(Run(j, x), y)
    decreases |x|
  {
    if x == [] {
      assert x + y == y;
    } else {
      assert (x + y)[1..] == x[1..] + y;
      RunOfConcatenation(Advance(j, x[0]), x[1..], y);
    }
  }

  lemma {:induction false} OutputOnlyGrows(j: Joining, pieces: seq<Piece>)
    ensures |j.out| <= |Run(j, pieces).out| && Run(j, pieces).out[..|j.out|] == j.out
    decreases |pieces|
  {
    if pieces != [] {
      OutputOnlyGrows(Advance(j, pieces[0]), pieces[1..]);
      var r := Run(j, pieces).out;
      assert Advance(j, pieces[0]).out[..|j.out|] == j.out;
      assert r[..|Advance(j, pieces[0]).out|][..|j.out|] == r[..|j.out|];
    }
  }

  /** What the pieces that follow add to a line that is still open. */
  function Extra(pieces: seq<Piece>, depth: nat): nat {
    if pieces == [] then 0
    else
      var d := DepthAfter(pieces[0].masked, depth);
      1 + |pieces[0].text| + if d == 0 then 0 else Extra(pieces[1..], d)
  }

  /** The line being joined ends up in the output, at its place, with a length only its own text decides. */
  lemma {:induction false} OpenLineIsOutput(j: Joining, pieces: seq<Piece>)
    requires j.buf != []
    ensures var o := Output(Run(j, pieces)); |o| > |j.out| && |o[|j.out|]| == |j.buf| + Extra(pieces, j.depth)
    decreases |pieces|
  {
    if pieces != [] {
      var next := Advance(j, pieces[0]);
      if next.buf == [] {
        OutputOnlyGrows(next, pieces[1..]);
        var r := Run(j, pieces).out;
        assert r[..|next.out|][|j.out|] == r[|j.out|];
      } else {
        OpenLineIsOutput(next, pieces[1..]);
      }
    }
  }

  /** One line against the same line broken in two. */
  ghost predicate Broken(whole: Piece, first: Piece, second: Piece) {
    && first.text != [] && second.text != []
    && (forall d :: DepthAfter(whole.masked, d) == DepthAfter(second.masked, DepthAfter(first.masked, d)))
    && |whole.text| > |first.text|
    && (whole.text != first.text + [SPACE] + second.text ==> |whole.text| > |first.text + [SPACE] + second.text|)
  }

  lemma BreakingIsExact(j: Joining, whole: Piece, first: Piece, second: Piece, rest: seq<Piece>)
    requires Broken(whole, first, second)
    ensures Output(Run(Advance(j, whole), rest)) == Output(Run(Advance(Advance(j, first), second), rest))
       <==> DepthAfter(first.masked, j.depth) > 0 && whole.text == first.text + [SPACE] + second.text
  {
    hide Run, DepthAfter, Extra;
    var one, two := Advance(j, whole), Advance(Advance(j, first), second);
    var n := |j.out|;
    if DepthAfter(first.masked, j.depth) > 0 {
      assert Joined(Joined(j.buf, first.text), second.text) == Joined(j.buf, first.text + [SPACE] + second.text);
      if whole.text != first.text + [SPACE] + second.text {
        LinesDiffer(one, two, rest, n);
      }
    } else {
      LinesDiffer(one, two, rest, n);
    }
  }

  /** The text at place `n`, finished or still open. */
  function LineAt(j: Joining, n: nat): Str {
    if n < |j.out| then j.out[n] else j.buf
  }

  predicate HasLine(j: Joining, n: nat) {
    |j.out| > n || (|j.out| == n && j.buf != [])
  }

  /** Two runs over the same pieces never agree if one has the longer `n`-th line, and the other does not go on alone. */
  lemma LinesDiffer(one: Joining, two: Joining, rest: seq<Piece>, n: nat)
    requires HasLine(one, n) && HasLine(two, n)
    requires |LineAt(one, n)| > |LineAt(two, n)|
    requires |two.out| == n ==> |one.out| == n && one.depth == two.depth
    ensures Output(Run(one, rest)) != Output(Run(two, rest))
  {
    hide Run, Output, Extra;
    LineInOutput(one, rest, n);
    LineInOutput(two, rest, n);
  }

  lemma LineInOutput(j: Joining, rest: seq<Piece>, n: nat)
    requires HasLine(j, n)
    ensures var o := Output(Run(j, rest));
      |o| > n && |o[n]| == |LineAt(j, n)| + if |j.out| == n then Extra(rest, j.depth) else 0
  {
    hide Run, Extra;
    if |j.out| == n {
      OpenLineIsOutput(j, rest);
    } else {
      OutputOnlyGrows(j, rest);
      var r := Run(j, rest).out;
      assert r[..|j.out|][n] == r[n];
    }
  }

  // ---- Whole bodies ----

  lemma {:induction false} PiecesOfConcatenation(x: seq<Str>, y: seq<Str>)
    ensures Pieces(x + y) == Pieces(x) + Pieces(y)
  {
    hide PieceOf;
    if x == [] {
      assert x + y == y;
    } else {
      assert (x + y)[1..] == x[1..] + y;
      PiecesOfConcatenation(x[1..], y);
    }
  }

  function LastLine(s: Str): Str {
    var lines := Split(s, NEWLINE);
    lines[|lines| - 1]
  }

  function FirstLine(s: Str): Str {
    Split(s, NEWLINE)[0]
  }

  /** The last line of `x` and the first of `y` made one, with `u` between them. */
  function Spliced(x: seq<Str>, u: Unit, y: seq<Str>): (r: seq<Str>)
    requires x != [] && y != []
    ensures r != []
  {
    x[..|x| - 1] + [x[|x| - 1] + [u] + y[0]] + y[1..]
  }

  lemma SplicedBehindLine(z: seq<Str>, u: Unit, y: seq<Str>)
    requires z != [] && y != []
    ensures Spliced([[]] + z, u, y) == [[]] + Spliced(z, u, y)
  {
    var x := [[]] + z;
    assert x[..|x| - 1] == [[]] + z[..|z| - 1];
  }

  lemma SplicedBehindUnit(c: Unit, z: seq<Str>, u: Unit, y: seq<Str>)
    requires z != [] && y != []
    ensures Spliced([[c] + z[0]] + z[1..], u, y) == [[c] + Spliced(z, u, y)[0]] + Spliced(z, u, y)[1..]
  {
    var x := [[c] + z[0]] + z[1..];
    if |z| == 1 {
      assert [c] + (z[0] + [u] + y[0]) == [c] + z[0] + [u] + y[0];
    } else {
      assert x[..|x| - 1] == [[c] + z[0]] + z[1..|z| - 1];
      assert Spliced(z, u, y)[1..] == z[1..|z| - 1] + [z[|z| - 1] + [u] + y[0]] + y[1..];
    }
  }

  /** The lines of a text that goes on behind `u` in the same line. */
  lemma {:induction false} SplitOfConcatenation(p: Str, u: Unit, q: Str)
    requires u != NEWLINE
    ensures Split(p + [u] + q, NEWLINE) == Spliced(Split(p, NEWLINE), u, Split(q, NEWLINE))
    decreases |p|
  {
    hide Spliced;
    var s, y := p + [u] + q, Split(q, NEWLINE);
    if p == [] {
      assert s[1..] == q;
      SplicedOntoNothing(u, y);
    } else {
      assert s[0] == p[0] && s[1..] == p[1..] + [u] + q;
      SplitOfConcatenation(p[1..], u, q);
      var z := Split(p[1..], NEWLINE);
      if p[0] == NEWLINE {
        SplicedBehindLine(z, u, y);
      } else {
        SplicedBehindUnit(p[0], z, u, y);
      }
    }
  }

  lemma SplicedOntoNothing(u: Unit, y: seq<Str>)
    requires y != []
    ensures Spliced([[]], u, y) == [[u] + y[0]] + y[1..]
  {
    var none: Str := [];
    assert none + [u] + y[0] == [u] + y[0];
  }

  lemma {:induction false} SplitAtNewline(p: Str, q: Str)
    ensures Split(p + [NEWLINE] + q, NEWLINE) == Split(p, NEWLINE) + Split(q, NEWLINE)
    decreases |p|
  {
    var s := p + [NEWLINE] + q;
    if p == [] {
      assert s[1..] == q;
    } else {
      assert s[0] == p[0] && s[1..] == p[1..] + [NEWLINE] + q;
      SplitAtNewline(p[1..], q);
    }
  }

  /** How many brackets are open at the end of a text. */
  function OpenDepth(p: Str): nat {
    Run(START, Pieces(Split(p, NEWLINE))).depth
  }

  /** The space between `p` and `q` is outside strings and comments, with code on both sides of it in its line. */
  predicate BetweenCode(p: Str, q: Str) {
    && ScanEnd(LastLine(p), Code) == Code
    && Trim(LastLine(p)) != []
    && Trim(CodeOf(FirstLine(q), Code)) != []
  }

  lemma BrokenLine(a: Str, b: Str)
    requires ScanEnd(a, Code) == Code && Trim(a) != [] && Trim(CodeOf(b, Code)) != []
    ensures a != [] && b != []
    ensures Broken(PieceOf(a + [SPACE] + b), PieceOf(a), PieceOf(b))
    ensures PieceOf(a + [SPACE] + b).text == PieceOf(a).text + [SPACE] + PieceOf(b).text
       <==> !IsSpace(a[|a| - 1]) && !IsSpace(b[0])
  {
    hide DepthAfter, Masked, TrimStart, TrimEnd;
    ScanResumes(a, b, Code);
    TrimmedHalves(a, CodeOf(b, Code));
    assert b != [] && CodeOf(b, Code)[0] == b[0] by { CodeStartsTheLine(b); }
    forall d: nat ensures DepthAfter(Masked(a + [SPACE] + b, Code), d)
                       == DepthAfter(Masked(b, Code), DepthAfter(Masked(a, Code), d)) {
      BrokenDepth(a, b, d);
    }
  }

  lemma CodeStartsTheLine(b: Str)
    requires Trim(CodeOf(b, Code)) != []
    ensures b != [] && CodeOf(b, Code) != [] && CodeOf(b, Code)[0] == b[0]
  {
  }

  /**
    Replacing a space between code by a newline leaves the logical lines unchanged exactly when
    a bracket is open there and the space has no white space beside it.
   */
  lemma NewlineForSpaceIsExact(p: Str, q: Str)
    requires BetweenCode(p, q)
    ensures p != [] && q != []
    ensures LogicalLinesOf(p + [SPACE] + q) == LogicalLinesOf(p + [NEWLINE] + q)
       <==> OpenDepth(p) > 0 && !IsSpace(p[|p| - 1]) && !IsSpace(q[0])
  {
    hide Split, Trim, CodeOf, Masked, DepthAfter, ScanEnd, Run, Output, Advance;
    var x, y := Split(p, NEWLINE), Split(q, NEWLINE);
    var a, b := LastLine(p), FirstLine(q);
    var init, rest := x[..|x| - 1], y[1..];
    SplitOfConcatenation(p, SPACE, q);
    SplitAtNewline(p, q);
    assert x == init + [a] && y == [b] + rest;
    BrokenLine(a, b);
    LineEnds(p, q);
    var whole, first, second := PieceOf(a + [SPACE] + b), PieceOf(a), PieceOf(b);
    PlainCode(a);
    SpacedRun(init, a + [SPACE] + b, rest);
    BrokenRun(init, a, b, rest);
    assert x + y == init + [a] + [b] + rest;
    BreakingIsExact(Run(START, Pieces(init)), whole, first, second, Pieces(rest));
    LastDepth(init, a);
  }

  /** One line without quotes, slashes and newlines. */
  predicate IsPlainLine(s: Str) {
    forall u :: u in s ==> u != QUOTE && u != SLASH && u != NEWLINE
  }

  lemma {:induction false} PlainLineScans(s: Str)
    requires IsPlainLine(s)
    ensures ScanEnd(s, Code) == Code && CodeOf(s, Code) == s && Masked(s, Code) == s
  {
    if s != [] {
      assert s == [s[0]] + s[1..];
      assert s[0] in s && forall u :: u in s[1..] ==> u in s;
      PlainLineScans(s[1..]);
    }
  }

  /** A text that starts with something is not all white space. */
  lemma {:induction false} TrimEndKeepsTheStart(s: Str)
    requires s != [] && !IsSpace(s[0])
    ensures TrimEnd(s) != []
  {
    if IsSpace(s[|s| - 1]) { TrimEndKeepsTheStart(s[..|s| - 1]); }
  }

  lemma TrimKeepsTheStart(s: Str)
    requires s != [] && !IsSpace(s[0])
    ensures Trim(s) != []
  {
    TrimEndKeepsTheStart(s);
  }

  lemma PlainLineIsBetweenCode(p: Str, q: Str)
    requires IsPlainLine(p) && p != [] && !IsSpace(p[0])
    requires IsPlainLine(q) && q != [] && !IsSpace(q[0])
    ensures BetweenCode(p, q) && OpenDepth(p) == DepthAfter(p, 0)
  {
    hide Split, Trim, CodeOf, Masked, DepthAfter, ScanEnd, Run, Pieces;
    PlainLineScans(p);
    PlainLineScans(q);
    TrimKeepsTheStart(p);
    TrimKeepsTheStart(q);
    SplitWithoutSeparator(p, NEWLINE);
    SplitWithoutSeparator(q, NEWLINE);
    OnePiece(p);
    RunOne(START, PieceOf(p));
  }

  /** Concrete breaks that show: of "a b", where no bracket is open, and of "(a  b", between two spaces. */
  lemma BreaksThatShow()
    ensures var a: Str, b: Str := [0x61], [0x62];
      BetweenCode(a, b) && LogicalLinesOf(a + [SPACE] + b) != LogicalLinesOf(a + [NEWLINE] + b)
    ensures var p: Str, b: Str := [0x28, 0x61, SPACE], [0x62];
      BetweenCode(p, b) && OpenDepth(p) > 0 && LogicalLinesOf(p + [SPACE] + b) != LogicalLinesOf(p + [NEWLINE] + b)
  {
    hide BetweenCode, OpenDepth, LogicalLinesOf, Trim;
    var a: Str, b: Str, p: Str := [0x61], [0x62], [0x28, 0x61, SPACE];
    assert DepthAfter(a, 0) == 0;
    assert DepthAfter(p, 0) == 1 by {
      assert p[1..] == [0x61, SPACE] && p[1..][1..] == [SPACE];
      assert DepthAfter([SPACE], 1) == 1 && DepthAfter(p[1..], 1) == 1;
    }
    PlainLineIsBetweenCode(a, b);
    PlainLineIsBetweenCode(p, b);
    NewlineForSpaceIsExact(a, b);
    NewlineForSpaceIsExact(p, b);
  }

  lemma PlainCode(a: Str)
    requires ScanEnd(a, Code) == Code
    ensures CodeOf(a, Code) == a
  {
    ScanResumes(a, [], Code);
  }

  /** The last line ends as the text does, and the first one begins as it does. */
  lemma LineEnds(p: Str, q: Str)
    requires LastLine(p) != [] && FirstLine(q) != []
    ensures p != [] && q != [] && p[|p| - 1] == LastLine(p)[|LastLine(p)| - 1] && q[0] == FirstLine(q)[0]
  {
    LastLineEnds(p);
  }

  lemma {:induction false} LastLineEnds(p: Str)
    requires LastLine(p) != []
    ensures p != [] && p[|p| - 1] == LastLine(p)[|LastLine(p)| - 1]
  {
    if p != [] && LastLine(p[1..]) != [] {
      LastLineEnds(p[1..]);
    }
  }

  lemma OnePiece(line: Str)
    requires PieceOf(line).text != []
    ensures Pieces([line]) == [PieceOf(line)]
  {
    assert [line][1..] == [];
  }

  lemma RunOne(j: Joining, p: Piece)
    ensures Run(j, [p]) == Advance(j, p)
  {
    assert [p][1..] == [];
  }

  lemma SpacedRun(init: seq<Str>, line: Str, rest: seq<Str>)
    requires PieceOf(line).text != []
    ensures Run(START, Pieces(init + [line] + rest)) == Run(Advance(Run(START, Pieces(init)), PieceOf(line)), Pieces(rest))
  {
    hide PieceOf, Advance, Run, Pieces;
    PiecesOfConcatenation(init + [line], rest);
    PiecesOfConcatenation(init, [line]);
    OnePiece(line);
    RunOfConcatenation(START, Pieces(init) + [PieceOf(line)], Pieces(rest));
    RunOfConcatenation(START, Pieces(init), [PieceOf(line)]);
    RunOne(Run(START, Pieces(init)), PieceOf(line));
  }

  lemma BrokenRun(init: seq<Str>, a: Str, b: Str, rest: seq<Str>)
    requires PieceOf(a).text != [] && PieceOf(b).text != []
    ensures Run(START, Pieces(init + [a] + [b] + rest))
         == Run(Advance(Advance(Run(START, Pieces(init)), PieceOf(a)), PieceOf(b)), Pieces(rest))
  {
    hide PieceOf, Advance, Run, Pieces;
    SpacedRun(init + [a], b, rest);
    SpacedRun(init, a, []);
    assert init + [a] + [] == init + [a];
    NoPieces(Advance(Run(START, Pieces(init)), PieceOf(a)));
  }

  lemma NoPieces(j: Joining)
    ensures Run(j, Pieces([])) == j
  {
  }

  lemma LastDepth(init: seq<Str>, a: Str)
    requires PieceOf(a).text != []
    ensures (Run(START, Pieces(init + [a])).depth > 0) <==> DepthAfter(PieceOf(a).masked, Run(START, Pieces(init)).depth) > 0
  {
    hide PieceOf, Run, Pieces, DepthAfter;
    SpacedRun(init, a, []);
    assert init + [a] + [] == init + [a];
    NoPieces(Advance(Run(START, Pieces(init)), PieceOf(a)));
  }
}
