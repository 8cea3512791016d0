/** What joining does to the lines: it cuts them, in order, wherever all brackets are closed, and nowhere else. */
module LogicalLineGroups {
  import opened Text
  import opened LogicalLines

  /** The bracket depth a run of lines reaches from none. */
  function DepthOf(group: seq<Piece>): nat {
    if group == [] then 0 else DepthAfter(group[|group| - 1].masked, DepthOf(group[..|group| - 1]))
  }

  /** Open after every line but the last, where all brackets close. */
  predicate Closes(group: seq<Piece>) {
    group != [] && DepthOf(group) == 0 && forall k :: 0 < k < |group| ==> DepthOf(group[..k]) > 0
  }

  /** Lines whose brackets never all close. */
  predicate StaysOpen(group: seq<Piece>) {
    forall k :: 0 < k <= |group| ==> DepthOf(group[..k]) > 0
  }

  function Concat(groups: seq<seq<Piece>>): seq<Piece> {
    if groups == [] then [] else groups[0] + Concat(groups[1..])
  }

  /** The pieces cut in order into groups that close, but for a last one that may stay open. */
  predicate IsGrouping(pieces: seq<Piece>, groups: seq<seq<Piece>>) {
    && Concat(groups) == pieces
    && (forall i :: 0 <= i < |groups| ==> groups[i] != [])
    && (forall i :: 0 <= i < |groups| ==> Closes(groups[i]) || (i == |groups| - 1 && StaysOpen(groups[i])))
  }

  /** One logical line: the group's texts with single spaces between them. */
  function TextOf(group: seq<Piece>): Str {
    if group == [] then [] else Joined(TextOf(group[..|group| - 1]), group[|group| - 1].text)
  }

  function TextsOf(groups: seq<seq<Piece>>): (r: seq<Str>)
    ensures |r| == |groups|
  {
    seq(|groups|, i requires 0 <= i < |groups| => TextOf(groups[i]))
  }

  function AllPieces(groups: seq<seq<Piece>>, open: seq<Piece>): seq<Piece> {
    Concat(groups) + open
  }

  lemma {:induction false} ConcatAppended(groups: seq<seq<Piece>>, g: seq<Piece>)
    ensures Concat(groups + [g]) == Concat(groups) + g
  {
    if groups == [] {
      assert Concat([g]) == g + Concat([g][1..]);
    } else {
      ConcatAppended(groups[1..], g);
      assert (groups + [g])[1..] == groups[1..] + [g];
    }
  }

  lemma LongerGroup(open: seq<Piece>, p: Piece)
    requires StaysOpen(open)
    ensures var g := open + [p];
      && DepthOf(g) == DepthAfter(p.masked, DepthOf(open))
      && TextOf(g) == Joined(TextOf(open), p.text)
      && (DepthOf(g) == 0 ==> Closes(g))
      && (DepthOf(g) > 0 ==> StaysOpen(g))
  {
    var g := open + [p];
    assert g[..|g| - 1] == open;
    assert g[..|g|] == g;
    forall k | 0 < k < |g| ensures DepthOf(g[..k]) > 0 {
      assert g[..k] == open[..k];
    }
  }

  /** A joining state with the groups it stands for. */
  predicate Stands(j: Joining, groups: seq<seq<Piece>>, open: seq<Piece>) {
    && j.out == TextsOf(groups) && j.buf == TextOf(open) && j.depth == DepthOf(open)
    && StaysOpen(open)
    && (forall g :: g in groups ==> Closes(g))
  }

  lemma {:induction false} JoiningGroups(j: Joining, groups: seq<seq<Piece>>, open: seq<Piece>, pieces: seq<Piece>)
    returns (groups': seq<seq<Piece>>, open': seq<Piece>)
    requires Stands(j, groups, open)
    ensures Stands(Run(j, pieces), groups', open')
    ensures AllPieces(groups', open') == AllPieces(groups, open) + pieces
    decreases |pieces|
  {
    if pieces == [] {
      groups', open' := groups, open;
    } else {
      var p := pieces[0];
      var g := open + [p];
      LongerGroup(open, p);
      assert pieces == [p] + pieces[1..];
      if DepthOf(g) == 0 {
        ConcatAppended(groups, g);
        assert TextsOf(groups + [g]) == TextsOf(groups) + [TextOf(g)];
        groups', open' := JoiningGroups(Advance(j, p), groups + [g], [], pieces[1..]);
      } else {
        groups', open' := JoiningGroups(Advance(j, p), groups, g, pieces[1..]);
      }
    }
  }

  lemma {:induction false} TextIsNotEmpty(group: seq<Piece>)
    requires group != [] && forall p :: p in group ==> p.text != []
    ensures TextOf(group) != []
  {
    assert group[|group| - 1] in group;
  }

  /** The logical lines are the texts of a grouping of the lines with code on them. */
  lemma LogicalLinesPartitionTheCode(body: Str) returns (groups: seq<seq<Piece>>)
    ensures IsGrouping(Pieces(Split(body, NEWLINE)), groups)
    ensures LogicalLinesOf(body) == TextsOf(groups)
  {
    hide Split, Run, DepthAfter, Closes, StaysOpen, Stands;
    var pieces := Pieces(Split(body, NEWLINE));
    NothingJoined();
    var closed, open := JoiningGroups(START, [], [], pieces);
    assert AllPieces(closed, open) == pieces;
    groups := if open == [] then closed else closed + [open];
    FinishedGroups(Run(START, pieces), closed, open, pieces);
  }

  lemma NothingJoined()
    ensures Stands(START, [], []) && AllPieces([], []) == []
  {
  }

  lemma FinishedGroups(j: Joining, closed: seq<seq<Piece>>, open: seq<Piece>, pieces: seq<Piece>)
    requires Stands(j, closed, open) && AllPieces(closed, open) == pieces
    requires forall p :: p in pieces ==> p.text != []
    ensures var groups := if open == [] then closed else closed + [open];
      IsGrouping(pieces, groups) && Output(j) == TextsOf(groups)
  {
    hide DepthAfter, Closes, StaysOpen, TextOf;
    var groups := if open == [] then closed else closed + [open];
    ConcatAppended(closed, open);
    forall i | 0 <= i < |groups| ensures groups[i] != [] {
      if i < |closed| { assert groups[i] in closed; CloseMeansNonempty(groups[i]); }
    }
    forall i | 0 <= i < |groups| ensures Closes(groups[i]) || (i == |groups| - 1 && StaysOpen(groups[i])) {
      if i < |closed| { assert groups[i] in closed; }
    }
    if open != [] {
      forall p | p in open ensures p.text != [] { assert p in pieces; }
      TextIsNotEmpty(open);
      assert TextsOf(closed + [open]) == TextsOf(closed) + [TextOf(open)];
    } else {
      NoText();
    }
  }

  lemma NoText()
    ensures TextOf([]) == []
  {
  }

  lemma CloseMeansNonempty(g: seq<Piece>)
    requires Closes(g)
    ensures g != []
  {
  }

  /** There is only one such grouping, so the cuts are forced. */
  lemma {:induction false} GroupingIsUnique(pieces: seq<Piece>, a: seq<seq<Piece>>, b: seq<seq<Piece>>)
    requires IsGrouping(pieces, a) && IsGrouping(pieces, b)
    ensures a == b
    decreases |a|
  {
    hide DepthOf;
    if a != [] && b != [] {
      SameFirstGroup(pieces, a, b);
      assert pieces[|a[0]|..] == Concat(a[1..]) && pieces[|a[0]|..] == Concat(b[1..]);
      RestIsGrouping(pieces, a);
      RestIsGrouping(pieces, b);
      GroupingIsUnique(pieces[|a[0]|..], a[1..], b[1..]);
      assert a == [a[0]] + a[1..] && b == [b[0]] + b[1..];
    }
  }

  lemma RestIsGrouping(pieces: seq<Piece>, a: seq<seq<Piece>>)
    requires IsGrouping(pieces, a) && a != []
    ensures |a[0]| <= |pieces| && IsGrouping(pieces[|a[0]|..], a[1..])
  {
    hide DepthOf, Closes, StaysOpen;
    assert pieces == a[0] + Concat(a[1..]);
    assert pieces[|a[0]|..] == Concat(a[1..]);
    forall i | 0 <= i < |a[1..]| ensures a[1..][i] != [] && (Closes(a[1..][i]) || (i == |a[1..]| - 1 && StaysOpen(a[1..][i]))) {
      assert a[1..][i] == a[i + 1];
    }
  }

  lemma SameFirstGroup(pieces: seq<Piece>, a: seq<seq<Piece>>, b: seq<seq<Piece>>)
    requires IsGrouping(pieces, a) && IsGrouping(pieces, b) && a != [] && b != []
    ensures a[0] == b[0]
  {
    FirstGroupIsNoShorter(pieces, a, b);
    FirstGroupIsNoShorter(pieces, b, a);
    assert a[0] == pieces[..|a[0]|] && b[0] == pieces[..|b[0]|];
  }

  lemma FirstGroupIsNoShorter(pieces: seq<Piece>, a: seq<seq<Piece>>, b: seq<seq<Piece>>)
    requires IsGrouping(pieces, a) && IsGrouping(pieces, b) && a != [] && b != []
    ensures |a[0]| >= |b[0]|
  {
    hide DepthOf;
    assert a[0] == pieces[..|a[0]|] && b[0] == pieces[..|b[0]|];
    assert |a[0]| <= |b[0]| ==> b[0][..|a[0]|] == a[0];
    assert |a| == 1 ==> Concat(a[1..]) == [];
  }
}
