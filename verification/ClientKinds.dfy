/** The type walk of the run-ops guard: which database clients a type can be, over a type graph with cycles. */
module ClientKinds {

  /** The client a declaration file belongs to. */
  datatype Client = ControlPlane | RunOps

  datatype ClientKind = Cp | Ops | Other

  /** A union or an intersection of types, or a type with the clients its declarations belong to, where they belong to one. */
  datatype Type = Compound(members: seq<nat>) | Plain(declarations: seq<Client>)

  type Graph = g: map<nat, Type> | IsClosed(g) witness map[]

  predicate IsClosed(g: map<nat, Type>) {
    forall t :: t in g && g[t].Compound? ==> forall m :: m in g[t].members ==> m in g
  }

  function Members(g: Graph, t: nat): seq<nat> {
    if t in g && g[t].Compound? then g[t].members else []
  }

  function ClientsOf(g: Graph, t: nat): set<Client> {
    if t in g && g[t].Plain? then set c | c in g[t].declarations else {}
  }

  function ClientsOfAll(g: Graph, nodes: set<nat>): set<Client> {
    set t, c | t in nodes && c in ClientsOf(g, t) :: c
  }

  /** A path through union and intersection members. */
  predicate IsPath(g: Graph, path: seq<nat>) {
    forall i :: 0 <= i < |path| - 1 ==> path[i + 1] in Members(g, path[i])
  }

  predicate Connects(g: Graph, path: seq<nat>, from: nat, to: nat) {
    path != [] && path[0] == from && path[|path| - 1] == to && IsPath(g, path)
  }

  ghost predicate Reaches(g: Graph, from: nat, to: nat) {
    exists path :: Connects(g, path, from, to)
  }

  lemma ReachesItself(g: Graph, t: nat)
    ensures Reaches(g, t, t)
  {
    assert Connects(g, [t], t, t);
  }

  lemma ReachesThroughMember(g: Graph, t: nat, m: nat, n: nat)
    requires m in Members(g, t) && Reaches(g, m, n)
    ensures Reaches(g, t, n)
  {
    var path :| Connects(g, path, m, n);
    var longer := [t] + path;
    forall i | 0 <= i < |longer| - 1 ensures longer[i + 1] in Members(g, longer[i]) {
      if i > 0 { assert path[i - 1 + 1] in Members(g, path[i - 1]); }
    }
    assert Connects(g, longer, t, n);
  }

  predicate MembersIn(g: Graph, t: nat, nodes: set<nat>) {
    forall m :: m in Members(g, t) ==> m in nodes
  }

  /** A set that holds the members of all its types holds whatever they reach. */
  lemma {:induction false} ClosedSetsHoldPaths(g: Graph, nodes: set<nat>, path: seq<nat>)
    requires forall t :: t in nodes ==> MembersIn(g, t, nodes)
    requires path != [] && path[0] in nodes && IsPath(g, path)
    ensures path[|path| - 1] in nodes
    decreases |path|
  {
    if |path| > 1 {
      assert path[0 + 1] in Members(g, path[0]);
      assert MembersIn(g, path[0], nodes);
      var rest := path[1..];
      forall i | 0 <= i < |rest| - 1 ensures rest[i + 1] in Members(g, rest[i]) {
        assert path[i + 1 + 1] in Members(g, path[i + 1]);
      }
      ClosedSetsHoldPaths(g, nodes, rest);
    }
  }

  /** What one call of the walk saw: only types it can reach, whole, and it returns what they are. */
  ghost predicate Explored(g: Graph, t: nat, before: set<nat>, after: set<nat>, out: set<Client>) {
    && before <= after <= before + g.Keys
    && t in after
    && (forall n :: n in after - before ==> Reaches(g, t, n) && MembersIn(g, n, after))
    && out == ClientsOfAll(g, after - before)
  }

  /** The same while the members of `t` are being walked. */
  ghost predicate Exploring(g: Graph, t: nat, before: set<nat>, after: set<nat>, out: set<Client>) {
    && before <= after <= before + g.Keys
    && t in after && t !in before
    && (forall n :: n in after - before ==> Reaches(g, t, n) && (n != t ==> MembersIn(g, n, after)))
    && out == ClientsOfAll(g, after - before)
  }

  lemma ExploringStarts(g: Graph, t: nat, before: set<nat>)
    requires t in g && t !in before
    ensures Exploring(g, t, before, before + {t}, ClientsOf(g, t))
  {
    ReachesItself(g, t);
    assert before + {t} - before == {t};
  }

  lemma ExploredOneMember(g: Graph, t: nat, m: nat, before: set<nat>, middle: set<nat>, after: set<nat>, out: set<Client>, more: set<Client>)
    requires m in Members(g, t)
    requires Exploring(g, t, before, middle, out) && Explored(g, m, middle, after, more)
    ensures Exploring(g, t, before, after, out + more)
  {
    forall n | n in after - before ensures Reaches(g, t, n) && (n != t ==> MembersIn(g, n, after)) {
      if n in middle {
        assert n in middle - before;
        assert n != t ==> MembersIn(g, n, middle);
      } else {
        assert n in after - middle;
        ReachesThroughMember(g, t, m, n);
      }
    }
    assert after - before == (middle - before) + (after - middle);
  }

  lemma ExploringEnds(g: Graph, t: nat, before: set<nat>, after: set<nat>, out: set<Client>)
    requires Exploring(g, t, before, after, out) && MembersIn(g, t, after)
    ensures Explored(g, t, before, after, out)
  {
  }

  class Walk {
    var seen: set<nat>

    constructor ()
      ensures seen == {}
    {
      seen := {};
    }

    /** `collectKinds`: one visited set for the whole walk. */
    method CollectKinds(g: Graph, t: nat) returns (out: set<Client>)
      requires t in g && seen <= g.Keys
      modifies this
      ensures t in old(seen) ==> seen == old(seen) && out == {}
      ensures t !in old(seen) ==> Explored(g, t, old(seen), seen, out)
      ensures old(seen) <= seen <= g.Keys && t in seen
      decreases g.Keys - seen
    {
      hide Exploring, Explored;
      out := {};
      if t in seen { return; }
      ghost var before := seen;
      seen := seen + {t};
      ExploringStarts(g, t, before);
      if g[t].Compound? {
        var types := g[t].members;
        for i := 0 to |types|
          invariant Exploring(g, t, before, seen, out)
          invariant before + {t} <= seen <= g.Keys
          invariant forall j :: 0 <= j < i ==> types[j] in seen
        {
          ghost var middle, sofar := seen, out;
          var kinds := CollectKinds(g, types[i]);
          if types[i] !in middle {
            ExploredOneMember(g, t, types[i], before, middle, seen, sofar, kinds);
          } else {
            assert out + kinds == sofar;
          }
          out := out + kinds;
        }
        ExploringEnds(g, t, before, seen, out);
      } else {
        out := set c | c in g[t].declarations;
        ExploringEnds(g, t, before, seen, out);
      }
    }
  }

  /** Some reachable type is declared in that client's package. */
  ghost predicate CanBe(g: Graph, t: nat, c: Client) {
    exists n :: Reaches(g, t, n) && c in ClientsOf(g, n)
  }

  /** From an empty visited set the walk finds exactly the clients of the reachable types. */
  lemma WalkIsExact(g: Graph, t: nat, seen: set<nat>, out: set<Client>)
    requires Explored(g, t, {}, seen, out)
    ensures forall c :: c in out <==> CanBe(g, t, c)
  {
    forall c ensures c in out <==> CanBe(g, t, c) {
      if c in out {
        var n :| n in seen - {} && c in ClientsOf(g, n);
        assert Reaches(g, t, n);
      }
      if CanBe(g, t, c) {
        var n :| Reaches(g, t, n) && c in ClientsOf(g, n);
        var path :| Connects(g, path, t, n);
        forall x | x in seen ensures MembersIn(g, x, seen) { assert x in seen - {}; }
        ClosedSetsHoldPaths(g, seen, path);
        assert n in seen - {};
      }
    }
  }

  /** `classifyType`: any control-plane leg decides, then any run-ops leg. */
  method ClassifyType(g: Graph, t: nat) returns (kind: ClientKind)
    requires t in g
    ensures kind == Cp <==> CanBe(g, t, ControlPlane)
    ensures kind == Ops <==> CanBe(g, t, RunOps) && !CanBe(g, t, ControlPlane)
  {
    hide Explored, CanBe;
    var walk := new Walk();
    var kinds := walk.CollectKinds(g, t);
    WalkIsExact(g, t, walk.seen, kinds);
    if ControlPlane in kinds { return Cp; }
    if RunOps in kinds { return Ops; }
    kind := Other;
  }
}
