/** Whether an expression is one of the legacy database handles, followed through aliases and transaction callbacks. */
module LegacyHandle {

  /**
    Syntax tree nodes by number. `Cast` stands for `as`, `satisfies` and non-null; an identifier knows
    the declaration it resolves to.
   */
  datatype Kind =
    | Parenthesized(inner: nat)
    | Cast(inner: nat)
    | Identifier(text: string, declaration: int)
    | Variable(initializer: int)
    | Parameter
    | FunctionLike
    | Call(callee: string, arguments: seq<nat>)
    | Opaque

  const NONE := -1

  datatype Node = Node(kind: Kind, parent: int)

  /** Nodes are numbered from the root down: a parent before its children, so wrappers before what they wrap. */
  predicate IsTree(g: seq<Node>) {
    forall n :: 0 <= n < |g| ==>
      && (g[n].parent == NONE || 0 <= g[n].parent < n)
      && (Wraps(g[n].kind) ==> n < g[n].kind.inner < |g|)
      && (g[n].kind.Identifier? ==> g[n].kind.declaration == NONE || 0 <= g[n].kind.declaration < |g|)
      && (g[n].kind.Variable? ==> g[n].kind.initializer == NONE || 0 <= g[n].kind.initializer < |g|)
      && (g[n].kind.Call? ==> forall a :: a in g[n].kind.arguments ==> a < |g|)
  }

  predicate Wraps(k: Kind) {
    k.Parenthesized? || k.Cast?
  }

  type Tree = g: seq<Node> | IsTree(g) witness []

  const LEGACY_HANDLE_NAMES: set<string> := {"runOpsLegacyPrisma", "runOpsLegacyReplica"}
  const TX_ORIGIN_FNS: set<string> := {"$transaction", "runInTransaction"}

  // ---- One link of the chain ----

  function Unwrapped(g: Tree, n: nat): (r: nat)
    requires n < |g|
    ensures n <= r < |g| && !Wraps(g[r].kind)
    decreases |g| - n
  {
    if Wraps(g[n].kind) then Unwrapped(g, g[n].kind.inner) else n
  }

  /** The outermost of the parentheses around a node. */
  function Container(g: Tree, n: nat): (r: nat)
    requires n < |g|
    ensures r <= n
    ensures g[r].parent != NONE ==> !g[g[r].parent].kind.Parenthesized?
    decreases n
  {
    if g[n].parent != NONE && g[g[n].parent].kind.Parenthesized? then Container(g, g[n].parent) else n
  }

  /** Where the chain goes from a node: to an end, or on to another expression. */
  datatype Link = Legacy | NotLegacy | Follow(next: nat)

  /** A callback's parameter stands for the first argument of the transaction call it is handed to. */
  function OriginLink(g: Tree, parameter: nat): (r: Link)
    requires parameter < |g|
    ensures r.Follow? ==> r.next < |g|
  {
    var fn := g[parameter].parent;
    if fn == NONE || !g[fn].kind.FunctionLike? then NotLegacy
    else
      var container := Container(g, fn);
      var call := g[container].parent;
      if call == NONE || !g[call].kind.Call? || container !in g[call].kind.arguments then NotLegacy
      else if g[call].kind.callee !in TX_ORIGIN_FNS then NotLegacy
      else
        assert g[call].kind.arguments[0] in g[call].kind.arguments;
        Follow(g[call].kind.arguments[0])
  }

  function LinkOf(g: Tree, n: nat): (r: Link)
    requires n < |g|
    ensures r.Follow? ==> r.next < |g|
  {
    var e := g[Unwrapped(g, n)].kind;
    if !e.Identifier? then NotLegacy
    else if e.text in LEGACY_HANDLE_NAMES then Legacy
    else if e.declaration == NONE then NotLegacy
    else
      var d := g[e.declaration].kind;
      if d.Variable? && d.initializer != NONE then Follow(d.initializer)
      else if d.Parameter? then OriginLink(g, e.declaration)
      else NotLegacy
  }

  // ---- The whole chain ----

  /** After `k` links the chain ends at a legacy handle. */
  predicate LegacyAfter(g: Tree, n: nat, k: nat)
    requires n < |g|
    decreases k
  {
    match LinkOf(g, n)
    case Legacy => k == 0
    case NotLegacy => false
    case Follow(m) => k > 0 && LegacyAfter(g, m, k - 1)
  }

  /** `k` links lead from one node to the other. */
  predicate LeadsTo(g: Tree, from: nat, to: nat, k: nat)
    requires from < |g|
    decreases k
  {
    if k == 0 then from == to
    else LinkOf(g, from).Follow? && LeadsTo(g, LinkOf(g, from).next, to, k - 1)
  }

  ghost predicate IsLegacyHandle(g: Tree, n: nat)
    requires n < |g|
  {
    exists k: nat :: LegacyAfter(g, n, k)
  }

  lemma {:induction false} ChainContinues(g: Tree, from: nat, to: nat, j: nat, k: nat)
    requires from < |g| && to < |g| && LeadsTo(g, from, to, j) && LegacyAfter(g, from, k)
    ensures j <= k && LegacyAfter(g, to, k - j)
    decreases j
  {
    if j > 0 {
      ChainContinues(g, LinkOf(g, from).next, to, j - 1, k - 1);
    }
  }

  /** A chain that comes back to a node never ends at a handle. */
  lemma {:induction false} CyclesHaveNoHandle(g: Tree, n: nat, j: nat, k: nat)
    requires n < |g| && j > 0 && LeadsTo(g, n, n, j)
    ensures !LegacyAfter(g, n, k)
    decreases k
  {
    if LegacyAfter(g, n, k) {
      ChainContinues(g, n, n, j, k);
      CyclesHaveNoHandle(g, n, j, k - j);
    }
  }

  lemma {:induction false} OneMoreLink(g: Tree, from: nat, n: nat, k: nat)
    requires from < |g| && n < |g| && LeadsTo(g, from, n, k) && LinkOf(g, n).Follow?
    ensures LeadsTo(g, from, LinkOf(g, n).next, k + 1)
    decreases k
  {
    if k > 0 {
      OneMoreLink(g, LinkOf(g, from).next, n, k - 1);
    }
  }

  lemma FollowedHandle(g: Tree, n: nat)
    requires n < |g| && LinkOf(g, n).Follow?
    ensures IsLegacyHandle(g, n) <==> IsLegacyHandle(g, LinkOf(g, n).next)
  {
    var m := LinkOf(g, n).next;
    if IsLegacyHandle(g, n) {
      var k: nat :| LegacyAfter(g, n, k);
      assert LegacyAfter(g, m, k - 1);
    }
    if IsLegacyHandle(g, m) {
      var k: nat :| LegacyAfter(g, m, k);
      assert LegacyAfter(g, n, k + 1);
    }
  }

  ghost predicate LeadsBack(g: Tree, v: nat, n: nat) {
    v < |g| && exists k: nat :: k > 0 && LeadsTo(g, v, n, k)
  }

  /** Every visited node led here. */
  ghost predicate Trail(g: Tree, seen: set<nat>, n: nat) {
    forall v :: v in seen ==> LeadsBack(g, v, n)
  }

  lemma TrailGoesOn(g: Tree, seen: set<nat>, n: nat)
    requires n < |g| && Trail(g, seen, n) && LinkOf(g, n).Follow?
    ensures Trail(g, seen + {n}, LinkOf(g, n).next)
  {
    var m := LinkOf(g, n).next;
    forall v | v in seen + {n} ensures LeadsBack(g, v, m) {
      if v in seen {
        assert LeadsBack(g, v, n);
        var k: nat :| k > 0 && LeadsTo(g, v, n, k);
        OneMoreLink(g, v, n, k);
      } else {
        assert LeadsTo(g, m, m, 0);
        assert LeadsTo(g, n, m, 1);
      }
    }
  }

  lemma VisitedIsNoHandle(g: Tree, seen: set<nat>, n: nat)
    requires n < |g| && Trail(g, seen, n) && n in seen
    ensures !IsLegacyHandle(g, n)
  {
    assert LeadsBack(g, n, n);
    var j: nat :| j > 0 && LeadsTo(g, n, n, j);
    forall k: nat ensures !LegacyAfter(g, n, k) { CyclesHaveNoHandle(g, n, j, k); }
  }

  predicate IsNode(g: Tree, n: nat) {
    n < |g|
  }

  function Unvisited(g: Tree, seen: set<nat>): set<nat> {
    set n: nat | n < |g| && IsNode(g, n) && n !in seen
  }

  class LegacyWalk {
    var seen: set<nat>

    constructor ()
      ensures seen == {}
    {
      seen := {};
    }

    /** `receiverIsLegacyHandle`. */
    method ReceiverIsLegacyHandle(g: Tree, node: nat) returns (r: bool)
      requires node < |g| && Trail(g, seen, node)
      modifies this
      ensures r <==> IsLegacyHandle(g, node)
      decreases Unvisited(g, seen), 0
    {
      hide Trail, IsLegacyHandle;
      if node in seen {
        VisitedIsNoHandle(g, seen, node);
        return false;
      }
      ghost var before := seen;
      seen := seen + {node};
      var e := node;
      while Wraps(g[e].kind)
        invariant e < |g| && Unwrapped(g, e) == Unwrapped(g, node)
        decreases |g| - e
      {
        e := g[e].kind.inner;
      }
      LinkDecides(g, node);
      var k := g[e].kind;
      if !k.Identifier? { return false; }
      if k.text in LEGACY_HANDLE_NAMES { return true; }
      if k.declaration != NONE {
        var declaration := g[k.declaration].kind;
        if declaration.Variable? && declaration.initializer != NONE {
          TrailGoesOn(g, before, node);
          assert node in Unvisited(g, before) && node !in Unvisited(g, seen);
          r := ReceiverIsLegacyHandle(g, declaration.initializer);
          return;
        }
        if declaration.Parameter? {
          if LinkOf(g, node).Follow? { TrailGoesOn(g, before, node); }
          assert node in Unvisited(g, before) && node !in Unvisited(g, seen);
          r := TxParamOriginIsLegacy(g, k.declaration);
          return;
        }
      }
      r := false;
    }

    /** `txParamOriginIsLegacy`. */
    method TxParamOriginIsLegacy(g: Tree, parameter: nat) returns (r: bool)
      requires parameter < |g|
      requires OriginLink(g, parameter).Follow? ==> Trail(g, seen, OriginLink(g, parameter).next)
      modifies this
      ensures r <==> OriginLink(g, parameter).Follow? && IsLegacyHandle(g, OriginLink(g, parameter).next)
      decreases Unvisited(g, seen), 1
    {
      hide Trail, IsLegacyHandle;
      var fn := g[parameter].parent;
      if fn == NONE || !g[fn].kind.FunctionLike? { return false; }
      var container := fn;
      while g[container].parent != NONE && g[g[container].parent].kind.Parenthesized?
        invariant 0 <= container < |g| && Container(g, container) == Container(g, fn)
        decreases container
      {
        container := g[container].parent;
      }
      var call := g[container].parent;
      if call == NONE || !g[call].kind.Call? { return false; }
      if container !in g[call].kind.arguments { return false; }
      if g[call].kind.callee !in TX_ORIGIN_FNS { return false; }
      r := ReceiverIsLegacyHandle(g, g[call].kind.arguments[0]);
    }
  }

  lemma LinkDecides(g: Tree, n: nat)
    requires n < |g|
    ensures LinkOf(g, n) == Legacy ==> IsLegacyHandle(g, n)
    ensures LinkOf(g, n) == NotLegacy ==> !IsLegacyHandle(g, n)
    ensures LinkOf(g, n).Follow? ==> (IsLegacyHandle(g, n) <==> IsLegacyHandle(g, LinkOf(g, n).next))
  {
    match LinkOf(g, n) {
      case Legacy => assert LegacyAfter(g, n, 0);
      case NotLegacy => {}
      case Follow(_) => FollowedHandle(g, n);
    }
  }

  /** From a clean start the walk is true exactly when the chain of aliases and transactions ends at a legacy handle. */
  method IsLegacy(g: Tree, node: nat) returns (r: bool)
    requires node < |g|
    ensures r <==> IsLegacyHandle(g, node)
  {
    var walk := new LegacyWalk();
    assert Trail(g, walk.seen, node);
    r := walk.ReceiverIsLegacyHandle(g, node);
  }

  // ---- The property by its equations ----

  /** Parentheses, casts and non-null marks do not matter. */
  lemma WrappersAreTransparent(g: Tree, n: nat)
    requires n < |g| && (g[n].kind.Parenthesized? || g[n].kind.Cast?)
    ensures IsLegacyHandle(g, n) <==> IsLegacyHandle(g, g[n].kind.inner)
  {
    var m := g[n].kind.inner;
    assert LinkOf(g, n) == LinkOf(g, m);
    forall k: nat ensures LegacyAfter(g, n, k) <==> LegacyAfter(g, m, k) {}
  }

  /** An identifier of one of the two names is a handle; no other expression is one by itself. */
  lemma NamesDecide(g: Tree, n: nat)
    requires n < |g|
    ensures g[n].kind.Identifier? && g[n].kind.text in {"runOpsLegacyPrisma", "runOpsLegacyReplica"} ==> IsLegacyHandle(g, n)
    ensures g[n].kind.Variable? || g[n].kind.Parameter? || g[n].kind.FunctionLike? || g[n].kind.Call? || g[n].kind.Opaque? ==> !IsLegacyHandle(g, n)
    ensures g[n].kind.Identifier? && g[n].kind.text !in {"runOpsLegacyPrisma", "runOpsLegacyReplica"} && g[n].kind.declaration == -1 ==>
      !IsLegacyHandle(g, n)
  {
    LinkDecides(g, n);
  }

  /** An alias is what its initializer is. */
  lemma AliasesAreTransparent(g: Tree, n: nat)
    requires n < |g| && g[n].kind.Identifier? && g[n].kind.text !in {"runOpsLegacyPrisma", "runOpsLegacyReplica"}
    requires g[n].kind.declaration != -1 && g[g[n].kind.declaration].kind.Variable?
    ensures var initializer := g[g[n].kind.declaration].kind.initializer;
      IsLegacyHandle(g, n) <==> initializer != -1 && IsLegacyHandle(g, initializer)
  {
    hide IsLegacyHandle;
    LinkDecides(g, n);
  }

  /** The parameter is that of a function which, in however many parentheses, is an argument of the call. */
  predicate IsCallbackOf(g: Tree, parameter: nat, fn: nat, container: nat, call: nat) {
    && parameter < |g| && fn < |g| && container < |g| && call < |g|
    && g[parameter].kind.Parameter? && g[parameter].parent == fn && g[fn].kind.FunctionLike?
    && Encloses(g, fn, container) && g[container].parent == call
    && g[call].kind.Call? && container in g[call].kind.arguments
  }

  function FirstArgument(g: Tree, call: nat): (r: nat)
    requires call < |g| && g[call].kind.Call? && g[call].kind.arguments != []
    ensures r < |g|
  {
    assert g[call].kind.arguments[0] in g[call].kind.arguments;
    g[call].kind.arguments[0]
  }

  /** Going up from `fn` through parentheses alone leads to `container`. */
  predicate Encloses(g: Tree, fn: nat, container: nat)
    requires fn < |g| && container < |g|
    decreases fn
  {
    container == fn
    || (g[fn].parent != -1 && g[g[fn].parent].kind.Parenthesized? && Encloses(g, g[fn].parent, container))
  }

  lemma {:induction false} EnclosesExactly(g: Tree, fn: nat, container: nat)
    requires fn < |g| && container < |g| && Encloses(g, fn, container)
    requires g[container].parent != -1 ==> !g[g[container].parent].kind.Parenthesized?
    ensures container == Container(g, fn)
    decreases fn
  {
    if container != fn { EnclosesExactly(g, g[fn].parent, container); }
  }

  /**
    A parameter of a callback that is handed to a call is what the call's first argument is,
    exactly if the call is one of the two that open a transaction.
   */
  lemma TransactionParametersFollowTheirClient(g: Tree, n: nat, fn: nat, container: nat, call: nat)
    requires n < |g| && g[n].kind.Identifier? && g[n].kind.text !in {"runOpsLegacyPrisma", "runOpsLegacyReplica"}
    requires g[n].kind.declaration != -1 && IsCallbackOf(g, g[n].kind.declaration, fn, container, call)
    ensures IsLegacyHandle(g, n) <==>
      g[call].kind.callee in {"$transaction", "runInTransaction"} && IsLegacyHandle(g, FirstArgument(g, call))
  {
    hide IsLegacyHandle, Encloses;
    EnclosesExactly(g, fn, container);
    LinkDecides(g, n);
  }

  /** A parameter of anything else is no handle. */
  lemma OtherParametersAreNoHandles(g: Tree, n: nat)
    requires n < |g| && g[n].kind.Identifier? && g[n].kind.text !in {"runOpsLegacyPrisma", "runOpsLegacyReplica"}
    requires g[n].kind.declaration != -1 && g[g[n].kind.declaration].kind.Parameter?
    requires forall fn, container, call :: !IsCallbackOf(g, g[n].kind.declaration, fn, container, call)
    ensures !IsLegacyHandle(g, n)
  {
    hide IsLegacyHandle, Encloses;
    LinkDecides(g, n);
    var parameter := g[n].kind.declaration;
    var fn := g[parameter].parent;
    if fn != -1 && g[fn].kind.FunctionLike? {
      ContainerEncloses(g, fn);
      var container := Container(g, fn);
      if g[container].parent != -1 { assert !IsCallbackOf(g, parameter, fn, container, g[container].parent); }
    }
  }

  lemma {:induction false} ContainerEncloses(g: Tree, fn: nat)
    requires fn < |g|
    ensures Encloses(g, fn, Container(g, fn))
    decreases fn
  {
    if Container(g, fn) != fn { ContainerEncloses(g, g[fn].parent); }
  }
}
