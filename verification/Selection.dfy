/** The walk over a query's nested `select` and `include` literals that reports relations crossing the seam. */
module Selection {
  import opened Text
  import opened Seam

  /** Expressions with identifiers already resolved; `Const` is a name with the initializer it stands for. */
  datatype Expr =
    | Literal(props: seq<Prop>)
    | Parenthesized(inner: Expr)
    | Cast(inner: Expr)
    | NonNull(inner: Expr)
    | Const(initializer: Expr)
    | Opaque

  /** A property whose name is computed, or that is a spread or a method, has no name here. */
  datatype Prop = Assigned(name: string, value: Expr) | Shorthand(name: string) | Unnamed

  /** A reported key: where it stands (property indices from the query's argument down), and what it selects. */
  datatype Hit = Hit(path: seq<nat>, owner: string, relation: string)

  function NameOf(p: Prop): string {
    if p.Unnamed? then "" else p.name
  }

  /** `toObjectLiteral`: through parentheses, casts and constants, but not through a non-null mark. */
  function Resolve(e: Expr): (r: Option<Expr>)
    ensures r.Some? ==> r.value.Literal? && (r.value == e || r.value < e)
  {
    match e
    case Literal(_) => Some(e)
    case Parenthesized(inner) => Resolve(inner)
    case Cast(inner) => Resolve(inner)
    case Const(initializer) => Resolve(initializer)
    case NonNull(_) => None
    case Opaque => None
  }

  function TargetFrom(r: Relations, model: string, key: string): Option<string> {
    if model in r.targets && key in r.targets[model] then Some(r.targets[model][key]) else None
  }

  predicate IsCrossing(r: Relations, model: string, key: string) {
    model in r.crossing && key in r.crossing[model]
  }

  predicate OpensSelection(p: Prop) {
    p.Assigned? && (p.name == "select" || p.name == "include")
  }

  // ---- What the walk reports ----

  /** The hits at the first `n` properties of a selection map. */
  function SelectionHits(r: Relations, model: string, obj: Expr, base: seq<nat>, n: nat): seq<Hit>
    requires obj.Literal? && n <= |obj.props|
    decreases obj, n
  {
    if n == 0 then []
    else SelectionHits(r, model, obj, base, n - 1) + FieldHits(r, model, obj.props[n - 1], base + [n - 1])
  }

  function FieldHits(r: Relations, model: string, p: Prop, path: seq<nat>): seq<Hit>
    decreases p
  {
    var key := NameOf(p);
    if key == "" then []
    else
      (if IsCrossing(r, model, key) then [Hit(path, model, key)] else [])
      + if TargetFrom(r, model, key).Some? && p.Assigned? && Resolve(p.value).Some? then
          var nested := Resolve(p.value).value;
          ArgumentHits(r, TargetFrom(r, model, key).value, nested, path, |nested.props|)
        else []
  }

  /** The hits below the first `n` properties of a query's, or a relation's, arguments. */
  function ArgumentHits(r: Relations, model: string, obj: Expr, base: seq<nat>, n: nat): seq<Hit>
    requires obj.Literal? && n <= |obj.props|
    decreases obj, n
  {
    if n == 0 then []
    else ArgumentHits(r, model, obj, base, n - 1) + BlockHits(r, model, obj.props[n - 1], base + [n - 1])
  }

  function BlockHits(r: Relations, model: string, p: Prop, path: seq<nat>): seq<Hit>
    decreases p
  {
    if OpensSelection(p) && Resolve(p.value).Some? then
      var nested := Resolve(p.value).value;
      SelectionHits(r, model, nested, path, |nested.props|)
    else []
  }

  lemma SelectionStart(r: Relations, model: string, obj: Expr, base: seq<nat>)
    requires obj.Literal?
    ensures SelectionHits(r, model, obj, base, 0) == []
  {
  }

  lemma SelectionStep(r: Relations, model: string, obj: Expr, base: seq<nat>, i: nat)
    requires obj.Literal? && i < |obj.props|
    ensures SelectionHits(r, model, obj, base, i + 1)
         == SelectionHits(r, model, obj, base, i) + FieldHits(r, model, obj.props[i], base + [i])
  {
  }

  // ---- The walk itself ----

  class Collector {
    var hits: seq<Hit>

    constructor ()
      ensures hits == []
    {
      hits := [];
    }

    /** `walkSelectionMap`. */
    method WalkSelectionMap(r: Relations, obj: Expr, model: string, base: seq<nat>)
      requires obj.Literal?
      modifies this
      ensures hits == old(hits) + SelectionHits(r, model, obj, base, |obj.props|)
      decreases obj
    {
      hide Resolve, IsCrossing, TargetFrom, ArgumentHits, SelectionHits;
      ghost var before := hits;
      SelectionStart(r, model, obj, base);
      for i := 0 to |obj.props|
        invariant hits == before + SelectionHits(r, model, obj, base, i)
      {
        SelectionStep(r, model, obj, base, i);
        var p := obj.props[i];
        var key := NameOf(p);
        if key == "" { continue; }
        if IsCrossing(r, model, key) {
          hits := hits + [Hit(base + [i], model, key)];
        }
        var target := TargetFrom(r, model, key);
        if target.Some? && p.Assigned? {
          var nested := Resolve(p.value);
          if nested.Some? { WalkRelationArgs(r, nested.value, target.value, base + [i]); }
        }
      }
    }

    /** `walkRelationArgs`, which is also how a query's own argument is walked. */
    method WalkRelationArgs(r: Relations, obj: Expr, model: string, base: seq<nat>)
      requires obj.Literal?
      modifies this
      ensures hits == old(hits) + ArgumentHits(r, model, obj, base, |obj.props|)
      decreases obj
    {
      ghost var before := hits;
      for i := 0 to |obj.props|
        invariant hits == before + ArgumentHits(r, model, obj, base, i)
      {
        var p := obj.props[i];
        if OpensSelection(p) {
          var nested := Resolve(p.value);
          if nested.Some? { WalkSelectionMap(r, nested.value, model, base + [i]); }
        }
      }
    }
  }

  // ---- What a path of properties selects ----

  datatype Selected = Selected(owner: string, relation: string)

  /** The field that a path into a query's arguments selects: a `select` or `include`, a field, and so on. */
  function FieldAt(r: Relations, model: string, arguments: Expr, path: seq<nat>): Option<Selected>
    requires arguments.Literal?
    decreases |path|
  {
    if path == [] || path[0] >= |arguments.props| then None
    else
      var p := arguments.props[path[0]];
      if OpensSelection(p) && Resolve(p.value).Some? then FieldIn(r, model, Resolve(p.value).value, path[1..]) else None
  }

  function FieldIn(r: Relations, model: string, selection: Expr, path: seq<nat>): Option<Selected>
    requires selection.Literal?
    decreases |path|
  {
    if path == [] || path[0] >= |selection.props| then None
    else
      var p := selection.props[path[0]];
      var key := NameOf(p);
      if key == "" then None
      else if |path| == 1 then Some(Selected(model, key))
      else if TargetFrom(r, model, key).Some? && p.Assigned? && Resolve(p.value).Some? then
        FieldAt(r, TargetFrom(r, model, key).value, Resolve(p.value).value, path[1..])
      else None
  }

  /** The hit reports what its path selects, and that crosses. */
  predicate Reports(r: Relations, h: Hit, found: Option<Selected>) {
    found == Some(Selected(h.owner, h.relation)) && IsCrossing(r, h.owner, h.relation)
  }

  predicate Below(h: Hit, base: seq<nat>, n: nat) {
    |base| < |h.path| && h.path[..|base|] == base && h.path[|base|] < n
  }

  lemma BelowOneMore(h: Hit, base: seq<nat>, n: nat)
    ensures Below(h, base, n + 1) <==> Below(h, base, n) || (|base| < |h.path| && h.path[..|base| + 1] == base + [n])
  {
    if |base| < |h.path| {
      assert h.path[..|base| + 1] == h.path[..|base|] + [h.path[|base|]];
    }
  }

  lemma SelectionIsExact(r: Relations, model: string, obj: Expr, base: seq<nat>, n: nat, h: Hit)
    requires obj.Literal? && n <= |obj.props|
    ensures h in SelectionHits(r, model, obj, base, n)
       <==> Below(h, base, n) && Reports(r, h, FieldIn(r, model, obj, h.path[|base|..]))
    decreases obj, n
  {
    hide IsCrossing, TargetFrom, Resolve, OpensSelection, FieldHits, FieldIn, Reports;
    if n > 0 {
      hide Below;
      SelectionIsExact(r, model, obj, base, n - 1, h);
      FieldIsExact(r, model, obj, base, n - 1, h);
      BelowOneMore(h, base, n - 1);
    }
  }

  lemma FieldIsExact(r: Relations, model: string, obj: Expr, base: seq<nat>, i: nat, h: Hit)
    requires obj.Literal? && i < |obj.props|
    ensures h in FieldHits(r, model, obj.props[i], base + [i])
       <==> |base| < |h.path| && h.path[..|base| + 1] == base + [i] && Reports(r, h, FieldIn(r, model, obj, h.path[|base|..]))
    decreases obj, 0
  {
    hide IsCrossing, TargetFrom, ArgumentHits;
    var p := obj.props[i];
    var key := NameOf(p);
    var path := base + [i];
    if |base| < |h.path| && h.path[..|base| + 1] == path {
      assert h.path[|base|] == path[|base|] == i;
      assert h.path[|base|..][1..] == h.path[|path|..];
    }
    if TargetFrom(r, model, key).Some? && p.Assigned? && Resolve(p.value).Some? {
      var nested := Resolve(p.value).value;
      ArgumentsAreExact(r, TargetFrom(r, model, key).value, nested, path, |nested.props|, h);
    }
    if |h.path| == |path| && h.path[..|path|] == path {
      assert h.path == path;
    }
  }

  lemma ArgumentsAreExact(r: Relations, model: string, obj: Expr, base: seq<nat>, n: nat, h: Hit)
    requires obj.Literal? && n <= |obj.props|
    ensures h in ArgumentHits(r, model, obj, base, n)
       <==> Below(h, base, n) && Reports(r, h, FieldAt(r, model, obj, h.path[|base|..]))
    decreases obj, n
  {
    hide IsCrossing, TargetFrom, SelectionHits;
    if n > 0 {
      ArgumentsAreExact(r, model, obj, base, n - 1, h);
      var p := obj.props[n - 1];
      var path := base + [n - 1];
      if |base| < |h.path| && h.path[..|base| + 1] == path {
        assert h.path[|base|] == path[|base|] == n - 1;
        assert h.path[|base|..][1..] == h.path[|path|..];
      }
      if OpensSelection(p) && Resolve(p.value).Some? {
        var nested := Resolve(p.value).value;
        SelectionIsExact(r, model, nested, path, |nested.props|, h);
      }
      BelowOneMore(h, base, n - 1);
    }
  }

  /** The path of properties ends at a field of `owner` whose relation crosses the seam. */
  predicate SelectsCrossing(r: Relations, root: string, argument: Expr, h: Hit) {
    Resolve(argument).Some? && Reports(r, h, FieldAt(r, root, Resolve(argument).value, h.path))
  }

  /** `collectCrossSeamHits` on a query's argument: exactly the selection paths that end at a crossing relation, each once. */
  method CollectCrossSeamHits(r: Relations, argument: Expr, root: string) returns (hits: seq<Hit>)
    ensures forall h :: h in hits <==> SelectsCrossing(r, root, argument, h)
    ensures PathsDiffer(hits)
  {
    hide Reports, FieldAt, ArgumentHits, PathsDiffer;
    var collector := new Collector();
    var obj := Resolve(argument);
    NoHitsDiffer(collector.hits);
    if obj.Some? {
      collector.WalkRelationArgs(r, obj.value, root, []);
      assert collector.hits == ArgumentHits(r, root, obj.value, [], |obj.value.props|);
      ArgumentPathsDiffer(r, root, obj.value, [], |obj.value.props|);
      forall h ensures h in collector.hits <==> SelectsCrossing(r, root, argument, h) {
        HitsAreExact(r, root, obj.value, h);
      }
    }
    hits := collector.hits;
  }

  /** Sound and complete: a hit is reported exactly when its path selects it. */
  lemma HitsAreExact(r: Relations, root: string, arguments: Expr, h: Hit)
    requires arguments.Literal?
    ensures h in ArgumentHits(r, root, arguments, [], |arguments.props|) <==> Reports(r, h, FieldAt(r, root, arguments, h.path))
  {
    hide IsCrossing, ArgumentHits;
    ArgumentsAreExact(r, root, arguments, [], |arguments.props|, h);
    var none: seq<nat> := [];
    assert h.path[|none|..] == h.path && h.path[..|none|] == none;
  }

  // ---- No path is reported twice ----

  predicate PathsDiffer(hits: seq<Hit>) {
    forall i, j :: 0 <= i < j < |hits| ==> hits[i].path != hits[j].path
  }

  lemma JoinedPathsDiffer(a: seq<Hit>, b: seq<Hit>)
    requires PathsDiffer(a) && PathsDiffer(b)
    requires forall x, y :: x in a && y in b ==> x.path != y.path
    ensures PathsDiffer(a + b)
  {
    var c := a + b;
    forall i, j | 0 <= i < j < |c| ensures c[i].path != c[j].path {
      if i < |a| && j >= |a| {
        assert a[i] in a && b[j - |a|] in b;
      }
    }
  }

  lemma SelectionPathsDiffer(r: Relations, model: string, obj: Expr, base: seq<nat>, n: nat)
    requires obj.Literal? && n <= |obj.props|
    ensures PathsDiffer(SelectionHits(r, model, obj, base, n))
    decreases obj, n
  {
    hide IsCrossing, TargetFrom, Resolve, FieldIn, FieldHits, Reports, OpensSelection;
    if n > 0 {
      hide PathsDiffer;
      var before, here := SelectionHits(r, model, obj, base, n - 1), FieldHits(r, model, obj.props[n - 1], base + [n - 1]);
      SelectionPathsDiffer(r, model, obj, base, n - 1);
      FieldPathsDiffer(r, model, obj, base, n - 1);
      forall x, y | x in before && y in here ensures x.path != y.path {
        SelectionIsExact(r, model, obj, base, n - 1, x);
        FieldIsExact(r, model, obj, base, n - 1, y);
        assert y.path[|base|] == y.path[..|base| + 1][|base|];
      }
      JoinedPathsDiffer(before, here);
    }
  }

  lemma FieldPathsDiffer(r: Relations, model: string, obj: Expr, base: seq<nat>, i: nat)
    requires obj.Literal? && i < |obj.props|
    ensures PathsDiffer(FieldHits(r, model, obj.props[i], base + [i]))
    decreases obj, 0
  {
    hide IsCrossing, TargetFrom, ArgumentHits;
    var p := obj.props[i];
    var key, path := NameOf(p), base + [i];
    if key != "" && TargetFrom(r, model, key).Some? && p.Assigned? && Resolve(p.value).Some? {
      var nested := Resolve(p.value).value;
      var own := if IsCrossing(r, model, key) then [Hit(path, model, key)] else [];
      var below := ArgumentHits(r, TargetFrom(r, model, key).value, nested, path, |nested.props|);
      ArgumentPathsDiffer(r, TargetFrom(r, model, key).value, nested, path, |nested.props|);
      forall y | y in below ensures y.path != path {
        ArgumentsAreExact(r, TargetFrom(r, model, key).value, nested, path, |nested.props|, y);
      }
      JoinedPathsDiffer(own, below);
    }
  }

  lemma ArgumentPathsDiffer(r: Relations, model: string, obj: Expr, base: seq<nat>, n: nat)
    requires obj.Literal? && n <= |obj.props|
    ensures PathsDiffer(ArgumentHits(r, model, obj, base, n))
    decreases obj, n
  {
    hide IsCrossing, TargetFrom, FieldAt, SelectionHits, FieldIn, Reports;
    if n > 0 {
      hide PathsDiffer;
      var p := obj.props[n - 1];
      var before, here := ArgumentHits(r, model, obj, base, n - 1), BlockHits(r, model, p, base + [n - 1]);
      ArgumentPathsDiffer(r, model, obj, base, n - 1);
      if OpensSelection(p) && Resolve(p.value).Some? {
        var nested := Resolve(p.value).value;
        SelectionPathsDiffer(r, model, nested, base + [n - 1], |nested.props|);
        forall x, y | x in before && y in here ensures x.path != y.path {
          ArgumentsAreExact(r, model, obj, base, n - 1, x);
          SelectionIsExact(r, model, nested, base + [n - 1], |nested.props|, y);
          assert y.path[|base|] == y.path[..|base| + 1][|base|];
        }
      } else {
        assert here == [];
      }
      assert PathsDiffer(here) by { NoHitsDiffer(here); }
      JoinedPathsDiffer(before, here);
    }
  }

  lemma NoHitsDiffer(hits: seq<Hit>)
    ensures hits == [] ==> PathsDiffer(hits)
  {
  }

  // ---- Which literals the walk sees through ----

  /** The expression stands for that literal: by itself, or in parentheses, under casts, or behind constants. */
  ghost predicate StandsFor(e: Expr, literal: Expr)
    decreases e
  {
    match e
    case Literal(_) => e == literal
    case Parenthesized(inner) => StandsFor(inner, literal)
    case Cast(inner) => StandsFor(inner, literal)
    case Const(initializer) => StandsFor(initializer, literal)
    case NonNull(_) => false
    case Opaque => false
  }

  lemma {:induction false} ResolveExactly(e: Expr, literal: Expr)
    ensures Resolve(e) == Some(literal) <==> StandsFor(e, literal)
    decreases e
  {
    match e {
      case Parenthesized(inner) => ResolveExactly(inner, literal);
      case Cast(inner) => ResolveExactly(inner, literal);
      case Const(initializer) => ResolveExactly(initializer, literal);
      case _ =>
    }
  }

  /**
    The first two steps of a path: a `select` or an `include`, and in the literal it stands for a named property.
    Nothing else opens a selection, and only a property with a value of its own is walked further.
   */
  lemma FirstStepsExactly(r: Relations, root: string, arguments: Expr, i: nat, j: nat, rest: seq<nat>, found: Selected)
    requires arguments.Literal?
    ensures FieldAt(r, root, arguments, [i, j] + rest) == Some(found) <==>
      && i < |arguments.props|
      && exists e: Expr, selection: Expr :: (arguments.props[i] == Assigned("select", e) || arguments.props[i] == Assigned("include", e))
           && StandsFor(e, selection) && selection.Literal? && j < |selection.props|
           && !selection.props[j].Unnamed? && selection.props[j].name != ""
           && if rest == [] then found == Selected(root, selection.props[j].name)
              else GoesOn(r, root, selection.props[j], rest, found)
  {
    hide Resolve, StandsFor, TargetFrom, GoesOn;
    var path := [i, j] + rest;
    assert path[0] == i && path[1..] == [j] + rest && path[1..][0] == j && path[1..][1..] == rest;
    if i < |arguments.props| && OpensSelection(arguments.props[i]) {
      var e := arguments.props[i].value;
      if Resolve(e).Some? {
        ResolveExactly(e, Resolve(e).value);
        SecondStep(r, root, Resolve(e).value, j, rest, found);
      }
      forall selection ensures StandsFor(e, selection) <==> Resolve(e) == Some(selection) { ResolveExactly(e, selection); }
    }
  }

  /** From a property with a value, through its literal, into the model its relation leads to. */
  ghost predicate GoesOn(r: Relations, model: string, p: Prop, rest: seq<nat>, found: Selected) {
    && p.Assigned? && model in r.targets && p.name in r.targets[model]
    && exists nested: Expr :: nested.Literal? && StandsFor(p.value, nested) && FieldAt(r, r.targets[model][p.name], nested, rest) == Some(found)
  }

  lemma SecondStep(r: Relations, model: string, selection: Expr, j: nat, rest: seq<nat>, found: Selected)
    requires selection.Literal?
    ensures FieldIn(r, model, selection, [j] + rest) == Some(found) <==>
      && j < |selection.props| && !selection.props[j].Unnamed? && selection.props[j].name != ""
      && if rest == [] then found == Selected(model, selection.props[j].name) else GoesOn(r, model, selection.props[j], rest, found)
  {
    hide Resolve, StandsFor, FieldAt;
    var path := [j] + rest;
    assert path[0] == j && path[1..] == rest;
    if j < |selection.props| && selection.props[j].Assigned? {
      var e := selection.props[j].value;
      forall nested ensures StandsFor(e, nested) <==> Resolve(e) == Some(nested) { ResolveExactly(e, nested); }
    }
  }

  // ---- Back to the schema ----

  ghost predicate IsModel(models: seq<Model>, name: string) {
    exists m :: m in models && m.name == name
  }

  /** The field's type is another model's name, no scalar's, with one of owner and type in the run graph and one outside. */
  ghost predicate IsSeamField(models: seq<Model>, runGraph: set<string>, owner: string, f: Seam.Field) {
    && IsModel(models, f.baseType)
    && f.baseType !in {"String", "Boolean", "Int", "BigInt", "Float", "Decimal", "DateTime", "Json", "Bytes"}
    && (owner in runGraph <==> f.baseType !in runGraph)
  }

  lemma SeamFieldExactly(models: seq<Model>, runGraph: set<string>, owner: string, f: Seam.Field)
    ensures IsSeamField(models, runGraph, owner, f) <==> IsRelation(Names(models), f) && Crosses(runGraph, owner, f.baseType)
  {
  }

  /** A model of that name has a field of that name across the seam. */
  ghost predicate CrossesInSchema(models: seq<Model>, runGraph: set<string>, owner: string, relation: string) {
    exists m, f :: m in models && m.name == owner && f in m.fields && f.name == relation && IsSeamField(models, runGraph, owner, f)
  }

  /** The derived crossing relations are those of the schema, whether or not a field name repeats. */
  lemma CrossingIsTheSchemas(models: seq<Model>, runGraph: set<string>, r: Relations, owner: string, relation: string)
    requires SchemaRelations(models, Names(models), runGraph, r)
    ensures IsCrossing(r, owner, relation) <==> CrossesInSchema(models, runGraph, owner, relation)
  {
    hide IsRelation, Crosses, IsSeamField;
    if IsCrossing(r, owner, relation) {
      assert owner in Names(models);
      var m :| m in models && m.name == owner;
      assert SomeFieldCrosses(Names(models), runGraph, owner, m.fields, relation);
      var f :| f in m.fields && f.name == relation && IsRelation(Names(models), f) && Crosses(runGraph, owner, f.baseType);
      SeamFieldExactly(models, runGraph, owner, f);
    }
    if CrossesInSchema(models, runGraph, owner, relation) {
      var m, f :| m in models && m.name == owner && f in m.fields && f.name == relation && IsSeamField(models, runGraph, owner, f);
      SeamFieldExactly(models, runGraph, owner, f);
    }
  }

  /** With field names used once, crossing is the derived target's: exactly one of the two ends in the run graph. */
  lemma CrossingIsTheTargets(models: seq<Model>, runGraph: set<string>, r: Relations, owner: string, relation: string)
    requires SchemaRelations(models, Names(models), runGraph, r) && forall m :: m in models ==> DistinctFields(m.fields)
    ensures IsCrossing(r, owner, relation)
       <==> TargetFrom(r, owner, relation).Some? && Crosses(runGraph, owner, TargetFrom(r, owner, relation).value)
  {
    hide ModelRelations, DistinctFields, Crosses;
    if owner in Names(models) {
      var m :| m in models && m.name == owner;
      CrossingIsExact(Names(models), runGraph, owner, m.fields, r.targets[owner],
        if owner in r.crossing then r.crossing[owner] else {}, relation);
    }
  }

  /** Reading along the path ends at a field of the schema with its two ends on different sides. */
  ghost predicate EndsAcrossTheSeam(models: seq<Model>, runGraph: set<string>, r: Relations, root: string, argument: Expr, h: Hit) {
    && Resolve(argument).Some?
    && FieldAt(r, root, Resolve(argument).value, h.path) == Some(Selected(h.owner, h.relation))
    && CrossesInSchema(models, runGraph, h.owner, h.relation)
  }

  /**
    From the schema to the report: over the relations derived from it, a path is reported exactly when
    reading along it ends at a field of a schema model whose relation has one end in the run graph
    and one outside. With field names used once, its other end is the target the walk follows.
   */
  lemma HitsCrossTheSeam(models: seq<Model>, runGraph: set<string>, r: Relations, root: string, argument: Expr, h: Hit)
    requires SchemaRelations(models, Names(models), runGraph, r)
    ensures SelectsCrossing(r, root, argument, h) <==> EndsAcrossTheSeam(models, runGraph, r, root, argument, h)
    ensures SelectsCrossing(r, root, argument, h) && (forall m :: m in models ==> DistinctFields(m.fields)) ==>
      TargetFrom(r, h.owner, h.relation).Some? && Crosses(runGraph, h.owner, TargetFrom(r, h.owner, h.relation).value)
  {
    hide SchemaRelations, CrossesInSchema, IsCrossing, TargetFrom, FieldAt, DistinctFields, Crosses, Resolve;
    CrossingIsTheSchemas(models, runGraph, r, h.owner, h.relation);
    if forall m :: m in models ==> DistinctFields(m.fields) {
      CrossingIsTheTargets(models, runGraph, r, h.owner, h.relation);
    }
  }

  /** The derivation and the walk together: what the guard reports for one query. */
  method CollectFromSchema(models: seq<Model>, runGraph: set<string>, root: string, argument: Expr)
    returns (r: Relations, hits: seq<Hit>)
    requires DistinctModels(models)
    ensures SchemaRelations(models, Names(models), runGraph, r) && PathsDiffer(hits)
    ensures forall h :: h in hits <==> EndsAcrossTheSeam(models, runGraph, r, root, argument, h)
  {
    hide SchemaRelations, EndsAcrossTheSeam, FieldAt, SelectsCrossing, PathsDiffer, DistinctModels, Resolve;
    r := DeriveRelations(models, runGraph);
    hits := CollectCrossSeamHits(r, argument, root);
    forall h ensures h in hits <==> EndsAcrossTheSeam(models, runGraph, r, root, argument, h) {
      HitsCrossTheSeam(models, runGraph, r, root, argument, h);
    }
  }
}
