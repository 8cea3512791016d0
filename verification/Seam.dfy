/** Which relations of the control-plane schema cross into or out of the run graph. */
module Seam {

  datatype Field = Field(name: string, baseType: string)

  datatype Model = Model(name: string, fields: seq<Field>)

  const PRISMA_SCALARS: set<string> :=
    {"String", "Boolean", "Int", "BigInt", "Float", "Decimal", "DateTime", "Json", "Bytes"}

  /** A relation's target, by owner and field; and the fields whose ends lie on both sides. */
  datatype Relations = Relations(targets: map<string, map<string, string>>, crossing: map<string, set<string>>)

  function Names(models: seq<Model>): set<string> {
    set m | m in models :: m.name
  }

  /** Neither a scalar nor an enum: the field names another model. */
  predicate IsRelation(names: set<string>, f: Field) {
    f.baseType !in PRISMA_SCALARS && f.baseType in names
  }

  predicate Crosses(runGraph: set<string>, owner: string, target: string) {
    (owner in runGraph) != (target in runGraph)
  }

  /** The target of the last relation field of that name. */
  function TargetOf(names: set<string>, fields: seq<Field>, name: string): (r: seq<string>)
    ensures |r| <= 1
  {
    if fields == [] then []
    else
      var n := |fields| - 1;
      if IsRelation(names, fields[n]) && fields[n].name == name then [fields[n].baseType]
      else TargetOf(names, fields[..n], name)
  }

  predicate SomeFieldCrosses(names: set<string>, runGraph: set<string>, owner: string, fields: seq<Field>, name: string) {
    exists f :: f in fields && f.name == name && IsRelation(names, f) && Crosses(runGraph, owner, f.baseType)
  }

  predicate DistinctFields(fields: seq<Field>) {
    forall i, j :: 0 <= i < j < |fields| ==> fields[i].name != fields[j].name
  }

  predicate DistinctModels(models: seq<Model>) {
    forall i, j :: 0 <= i < j < |models| ==> models[i].name != models[j].name
  }

  /** What one model contributes. */
  ghost predicate ModelRelations(names: set<string>, runGraph: set<string>, owner: string, fields: seq<Field>,
                           rels: map<string, string>, crosses: set<string>)
  {
    && (forall f :: f in rels <==> TargetOf(names, fields, f) != [])
    && (forall f :: f in rels ==> TargetOf(names, fields, f) == [rels[f]])
    && (forall f :: f in crosses ==> SomeFieldCrosses(names, runGraph, owner, fields, f))
    && (forall f :: f in fields && IsRelation(names, f) && Crosses(runGraph, owner, f.baseType) ==> f.name in crosses)
  }

  method RelationsOf(names: set<string>, runGraph: set<string>, model: Model)
    returns (rels: map<string, string>, crosses: set<string>)
    ensures ModelRelations(names, runGraph, model.name, model.fields, rels, crosses)
  {
    rels, crosses := map[], {};
    for i := 0 to |model.fields|
      invariant ModelRelations(names, runGraph, model.name, model.fields[..i], rels, crosses)
    {
      var field := model.fields[i];
      assert model.fields[..i + 1][..i] == model.fields[..i];
      assert model.fields[..i + 1] == model.fields[..i] + [field];
      assert field in model.fields[..i + 1];
      if !IsRelation(names, field) { continue; }
      rels := rels[field.name := field.baseType];
      if Crosses(runGraph, model.name, field.baseType) {
        crosses := crosses + {field.name};
      }
    }
    assert model.fields[..|model.fields|] == model.fields;
  }

  lemma {:induction false} TargetIsAField(names: set<string>, fields: seq<Field>, name: string)
    ensures TargetOf(names, fields, name) != [] ==>
      exists f :: f in fields && f.name == name && IsRelation(names, f) && TargetOf(names, fields, name) == [f.baseType]
    ensures forall f :: f in fields && IsRelation(names, f) && f.name == name ==> TargetOf(names, fields, name) != []
  {
    if fields != [] {
      var n := |fields| - 1;
      TargetIsAField(names, fields[..n], name);
      assert fields == fields[..n] + [fields[n]];
      assert fields[n] in fields;
    }
  }

  /** With field names used once, a relation crosses exactly when one of its two ends is in the run graph. */
  lemma CrossingIsExact(names: set<string>, runGraph: set<string>, owner: string, fields: seq<Field>,
                        rels: map<string, string>, crosses: set<string>, name: string)
    requires ModelRelations(names, runGraph, owner, fields, rels, crosses) && DistinctFields(fields)
    ensures name in crosses <==> name in rels && Crosses(runGraph, owner, rels[name])
  {
    TargetIsAField(names, fields, name);
    if name in crosses {
      assert SomeFieldCrosses(names, runGraph, owner, fields, name);
      var f :| f in fields && f.name == name && IsRelation(names, f) && Crosses(runGraph, owner, f.baseType);
      var g :| g in fields && g.name == name && IsRelation(names, g) && TargetOf(names, fields, name) == [g.baseType];
      var i :| 0 <= i < |fields| && fields[i] == f;
      var j :| 0 <= j < |fields| && fields[j] == g;
      assert i == j;
    }
  }

  /** The whole schema's relations, model by model. */
  ghost predicate SchemaRelations(models: seq<Model>, all: set<string>, runGraph: set<string>, r: Relations) {
    && (forall m :: m in models ==>
          && m.name in r.targets
          && ModelRelations(all, runGraph, m.name, m.fields, r.targets[m.name], if m.name in r.crossing then r.crossing[m.name] else {}))
    && r.targets.Keys == Names(models)
    && r.crossing.Keys <= Names(models)
  }

  lemma OneMoreModel(models: seq<Model>, m: Model, all: set<string>, runGraph: set<string>, r: Relations,
                     rels: map<string, string>, crosses: set<string>)
    requires SchemaRelations(models, all, runGraph, r) && DistinctModels(models + [m])
    requires ModelRelations(all, runGraph, m.name, m.fields, rels, crosses)
    ensures SchemaRelations(models + [m], all, runGraph,
      Relations(r.targets[m.name := rels], if crosses == {} then r.crossing else r.crossing[m.name := crosses]))
  {
    hide ModelRelations;
    var more := models + [m];
    forall o | o in models ensures o.name != m.name {
      var i :| 0 <= i < |models| && models[i] == o;
      assert more[i] == o && more[|models|] == m;
    }
    assert m.name !in Names(models);
    assert Names(more) == Names(models) + {m.name} by {
      assert m in more;
      forall o | o in models ensures o in more {}
    }
  }

  /** The derivation over the whole schema. */
  method DeriveRelations(models: seq<Model>, runGraph: set<string>) returns (r: Relations)
    requires DistinctModels(models)
    ensures SchemaRelations(models, Names(models), runGraph, r)
  {
    hide ModelRelations, DistinctModels;
    var names := Names(models);
    r := Relations(map[], map[]);
    for i := 0 to |models|
      invariant SchemaRelations(models[..i], names, runGraph, r)
    {
      var model := models[i];
      var rels, crosses := RelationsOf(names, runGraph, model);
      assert models[..i + 1] == models[..i] + [model];
      DistinctPrefix(models, i + 1);
      OneMoreModel(models[..i], model, names, runGraph, r, rels, crosses);
      r := r.(targets := r.targets[model.name := rels]);
      if crosses != {} { r := r.(crossing := r.crossing[model.name := crosses]); }
    }
    assert models[..|models|] == models;
  }

  lemma DistinctPrefix(models: seq<Model>, n: nat)
    requires DistinctModels(models) && n <= |models|
    ensures DistinctModels(models[..n])
  {
  }
}
