/** The AppSync selection executor: GraphQL selection trees evaluated over JSON values,
    with Lambda resolvers, the default field resolver, lists and errors that carry a path. */
module AppSync {

  datatype Json =
    | Null
    | Bool(b: bool)
    | Number(n: real)
    | Str(s: string)
    | List(items: seq<Json>)
    | Object(fields: map<string, Json>)

  datatype Selection = Selection(name: string, children: seq<Selection>)

  datatype PathStep = Key(key: string) | Index(i: nat)
  type Path = seq<PathStep>

  datatype GqlError = GqlError(message: string, path: Path)

  datatype Outcome = Outcome(value: Json, errs: seq<GqlError>)

  /** What is fixed for one request: the Lambda resolvers and the schema's field return types.
      A resolver gets the parent type, the field and the parent object (Null at the root) and answers a
      value with an error message, empty when it succeeded. It also sees the response path, so that calls for
      the same field at different places may answer differently; siblings of one name get the same answer. */
  datatype Request = Request(
    invoke: (string, string, Json, Path) -> (Json, string),
    fieldTypes: map<string, map<string, string>>)
  {
    function ChildType(parentType: string, field: string): string {
      if parentType in fieldTypes && field in fieldTypes[parentType] then fieldTypes[parentType][field] else ""
    }
  }

  // ---------------------------------------------------------------- the executor

  function ProjectField(source: Json, field: string): Json {
    if source.Object? && field in source.fields then source.fields[field] else Null
  }

  function ResolveSelection(q: Request, parentType: string, source: Json, sel: Selection, path: Path): Outcome
    decreases sel, 1
  {
    var (resolved, errMsg) := q.invoke(parentType, sel.name, source, path);
    if errMsg != "" then
      if !source.Null? then
        var projected := ProjectField(source, sel.name);
        if sel.children == [] then Outcome(projected, [])
        else if projected.Null? then Outcome(Null, [])
        else ApplyNested(q, parentType, sel, projected, path)
      else
        Outcome(Null, [GqlError(errMsg, path)])
    else if sel.children == [] then Outcome(resolved, [])
    else ApplyNested(q, parentType, sel, resolved, path)
  }

  function ApplyNested(q: Request, parentType: string, sel: Selection, parentValue: Json, path: Path): Outcome
    decreases sel, 0
  {
    var childType := q.ChildType(parentType, sel.name);
    if childType == "" then
      Outcome(Null, [GqlError("unable to resolve nested type for field " + sel.name, path)])
    else
      match parentValue
      case Null => Outcome(Null, [])
      case Object(fields) => ResolveChildren(q, childType, parentValue, sel.children, path)
      case List(items) =>
        var (out, errs) := ResolveItems(q, childType, items, sel.children, path);
        Outcome(List(out), errs)
      case _ => Outcome(Null, [GqlError("Cannot query fields on a scalar value", path)])
  }

  function ResolveItem(q: Request, childType: string, item: Json, children: seq<Selection>, path: Path): Outcome
    decreases children, 1
  {
    match item
    case Null => Outcome(Null, [])
    case Object(_) => ResolveChildren(q, childType, item, children, path)
    case _ => Outcome(Null, [GqlError("Cannot query fields on a non-object list item", path)])
  }

  function ResolveItems(q: Request, childType: string, items: seq<Json>, children: seq<Selection>, path: Path)
    : (r: (seq<Json>, seq<GqlError>))
    ensures |r.0| == |items|
    decreases children, 2, |items|
  {
    if items == [] then ([], [])
    else
      var n := |items| - 1;
      var (out, errs) := ResolveItems(q, childType, items[..n], children, path);
      var r := ResolveItem(q, childType, items[n], children, path + [Index(n)]);
      (out + [r.value], errs + r.errs)
  }

  function ResolveChildren(q: Request, typeName: string, source: Json, children: seq<Selection>, path: Path)
    : (r: Outcome)
    ensures r.value.Object?
    decreases children, 0
  {
    if children == [] then Outcome(Object(map[]), [])
    else
      var n := |children| - 1;
      var init := ResolveChildren(q, typeName, source, children[..n], path);
      var r := ResolveSelection(q, typeName, source, children[n], path + [Key(children[n].name)]);
      Outcome(Object(init.value.fields[children[n].name := r.value]), init.errs + r.errs)
  }

  // ---------------------------------------------------------------- the loops of the executor

  /** The recursive field resolver, calling the loops below. */
  method ExecuteSelection(q: Request, parentType: string, source: Json, sel: Selection, path: Path)
    returns (value: Json, errs: seq<GqlError>)
    ensures Outcome(value, errs) == ResolveSelection(q, parentType, source, sel, path)
    decreases sel, 1
  {
    var (resolved, errMsg) := q.invoke(parentType, sel.name, source, path);
    if errMsg != "" {
      if !source.Null? {
        var projected := ProjectField(source, sel.name);
        if sel.children == [] {
          return projected, [];
        }
        if projected.Null? {
          return Null, [];
        }
        value, errs := ExecuteNested(q, parentType, sel, projected, path);
        return;
      }
      return Null, [GqlError(errMsg, path)];
    }
    if sel.children == [] {
      return resolved, [];
    }
    value, errs := ExecuteNested(q, parentType, sel, resolved, path);
  }

  /** Fills one output slot for each list item and appends to the errors in place. */
  method ExecuteNested(q: Request, parentType: string, sel: Selection, parentValue: Json, path: Path)
    returns (value: Json, errs: seq<GqlError>)
    ensures Outcome(value, errs) == ApplyNested(q, parentType, sel, parentValue, path)
    decreases sel, 0
  {
    var childType := q.ChildType(parentType, sel.name);
    if childType == "" {
      return Null, [GqlError("unable to resolve nested type for field " + sel.name, path)];
    }
    match parentValue
    case Null => return Null, [];
    case Object(_) =>
      value, errs := ExecuteChildren(q, childType, parentValue, sel.children, path);
    case List(items) =>
      var out: seq<Json> := [];
      errs := [];
      for i := 0 to |items|
        invariant (out, errs) == ResolveItems(q, childType, items[..i], sel.children, path)
      {
        var itemPath := path + [Index(i)];
        assert items[..i+1][..i] == items[..i];
        match items[i]
        case Null =>
          out := out + [Null];
          assert errs == errs + [];
        case Object(_) =>
          var resolved, itemErrs := ExecuteChildren(q, childType, items[i], sel.children, itemPath);
          out := out + [resolved];
          errs := errs + itemErrs;
        case _ =>
          errs := errs + [GqlError("Cannot query fields on a non-object list item", itemPath)];
          out := out + [Null];
      }
      assert items[..|items|] == items;
      value := List(out);
    case _ => return Null, [GqlError("Cannot query fields on a scalar value", path)];
  }

  /** Resolves the children in order into one map, later siblings overwriting earlier ones of the same name. */
  method ExecuteChildren(q: Request, typeName: string, source: Json, children: seq<Selection>, path: Path)
    returns (value: Json, errs: seq<GqlError>)
    ensures Outcome(value, errs) == ResolveChildren(q, typeName, source, children, path)
    decreases children, 0
  {
    var out: map<string, Json> := map[];
    errs := [];
    for i := 0 to |children|
      invariant Outcome(Object(out), errs) == ResolveChildren(q, typeName, source, children[..i], path)
    {
      assert children[..i+1][..i] == children[..i];
      var val, childErrs :=
        ExecuteSelection(q, typeName, source, children[i], path + [Key(children[i].name)]);
      out := out[children[i].name := val];
      errs := errs + childErrs;
    }
    assert children[..|children|] == children;
    value := Object(out);
  }

  /** The root loop of a Query: no source object, one data entry for each root field, whose path is its name. */
  method ExecuteQuery(q: Request, sels: seq<Selection>) returns (data: Json, errs: seq<GqlError>)
    ensures Outcome(data, errs) == ResolveChildren(q, "Query", Null, sels, [])
  {
    var out: map<string, Json> := map[];
    errs := [];
    for i := 0 to |sels|
      invariant Outcome(Object(out), errs) == ResolveChildren(q, "Query", Null, sels[..i], [])
    {
      assert sels[..i+1][..i] == sels[..i];
      assert [] + [Key(sels[i].name)] == [Key(sels[i].name)];
      var value, pathErrs := ExecuteSelection(q, "Query", Null, sels[i], [Key(sels[i].name)]);
      out := out[sels[i].name := value];
      errs := errs + pathErrs;
    }
    assert sels[..|sels|] == sels;
    data := Object(out);
  }

  /** One more child: its value is put under its name, its errors come last. */
  function Put(init: Outcome, name: string, r: Outcome): Outcome
    requires init.value.Object?
  {
    Outcome(Object(init.value.fields[name := r.value]), init.errs + r.errs)
  }

  lemma ChildrenSnoc(q: Request, t: string, source: Json, children: seq<Selection>, path: Path)
    requires children != []
    ensures var n := |children| - 1;
            var r := ResolveSelection(q, t, source, children[n], path + [Key(children[n].name)]);
            ResolveChildren(q, t, source, children, path)
            == Put(ResolveChildren(q, t, source, children[..n], path), children[n].name, r)
  {
  }

  lemma ItemsSnoc(q: Request, t: string, items: seq<Json>, item: Json, children: seq<Selection>, path: Path)
    ensures var (out, errs) := ResolveItems(q, t, items, children, path);
            var r := ResolveItem(q, t, item, children, path + [Index(|items|)]);
            ResolveItems(q, t, items + [item], children, path) == (out + [r.value], errs + r.errs)
  {
    var all := items + [item];
    assert all[..|all| - 1] == items && all[|all| - 1] == item;
  }
}
