/** What the AppSync executor answers, told leaf by leaf: the value that the schema's types, the resolvers and the
    default resolver give along one response path. */
module AppSyncTrace {
  import opened AppSync
  import opened AppSyncShape

  /** What is expected at a leaf: a value, or an error reported at a prefix of its path. */
  datatype Traced = Value(value: Json) | Failed(error: GqlError)

  /** The first key of a path below an object of type t at a response path: the resolver of the type and the field
      answers for the object, else the object's own field is taken; a root field has no object. */
  ghost function TraceKey(q: Request, t: string, source: Json, path: Path, p: Path): Traced
    requires p != [] && p[0].Key?
    decreases |p|, 0
  {
    var f, at := p[0].key, path + [p[0]];
    var (answer, message) := q.invoke(t, f, source, at);
    if message != "" && source.Null? then Failed(GqlError(message, at))
    else
      var value := if message == "" then answer else ProjectField(source, f);
      if p[1..] == [] then Value(value)
      else if message != "" && value.Null? then Value(Null)
      else if q.ChildType(t, f) == "" then Failed(GqlError("unable to resolve nested type for field " + f, at))
      else TraceValue(q, q.ChildType(t, f), value, at, p[1..])
  }

  /** The rest of a path in a value whose objects have type t: lists are entered by an index, objects by a key. */
  ghost function TraceValue(q: Request, t: string, value: Json, path: Path, p: Path): Traced
    requires p != []
    decreases |p|, 1
  {
    match value
    case Null => Value(Null)
    case Object(_) => if p[0].Key? then TraceKey(q, t, value, path, p) else Value(Null)
    case List(items) =>
      if p[0].Key? || p[0].i >= |items| || |p| < 2 || !p[1].Key? then Value(Null)
      else
        var item, at := items[p[0].i], path + [p[0]];
        if item.Null? then Value(Null)
        else if !item.Object? then Failed(GqlError("Cannot query fields on a non-object list item", at))
        else TraceKey(q, t, item, at, p[1..])
    case _ => Failed(GqlError("Cannot query fields on a scalar value", path))
  }

  // ---------------------------------------------------------------- every leaf

  /** The outcome holds what is expected at a leaf. */
  ghost predicate Holds(o: Outcome, p: Path, expected: Traced) {
    match expected
    case Value(v) => Follow(o.value, p) == v
    case Failed(e) => e in o.errs && Follow(o.value, p) == Null
  }

  /** What is expected of a nested selection over a value. */
  ghost function TraceNested(q: Request, t: string, name: string, value: Json, path: Path, p: Path): Traced
    requires p != []
  {
    if q.ChildType(t, name) == "" then Failed(GqlError("unable to resolve nested type for field " + name, path))
    else TraceValue(q, q.ChildType(t, name), value, path, p)
  }

  lemma {:induction false} SelectionTraced(
    q: Request, t: string, source: Json, sel: Selection, path: Path, p: Path)
    requires LeafOf(sel, p)
    ensures Holds(ResolveSelection(q, t, source, sel, path + [Key(sel.name)]), p,
                  TraceKey(q, t, source, path, [Key(sel.name)] + p))
    decreases sel, 1
  {
    var at := path + [Key(sel.name)];
    assert ([Key(sel.name)] + p)[1..] == p;
    var (answer, message) := q.invoke(t, sel.name, source, at);
    if message != "" && source.Null? {
      FollowNull(p);
    } else if sel.children != [] {
      var value := if message == "" then answer else ProjectField(source, sel.name);
      FollowNull(p);
      NestedTraced(q, t, sel, value, at, p);
    }
  }

  lemma {:induction false} NestedTraced(q: Request, t: string, sel: Selection, value: Json, path: Path, p: Path)
    requires sel.children != [] && LeafOf(sel, p) && p != []
    ensures Holds(ApplyNested(q, t, sel, value, path), p, TraceNested(q, t, sel.name, value, path, p))
    decreases sel, 0
  {
    FollowNull(p);
    var childType := q.ChildType(t, sel.name);
    if childType != "" {
      match value
      case Object(_) =>
        if p[0].Key? { ChildrenTraced(q, childType, value, sel.children, path, p); }
      case List(items) =>
        if p[0].Index? && p[0].i < |items| {
          ItemsTraced(q, childType, items, sel.children, path, p[0].i, p[1..]);
        }
      case _ =>
    }
  }

  /** What is expected below one list item. */
  ghost function TraceItem(q: Request, t: string, item: Json, path: Path, p: Path): Traced
    requires p != [] && p[0].Key?
  {
    if item.Null? then Value(Null)
    else if !item.Object? then Failed(GqlError("Cannot query fields on a non-object list item", path))
    else TraceKey(q, t, item, path, p)
  }

  lemma {:induction false} ItemTraced(
    q: Request, t: string, item: Json, children: seq<Selection>, path: Path, p: Path)
    requires SelectsLeaf(children, p)
    ensures Holds(ResolveItem(q, t, item, children, path), p, TraceItem(q, t, item, path, p))
    decreases children, 1
  {
    FollowNull(p);
    if item.Object? {
      ChildrenTraced(q, t, item, children, path, p);
    }
  }

  lemma {:induction false} ItemsTraced(
    q: Request, t: string, items: seq<Json>, children: seq<Selection>, path: Path, i: nat, p: Path)
    requires i < |items| && SelectsLeaf(children, p)
    ensures var (out, errs) := ResolveItems(q, t, items, children, path);
            Holds(Outcome(out[i], errs), p, TraceItem(q, t, items[i], path + [Index(i)], p))
    decreases children, 2, |items|
  {
    var n := |items| - 1;
    ItemsSnoc(q, t, items[..n], items[n], children, path);
    assert items[..n] + [items[n]] == items;
    if i < n {
      ItemsTraced(q, t, items[..n], children, path, i, p);
    } else {
      ItemTraced(q, t, items[n], children, path + [Index(n)], p);
    }
  }

  /** Main result: for every resolver and schema, the answer holds at every selected leaf what the trace along its
      path expects: the value, or null and the very error that the trace meets. */
  lemma {:induction false} ChildrenTraced(
    q: Request, t: string, source: Json, children: seq<Selection>, path: Path, p: Path)
    requires SelectsLeaf(children, p)
    ensures Holds(ResolveChildren(q, t, source, children, path), p, TraceKey(q, t, source, path, p))
    decreases children, 0
  {
    var i: nat :| IsLast(children, i) && children[i].name == p[0].key && LeafOf(children[i], p[1..]);
    LastValue(q, t, source, children, path, i);
    ErrorsOf(q, t, source, children, path, i);
    SelectionTraced(q, t, source, children[i], path, p[1..]);
    assert [Key(children[i].name)] + p[1..] == p;
  }

  // ---------------------------------------------------------------- every error

  /** A leaf of any of the selections, also of one that a later sibling of its name shadows. */
  ghost predicate SelectsAny(children: seq<Selection>, p: Path)
  {
    && p != [] && p[0].Key?
    && exists i: nat :: i < |children| && children[i].name == p[0].key && AnyLeafOf(children[i], p[1..])
  }

  ghost predicate AnyLeafOf(sel: Selection, p: Path)
  {
    if sel.children == [] then p == []
    else SelectsAny(sel.children, p) || (p != [] && p[0].Index? && SelectsAny(sel.children, p[1..]))
  }

  lemma {:induction false} SomeLeaf(children: seq<Selection>) returns (p: Path)
    requires children != []
    ensures SelectsAny(children, p)
    decreases children
  {
    var rest: Path := [];
    if children[0].children != [] {
      rest := SomeLeaf(children[0].children);
    }
    p := [Key(children[0].name)] + rest;
    assert p[1..] == rest;
    assert AnyLeafOf(children[0], p[1..]);
  }

  lemma {:induction false} SelectionErrorTraced(
    q: Request, t: string, source: Json, sel: Selection, path: Path, e: GqlError) returns (p: Path)
    requires e in ResolveSelection(q, t, source, sel, path + [Key(sel.name)]).errs
    ensures AnyLeafOf(sel, p) && TraceKey(q, t, source, path, [Key(sel.name)] + p) == Failed(e)
    decreases sel, 1
  {
    var at := path + [Key(sel.name)];
    var (answer, message) := q.invoke(t, sel.name, source, at);
    if sel.children == [] {
      p := [];
    } else if message != "" && source.Null? {
      p := SomeLeaf(sel.children);
    } else {
      p := NestedErrorTraced(q, t, sel, if message == "" then answer else ProjectField(source, sel.name), at, e);
    }
    assert ([Key(sel.name)] + p)[1..] == p;
  }

  lemma {:induction false} NestedErrorTraced(
    q: Request, t: string, sel: Selection, value: Json, path: Path, e: GqlError) returns (p: Path)
    requires sel.children != [] && e in ApplyNested(q, t, sel, value, path).errs
    ensures p != [] && AnyLeafOf(sel, p) && TraceNested(q, t, sel.name, value, path, p) == Failed(e)
    decreases sel, 0
  {
    var childType := q.ChildType(t, sel.name);
    if childType != "" && value.Object? {
      p := ChildrenErrorTraced(q, childType, value, sel.children, path, e);
    } else if childType != "" && value.List? {
      var i, rest := ItemsErrorTraced(q, childType, value.items, sel.children, path, e);
      p := [Index(i)] + rest;
      assert p[1..] == rest;
    } else {
      p := SomeLeaf(sel.children);
    }
  }

  lemma {:induction false} ItemsErrorTraced(
    q: Request, t: string, items: seq<Json>, children: seq<Selection>, path: Path, e: GqlError)
    returns (i: nat, p: Path)
    requires children != [] && e in ResolveItems(q, t, items, children, path).1
    ensures i < |items| && SelectsAny(children, p) && TraceItem(q, t, items[i], path + [Index(i)], p) == Failed(e)
    decreases children, 2, |items|
  {
    var n := |items| - 1;
    ItemsSnoc(q, t, items[..n], items[n], children, path);
    assert items[..n] + [items[n]] == items;
    if e in ResolveItems(q, t, items[..n], children, path).1 {
      i, p := ItemsErrorTraced(q, t, items[..n], children, path, e);
    } else {
      i := n;
      if items[n].Object? {
        p := ChildrenErrorTraced(q, t, items[n], children, path + [Index(n)], e);
      } else {
        p := SomeLeaf(children);
      }
    }
  }

  /** Main result: every reported error is what the trace along some selected leaf meets. */
  lemma {:induction false} ChildrenErrorTraced(
    q: Request, t: string, source: Json, children: seq<Selection>, path: Path, e: GqlError) returns (p: Path)
    requires e in ResolveChildren(q, t, source, children, path).errs
    ensures SelectsAny(children, p) && TraceKey(q, t, source, path, p) == Failed(e)
    decreases children, 0
  {
    var i := ErrorOfChild(q, t, source, children, path, e);
    var rest := SelectionErrorTraced(q, t, source, children[i], path, e);
    p := [Key(children[i].name)] + rest;
    assert p[1..] == rest;
  }

  lemma {:induction false} ErrorOfChild(
    q: Request, t: string, source: Json, children: seq<Selection>, path: Path, e: GqlError) returns (i: nat)
    requires e in ResolveChildren(q, t, source, children, path).errs
    ensures i < |children|
    ensures e in ResolveSelection(q, t, source, children[i], path + [Key(children[i].name)]).errs
  {
    var n := |children| - 1;
    ChildrenSnoc(q, t, source, children, path);
    if e in ResolveChildren(q, t, source, children[..n], path).errs {
      i := ErrorOfChild(q, t, source, children[..n], path, e);
    } else {
      i := n;
    }
  }

  // ---------------------------------------------------------------- the types that resolvers are asked for

  /** The type of the objects at a response path: the schema folded over its keys, from Query on. */
  ghost function TypeAt(q: Request, path: Path): string {
    if path == [] then "Query"
    else
      var n := |path| - 1;
      match path[n]
      case Key(k) => q.ChildType(TypeAt(q, path[..n]), k)
      case Index(_) => TypeAt(q, path[..n])
  }

  /** One schema, and the same answers wherever a field is asked for with the type at its path. */
  ghost predicate SameWhereTyped(q: Request, q': Request) {
    && q.fieldTypes == q'.fieldTypes
    && forall p: Path, f: string, s: Json ::
         q.invoke(TypeAt(q, p), f, s, p + [Key(f)]) == q'.invoke(TypeAt(q, p), f, s, p + [Key(f)])
  }

  lemma TypeBelow(q: Request, path: Path, step: PathStep)
    ensures TypeAt(q, path + [step])
         == if step.Key? then q.ChildType(TypeAt(q, path), step.key) else TypeAt(q, path)
  {
    assert (path + [step])[..|path|] == path;
  }

  lemma {:induction false} TypesDecideSelection(q: Request, q': Request, source: Json, sel: Selection, path: Path)
    requires SameWhereTyped(q, q')
    ensures var t, at := TypeAt(q, path), path + [Key(sel.name)];
            ResolveSelection(q, t, source, sel, at) == ResolveSelection(q', t, source, sel, at)
    decreases sel, 1
  {
    var t, at := TypeAt(q, path), path + [Key(sel.name)];
    assert q.invoke(t, sel.name, source, at) == q'.invoke(t, sel.name, source, at);
    TypesDecideNested(q, q', sel, q.invoke(t, sel.name, source, at).0, path);
    TypesDecideNested(q, q', sel, ProjectField(source, sel.name), path);
  }

  lemma {:induction false} TypesDecideNested(q: Request, q': Request, sel: Selection, value: Json, path: Path)
    requires SameWhereTyped(q, q')
    ensures var t, at := TypeAt(q, path), path + [Key(sel.name)];
            ApplyNested(q, t, sel, value, at) == ApplyNested(q', t, sel, value, at)
    decreases sel, 0
  {
    var at := path + [Key(sel.name)];
    TypeBelow(q, path, Key(sel.name));
    match value
    case Object(_) => TypesDecide(q, q', value, sel.children, at);
    case List(items) => TypesDecideItems(q, q', items, sel.children, at);
    case _ =>
  }

  lemma {:induction false} TypesDecideItems(
    q: Request, q': Request, items: seq<Json>, children: seq<Selection>, path: Path)
    requires SameWhereTyped(q, q')
    ensures ResolveItems(q, TypeAt(q, path), items, children, path)
         == ResolveItems(q', TypeAt(q, path), items, children, path)
    decreases children, 2, |items|
  {
    if items != [] {
      var n := |items| - 1;
      TypesDecideItems(q, q', items[..n], children, path);
      TypeBelow(q, path, Index(n));
      if items[n].Object? {
        TypesDecide(q, q', items[n], children, path + [Index(n)]);
      }
    }
  }

  /** Main result: the answer depends on the resolvers only where they are asked for the type that the schema gives
      the object at its path. */
  lemma {:induction false} TypesDecide(q: Request, q': Request, source: Json, children: seq<Selection>, path: Path)
    requires SameWhereTyped(q, q')
    ensures ResolveChildren(q, TypeAt(q, path), source, children, path)
         == ResolveChildren(q', TypeAt(q, path), source, children, path)
    decreases children, 0
  {
    if children != [] {
      var n := |children| - 1;
      TypesDecide(q, q', source, children[..n], path);
      TypesDecideSelection(q, q', source, children[n], path);
      ChildrenSnoc(q, TypeAt(q, path), source, children, path);
      ChildrenSnoc(q', TypeAt(q, path), source, children, path);
    }
  }

  // ---------------------------------------------------------------- the order of errors

  /** Errors come in the order of the fields: those of the first fields are the first errors. */
  lemma {:induction false} ErrorsInOrder(
    q: Request, t: string, source: Json, children: seq<Selection>, path: Path, i: nat)
    requires i < |children|
    ensures var before := ResolveChildren(q, t, source, children[..i], path).errs;
            var own := ResolveSelection(q, t, source, children[i], path + [Key(children[i].name)]).errs;
            before + own <= ResolveChildren(q, t, source, children, path).errs
  {
    var n := |children| - 1;
    ChildrenSnoc(q, t, source, children, path);
    if i < n {
      assert children[..n][..i] == children[..i];
      ErrorsInOrder(q, t, source, children[..n], path, i);
    }
  }

  /** Errors in a list come in the order of its items. */
  lemma {:induction false} ItemErrorsInOrder(
    q: Request, t: string, items: seq<Json>, children: seq<Selection>, path: Path, i: nat)
    requires i < |items|
    ensures var before := ResolveItems(q, t, items[..i], children, path).1;
            var own := ResolveItem(q, t, items[i], children, path + [Index(i)]).errs;
            before + own <= ResolveItems(q, t, items, children, path).1
    decreases |items|
  {
    var n := |items| - 1;
    ItemsSnoc(q, t, items[..n], items[n], children, path);
    assert items[..n] + [items[n]] == items;
    if i < n {
      assert items[..n][..i] == items[..i];
      ItemErrorsInOrder(q, t, items[..n], children, path, i);
    }
  }
}
