/** The data of the AppSync executor: its shape, and what a selection without child resolvers copies. Where
    siblings share a name, the last of them decides. */
module AppSyncShape {
  import opened AppSync

  // ---------------------------------------------------------------- shape of the answer

  ghost function FieldNames(children: seq<Selection>): set<string> {
    set i | 0 <= i < |children| :: children[i].name
  }

  /** The last sibling of its name. */
  ghost predicate IsLast(children: seq<Selection>, i: nat) {
    i < |children| && forall j | i < j < |children| :: children[j].name != children[i].name
  }

  lemma {:induction false} HasLast(children: seq<Selection>, name: string)
    requires name in FieldNames(children)
    ensures exists i: nat :: IsLast(children, i) && children[i].name == name
  {
    var n := |children| - 1;
    if children[n].name == name {
      assert IsLast(children, n);
    } else {
      HasLast(children[..n], name);
      var i: nat :| IsLast(children[..n], i) && children[..n][i].name == name;
      assert IsLast(children, i);
    }
  }

  /** An object built from children has their names as its keys. */
  lemma {:induction false} ChildrenKeys(q: Request, t: string, source: Json, children: seq<Selection>, path: Path)
    ensures ResolveChildren(q, t, source, children, path).value.fields.Keys == FieldNames(children)
  {
    if children != [] {
      var n := |children| - 1;
      ChildrenKeys(q, t, source, children[..n], path);
      ChildrenSnoc(q, t, source, children, path);
      assert FieldNames(children) == FieldNames(children[..n]) + {children[n].name};
    }
  }

  /** Under each name stands the value of the last child of that name. */
  lemma {:induction false} LastValue(
    q: Request, t: string, source: Json, children: seq<Selection>, path: Path, i: nat)
    requires IsLast(children, i)
    ensures var fields := ResolveChildren(q, t, source, children, path).value.fields;
            && children[i].name in fields
            && fields[children[i].name]
               == ResolveSelection(q, t, source, children[i], path + [Key(children[i].name)]).value
  {
    var n := |children| - 1;
    ChildrenSnoc(q, t, source, children, path);
    if i < n {
      LastValue(q, t, source, children[..n], path, i);
    }
  }

  ghost predicate Conforms(v: Json, sel: Selection)
    decreases sel, 1
  {
    || sel.children == []
    || v.Null?
    || (v.Object? && ConformsObject(v, sel.children))
    || (v.List? && forall item | item in v.items :: item.Null? || (item.Object? && ConformsObject(item, sel.children)))
  }

  /** An object with exactly the selected keys, each value fitting the last selection of its name. */
  ghost predicate ConformsObject(v: Json, children: seq<Selection>)
    requires v.Object?
    decreases children, 0
  {
    && v.fields.Keys == FieldNames(children)
    && (forall i: nat | IsLast(children, i) :: Conforms(v.fields[children[i].name], children[i]))
  }

  lemma {:induction false} SelectionShape(q: Request, parentType: string, source: Json, sel: Selection, path: Path)
    ensures Conforms(ResolveSelection(q, parentType, source, sel, path).value, sel)
    decreases sel, 1
  {
    var (resolved, errMsg) := q.invoke(parentType, sel.name, source, path);
    if sel.children != [] {
      NestedShape(q, parentType, sel, ProjectField(source, sel.name), path);
      NestedShape(q, parentType, sel, resolved, path);
    }
  }

  /** What a nested selection makes of a parent value whose type the schema knows: an object becomes an
      object with the selected keys, a list keeps its length and turns objects, and only objects, into
      objects, and everything else becomes null. */
  lemma {:induction false} NestedShape(q: Request, parentType: string, sel: Selection, v: Json, path: Path)
    ensures var out := ApplyNested(q, parentType, sel, v, path).value;
            && Conforms(out, sel)
            && (q.ChildType(parentType, sel.name) == "" ==> out.Null?)
            && (q.ChildType(parentType, sel.name) != "" ==>
                  && out.Object? == v.Object? && (out.Object? ==> ConformsObject(out, sel.children))
                  && out.List? == v.List?
                  && (out.List? ==>
                        && |out.items| == |v.items|
                        && forall i | 0 <= i < |v.items| :: ItemFits(v.items[i], out.items[i], sel.children)))
    decreases sel, 0
  {
    var childType := q.ChildType(parentType, sel.name);
    match v
    case Object(_) => ChildrenShape(q, childType, v, sel.children, path);
    case List(items) => ItemsShape(q, childType, items, sel.children, path);
    case _ =>
  }

  /** What an item becomes. */
  ghost predicate ItemFits(item: Json, out: Json, children: seq<Selection>) {
    if item.Object? then out.Object? && ConformsObject(out, children) else out.Null?
  }

  lemma {:induction false} ItemShape(
    q: Request, childType: string, item: Json, children: seq<Selection>, path: Path)
    ensures ItemFits(item, ResolveItem(q, childType, item, children, path).value, children)
    decreases children, 1
  {
    if item.Object? {
      ChildrenShape(q, childType, item, children, path);
    }
  }

  lemma {:induction false} ItemsShape(
    q: Request, childType: string, items: seq<Json>, children: seq<Selection>, path: Path)
    ensures var out := ResolveItems(q, childType, items, children, path).0;
            forall i | 0 <= i < |items| :: ItemFits(items[i], out[i], children)
    decreases children, 2, |items|
  {
    if items != [] {
      var n := |items| - 1;
      var init := items[..n];
      ItemsShape(q, childType, init, children, path);
      ItemShape(q, childType, items[n], children, path + [Index(n)]);
      ItemsSnoc(q, childType, init, items[n], children, path);
      assert init + [items[n]] == items;
      var was := ResolveItems(q, childType, init, children, path).0;
      var out := ResolveItems(q, childType, items, children, path).0;
      forall i | 0 <= i < |items| ensures ItemFits(items[i], out[i], children) {
        assert i < n ==> out[i] == was[i] && items[i] == init[i];
      }
    }
  }

  lemma {:induction false} ChildrenShape(
    q: Request, typeName: string, source: Json, children: seq<Selection>, path: Path)
    ensures ConformsObject(ResolveChildren(q, typeName, source, children, path).value, children)
    decreases children, 0
  {
    ChildrenKeys(q, typeName, source, children, path);
    var v := ResolveChildren(q, typeName, source, children, path).value;
    forall i: nat | IsLast(children, i) ensures Conforms(v.fields[children[i].name], children[i]) {
      LastValue(q, typeName, source, children, path, i);
      SelectionShape(q, typeName, source, children[i], path + [Key(children[i].name)]);
    }
  }

  // ---------------------------------------------------------------- selecting again

  /** No resolver answers for a field of an object: only root fields have one. */
  ghost predicate NoChildResolver(q: Request) {
    forall t: string, f: string, s: Json, p: Path :: !s.Null? ==> q.invoke(t, f, s, p).1 != ""
  }

  /** Selecting again from an object that shows a field's value gives that value. */
  lemma {:induction false} ReplaySelection(
    q: Request, t: string, source: Json, again: Json, sel: Selection, path: Path, path': Path)
    requires NoChildResolver(q) && source.Object? && again.Object?
    requires ProjectField(again, sel.name) == ResolveSelection(q, t, source, sel, path).value
    ensures ResolveSelection(q, t, again, sel, path').value == ResolveSelection(q, t, source, sel, path).value
    decreases sel, 1
  {
    assert q.invoke(t, sel.name, source, path).1 != "" && q.invoke(t, sel.name, again, path').1 != "";
    var v := ProjectField(source, sel.name);
    var out := ProjectField(again, sel.name);
    if sel.children != [] && !out.Null? {
      var childType := q.ChildType(t, sel.name);
      match v
      case Object(_) => ReplayChildren(q, childType, v, sel.children, path, path');
      case List(items) => ReplayItems(q, childType, items, sel.children, path, path');
      case _ =>
    }
  }

  lemma {:induction false} ReplayItem(
    q: Request, t: string, item: Json, children: seq<Selection>, path: Path, path': Path)
    requires NoChildResolver(q)
    ensures var out := ResolveItem(q, t, item, children, path).value;
            ResolveItem(q, t, out, children, path').value == out
    decreases children, 1
  {
    if item.Object? {
      ReplayChildren(q, t, item, children, path, path');
    }
  }

  /** Selecting a from the items that b has made of a list, told by its last item. */
  lemma ReselectSnoc(
    q: Request, t: string, items: seq<Json>, item: Json, b: seq<Selection>, a: seq<Selection>, path: Path, path': Path)
    ensures var init := ResolveItems(q, t, items, b, path).0;
            var last := ResolveItem(q, t, item, b, path + [Index(|items|)]).value;
            var again := ResolveItems(q, t, init, a, path');
            var r := ResolveItem(q, t, last, a, path' + [Index(|items|)]);
            && ResolveItems(q, t, items + [item], b, path).0 == init + [last]
            && ResolveItems(q, t, ResolveItems(q, t, items + [item], b, path).0, a, path')
               == (again.0 + [r.value], again.1 + r.errs)
  {
    var init := ResolveItems(q, t, items, b, path).0;
    var last := ResolveItem(q, t, item, b, path + [Index(|items|)]).value;
    ItemsSnoc(q, t, items, item, b, path);
    assert ResolveItems(q, t, items + [item], b, path).0 == init + [last];
    ItemsSnoc(q, t, init, last, a, path');
  }

  /** Items that stay as they are when selected again. */
  ghost predicate Stable(
    q: Request, t: string, items: seq<Json>, children: seq<Selection>, path: Path, path': Path)
  {
    var out := ResolveItems(q, t, items, children, path).0;
    ResolveItems(q, t, out, children, path').0 == out
  }

  lemma StableSnoc(
    q: Request, t: string, init: seq<Json>, item: Json, children: seq<Selection>, path: Path, path': Path)
    requires Stable(q, t, init, children, path, path')
    requires var last := ResolveItem(q, t, item, children, path + [Index(|init|)]).value;
             ResolveItem(q, t, last, children, path' + [Index(|init|)]).value == last
    ensures Stable(q, t, init + [item], children, path, path')
  {
    ReselectSnoc(q, t, init, item, children, children, path, path');
  }

  lemma {:induction false} ReplayItems(
    q: Request, t: string, items: seq<Json>, children: seq<Selection>, path: Path, path': Path)
    requires NoChildResolver(q)
    ensures Stable(q, t, items, children, path, path')
    decreases children, 2, |items|
  {
    if items != [] {
      var n := |items| - 1;
      ReplayItems(q, t, items[..n], children, path, path');
      ReplayItem(q, t, items[n], children, path + [Index(n)], path' + [Index(n)]);
      StableSnoc(q, t, items[..n], items[n], children, path, path');
      assert items[..n] + [items[n]] == items;
    }
  }

  /** With no child resolver, selecting again from the output of a selection gives that output, whatever names
      the siblings have. */
  lemma {:induction false} ReplayChildren(
    q: Request, t: string, source: Json, children: seq<Selection>, path: Path, path': Path)
    requires NoChildResolver(q) && source.Object?
    ensures var out := ResolveChildren(q, t, source, children, path).value;
            ResolveChildren(q, t, out, children, path').value == out
    decreases children, 0
  {
    var out := ResolveChildren(q, t, source, children, path).value;
    var twice := ResolveChildren(q, t, out, children, path').value;
    ChildrenKeys(q, t, source, children, path);
    ChildrenKeys(q, t, out, children, path');
    forall name | name in out.fields ensures twice.fields[name] == out.fields[name] {
      HasLast(children, name);
      var i: nat :| IsLast(children, i) && children[i].name == name;
      LastValue(q, t, source, children, path, i);
      LastValue(q, t, out, children, path', i);
      ReplaySelection(q, t, source, out, children[i], path + [Key(name)], path' + [Key(name)]);
    }
    assert twice.fields == out.fields;
  }

  // ---------------------------------------------------------------- when selecting again reports nothing

  /** Every field of a with a nested selection that b selects too has a nested selection in b that, in turn,
      covers its own. */
  ghost predicate Quiet(a: seq<Selection>, b: seq<Selection>)
    decreases a
  {
    forall x, i: nat | x in a && x.children != [] && IsLast(b, i) && b[i].name == x.name ::
      b[i].children != [] && Quiet(x.children, b[i].children)
  }

  /** Selecting a field from the output of b reports nothing. */
  lemma {:induction false} QuietSelection(
    q: Request, t: string, source: Json, b: seq<Selection>, x: Selection, path: Path, path': Path)
    requires NoChildResolver(q) && source.Object? && Quiet([x], b)
    ensures ResolveSelection(q, t, ResolveChildren(q, t, source, b, path).value, x, path').errs == []
    decreases x, 1
  {
    var out := ResolveChildren(q, t, source, b, path).value;
    assert q.invoke(t, x.name, out, path').1 != "";
    ChildrenKeys(q, t, source, b, path);
    if x.children != [] && x.name in out.fields {
      HasLast(b, x.name);
      var i: nat :| IsLast(b, i) && b[i].name == x.name;
      assert x in [x];
      LastValue(q, t, source, b, path, i);
      QuietNested(q, t, source, b[i], x, path + [Key(x.name)], path');
    }
  }

  /** One nested selection of a field after another of the same field. */
  lemma {:induction false} QuietNested(
    q: Request, t: string, source: Json, y: Selection, x: Selection, path: Path, path': Path)
    requires NoChildResolver(q) && source.Object? && x.name == y.name && x.children != [] && y.children != []
    requires Quiet(x.children, y.children)
    ensures var v := ResolveSelection(q, t, source, y, path).value;
            v.Null? || ApplyNested(q, t, x, v, path').errs == []
    decreases x, 0
  {
    assert q.invoke(t, y.name, source, path).1 != "";
    var childType := q.ChildType(t, x.name);
    if childType != "" {
      match ProjectField(source, y.name)
      case Object(fields) => QuietChildren(q, childType, Object(fields), y.children, x.children, path, path');
      case List(items) => QuietItems(q, childType, items, y.children, x.children, path, path');
      case _ =>
    }
  }

  lemma {:induction false} QuietItem(
    q: Request, t: string, item: Json, b: seq<Selection>, a: seq<Selection>, path: Path, path': Path)
    requires NoChildResolver(q) && Quiet(a, b)
    ensures ResolveItem(q, t, ResolveItem(q, t, item, b, path).value, a, path').errs == []
    decreases a, 2
  {
    if item.Object? {
      QuietChildren(q, t, item, b, a, path, path');
    }
  }

  lemma {:induction false} QuietItems(
    q: Request, t: string, items: seq<Json>, b: seq<Selection>, a: seq<Selection>, path: Path, path': Path)
    requires NoChildResolver(q) && Quiet(a, b)
    ensures ResolveItems(q, t, ResolveItems(q, t, items, b, path).0, a, path').1 == []
    decreases a, 3, |items|
  {
    if items != [] {
      var n := |items| - 1;
      var init := items[..n];
      QuietItems(q, t, init, b, a, path, path');
      QuietItem(q, t, items[n], b, a, path + [Index(n)], path' + [Index(n)]);
      ReselectSnoc(q, t, init, items[n], b, a, path, path');
      assert init + [items[n]] == items;
    }
  }

  lemma {:induction false} QuietChildren(
    q: Request, t: string, source: Json, b: seq<Selection>, a: seq<Selection>, path: Path, path': Path)
    requires NoChildResolver(q) && source.Object? && Quiet(a, b)
    ensures ResolveChildren(q, t, ResolveChildren(q, t, source, b, path).value, a, path').errs == []
    decreases a, 1
  {
    if a != [] {
      var n := |a| - 1;
      var out := ResolveChildren(q, t, source, b, path).value;
      QuietChildren(q, t, source, b, a[..n], path, path');
      QuietSelection(q, t, source, b, a[n], path, path' + [Key(a[n].name)]);
      ChildrenSnoc(q, t, out, a, path');
    }
  }

  /** Every resolver fails, and the given field names have a type. */
  function Silent(names: set<string>): Request {
    Request((t: string, f: string, s: Json, p: Path) => (Null, "no resolver"),
            map["Query" := map k | k in names :: "Query"])
  }

  /** Selecting a from the output of b reports something on this source, once the names have a type. */
  ghost predicate Reports(a: seq<Selection>, b: seq<Selection>, source: Json, names: set<string>) {
    source.Object? && forall all: set<string>, path: Path, path': Path | names <= all ::
      var out := ResolveChildren(Silent(all), "Query", source, b, path).value;
      ResolveChildren(Silent(all), "Query", out, a, path').errs != []
  }

  lemma {:induction false} ErrorsKept(q: Request, t: string, source: Json, a: seq<Selection>, x: Selection, path: Path)
    requires x in a && ResolveSelection(q, t, source, x, path + [Key(x.name)]).errs != []
    ensures ResolveChildren(q, t, source, a, path).errs != []
  {
    var n := |a| - 1;
    ChildrenSnoc(q, t, source, a, path);
    if a[n] != x {
      ErrorsKept(q, t, source, a[..n], x, path);
    }
  }

  lemma ReportsScalar(names: set<string>, source: Json, x: Selection, path: Path)
    requires x.name in names && x.children != [] && ProjectField(source, x.name) == Number(0.0)
    ensures ResolveSelection(Silent(names), "Query", source, x, path).errs != []
  {
    assert Silent(names).ChildType("Query", x.name) == "Query";
  }

  /** Where a nested selection meets a field that b copies as it is, or one that does not cover it. */
  lemma {:induction false} NotQuiet(a: seq<Selection>, b: seq<Selection>) returns (source: Json, names: set<string>)
    requires !Quiet(a, b)
    ensures Reports(a, b, source, names)
    decreases a
  {
    var x, i: nat :| x in a && x.children != [] && IsLast(b, i) && b[i].name == x.name
                     && !(b[i].children != [] && Quiet(x.children, b[i].children));
    var inner: Json := Number(0.0);
    names := {};
    if b[i].children != [] {
      inner, names := NotQuiet(x.children, b[i].children);
    }
    ghost var below := names;
    names := names + {x.name};
    source := Object(map[x.name := inner]);
    forall all: set<string>, path: Path, path': Path | names <= all
      ensures var out := ResolveChildren(Silent(all), "Query", source, b, path).value;
              ResolveChildren(Silent(all), "Query", out, a, path').errs != []
    {
      assert below <= all;
      NotQuietAt(a, b, x, i, inner, below, all, path, path');
    }
  }

  lemma NotQuietAt(
    a: seq<Selection>, b: seq<Selection>, x: Selection, i: nat, inner: Json, below: set<string>,
    all: set<string>, path: Path, path': Path)
    requires x in a && x.children != [] && IsLast(b, i) && b[i].name == x.name
    requires if b[i].children == [] then inner == Number(0.0) else Reports(x.children, b[i].children, inner, below)
    requires x.name in all && below <= all
    ensures var q, source := Silent(all), Object(map[x.name := inner]);
            ResolveChildren(q, "Query", ResolveChildren(q, "Query", source, b, path).value, a, path').errs != []
  {
    var q, source := Silent(all), Object(map[x.name := inner]);
    var out := ResolveChildren(q, "Query", source, b, path).value;
    var at, at' := path + [Key(x.name)], path' + [Key(x.name)];
    LastValue(q, "Query", source, b, path, i);
    if b[i].children == [] {
      ReportsScalar(all, out, x, at');
    } else {
      assert q.ChildType("Query", x.name) == "Query";
      assert ProjectField(out, x.name) == ResolveChildren(q, "Query", inner, b[i].children, at).value;
      assert ResolveChildren(q, "Query", ProjectField(out, x.name), x.children, at').errs != [];
    }
    ErrorsKept(q, "Query", out, a, x, path');
  }

  /** Main result: without child resolvers, selecting again from the output of a selection over an object gives
      that very output; and it reports nothing, whatever the object and the schema, exactly when the selection
      covers itself. */
  lemma ProjectionIdempotent(children: seq<Selection>)
    ensures forall q: Request, t: string, source: Json, path: Path | NoChildResolver(q) && source.Object? ::
              var out := ResolveChildren(q, t, source, children, path).value;
              ResolveChildren(q, t, out, children, path).value == out
    ensures (forall q: Request, t: string, source: Json, path: Path | NoChildResolver(q) && source.Object? ::
               ResolveChildren(q, t, ResolveChildren(q, t, source, children, path).value, children, path).errs == [])
            <==> Quiet(children, children)
  {
    forall q: Request, t: string, source: Json, path: Path | NoChildResolver(q) && source.Object?
      ensures var out := ResolveChildren(q, t, source, children, path).value;
              ResolveChildren(q, t, out, children, path).value == out
    {
      ReplayChildren(q, t, source, children, path, path);
    }
    if Quiet(children, children) {
      forall q: Request, t: string, source: Json, path: Path | NoChildResolver(q) && source.Object?
        ensures ResolveChildren(q, t, ResolveChildren(q, t, source, children, path).value, children, path).errs == []
      {
        QuietChildren(q, t, source, children, children, path, path);
      }
    } else {
      var source, names := NotQuiet(children, children);
      var q, path: Path := Silent(names), [];
      assert NoChildResolver(q) && source.Object?;
      var out := ResolveChildren(q, "Query", source, children, path).value;
      assert ResolveChildren(q, "Query", out, children, path).errs != [];
    }
  }

  ghost predicate DistinctNames(sels: seq<Selection>)
  {
    && (forall i, j | 0 <= i < j < |sels| :: sels[i].name != sels[j].name)
    && (forall s | s in sels :: DistinctNames(s.children))
  }

  /** Siblings with distinct names cover themselves. */
  lemma {:induction false} DistinctIsQuiet(sels: seq<Selection>)
    requires DistinctNames(sels)
    ensures Quiet(sels, sels)
    decreases sels
  {
    forall x, i: nat | x in sels && x.children != [] && IsLast(sels, i) && sels[i].name == x.name
      ensures sels[i].children != [] && Quiet(x.children, sels[i].children)
    {
      var k :| 0 <= k < |sels| && sels[k] == x;
      assert k == i;
      DistinctIsQuiet(x.children);
    }
  }

  // ---------------------------------------------------------------- leaves

  /** The value at a path, null where the path leaves the value. */
  ghost function Follow(v: Json, p: Path): Json {
    if p == [] then v
    else match p[0]
      case Key(k) => if v.Object? && k in v.fields then Follow(v.fields[k], p[1..]) else Null
      case Index(i) => if v.List? && i < |v.items| then Follow(v.items[i], p[1..]) else Null
  }

  /** The path names selected fields only, ends at one without a nested selection and may step into one
      list after each field that has one. Where siblings share a name it goes through the last. */
  ghost predicate SelectsLeaf(children: seq<Selection>, p: Path)
  {
    && p != [] && p[0].Key?
    && exists i: nat :: IsLast(children, i) && children[i].name == p[0].key && LeafOf(children[i], p[1..])
  }

  ghost predicate LeafOf(sel: Selection, p: Path)
  {
    if sel.children == [] then p == []
    else SelectsLeaf(sel.children, p) || (p != [] && p[0].Index? && SelectsLeaf(sel.children, p[1..]))
  }

  /** No error is reported at a path or at a prefix of it. */
  ghost predicate NoErrorAt(errs: seq<GqlError>, path: Path) {
    forall e | e in errs :: !(e.path <= path)
  }

  lemma StepInto(path: Path, p: Path)
    requires p != []
    ensures path + p == path + [p[0]] + p[1..]
  {
  }

  /** Without an error at its path, a nested selection has a known type and a value that it can enter. */
  lemma Enterable(q: Request, t: string, sel: Selection, v: Json, path: Path, p: Path)
    requires NoErrorAt(ApplyNested(q, t, sel, v, path).errs, path + p)
    ensures q.ChildType(t, sel.name) != "" && (v.Null? || v.Object? || v.List?)
  {
    var errs := ApplyNested(q, t, sel, v, path).errs;
    assert path <= path + p;
    assert errs != [] ==> errs[0] in errs;
  }

  lemma {:induction false} SelectionVerbatim(
    q: Request, t: string, source: Json, sel: Selection, path: Path, p: Path)
    requires NoChildResolver(q) && source.Object? && LeafOf(sel, p)
    requires NoErrorAt(ResolveSelection(q, t, source, sel, path).errs, path + p)
    ensures Follow(ResolveSelection(q, t, source, sel, path).value, p) == Follow(ProjectField(source, sel.name), p)
    decreases sel, 1
  {
    var v := ProjectField(source, sel.name);
    assert q.invoke(t, sel.name, source, path).1 != "";
    if sel.children != [] && !v.Null? {
      NestedVerbatim(q, t, sel, v, path, p);
    }
  }

  lemma {:induction false} NestedVerbatim(q: Request, t: string, sel: Selection, v: Json, path: Path, p: Path)
    requires NoChildResolver(q) && sel.children != [] && LeafOf(sel, p)
    requires NoErrorAt(ApplyNested(q, t, sel, v, path).errs, path + p)
    ensures Follow(ApplyNested(q, t, sel, v, path).value, p) == Follow(v, p)
    decreases sel, 0
  {
    Enterable(q, t, sel, v, path, p);
    var childType := q.ChildType(t, sel.name);
    match v
    case Object(_) =>
      if SelectsLeaf(sel.children, p) { ChildrenVerbatim(q, childType, v, sel.children, path, p); }
    case List(items) =>
      if p[0].Index? && p[0].i < |items| {
        StepInto(path, p);
        ItemsVerbatim(q, childType, items, sel.children, path, p[0].i, p[1..]);
      }
    case _ =>
  }

  lemma {:induction false} ItemVerbatim(
    q: Request, t: string, item: Json, children: seq<Selection>, path: Path, p: Path)
    requires NoChildResolver(q) && SelectsLeaf(children, p)
    requires NoErrorAt(ResolveItem(q, t, item, children, path).errs, path + p)
    ensures Follow(ResolveItem(q, t, item, children, path).value, p) == Follow(item, p)
    decreases children, 1
  {
    var errs := ResolveItem(q, t, item, children, path).errs;
    assert path <= path + p;
    assert errs != [] ==> errs[0] in errs;
    if item.Object? {
      ChildrenVerbatim(q, t, item, children, path, p);
    }
  }

  lemma {:induction false} ItemsVerbatim(
    q: Request, t: string, items: seq<Json>, children: seq<Selection>, path: Path, i: nat, p: Path)
    requires NoChildResolver(q) && i < |items| && SelectsLeaf(children, p)
    requires NoErrorAt(ResolveItems(q, t, items, children, path).1, path + [Index(i)] + p)
    ensures Follow(ResolveItems(q, t, items, children, path).0[i], p) == Follow(items[i], p)
    decreases children, 2, |items|
  {
    var n := |items| - 1;
    var (out, errs) := ResolveItems(q, t, items[..n], children, path);
    var r := ResolveItem(q, t, items[n], children, path + [Index(n)]);
    ItemsSnoc(q, t, items[..n], items[n], children, path);
    assert items[..n] + [items[n]] == items;
    assert forall e | e in errs || e in r.errs :: e in errs + r.errs;
    if i < n {
      ItemsVerbatim(q, t, items[..n], children, path, i, p);
    } else {
      ItemVerbatim(q, t, items[n], children, path + [Index(n)], p);
    }
  }

  /** Main result: with no child resolver, the answer holds at every selected leaf exactly what the source object
      holds there, unless an error is reported at the leaf's path or a prefix of it. */
  lemma {:induction false} ChildrenVerbatim(
    q: Request, t: string, source: Json, children: seq<Selection>, path: Path, p: Path)
    requires NoChildResolver(q) && source.Object? && SelectsLeaf(children, p)
    requires NoErrorAt(ResolveChildren(q, t, source, children, path).errs, path + p)
    ensures Follow(ResolveChildren(q, t, source, children, path).value, p) == Follow(source, p)
    decreases children, 0
  {
    var i: nat :| IsLast(children, i) && children[i].name == p[0].key && LeafOf(children[i], p[1..]);
    var name := children[i].name;
    StepInto(path, p);
    LastValue(q, t, source, children, path, i);
    ErrorsOf(q, t, source, children, path, i);
    SelectionVerbatim(q, t, source, children[i], path + [Key(name)], p[1..]);
    if name !in source.fields { FollowNull(p[1..]); }
  }

  /** The errors of a child are among those of its parent. */
  lemma {:induction false} ErrorsOf(q: Request, t: string, source: Json, children: seq<Selection>, path: Path, i: nat)
    requires i < |children|
    ensures forall e | e in ResolveSelection(q, t, source, children[i], path + [Key(children[i].name)]).errs ::
              e in ResolveChildren(q, t, source, children, path).errs
  {
    var n := |children| - 1;
    ChildrenSnoc(q, t, source, children, path);
    if i < n {
      ErrorsOf(q, t, source, children[..n], path, i);
    }
  }

  lemma FollowNull(p: Path)
    ensures Follow(Null, p) == Null
  {
  }
}
