/** The errors of the AppSync executor: where their paths lead, and for which queries they are sound. */
module AppSyncErrors {
  import opened AppSync

  /** Follows a response path into a JSON value. */
  ghost predicate LeadsToNull(v: Json, p: Path)
  {
    if p == [] then v.Null?
    else match p[0]
      case Key(k) => v.Object? && k in v.fields && LeadsToNull(v.fields[k], p[1..])
      case Index(i) => v.List? && i < |v.items| && LeadsToNull(v.items[i], p[1..])
  }

  /** No field that can report an error is followed by a sibling of its name. At the root every field can; below
      it a field without a nested selection falls back to its parent object and reports nothing. */
  ghost predicate Unshadowed(sels: seq<Selection>, root: bool)
  {
    && (forall i, j | 0 <= i < j < |sels| && sels[i].name == sels[j].name :: !root && sels[i].children == [])
    && (forall s | s in sels :: Unshadowed(s.children, false))
  }

  /** No error path is a prefix of, or equal to, another's. */
  ghost predicate Antichain(errs: seq<GqlError>) {
    forall i, j | 0 <= i < |errs| && 0 <= j < |errs| && i != j :: !(errs[i].path <= errs[j].path)
  }

  ghost predicate Located(errs: seq<GqlError>, v: Json, base: Path) {
    forall e | e in errs :: base <= e.path && LeadsToNull(v, e.path[|base|..])
  }

  ghost predicate SoundErrors(o: Outcome, base: Path) {
    Located(o.errs, o.value, base) && Antichain(o.errs)
  }

  /** Every error of a group sits under the base extended by one of the given steps. */
  ghost predicate Below(errs: seq<GqlError>, base: Path, steps: set<PathStep>) {
    forall e | e in errs :: base < e.path && e.path[|base|] in steps
  }

  lemma AntichainOfGroups(a: seq<GqlError>, b: seq<GqlError>, base: Path, steps: set<PathStep>, s: PathStep)
    requires Antichain(a) && Antichain(b)
    requires Below(a, base, steps) && Below(b, base, {s}) && s !in steps
    ensures Antichain(a + b)
    ensures Below(a + b, base, steps + {s})
  {
    var c := a + b;
    forall i, j | 0 <= i < |c| && 0 <= j < |c| && i != j ensures !(c[i].path <= c[j].path) {
      if i < |a| && j < |a| {
        assert c[i] == a[i] && c[j] == a[j];
      } else if i >= |a| && j >= |a| {
        assert c[i] == b[i - |a|] && c[j] == b[j - |a|];
      } else {
        assert c[i] in a || c[i] in b;
        assert c[j] in a || c[j] in b;
        assert c[i].path[|base|] != c[j].path[|base|];
      }
    }
  }

  /** Errors located in a child stay located when the child is put into its parent. */
  lemma LocatedInParent(errs: seq<GqlError>, child: Json, parent: Json, base: Path, s: PathStep)
    requires Located(errs, child, base + [s])
    requires match s
      case Key(k) => parent.Object? && k in parent.fields && parent.fields[k] == child
      case Index(i) => parent.List? && i < |parent.items| && parent.items[i] == child
    ensures Located(errs, parent, base)
    ensures Below(errs, base, {s})
  {
    forall e | e in errs
      ensures base < e.path && e.path[|base|] == s && LeadsToNull(parent, e.path[|base|..])
    {
      var rel := e.path[|base|..];
      assert (base + [s])[|base|] == s && e.path[|base|] == s;
      assert forall k | 0 <= k < |base| :: e.path[k] == (base + [s])[k];
      assert rel[0] == s;
      assert rel[1..] == e.path[|base + [s]|..];
    }
  }

  /** Adding one more entry leaves the errors of the other entries where they were. */
  lemma LocatedAfterPut(errs: seq<GqlError>, v: Json, base: Path, steps: set<PathStep>, name: string, val: Json)
    requires v.Object? && Located(errs, v, base) && Below(errs, base, steps) && Key(name) !in steps
    ensures Located(errs, Object(v.fields[name := val]), base)
  {
    forall e | e in errs ensures LeadsToNull(Object(v.fields[name := val]), e.path[|base|..]) {
      assert e.path[|base|..][0] == e.path[|base|];
    }
  }

  lemma LocatedAfterAppend(errs: seq<GqlError>, items: seq<Json>, base: Path, item: Json)
    requires Located(errs, List(items), base) && (forall e | e in errs :: base < e.path)
    ensures Located(errs, List(items + [item]), base)
  {
    forall e | e in errs ensures LeadsToNull(List(items + [item]), e.path[|base|..]) {
      var rel := e.path[|base|..];
      assert rel[0] == e.path[|base|];
      assert rel[0].Index? && (items + [item])[rel[0].i] == items[rel[0].i];
    }
  }

  /** The names of the fields that can report errors. */
  ghost function Reporting(children: seq<Selection>, root: bool): set<PathStep> {
    set i | 0 <= i < |children| && (root || children[i].children != []) :: Key(children[i].name)
  }

  ghost function Indices(n: nat): set<PathStep> {
    set i | 0 <= i < n :: Index(i)
  }

  lemma {:induction false} SelectionErrors(q: Request, parentType: string, source: Json, sel: Selection, path: Path)
    requires Unshadowed(sel.children, false)
    ensures SoundErrors(ResolveSelection(q, parentType, source, sel, path), path)
    decreases sel, 1
  {
    var (resolved, errMsg) := q.invoke(parentType, sel.name, source, path);
    if sel.children != [] {
      NestedErrors(q, parentType, sel, ProjectField(source, sel.name), path);
      NestedErrors(q, parentType, sel, resolved, path);
    }
  }

  lemma {:induction false} NestedErrors(q: Request, parentType: string, sel: Selection, v: Json, path: Path)
    requires Unshadowed(sel.children, false)
    ensures SoundErrors(ApplyNested(q, parentType, sel, v, path), path)
    decreases sel, 0
  {
    var childType := q.ChildType(parentType, sel.name);
    if childType != "" {
      match v
      case Object(_) => ChildrenErrors(q, childType, v, sel.children, path);
      case List(items) => ItemsErrors(q, childType, items, sel.children, path);
      case _ =>
    }
  }

  lemma {:induction false} ItemErrors(q: Request, childType: string, item: Json, children: seq<Selection>, path: Path)
    requires Unshadowed(children, false)
    ensures SoundErrors(ResolveItem(q, childType, item, children, path), path)
    decreases children, 1
  {
    if item.Object? {
      ChildrenErrors(q, childType, item, children, path);
    }
  }

  lemma {:induction false} ItemsErrors(
    q: Request, childType: string, items: seq<Json>, children: seq<Selection>, path: Path)
    requires Unshadowed(children, false)
    ensures var (out, errs) := ResolveItems(q, childType, items, children, path);
            Located(errs, List(out), path) && Antichain(errs) && Below(errs, path, Indices(|items|))
    decreases children, 2, |items|
  {
    if items != [] {
      var n := |items| - 1;
      var init := items[..n];
      ItemsErrors(q, childType, init, children, path);
      ItemErrors(q, childType, items[n], children, path + [Index(n)]);
      ItemsSnoc(q, childType, init, items[n], children, path);
      assert init + [items[n]] == items;
      var (out, errs) := ResolveItems(q, childType, init, children, path);
      ErrorsAfterAppend(errs, out, ResolveItem(q, childType, items[n], children, path + [Index(n)]), path);
    }
  }

  lemma ErrorsAfterAppend(errs: seq<GqlError>, out: seq<Json>, r: Outcome, path: Path)
    requires Located(errs, List(out), path) && Antichain(errs) && Below(errs, path, Indices(|out|))
    requires SoundErrors(r, path + [Index(|out|)])
    ensures Located(errs + r.errs, List(out + [r.value]), path) && Antichain(errs + r.errs)
    ensures Below(errs + r.errs, path, Indices(|out| + 1))
  {
    var n := |out|;
    LocatedAfterAppend(errs, out, path, r.value);
    LocatedInParent(r.errs, r.value, List(out + [r.value]), path, Index(n));
    AntichainOfGroups(errs, r.errs, path, Indices(n), Index(n));
    assert Indices(n) + {Index(n)} == Indices(n + 1);
  }

  lemma ErrorsAfterPut(init: Outcome, name: string, r: Outcome, path: Path, steps: set<PathStep>)
    requires init.value.Object? && SoundErrors(init, path) && Below(init.errs, path, steps) && Key(name) !in steps
    requires SoundErrors(r, path + [Key(name)])
    ensures SoundErrors(Put(init, name, r), path) && Below(Put(init, name, r).errs, path, steps + {Key(name)})
    ensures r.errs == [] ==> Below(Put(init, name, r).errs, path, steps)
  {
    var whole := Put(init, name, r).value;
    LocatedAfterPut(init.errs, init.value, path, steps, name, r.value);
    LocatedInParent(r.errs, r.value, whole, path, Key(name));
    AntichainOfGroups(init.errs, r.errs, path, steps, Key(name));
  }

  lemma {:induction false} ChildrenErrors(
    q: Request, typeName: string, source: Json, children: seq<Selection>, path: Path)
    requires Unshadowed(children, source.Null?)
    ensures var o := ResolveChildren(q, typeName, source, children, path);
            SoundErrors(o, path) && Below(o.errs, path, Reporting(children, source.Null?))
    decreases children, 0
  {
    if children != [] {
      var n := |children| - 1;
      var name, init := children[n].name, children[..n];
      ChildrenErrors(q, typeName, source, init, path);
      SelectionErrors(q, typeName, source, children[n], path + [Key(name)]);
      var r := ResolveSelection(q, typeName, source, children[n], path + [Key(name)]);
      ReportingSnoc(children, source.Null?);
      ErrorsAfterPut(ResolveChildren(q, typeName, source, init, path), name, r, path, Reporting(init, source.Null?));
      ChildrenSnoc(q, typeName, source, children, path);
    }
  }

  lemma ReportingSnoc(children: seq<Selection>, root: bool)
    requires children != [] && Unshadowed(children, root)
    ensures var n := |children| - 1;
            var name := Key(children[n].name);
            && name !in Reporting(children[..n], root)
            && Reporting(children, root)
               == Reporting(children[..n], root) + (if root || children[n].children != [] then {name} else {})
  {
  }

  /** In the answer to an unshadowed query every error path leads through the returned data to a null, and no
      error path is a prefix of another, over all root fields. */
  lemma QueryErrors(q: Request, sels: seq<Selection>)
    requires Unshadowed(sels, true)
    ensures var o := ResolveChildren(q, "Query", Null, sels, []);
            && (forall e | e in o.errs :: LeadsToNull(o.value, e.path))
            && Antichain(o.errs)
  {
    ChildrenErrors(q, "Query", Null, sels, []);
    var o := ResolveChildren(q, "Query", Null, sels, []);
    forall e | e in o.errs ensures LeadsToNull(o.value, e.path) {
      assert e.path[0..] == e.path;
    }
  }

  // ---------------------------------------------------------------- shadowed fields break it

  /** Two errors one of whose paths is a prefix of the other's, or an error under the field whose path does not
      lead to a null. */
  ghost predicate Unsound(o: Outcome, base: Path, name: string) {
    || !Antichain(o.errs)
    || exists e :: e in o.errs && base + [Key(name)] <= e.path && !LeadsToNull(o.value, e.path[|base|..])
  }

  lemma UnsoundIsNotSound(o: Outcome, base: Path, name: string)
    requires Unsound(o, base, name)
    ensures !SoundErrors(o, base)
  {
  }

  lemma AntichainOfParts(a: seq<GqlError>, b: seq<GqlError>)
    requires Antichain(a + b)
    ensures Antichain(a) && Antichain(b)
  {
    var c := a + b;
    forall i, j | 0 <= i < |a| && 0 <= j < |a| && i != j ensures !(a[i].path <= a[j].path) {
      assert c[i] == a[i] && c[j] == a[j];
    }
    forall i, j | 0 <= i < |b| && 0 <= j < |b| && i != j ensures !(b[i].path <= b[j].path) {
      assert c[|a| + i] == b[i] && c[|a| + j] == b[j];
    }
  }

  lemma UnsoundAfterPut(init: Outcome, base: Path, name: string, other: string, r: Outcome)
    requires init.value.Object? && Unsound(init, base, name) && other != name
    ensures Unsound(Put(init, other, r), base, name)
  {
    var whole := Put(init, other, r);
    if Antichain(whole.errs) {
      AntichainOfParts(init.errs, r.errs);
      var e :| e in init.errs && base + [Key(name)] <= e.path && !LeadsToNull(init.value, e.path[|base|..]);
      assert e in whole.errs;
      assert e.path[|base|..][0] == (base + [Key(name)])[|base|];
    }
  }

  lemma UnsoundInParent(init: Outcome, base: Path, name: string, r: Outcome, inner: string)
    requires init.value.Object? && Unsound(r, base + [Key(name)], inner)
    ensures Unsound(Put(init, name, r), base, name)
  {
    var whole, path := Put(init, name, r), base + [Key(name)];
    if Antichain(whole.errs) {
      AntichainOfParts(init.errs, r.errs);
      var e :| e in r.errs && path + [Key(inner)] <= e.path && !LeadsToNull(r.value, e.path[|path|..]);
      assert e in whole.errs;
      assert path <= e.path && e.path[|base|] == path[|base|];
      assert e.path[|base|..][0] == Key(name) && e.path[|base|..][1..] == e.path[|path|..];
    }
  }

  /** What is wrong with one field's answer is wrong with its parent's, when no later sibling has its name. */
  lemma {:induction false} UnsoundChild(
    q: Request, t: string, source: Json, children: seq<Selection>, path: Path, i: nat, inner: string)
    requires i < |children| && forall j | i < j < |children| :: children[j].name != children[i].name
    requires var below := path + [Key(children[i].name)];
             Unsound(ResolveSelection(q, t, source, children[i], below), below, inner)
    ensures Unsound(ResolveChildren(q, t, source, children, path), path, children[i].name)
  {
    var n := |children| - 1;
    var init := ResolveChildren(q, t, source, children[..n], path);
    var r := ResolveSelection(q, t, source, children[n], path + [Key(children[n].name)]);
    ChildrenSnoc(q, t, source, children, path);
    if i == n {
      UnsoundInParent(init, path, children[i].name, r, inner);
    } else {
      UnsoundChild(q, t, source, children[..n], path, i, inner);
      UnsoundAfterPut(init, path, children[i].name, children[n].name, r);
    }
  }

  // ---------------------------------------------------------------- resolvers that show it

  /** Every field fails. */
  function AllFail(): Request {
    Request((t: string, f: string, s: Json, p: Path) => (Null, "failed"), map[])
  }

  function KeysOf(path: Path): set<string> {
    set step | step in path && step.Key? :: step.key
  }

  /** An empty object for every field above a path, a number for every other, and one type for the path's keys. */
  function Probe(path: Path): Request {
    Request((t: string, f: string, s: Json, p: Path) => if p < path then (Object(map[]), "") else (Number(0.0), ""),
            map["Query" := map k | k in KeysOf(path) :: "Query"])
  }

  lemma ProbeAbove(path: Path, source: Json, sel: Selection, at: Path)
    requires at < path && sel.children != [] && Key(sel.name) in path
    ensures ResolveSelection(Probe(path), "Query", source, sel, at)
         == ResolveChildren(Probe(path), "Query", Object(map[]), sel.children, at)
  {
    assert Probe(path).ChildType("Query", sel.name) == "Query";
  }

  lemma ProbeAt(path: Path, source: Json, sel: Selection)
    requires Key(sel.name) in path
    ensures ResolveSelection(Probe(path), "Query", source, sel, path)
         == if sel.children == [] then Outcome(Number(0.0), [])
            else Outcome(Null, [GqlError("Cannot query fields on a scalar value", path)])
  {
    assert Probe(path).ChildType("Query", sel.name) == "Query";
  }

  ghost predicate ReportsAt(errs: seq<GqlError>, path: Path) {
    exists e :: e in errs && e.path == path
  }

  lemma {:induction false} NestedReports(source: Json, children: seq<Selection>, path: Path, i: nat)
    requires i < |children| && children[i].children != []
    ensures var at := path + [Key(children[i].name)];
            ReportsAt(ResolveChildren(Probe(at), "Query", source, children, path).errs, at)
  {
    var n := |children| - 1;
    var at := path + [Key(children[i].name)];
    ChildrenSnoc(Probe(at), "Query", source, children, path);
    assert Key(children[i].name) in at;
    if i == n {
      ProbeAt(at, source, children[n]);
      var r := ResolveSelection(Probe(at), "Query", source, children[n], at);
      assert r.errs[0] in r.errs;
    } else {
      NestedReports(source, children[..n], path, i);
      var e :| e in ResolveChildren(Probe(at), "Query", source, children[..n], path).errs && e.path == at;
      assert e in ResolveChildren(Probe(at), "Query", source, children, path).errs;
    }
  }

  /** The later sibling is the last child. */
  lemma ShadowedByLast(source: Json, children: seq<Selection>, path: Path, i: nat)
    requires i < |children| - 1 && children[i].name == children[|children| - 1].name && children[i].children != []
    ensures var name := children[i].name;
            Unsound(ResolveChildren(Probe(path + [Key(name)]), "Query", source, children, path), path, name)
  {
    var n := |children| - 1;
    var name := children[i].name;
    var at := path + [Key(name)];
    assert Key(name) in at;
    NestedReports(source, children[..n], path, i);
    ProbeAt(at, source, children[n]);
    var r := ResolveSelection(Probe(at), "Query", source, children[n], at);
    assert r.errs != [] ==> r.errs[0] in r.errs;
    Overwritten(ResolveChildren(Probe(at), "Query", source, children[..n], path), path, name, r);
    ChildrenSnoc(Probe(at), "Query", source, children, path);
  }

  /** A field with a nested selection and a later sibling of its name. */
  lemma {:induction false} ShadowedSibling(source: Json, children: seq<Selection>, path: Path, i: nat, j: nat)
    requires i < j < |children| && children[i].name == children[j].name && children[i].children != []
    ensures var name := children[i].name;
            Unsound(ResolveChildren(Probe(path + [Key(name)]), "Query", source, children, path), path, name)
  {
    var n := |children| - 1;
    var name := children[i].name;
    if children[n].name == name {
      ShadowedByLast(source, children, path, i);
    } else {
      var q, other := Probe(path + [Key(name)]), children[n].name;
      ShadowedSibling(source, children[..n], path, i, j);
      UnsoundAfterPut(ResolveChildren(q, "Query", source, children[..n], path), path, name, other,
                      ResolveSelection(q, "Query", source, children[n], path + [Key(other)]));
      ChildrenSnoc(q, "Query", source, children, path);
    }
  }

  lemma Overwritten(init: Outcome, path: Path, name: string, r: Outcome)
    requires init.value.Object? && ReportsAt(init.errs, path + [Key(name)])
    requires !r.value.Null? || ReportsAt(r.errs, path + [Key(name)])
    ensures Unsound(Put(init, name, r), path, name)
  {
    var whole, at := Put(init, name, r), path + [Key(name)];
    var e :| e in init.errs && e.path == at;
    assert e in whole.errs;
    if r.value.Null? {
      var k :| 0 <= k < |init.errs| && init.errs[k] == e;
      var e' :| e' in r.errs && e'.path == at;
      var l :| 0 <= l < |r.errs| && r.errs[l] == e';
      assert whole.errs[k] == e && whole.errs[|init.errs| + l] == e';
    } else {
      assert e.path[|path|..] == [Key(name)];
    }
  }

  /** Below the root, a shadowed field somewhere makes some resolver's answer unsound. */
  lemma {:induction false} ShadowedBelow(children: seq<Selection>, path: Path) returns (at: Path, name: string)
    requires !Unshadowed(children, false)
    ensures path < at
    ensures Unsound(ResolveChildren(Probe(at), "Query", Object(map[]), children, path), path, name)
    decreases children
  {
    if i: nat, j: nat :| i < j < |children| && children[i].name == children[j].name && children[i].children != [] {
      name := children[i].name;
      at := path + [Key(name)];
      ShadowedSibling(Object(map[]), children, path, i, j);
    } else {
      at, name := ShadowedChild(children, Object(map[]), path, false);
    }
  }

  /** The fields on this level are in order, a lower one is not. */
  lemma {:induction false} ShadowedChild(children: seq<Selection>, source: Json, path: Path, root: bool)
    returns (at: Path, name: string)
    requires !Unshadowed(children, root)
    requires forall i, j | 0 <= i < j < |children| && children[i].name == children[j].name ::
               !root && children[i].children == []
    ensures path < at
    ensures Unsound(ResolveChildren(Probe(at), "Query", source, children, path), path, name)
    decreases children, 0
  {
    var i: nat :| i < |children| && !Unshadowed(children[i].children, false);
    name := children[i].name;
    var below := path + [Key(name)];
    var inner;
    at, inner := ShadowedBelow(children[i].children, below);
    assert at[|path|] == below[|path|];
    ProbeAbove(at, source, children[i], below);
    UnsoundChild(Probe(at), "Query", source, children, path, i, inner);
  }

  lemma {:induction false} RootsFail(sels: seq<Selection>)
    ensures var errs := ResolveChildren(AllFail(), "Query", Null, sels, []).errs;
            |errs| == |sels| && forall i | 0 <= i < |sels| :: errs[i].path == [Key(sels[i].name)]
  {
    if sels != [] {
      var n := |sels| - 1;
      RootsFail(sels[..n]);
      ChildrenSnoc(AllFail(), "Query", Null, sels, []);
      assert [] + [Key(sels[n].name)] == [Key(sels[n].name)];
      var r := ResolveSelection(AllFail(), "Query", Null, sels[n], [Key(sels[n].name)]);
      assert |r.errs| == 1 && r.errs[0].path == [Key(sels[n].name)];
    }
  }

  /** Main result: the errors of a query are sound for every resolver and schema exactly when no field that can
      report an error is followed by a sibling of its name. */
  lemma ErrorsSoundIff(sels: seq<Selection>)
    ensures (forall q: Request :: SoundErrors(ResolveChildren(q, "Query", Null, sels, []), []))
            <==> Unshadowed(sels, true)
  {
    if Unshadowed(sels, true) {
      forall q: Request ensures SoundErrors(ResolveChildren(q, "Query", Null, sels, []), []) {
        ChildrenErrors(q, "Query", Null, sels, []);
      }
    } else if i: nat, j: nat :| i < j < |sels| && sels[i].name == sels[j].name {
      RootsFail(sels);
      var errs := ResolveChildren(AllFail(), "Query", Null, sels, []).errs;
      assert errs[i].path <= errs[j].path;
      assert !SoundErrors(ResolveChildren(AllFail(), "Query", Null, sels, []), []);
    } else {
      var at, name := ShadowedChild(sels, Null, [], true);
      var o := ResolveChildren(Probe(at), "Query", Null, sels, []);
      UnsoundIsNotSound(o, [], name);
      assert !SoundErrors(ResolveChildren(Probe(at), "Query", Null, sels, []), []);
    }
  }
}
