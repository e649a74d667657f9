/** The layer overlay: MergeLayerDirs and copyTree on a model filesystem. */
module Layers {
  import opened GoStrings

  /** A path below a root directory, as its components. */
  type Path = seq<string>

  datatype Node = Dir | File(content: string)

  /** The contents of a directory; the directory itself is not listed. */
  type Tree = map<Path, Node>

  /** Every entry's parent is a directory. */
  ghost predicate WellFormed(t: Tree) {
    forall p | p in t :: p != [] && DirAt(t, p[..|p| - 1])
  }

  predicate DirAt(t: Tree, p: Path) {
    p == [] || (p in t && t[p].Dir?)
  }

  /** What a layer path names. */
  datatype Source = Missing | NotADirectory | Directory(tree: Tree)

  /** No path is a file in one tree and a directory in the other. */
  ghost predicate Compatible(a: Tree, b: Tree) {
    forall p | p in a && p in b :: a[p].Dir? == b[p].Dir?
  }

  // ---------------------------------------------------------------- the overlay and its algebra

  /** Later trees win. */
  function Overlay(trees: seq<Tree>): Tree {
    if trees == [] then map[] else Overlay(trees[..|trees| - 1]) + trees[|trees| - 1]
  }

  ghost predicate PairwiseCompatible(trees: seq<Tree>) {
    forall i, j | 0 <= i < j < |trees| :: Compatible(trees[i], trees[j])
  }

  /** The last tree that has a path is the i-th, and the overlay shows what it holds there. */
  ghost predicate ShownBy(trees: seq<Tree>, p: Path, i: nat) {
    && i < |trees| && p in trees[i] && (forall j | i < j < |trees| :: p !in trees[j])
    && p in Overlay(trees) && Overlay(trees)[p] == trees[i][p]
  }

  /** A path shows what the last tree that has it holds there, and nothing else is there. */
  lemma {:induction false} OverlayAt(trees: seq<Tree>, p: Path)
    ensures p in Overlay(trees) ==> exists i: nat :: ShownBy(trees, p, i)
    ensures (exists i :: 0 <= i < |trees| && p in trees[i]) ==> p in Overlay(trees)
  {
    if trees != [] {
      var n: nat := |trees| - 1;
      var init := trees[..n];
      OverlayAt(init, p);
      if p in trees[n] {
        assert ShownBy(trees, p, n);
      } else if p in Overlay(init) {
        var i: nat :| ShownBy(init, p, i);
        ShownAfter(trees, p, i);
      } else {
        assert forall i | 0 <= i < n :: init[i] == trees[i];
      }
    }
  }

  lemma ShownAfter(trees: seq<Tree>, p: Path, i: nat)
    requires trees != [] && ShownBy(trees[..|trees| - 1], p, i) && p !in trees[|trees| - 1]
    ensures ShownBy(trees, p, i)
  {
    var n := |trees| - 1;
    forall j | i < j < |trees| ensures p !in trees[j] {
      assert j < n ==> trees[..n][j] == trees[j];
    }
  }

  /** Merging a concatenation is overlaying the second merge on the first. */
  lemma {:induction false} OverlayConcat(a: seq<Tree>, b: seq<Tree>)
    ensures Overlay(a + b) == Overlay(a) + Overlay(b)
  {
    if b == [] {
      assert a + b == a;
    } else {
      var n := |b| - 1;
      assert (a + b)[..|a + b| - 1] == a + b[..n];
      OverlayConcat(a, b[..n]);
    }
  }

  lemma {:induction false} OverlayWellFormed(trees: seq<Tree>)
    requires PairwiseCompatible(trees) && forall t | t in trees :: WellFormed(t)
    ensures WellFormed(Overlay(trees))
  {
    if trees != [] {
      var n := |trees| - 1;
      OverlayWellFormed(trees[..n]);
      AccumulatedCompatible(trees);
      PlusWellFormed(Overlay(trees[..n]), trees[n]);
    }
  }

  lemma PlusWellFormed(a: Tree, b: Tree)
    requires WellFormed(a) && WellFormed(b) && Compatible(a, b)
    ensures WellFormed(a + b)
  {
    forall p | p in a + b ensures p != [] && DirAt(a + b, p[..|p| - 1]) {
      assert p in b ==> DirAt(b, p[..|p| - 1]);
      assert p in a ==> DirAt(a, p[..|p| - 1]);
    }
  }

  /** Checking each layer against what has been merged before it is checking every pair of layers. */
  lemma AccumulatedCompatible(trees: seq<Tree>)
    requires trees != []
    ensures var init := trees[..|trees| - 1]; var last := trees[|trees| - 1];
            PairwiseCompatible(init) ==> (PairwiseCompatible(trees) <==> Compatible(Overlay(init), last))
  {
    var n := |trees| - 1;
    var init := trees[..n];
    if PairwiseCompatible(init) {
      if PairwiseCompatible(trees) {
        forall p | p in Overlay(init) && p in trees[n] ensures Overlay(init)[p].Dir? == trees[n][p].Dir? {
          OverlayAt(init, p);
          var i: nat :| ShownBy(init, p, i);
          assert Compatible(trees[i], trees[n]);
        }
      }
      if Compatible(Overlay(init), trees[n]) {
        forall i, j | 0 <= i < j < |trees| ensures Compatible(trees[i], trees[j]) {
          if j < n {
            assert Compatible(init[i], init[j]);
          } else {
            forall p | p in trees[i] && p in trees[n] ensures trees[i][p].Dir? == trees[n][p].Dir? {
              OverlayAt(init, p);
              assert p in init[i];
              var k: nat :| ShownBy(init, p, k);
              assert i < k ==> Compatible(init[i], init[k]);
            }
          }
        }
      }
    }
  }

  // ---------------------------------------------------------------- the copy

  /** os.MkdirAll: fails when a component is a file. */
  function MkdirAll(t: Tree, p: Path): (bool, Tree)
    decreases |p|
  {
    if p == [] then (true, t)
    else if p in t then (t[p].Dir?, t)
    else
      var (ok, t') := MkdirAll(t, p[..|p| - 1]);
      if ok then (true, t'[p := Dir]) else (false, t')
  }

  /** A destination directory, changed in place. */
  class Destination {
    var nodes: Tree

    constructor (nodes: Tree)
      ensures this.nodes == nodes
    {
      this.nodes := nodes;
    }

    /** The walk's callback for one entry. */
    method CopyEntry(p: Path, n: Node) returns (ok: bool)
      requires WellFormed(nodes) && p != [] && DirAt(nodes, p[..|p| - 1])
      modifies this
      ensures ok <==> (p in old(nodes) ==> old(nodes)[p].Dir? == n.Dir?)
      ensures nodes == if ok then old(nodes)[p := n] else old(nodes)
    {
      if n.Dir? {
        assert MkdirAll(nodes, p[..|p| - 1]) == (true, nodes);
        var (made, t) := MkdirAll(nodes, p);
        assert made ==> t == nodes[p := Dir];
        nodes := t;
        return made;
      }
      var (made, t) := MkdirAll(nodes, p[..|p| - 1]);
      nodes := t;
      if !made || (p in nodes && nodes[p].Dir?) {
        return false;
      }
      nodes := nodes[p := n];
      return true;
    }

    /** copyTree from an existing directory: visits the entries of t, each after its parent and otherwise in
        any order. */
    method CopyTree(t: Tree) returns (ok: bool)
      requires WellFormed(nodes) && WellFormed(t)
      modifies this
      ensures WellFormed(nodes)
      ensures ok <==> Compatible(old(nodes), t)
      ensures ok ==> nodes == old(nodes) + t
    {
      var todo := t.Keys;
      assert t - todo == map[] && nodes + map[] == nodes;
      while todo != {}
        invariant WellFormed(nodes) && todo <= t.Keys
        invariant nodes == old(nodes) + (t - todo) && Compatible(old(nodes), t - todo)
        invariant ParentsFirst(t, todo)
        decreases todo
      {
        NextEntry(todo);
        var p :| p in todo && (|p| > 1 ==> p[..|p| - 1] !in todo);
        ParentPresent(old(nodes), t, todo, p);
        VisitEntry(old(nodes), t, todo, p);
        PutWellFormed(nodes, p, t[p]);
        ok := CopyEntry(p, t[p]);
        if !ok {
          return;
        }
        todo := todo - {p};
      }
      assert t - {} == t;
      ok := true;
    }

    /** MergeLayerDirs: clears the destination, then copies the layers in order. The sources are looked up by
        their trimmed path; blank paths are skipped. */
    method MergeLayerDirs(layerPaths: seq<string>, sources: map<string, Source>) returns (ok: bool)
      requires forall s | s in sources && sources[s].Directory? :: WellFormed(sources[s].tree)
      modifies this
      ensures layerPaths == [] ==> ok && nodes == old(nodes)
      ensures layerPaths != [] ==>
                && WellFormed(nodes)
                && (ok <==> AllDirectories(layerPaths, sources) && PairwiseCompatible(Trees(layerPaths, sources)))
                && (ok ==> nodes == Overlay(Trees(layerPaths, sources)))
    {
      if layerPaths == [] {
        return true;
      }
      nodes := map[];
      ghost var before: seq<Tree> := [];
      for i := 0 to |layerPaths|
        invariant AllDirectories(layerPaths[..i], sources) && before == Trees(layerPaths[..i], sources)
        invariant PairwiseCompatible(before) && WellFormed(nodes) && nodes == Overlay(before)
      {
        TreesSnoc(layerPaths, sources, i);
        ok := MergeLayer(layerPaths[i], sources, before);
        if !ok {
          RejectedLayer(layerPaths, sources, i);
          return false;
        }
        before := before + LayerOf(layerPaths[i], sources);
      }
      assert layerPaths[..|layerPaths|] == layerPaths;
      return true;
    }

    /** One round of its loop, on a destination that holds the layers before. */
    method MergeLayer(path: string, sources: map<string, Source>, ghost before: seq<Tree>) returns (ok: bool)
      requires forall s | s in sources && sources[s].Directory? :: WellFormed(sources[s].tree)
      requires WellFormed(nodes) && nodes == Overlay(before) && PairwiseCompatible(before)
      modifies this
      ensures WellFormed(nodes)
      ensures ok <==> IsLayer(path, sources) && PairwiseCompatible(before + LayerOf(path, sources))
      ensures ok ==> nodes == Overlay(before + LayerOf(path, sources))
    {
      var src := TrimSpace(path);
      if src == "" {
        assert before + LayerOf(path, sources) == before;
        return true;
      }
      var source := if src in sources then sources[src] else Missing;
      if !source.Directory? {
        return false;
      }
      OneMoreLayer(before, source.tree);
      ok := CopyTree(source.tree);
    }
  }

  lemma NextEntry(todo: set<Path>)
    requires todo != {}
    ensures exists p :: p in todo && (|p| > 1 ==> p[..|p| - 1] !in todo)
  {
    var p :| p in todo;
    if |p| > 1 && p[..|p| - 1] in todo {
      Shortest(todo, p);
    }
  }

  lemma {:induction false} Shortest(todo: set<Path>, p: Path)
    requires p in todo
    ensures exists q :: q in todo && (|q| > 1 ==> q[..|q| - 1] !in todo)
    decreases |p|
  {
    if |p| > 1 && p[..|p| - 1] in todo {
      Shortest(todo, p[..|p| - 1]);
    }
  }

  /** What has been visited is closed under parents. */
  ghost predicate ParentsFirst(t: Tree, todo: set<Path>) {
    forall p | p in t && p !in todo && |p| > 1 :: p[..|p| - 1] !in todo
  }

  lemma ParentPresent(base: Tree, t: Tree, todo: set<Path>, p: Path)
    requires WellFormed(t) && p in t && (|p| > 1 ==> p[..|p| - 1] !in todo)
    ensures p != [] && DirAt(base + (t - todo), p[..|p| - 1])
  {
    assert DirAt(t, p[..|p| - 1]);
    if |p| > 1 {
      assert p[..|p| - 1] in t - todo;
    } else {
      assert p[..|p| - 1] == [];
    }
  }

  /** Visiting one more entry: what it does to the merged tree, and when it fails. */
  lemma VisitEntry(base: Tree, t: Tree, todo: set<Path>, p: Path)
    requires todo <= t.Keys && p in todo && Compatible(base, t - todo)
    ensures (base + (t - todo))[p := t[p]] == base + (t - (todo - {p}))
    ensures var before := base + (t - todo); var fits := p in before ==> before[p].Dir? == t[p].Dir?;
            && (fits ==> Compatible(base, t - (todo - {p})))
            && (!fits ==> !Compatible(base, t))
  {
    assert t - (todo - {p}) == (t - todo)[p := t[p]];
  }

  lemma PutWellFormed(t: Tree, p: Path, n: Node)
    requires WellFormed(t) && p != [] && DirAt(t, p[..|p| - 1])
    ensures (p in t ==> t[p].Dir? == n.Dir?) ==> WellFormed(t[p := n])
  {
    if p in t && t[p].Dir? != n.Dir? {
      return;
    }
    forall q | q in t[p := n] ensures q != [] && DirAt(t[p := n], q[..|q| - 1]) {
      assert q != p ==> DirAt(t, q[..|q| - 1]);
    }
  }

  // ---------------------------------------------------------------- the layer list

  /** A path is blank or names a directory. */
  predicate IsLayer(path: string, sources: map<string, Source>) {
    var src := TrimSpace(path);
    src == "" || (src in sources && sources[src].Directory?)
  }

  /** The tree that a path adds, none for a blank or a bad path. */
  function LayerOf(path: string, sources: map<string, Source>): seq<Tree> {
    var src := TrimSpace(path);
    if src != "" && src in sources && sources[src].Directory? then [sources[src].tree] else []
  }

  function Trees(layerPaths: seq<string>, sources: map<string, Source>): seq<Tree> {
    if layerPaths == [] then []
    else Trees(layerPaths[..|layerPaths| - 1], sources) + LayerOf(layerPaths[|layerPaths| - 1], sources)
  }

  ghost predicate AllDirectories(layerPaths: seq<string>, sources: map<string, Source>) {
    forall p | p in layerPaths :: IsLayer(p, sources)
  }

  lemma TreesSnoc(layerPaths: seq<string>, sources: map<string, Source>, i: nat)
    requires i < |layerPaths|
    ensures Trees(layerPaths[..i + 1], sources) == Trees(layerPaths[..i], sources) + LayerOf(layerPaths[i], sources)
  {
    assert layerPaths[..i + 1][..i] == layerPaths[..i];
  }

  lemma OneMoreLayer(before: seq<Tree>, tree: Tree)
    requires PairwiseCompatible(before)
    ensures PairwiseCompatible(before + [tree]) <==> Compatible(Overlay(before), tree)
    ensures Overlay(before + [tree]) == Overlay(before) + tree
  {
    assert (before + [tree])[..|before|] == before;
    AccumulatedCompatible(before + [tree]);
  }

  lemma {:induction false} TreesPrefix(layerPaths: seq<string>, sources: map<string, Source>, i: nat)
    requires i <= |layerPaths|
    ensures Trees(layerPaths[..i], sources) <= Trees(layerPaths, sources)
    decreases |layerPaths|
  {
    if i < |layerPaths| {
      var init := layerPaths[..|layerPaths| - 1];
      TreesPrefix(init, sources, i);
      assert init[..i] == layerPaths[..i];
    } else {
      assert layerPaths[..i] == layerPaths;
    }
  }

  /** A layer that cannot be merged onto those before it spoils the whole list. */
  lemma RejectedLayer(layerPaths: seq<string>, sources: map<string, Source>, i: nat)
    requires i < |layerPaths|
    requires var before := Trees(layerPaths[..i], sources);
             !(IsLayer(layerPaths[i], sources) && PairwiseCompatible(before + LayerOf(layerPaths[i], sources)))
    ensures !(AllDirectories(layerPaths, sources) && PairwiseCompatible(Trees(layerPaths, sources)))
  {
    assert layerPaths[i] in layerPaths;
    TreesSnoc(layerPaths, sources, i);
    TreesPrefix(layerPaths, sources, i + 1);
    if !PairwiseCompatible(Trees(layerPaths[..i + 1], sources)) {
      PrefixCompatible(Trees(layerPaths[..i + 1], sources), Trees(layerPaths, sources));
    }
  }

  lemma PrefixCompatible(some: seq<Tree>, all: seq<Tree>)
    requires some <= all && !PairwiseCompatible(some)
    ensures !PairwiseCompatible(all)
  {
    var j, k :| 0 <= j < k < |some| && !Compatible(some[j], some[k]);
    assert some[j] == all[j] && some[k] == all[k];
  }

  /** The layer at a path of the list that has an entry. */
  predicate HasEntry(path: string, sources: map<string, Source>, p: Path) {
    var src := TrimSpace(path);
    src != "" && src in sources && sources[src].Directory? && p in sources[src].tree
  }

  predicate HasNone(layerPaths: seq<string>, sources: map<string, Source>, p: Path) {
    forall path | path in layerPaths :: !HasEntry(path, sources, p)
  }

  predicate LastWith(layerPaths: seq<string>, sources: map<string, Source>, p: Path, i: nat) {
    && i < |layerPaths| && HasEntry(layerPaths[i], sources, p)
    && HasNone(layerPaths[i + 1..], sources, p)
  }

  /** Main result: the merge has an entry exactly where some layer of the list has one, and shows there what the
      last of those layers holds. */
  lemma {:induction false} MergedAt(layerPaths: seq<string>, sources: map<string, Source>, p: Path)
    ensures p in Overlay(Trees(layerPaths, sources)) <==> exists i: nat :: LastWith(layerPaths, sources, p, i)
    ensures forall i: nat | LastWith(layerPaths, sources, p, i) ::
              && p in Overlay(Trees(layerPaths, sources))
              && Overlay(Trees(layerPaths, sources))[p] == sources[TrimSpace(layerPaths[i])].tree[p]
  {
    if layerPaths != [] {
      var n: nat := |layerPaths| - 1;
      var init, last := layerPaths[..n], layerPaths[n];
      assert layerPaths == init + [last];
      MergedAt(init, sources, p);
      LayerOnTop(Trees(init, sources), last, sources, p);
      LastIsLast(init, last, sources, p);
      forall i: nat ensures LastWith(layerPaths, sources, p, i) <==>
                              if HasEntry(last, sources, p) then i == n else LastWith(init, sources, p, i)
      {
        LastWithSnoc(init, last, sources, p, i);
      }
      assert HasEntry(last, sources, p) ==> LastWith(layerPaths, sources, p, n);
    }
  }

  lemma LastIsLast(init: seq<string>, last: string, sources: map<string, Source>, p: Path)
    ensures LastWith(init + [last], sources, p, |init|) <==> HasEntry(last, sources, p)
  {
    assert (init + [last])[|init| + 1..] == [];
  }

  lemma LastWithSnoc(init: seq<string>, last: string, sources: map<string, Source>, p: Path, i: nat)
    ensures LastWith(init + [last], sources, p, i) <==>
              if HasEntry(last, sources, p) then i == |init| else LastWith(init, sources, p, i)
  {
    if i < |init| {
      assert (init + [last])[i + 1..] == init[i + 1..] + [last];
    } else if i == |init| {
      LastIsLast(init, last, sources, p);
    }
  }

  lemma LayerOnTop(before: seq<Tree>, path: string, sources: map<string, Source>, p: Path)
    ensures var all := Overlay(before + LayerOf(path, sources));
            if HasEntry(path, sources, p) then p in all && all[p] == sources[TrimSpace(path)].tree[p]
            else (p in all <==> p in Overlay(before)) && (p in all ==> all[p] == Overlay(before)[p])
  {
    var layer := LayerOf(path, sources);
    if layer == [] {
      assert before + layer == before;
    } else {
      assert (before + layer)[..|before|] == before;
    }
  }
}
