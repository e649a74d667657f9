/** Nested data containers: starting, stopping and idempotently ensuring one by name, and waiting for it to
    stay up. */
module DataPlane {
  import opened Wrappers
  import opened GoStrings
  import opened BindsHash

  type Cid = nat

  const LABEL_MANAGED := "noctaxris.managed"
  const LABEL_DATA_KIND := "noctaxris.data"
  const LABEL_BINDS_HASH := "noctaxris.binds_hash"

  datatype Container = Container(name: string, labels: map<string, string>, running: bool)

  type Containers = map<Cid, Container>

  datatype Opts = Opts(kind: string, name: string, binds: seq<string>, labels: map<string, string>, valid: bool)

  /** How the engine answered a call that it could have carried out. That a container is missing is a matter of
      the state, not of the answer. */
  datatype Answer = Done | Refused

  ghost predicate UniqueNames(cs: Containers) {
    forall c, d, name :: Bears(cs, c, name) && Bears(cs, d, name) ==> c == d
  }

  ghost predicate Bears(cs: Containers, c: Cid, name: string) {
    c in cs && cs[c].name == name
  }

  /** The fingerprint label of a container, empty when it has none. */
  function HashLabel(k: Container): string {
    if LABEL_BINDS_HASH in k.labels then k.labels[LABEL_BINDS_HASH] else ""
  }

  /** The labels of a started container: its own three, which no user label replaces, and the user's. */
  function Labels(digest: string -> string, opts: Opts): map<string, string> {
    (map k | k in opts.labels && k != "" :: opts.labels[k])
      + map[LABEL_MANAGED := "true", LABEL_DATA_KIND := opts.kind, LABEL_BINDS_HASH := Fingerprint(digest, opts.binds)]
  }

  /** The name asked for, or a generated one when it is blank. */
  function NameFor(opts: Opts, generated: string): string {
    if TrimSpace(opts.name) != "" then TrimSpace(opts.name) else generated
  }

  // ---------------------------------------------------------------- the client

  class Client {
    var containers: Containers
    var next: Cid
    var calls: nat
    /** How many containers were removed to be recreated. */
    ghost var recreations: nat
    const oracle: nat -> Answer
    const digest: string -> string
    const generate: Cid -> string

    ghost predicate Valid()
      reads this
    {
      UniqueNames(containers) && forall c | c in containers :: c < next
    }

    constructor (oracle: nat -> Answer, digest: string -> string, generate: Cid -> string)
      ensures Valid() && containers == map[] && recreations == 0
      ensures this.oracle == oracle && this.digest == digest && this.generate == generate
    {
      this.oracle := oracle;
      this.digest := digest;
      this.generate := generate;
      containers, next, calls, recreations := map[], 0, 0, 0;
    }

    method Call() returns (a: Answer)
      modifies this`calls
      ensures a == oracle(old(calls)) && calls == old(calls) + 1
    {
      a := oracle(calls);
      calls := calls + 1;
    }

    /** n calls from number k on are answered without an error. */
    ghost predicate AllDone(k: nat, n: nat) {
      forall i: nat | k <= i < k + n :: oracle(i).Done?
    }

    lemma AllDoneSplit(k: nat, m: nat, n: nat)
      ensures AllDone(k, m + n) <==> AllDone(k, m) && AllDone(k + m, n)
    {
    }

    /** ContainerInspect by name: the one container that bears it. */
    method Lookup(name: string) returns (found: Option<Cid>)
      requires Valid()
      ensures match found
              case Some(c) => Bears(containers, c, name)
              case None => forall c :: !Bears(containers, c, name)
    {
      var todo := containers.Keys;
      while todo != {}
        invariant todo <= containers.Keys
        invariant forall c | c in containers && c !in todo :: containers[c].name != name
      {
        var c :| c in todo;
        if containers[c].name == name {
          return Some(c);
        }
        todo := todo - {c};
      }
      return None;
    }

    /** StartDataPlane: on success one more container, running, with the labels above; on failure nothing, or,
        when the forced removal of a container that did not start failed too, that container, not running. */
    method StartDataPlane(opts: Opts) returns (started: Option<Cid>)
      requires Valid()
      modifies this`containers, this`next, this`calls
      ensures Valid()
      ensures var name := NameFor(opts, generate(old(next)));
              && Started(old(containers), containers, old(next), Container(name, Labels(digest, opts), true), started)
              && (started.Some? <==> opts.valid && NoneBears(old(containers), name) && AllDone(old(calls), 3))
    {
      AllDoneSplit(calls, 1, 2);
      var name, labels := NameFor(opts, generate(next)), Labels(digest, opts);
      if !opts.valid {
        return None;
      }
      var a := Call();
      if !a.Done? {
        return None;
      }
      started := CreateAndStart(name, labels);
    }

    /** The create, the start and, when that fails, the forced removal. */
    method CreateAndStart(name: string, labels: map<string, string>) returns (started: Option<Cid>)
      requires Valid()
      modifies this`containers, this`next, this`calls
      ensures Valid()
      ensures Started(old(containers), containers, old(next), Container(name, labels, true), started)
      ensures started.Some? <==> NoneBears(old(containers), name) && AllDone(old(calls), 2)
    {
      var taken := Lookup(name);
      var a := Call();
      if !a.Done? || taken.Some? {
        return None;
      }
      var c := next;
      AddKeepsUnique(containers, c, Container(name, labels, false));
      AddKeepsUnique(containers, c, Container(name, labels, true));
      containers := containers[c := Container(name, labels, false)];
      next := next + 1;
      a := Call();
      if !a.Done? {
        a := Call();
        if a.Done? {
          containers := containers - {c};
          assert containers == old(containers);
        }
        return None;
      }
      containers := containers[c := Container(name, labels, true)];
      assert containers == old(containers)[c := Container(name, labels, true)];
      return Some(c);
    }

    /** StopDataPlane: without an error the container is gone; a container that is already gone is no error. */
    method StopDataPlane(c: Cid) returns (ok: bool)
      requires Valid()
      modifies this`containers, this`calls
      ensures Valid()
      ensures if ok then containers == old(containers) - {c}
              else c in old(containers) && (containers == old(containers)
                   || containers == old(containers)[c := old(containers)[c].(running := false)])
      ensures ok <==> c !in old(containers) || AllDone(old(calls), 2)
      ensures c in old(containers) && ok ==> calls == old(calls) + 2
    {
      if c !in containers {
        assert containers - {c} == containers;
        return true;
      }
      var a := Call();
      if !a.Done? {
        return false;
      }
      SwitchKeepsUnique(containers, c, false);
      RemoveKeepsUnique(containers, c);
      containers := containers[c := containers[c].(running := false)];
      a := Call();
      if !a.Done? {
        return false;
      }
      containers := containers - {c};
      assert containers == old(containers) - {c};
      return true;
    }

    /** When an ensure succeeds: a new container takes the inspect and three calls of the start, one that bears the
        name the inspect and what it needs. */
    ghost predicate EnsureAnswered(cs: Containers, k: nat, name: string, want: string, valid: bool) {
      && name != "" && oracle(k).Done?
      && (NoneBears(cs, name) ==> valid && AllDone(k + 1, 3))
      && (forall c :: Bears(cs, c, name) ==> FoundAnswered(cs[c], k + 1, want, valid))
    }

    /** A container with the wanted fingerprint needs a start if it is down, any other the two calls of the stop and
        the three of the start. */
    ghost predicate FoundAnswered(found: Container, k: nat, want: string, valid: bool) {
      if HashLabel(found) == want then found.running || oracle(k).Done? else valid && AllDone(k, 5)
    }

    lemma FoundDecides(cs: Containers, c: Cid, k: nat, name: string, want: string, valid: bool)
      requires UniqueNames(cs) && Bears(cs, c, name) && name != ""
      ensures EnsureAnswered(cs, k, name, want, valid) <==> oracle(k).Done? && FoundAnswered(cs[c], k + 1, want, valid)
    {
      forall d | Bears(cs, d, name) ensures d == c {
      }
    }

    /** EnsureDataPlaneByName, against the relation below. */
    method EnsureDataPlaneByName(opts: Opts) returns (ensured: Option<Cid>)
      requires Valid()
      modifies this
      ensures Valid() && recreations >= old(recreations)
      ensures TrimSpace(opts.name) == "" ==> ensured.None? && containers == old(containers)
      ensures OthersUntouched(old(containers), containers, TrimSpace(opts.name))
      ensures var name, want := TrimSpace(opts.name), Fingerprint(digest, opts.binds);
              ensured.Some? ==>
                && Ensured(old(containers), containers, name, want, ensured.value)
                && recreations == old(recreations) + if Outdated(old(containers), name, want) then 1 else 0
      ensures ensured.Some? <==>
                EnsureAnswered(old(containers), old(calls), TrimSpace(opts.name), Fingerprint(digest, opts.binds),
                               opts.valid)
    {
      var name := TrimSpace(opts.name);
      if name == "" {
        return None;
      }
      var want := Fingerprint(digest, opts.binds);
      LabelsHash(digest, opts);
      var a := Call();
      var found := Lookup(name);
      if !a.Done? {
        return None;
      }
      if found.None? {
        ensured := StartDataPlane(opts);
        StartEnsures(old(containers), containers, old(next), Container(name, Labels(digest, opts), true), ensured);
        return;
      }
      FoundDecides(containers, found.value, old(calls), name, want, opts.valid);
      ensured := EnsureFound(opts, found.value);
    }

    /** The branches for a container that bears the name. */
    method EnsureFound(opts: Opts, c: Cid) returns (ensured: Option<Cid>)
      requires Valid() && TrimSpace(opts.name) != "" && Bears(containers, c, TrimSpace(opts.name))
      modifies this
      ensures Valid() && recreations >= old(recreations)
      ensures OthersUntouched(old(containers), containers, TrimSpace(opts.name))
      ensures var name, want := TrimSpace(opts.name), Fingerprint(digest, opts.binds);
              && (ensured.Some? <==> FoundAnswered(old(containers)[c], old(calls), want, opts.valid))
              && (ensured.Some? ==>
                    && Ensured(old(containers), containers, name, want, ensured.value)
                    && recreations == old(recreations) + if Outdated(old(containers), name, want) then 1 else 0)
    {
      var want := Fingerprint(digest, opts.binds);
      LabelsHash(digest, opts);
      if HashLabel(containers[c]) != want {
        assert Outdated(containers, TrimSpace(opts.name), want);
        ensured := Recreate(opts, c, want);
        return;
      }
      var ok := Reuse(c, TrimSpace(opts.name));
      return if ok then Some(c) else None;
    }

    /** The branch for unchanged binds: a stopped container is started again. */
    method Reuse(c: Cid, name: string) returns (ok: bool)
      requires Valid() && Bears(containers, c, name)
      modifies this
      ensures Valid() && recreations == old(recreations) && OthersUntouched(old(containers), containers, name)
      ensures ok ==> Ensured(old(containers), containers, name, HashLabel(old(containers)[c]), c)
                     && !Outdated(old(containers), name, HashLabel(old(containers)[c]))
      ensures ok <==> old(containers)[c].running || oracle(old(calls)).Done?
    {
      ReuseEnsures(containers, c, name);
      if !containers[c].running {
        var a := Call();
        if !a.Done? {
          return false;
        }
        containers := containers[c := containers[c].(running := true)];
      }
      return true;
    }

    /** The branch for changed binds. */
    method Recreate(opts: Opts, c: Cid, want: string) returns (ensured: Option<Cid>)
      requires Valid() && TrimSpace(opts.name) != "" && Bears(containers, c, TrimSpace(opts.name))
      requires want == HashLabel(Container("", Labels(digest, opts), true)) && HashLabel(containers[c]) != want
      modifies this
      ensures Valid() && recreations >= old(recreations)
      ensures OthersUntouched(old(containers), containers, TrimSpace(opts.name))
      ensures ensured.Some? ==>
                && Ensured(old(containers), containers, TrimSpace(opts.name), want, ensured.value)
                && recreations == old(recreations) + 1
      ensures ensured.Some? <==> opts.valid && AllDone(old(calls), 5)
    {
      AllDoneSplit(calls, 2, 3);
      var stopped := StopDataPlane(c);
      if !stopped {
        StopLeavesOthers(old(containers), c);
        return None;
      }
      recreations := recreations + 1;
      ensured := StartAnew(opts, old(containers), c, want);
    }

    /** Its second half: the start in place of the container that has been removed. */
    method StartAnew(opts: Opts, ghost was: Containers, c: Cid, ghost want: string) returns (ensured: Option<Cid>)
      requires Valid() && UniqueNames(was) && containers == was - {c} && forall d | d in was :: d < next
      requires TrimSpace(opts.name) != "" && Bears(was, c, TrimSpace(opts.name))
      requires want == HashLabel(Container("", Labels(digest, opts), true)) && HashLabel(was[c]) != want
      modifies this`containers, this`next, this`calls
      ensures Valid() && OthersUntouched(was, containers, TrimSpace(opts.name))
      ensures ensured.Some? ==> Ensured(was, containers, TrimSpace(opts.name), want, ensured.value)
      ensures ensured.Some? <==> opts.valid && AllDone(old(calls), 3)
    {
      NoneAfterRemoval(was, c, TrimSpace(opts.name));
      ensured := StartDataPlane(opts);
      var k := Container(TrimSpace(opts.name), Labels(digest, opts), true);
      RecreateEnsures(was, c, containers, old(next), k, ensured);
    }

    /** Containers stop on their own. */
    method Stop(stopped: set<Cid>)
      requires Valid()
      modifies this`containers
      ensures Valid()
      ensures containers == map c | c in old(containers) ::
                              if c in stopped then old(containers)[c].(running := false) else old(containers)[c]
    {
      containers := map c | c in containers :: if c in stopped then containers[c].(running := false) else containers[c];
      StopsKeepUnique(old(containers), containers);
    }

    /** The history leads up to the present containers, and its recreations have been counted. */
    ghost predicate Tracks(name: string, h: seq<Ensure>, base: nat)
      reads this
    {
      && Valid() && History(digest, name, h)
      && (if h == [] then NoneBears(containers, name) else h[|h| - 1].after == containers)
      && recreations == base + Recreations(digest, name, h)
    }

    /** The engine answers every call without an error. */
    ghost predicate Answering() {
      forall k: nat :: oracle(k).Done?
    }

    lemma AnsweringEnsures(cs: Containers, k: nat, name: string, want: string)
      requires Answering() && name != ""
      ensures EnsureAnswered(cs, k, name, want, true)
    {
    }

    /** Some containers stop, then the name is ensured. */
    method EnsureAgain(name: string, opts: Opts, stopped: set<Cid>, ghost h: seq<Ensure>, ghost base: nat)
      returns (ok: bool, ghost e: Ensure)
      requires Tracks(name, h, base) && TrimSpace(opts.name) == name && FreeOf(opts.binds, '\n')
      modifies this
      ensures Valid() && e.binds == opts.binds && (ok ==> Tracks(name, h + [e], base))
      ensures Answering() && opts.valid && name != "" ==> ok
    {
      ghost var was := containers;
      Stop(stopped);
      ghost var before := containers;
      StopsOnly(was, before, stopped, name);
      if Answering() && name != "" {
        AnsweringEnsures(before, calls, name, Fingerprint(digest, opts.binds));
      }
      var c := EnsureDataPlaneByName(opts);
      ok := c.Some?;
      e := Ensure(opts.binds, before, containers);
      if ok {
        HistorySnoc(digest, name, h, e, c.value);
        RecreationsSnoc(digest, name, h, e);
      }
    }

    /** Ensures one name again and again, with containers stopping before each call, until a call fails. */
    method EnsureEach(name: string, list: seq<Opts>, stops: nat -> set<Cid>) returns (ok: bool)
      requires Valid() && NoneBears(containers, name) && AllNamed(list, name)
      modifies this
      ensures Valid()
      ensures ok && CollisionFree(digest) ==> recreations == old(recreations) + BindChanges(BindsIn(list))
      ensures ok && list != [] ==> Settled(containers, name, Fingerprint(digest, list[|list| - 1].binds))
      ensures Answering() && name != "" && AllValid(list) ==> ok
    {
      ghost var base := recreations;
      ghost var h: seq<Ensure> := [];
      var i := 0;
      assert list[..0] == [];
      while i < |list|
        invariant 0 <= i <= |list| && Tracks(name, h, base) && SameBinds(h, list[..i])
      {
        NamedAt(list, name, i);
        ghost var e;
        ok, e := EnsureAgain(name, list[i], stops(i), h, base);
        if !ok {
          return;
        }
        BindsSnoc(h, e, list, i);
        h, i := h + [e], i + 1;
      }
      ok := true;
      assert list[..i] == list;
      AllEnsured(name, list, h, base);
    }

    lemma AllEnsured(name: string, list: seq<Opts>, h: seq<Ensure>, base: nat)
      requires Tracks(name, h, base) && SameBinds(h, list)
      ensures CollisionFree(digest) ==> recreations == base + BindChanges(BindsIn(list))
      ensures list != [] ==> Settled(containers, name, Fingerprint(digest, list[|list| - 1].binds))
    {
      EachCounted(digest, name, h);
      if list != [] {
        EachSettled(digest, name, h, list);
      }
    }
  }

  /** The history's ensures ask for the binds of the list. */
  ghost predicate SameBinds(h: seq<Ensure>, list: seq<Opts>) {
    BindsOf(h) == BindsIn(list)
  }

  lemma NamedAt(list: seq<Opts>, name: string, i: nat)
    requires AllNamed(list, name) && i < |list|
    ensures list[i] in list && TrimSpace(list[i].name) == name && FreeOf(list[i].binds, '\n')
  {
    assert list[i] in list;
  }

  lemma StopsOnly(cs: Containers, cs': Containers, stopped: set<Cid>, name: string)
    requires cs' == map c | c in cs :: if c in stopped then cs[c].(running := false) else cs[c]
    ensures OnlyStops(cs, cs', name) && (NoneBears(cs, name) ==> NoneBears(cs', name))
  {
    forall c ensures Bears(cs, c, name) <==> Bears(cs', c, name) {
    }
  }

  /** All calls name the container so, with binds of one line each. */
  ghost predicate AllNamed(list: seq<Opts>, name: string) {
    forall o | o in list :: TrimSpace(o.name) == name && FreeOf(o.binds, '\n')
  }

  predicate AllValid(list: seq<Opts>) {
    forall o | o in list :: o.valid
  }

  /** Container c alone bears the name, runs and carries the fingerprint. */
  ghost predicate OneRuns(cs: Containers, name: string, want: string, c: Cid) {
    && Bears(cs, c, name) && cs[c].running && HashLabel(cs[c]) == want
    && forall d :: Bears(cs, d, name) ==> d == c
  }

  ghost predicate Settled(cs: Containers, name: string, want: string) {
    exists c :: OneRuns(cs, name, want, c)
  }

  function BindsIn(list: seq<Opts>): (bs: seq<seq<string>>)
    ensures |bs| == |list|
  {
    if list == [] then [] else BindsIn(list[..|list| - 1]) + [list[|list| - 1].binds]
  }

  lemma BindsSnoc(h: seq<Ensure>, e: Ensure, list: seq<Opts>, i: nat)
    requires i < |list| && SameBinds(h, list[..i]) && e.binds == list[i].binds
    ensures SameBinds(h + [e], list[..i + 1])
  {
    assert (h + [e])[..|h|] == h;
    assert list[..i + 1][..i] == list[..i];
  }

  lemma EachCounted(digest: string -> string, name: string, h: seq<Ensure>)
    requires History(digest, name, h)
    ensures CollisionFree(digest) ==> Recreations(digest, name, h) == BindChanges(BindsOf(h))
  {
    if CollisionFree(digest) {
      RecreatedPerBindChange(digest, name, h);
    }
  }

  lemma EachSettled(digest: string -> string, name: string, h: seq<Ensure>, list: seq<Opts>)
    requires History(digest, name, h) && BindsOf(h) == BindsIn(list) && list != []
    ensures h != [] && Settled(h[|h| - 1].after, name, Fingerprint(digest, list[|list| - 1].binds))
  {
    assert |h| == |list|;
    assert BindsOf(h)[|h| - 1] == h[|h| - 1].binds && BindsIn(list)[|list| - 1] == list[|list| - 1].binds;
    HistoryEndsEnsured(digest, name, h);
  }

  lemma StopsKeepUnique(cs: Containers, cs': Containers)
    requires UniqueNames(cs) && cs'.Keys == cs.Keys && forall c | c in cs :: cs'[c].name == cs[c].name
    ensures UniqueNames(cs')
  {
    forall c, d, name | Bears(cs', c, name) && Bears(cs', d, name) ensures c == d {
      assert Bears(cs, c, name) && Bears(cs, d, name);
    }
  }

  /** A start adds container c as k and reports it, or reports nothing and adds at most k not running. */
  ghost predicate Started(cs: Containers, cs': Containers, c: Cid, k: Container, started: Option<Cid>) {
    if started.Some? then started.value == c && c !in cs && cs' == cs[c := k]
    else cs' == cs || (c !in cs && (forall d :: !Bears(cs, d, k.name)) && cs' == cs[c := k.(running := false)])
  }

  /** Containers of other names are as they were. */
  ghost predicate OthersUntouched(cs: Containers, cs': Containers, name: string) {
    && (forall c | c in cs && cs[c].name != name :: c in cs' && cs'[c] == cs[c])
    && (forall c | c in cs' && cs'[c].name != name :: c in cs && cs'[c] == cs[c])
  }

  lemma AddKeepsUnique(cs: Containers, c: Cid, k: Container)
    requires UniqueNames(cs) && c !in cs && forall d :: !Bears(cs, d, k.name)
    ensures UniqueNames(cs[c := k])
  {
    var cs' := cs[c := k];
    forall d, e, name | Bears(cs', d, name) && Bears(cs', e, name) ensures d == e {
      assert d != c ==> Bears(cs, d, name);
      assert e != c ==> Bears(cs, e, name);
    }
  }

  lemma SwitchKeepsUnique(cs: Containers, c: Cid, running: bool)
    requires UniqueNames(cs) && c in cs
    ensures UniqueNames(cs[c := cs[c].(running := running)])
  {
    var cs' := cs[c := cs[c].(running := running)];
    forall d, e, name | Bears(cs', d, name) && Bears(cs', e, name) ensures d == e {
      assert Bears(cs, d, name) && Bears(cs, e, name);
    }
  }

  lemma RemoveKeepsUnique(cs: Containers, c: Cid)
    requires UniqueNames(cs)
    ensures UniqueNames(cs - {c})
  {
    var cs' := cs - {c};
    forall d, e, name | Bears(cs', d, name) && Bears(cs', e, name) ensures d == e {
      assert Bears(cs, d, name) && Bears(cs, e, name);
    }
  }

  lemma NoneAfterRemoval(cs: Containers, c: Cid, name: string)
    requires UniqueNames(cs) && Bears(cs, c, name)
    ensures NoneBears(cs - {c}, name)
  {
    forall d ensures !Bears(cs - {c}, d, name) {
      assert Bears(cs - {c}, d, name) ==> Bears(cs, d, name);
    }
  }

  /** Reusing the container of the name, started again if need be. */
  lemma ReuseEnsures(cs: Containers, c: Cid, name: string)
    requires UniqueNames(cs) && Bears(cs, c, name)
    ensures var cs' := cs[c := cs[c].(running := true)];
            Ensured(cs, cs', name, HashLabel(cs[c]), c) && OthersUntouched(cs, cs', name) && UniqueNames(cs')
            && !Outdated(cs, name, HashLabel(cs[c])) && (cs[c].running ==> cs' == cs)
  {
    SwitchKeepsUnique(cs, c, true);
    var cs' := cs[c := cs[c].(running := true)];
    forall d | Bears(cs', d, name) ensures d == c {
      assert Bears(cs, d, name);
    }
  }

  /** Starting one where none bears the name. */
  lemma StartEnsures(cs: Containers, cs': Containers, c: Cid, k: Container, started: Option<Cid>)
    requires (forall d :: !Bears(cs, d, k.name)) && k.running && Started(cs, cs', c, k, started)
    ensures OthersUntouched(cs, cs', k.name) && !Outdated(cs, k.name, HashLabel(k))
    ensures started.Some? ==> Ensured(cs, cs', k.name, HashLabel(k), started.value)
  {
    assert forall d :: d in cs ==> (cs[d].name == k.name <==> Bears(cs, d, k.name));
    if started.Some? {
      forall d | Bears(cs', d, k.name) ensures d == c {
        assert d != c ==> Bears(cs, d, k.name);
      }
    }
  }

  lemma StopLeavesOthers(cs: Containers, c: Cid)
    requires c in cs
    ensures OthersUntouched(cs, cs, cs[c].name)
    ensures OthersUntouched(cs, cs[c := cs[c].(running := false)], cs[c].name)
  {
  }

  /** Starting one in place of container c, which bore the name with another fingerprint. */
  lemma RecreateEnsures(cs: Containers, c: Cid, cs': Containers, c': Cid, k: Container, started: Option<Cid>)
    requires UniqueNames(cs) && Bears(cs, c, k.name) && HashLabel(cs[c]) != HashLabel(k)
    requires k.running && c' !in cs && Started(cs - {c}, cs', c', k, started)
    ensures OthersUntouched(cs, cs', k.name)
    ensures started.Some? ==> Ensured(cs, cs', k.name, HashLabel(k), started.value)
  {
    forall d ensures !Bears(cs - {c}, d, k.name) {
      assert Bears(cs - {c}, d, k.name) ==> Bears(cs, d, k.name);
    }
    StartEnsures(cs - {c}, cs', c', k, started);
  }

  lemma LabelsHash(digest: string -> string, opts: Opts)
    ensures HashLabel(Container("", Labels(digest, opts), true)) == Fingerprint(digest, opts.binds)
  {
  }

  /** A container of the name exists with another fingerprint. */
  ghost predicate Outdated(cs: Containers, name: string, want: string) {
    exists c :: Bears(cs, c, name) && HashLabel(cs[c]) != want
  }

  /** Container c alone bears the name, runs and carries the wanted fingerprint; it is the old one when that had
      the fingerprint already, and new otherwise. */
  ghost predicate Ensured(cs: Containers, cs': Containers, name: string, want: string, c: Cid) {
    && Bears(cs', c, name) && cs'[c].running && HashLabel(cs'[c]) == want
    && (forall d :: Bears(cs', d, name) ==> d == c)
    && (forall d :: Bears(cs, d, name) ==> (d == c <==> HashLabel(cs[d]) == want))
  }

  // ---------------------------------------------------------------- histories of ensures

  /** One successful ensure of a name: its binds and the containers before and after it. */
  datatype Ensure = Ensure(binds: seq<string>, before: Containers, after: Containers)

  /** Containers of the name are free to stop, nothing else happens to them; other names are not looked at. */
  ghost predicate OnlyStops(cs: Containers, cs': Containers, name: string) {
    && (forall c :: Bears(cs, c, name) <==> Bears(cs', c, name))
    && (forall c :: Bears(cs, c, name) ==> cs'[c].labels == cs[c].labels)
  }

  ghost predicate Success(digest: string -> string, name: string, e: Ensure) {
    exists c :: Ensured(e.before, e.after, name, Fingerprint(digest, e.binds), c)
  }

  /** Ensures of one name, all with success: the first finds no container of the name, and between two of them
      containers only stop. */
  ghost predicate History(digest: string -> string, name: string, h: seq<Ensure>) {
    if h == [] then true
    else
      var n := |h| - 1;
      && History(digest, name, h[..n]) && Success(digest, name, h[n]) && FreeOf(h[n].binds, '\n')
      && if n == 0 then NoneBears(h[n].before, name) else OnlyStops(h[n - 1].after, h[n].before, name)
  }

  ghost predicate NoneBears(cs: Containers, name: string) {
    forall c :: !Bears(cs, c, name)
  }

  ghost function Recreations(digest: string -> string, name: string, h: seq<Ensure>): nat {
    if h == [] then 0
    else
      var e := h[|h| - 1];
      Recreations(digest, name, h[..|h| - 1]) + if Outdated(e.before, name, Fingerprint(digest, e.binds)) then 1 else 0
  }

  /** How often two consecutive binds differ as multisets. */
  function BindChanges(binds: seq<seq<string>>): nat {
    var n := |binds|;
    if n < 2 then 0
    else BindChanges(binds[..n - 1]) + if multiset(binds[n - 2]) != multiset(binds[n - 1]) then 1 else 0
  }

  function BindsOf(h: seq<Ensure>): (bs: seq<seq<string>>)
    ensures |bs| == |h|
  {
    if h == [] then [] else BindsOf(h[..|h| - 1]) + [h[|h| - 1].binds]
  }

  /** Main result: over any history of successful ensures of one name, a container is recreated exactly as often
      as two consecutive calls ask for different bind multisets. */
  lemma {:induction false} RecreatedPerBindChange(digest: string -> string, name: string, h: seq<Ensure>)
    requires CollisionFree(digest) && History(digest, name, h)
    ensures Recreations(digest, name, h) == BindChanges(BindsOf(h))
  {
    if h != [] {
      var n := |h| - 1;
      RecreatedPerBindChange(digest, name, h[..n]);
      var bs := BindsOf(h);
      assert bs[..n] == BindsOf(h[..n]) && bs[n] == h[n].binds;
      if n > 0 {
        assert h[..n][n - 1] == h[n - 1] && bs[n - 1] == BindsOf(h[..n])[n - 1] == h[n - 1].binds;
        assert Success(digest, name, h[..n][n - 1]);
        OutdatedIff(digest, name, h[n - 1], h[n]);
      }
    }
  }

  /** One more successful ensure. */
  lemma HistorySnoc(digest: string -> string, name: string, h: seq<Ensure>, e: Ensure, c: Cid)
    requires History(digest, name, h) && FreeOf(e.binds, '\n')
    requires Ensured(e.before, e.after, name, Fingerprint(digest, e.binds), c)
    requires if h == [] then NoneBears(e.before, name) else OnlyStops(h[|h| - 1].after, e.before, name)
    ensures History(digest, name, h + [e])
  {
    assert (h + [e])[..|h|] == h;
    assert Success(digest, name, e);
  }

  lemma RecreationsSnoc(digest: string -> string, name: string, h: seq<Ensure>, e: Ensure)
    ensures Recreations(digest, name, h + [e])
         == Recreations(digest, name, h) + if Outdated(e.before, name, Fingerprint(digest, e.binds)) then 1 else 0
  {
    assert (h + [e])[..|h|] == h;
  }

  /** What an ensure finds is outdated exactly when the ensure before it asked for other binds. */
  lemma OutdatedIff(digest: string -> string, name: string, e: Ensure, f: Ensure)
    requires CollisionFree(digest) && Success(digest, name, e) && OnlyStops(e.after, f.before, name)
    requires FreeOf(e.binds, '\n') && FreeOf(f.binds, '\n')
    ensures Outdated(f.before, name, Fingerprint(digest, f.binds)) <==> multiset(e.binds) != multiset(f.binds)
  {
    var last := Fingerprint(digest, e.binds);
    var c :| Ensured(e.before, e.after, name, last, c);
    FingerprintIff(digest, e.binds, f.binds);
    assert Bears(e.after, c, name);
    assert Bears(f.before, c, name) && HashLabel(f.before[c]) == last;
    forall d | Bears(f.before, d, name) ensures d == c {
      assert Bears(e.after, d, name);
    }
  }

  /** After any such history exactly one container bears the name; it runs and carries the fingerprint of the
      last binds. */
  lemma HistoryEndsEnsured(digest: string -> string, name: string, h: seq<Ensure>)
    requires History(digest, name, h) && h != []
    ensures var last := h[|h| - 1];
            Settled(last.after, name, Fingerprint(digest, last.binds))
  {
    var last := h[|h| - 1];
    assert Success(digest, name, last);
    var c :| Ensured(last.before, last.after, name, Fingerprint(digest, last.binds), c);
    assert OneRuns(last.after, name, Fingerprint(digest, last.binds), c);
  }

  // ---------------------------------------------------------------- waiting for health

  datatype Observation =
    | Absent
    | InspectError
    | Up
    | Down(exitedOrDead: bool)

  /** One poll: what the inspect saw, and the two clock readings after it, in milliseconds. */
  datatype Poll = Poll(seen: Observation, now: int, later: int)

  datatype Health = Healthy(at: nat) | Unhealthy(at: nat) | Cancelled

  const STABLE_FOR := 2000

  predicate Fatal(o: Observation) {
    o.Absent? || o.InspectError? || (o.Down? && o.exitedOrDead)
  }

  /** The poll at which the current unbroken run of running observations began. */
  function UpSince(polls: seq<Poll>, i: nat): (j: nat)
    requires i < |polls| && polls[i].seen.Up?
    ensures j <= i && (forall k | j <= k <= i :: polls[k].seen.Up?) && (j > 0 ==> !polls[j - 1].seen.Up?)
  {
    if i > 0 && polls[i - 1].seen.Up? then UpSince(polls, i - 1) else i
  }

  predicate Stable(polls: seq<Poll>, i: nat)
    requires i < |polls|
  {
    polls[i].seen.Up? && polls[i].later - polls[UpSince(polls, i)].now >= STABLE_FOR
  }

  /** WaitDataPlaneHealthy over the polls made before its context ends: healthy at the first poll whose unbroken
      run of running observations spans the window, unhealthy at the first fatal one, whichever comes first. */
  method WaitDataPlaneHealthy(polls: seq<Poll>) returns (r: Health)
    ensures match r
            case Healthy(i) =>
              && i < |polls| && Stable(polls, i)
              && forall k | 0 <= k < i :: !Stable(polls, k) && !Fatal(polls[k].seen)
            case Unhealthy(i) =>
              && i < |polls| && Fatal(polls[i].seen)
              && forall k | 0 <= k < i :: !Stable(polls, k) && !Fatal(polls[k].seen)
            case Cancelled => forall k | 0 <= k < |polls| :: !Stable(polls, k) && !Fatal(polls[k].seen)
  {
    var runningSince: Option<int> := None;
    for i := 0 to |polls|
      invariant forall k | 0 <= k < i :: !Stable(polls, k) && !Fatal(polls[k].seen)
      invariant runningSince ==
                if i > 0 && polls[i - 1].seen.Up? then Some(polls[UpSince(polls, i - 1)].now) else None
    {
      match polls[i].seen
      case Absent => return Unhealthy(i);
      case InspectError => return Unhealthy(i);
      case Up =>
        if runningSince.None? {
          runningSince := Some(polls[i].now);
        }
        if polls[i].later - runningSince.value >= STABLE_FOR {
          return Healthy(i);
        }
      case Down(exitedOrDead) =>
        runningSince := None;
        if exitedOrDead {
          return Unhealthy(i);
        }
    }
    return Cancelled;
  }

  ghost predicate Monotone(polls: seq<Poll>) {
    && (forall i | 0 <= i < |polls| :: polls[i].now <= polls[i].later)
    && (forall i, j | 0 <= i < j < |polls| :: polls[i].later <= polls[j].now)
  }

  /** With a monotone clock a poll is stable exactly when some stretch of running observations that ends at it
      spans the window. */
  lemma StableIffSomeStretch(polls: seq<Poll>, i: nat)
    requires i < |polls| && Monotone(polls)
    ensures Stable(polls, i) <==>
            exists j :: 0 <= j <= i && (forall k | j <= k <= i :: polls[k].seen.Up?)
                        && polls[i].later - polls[j].now >= STABLE_FOR
  {
    if j :| && 0 <= j <= i && (forall k | j <= k <= i :: polls[k].seen.Up?)
            && polls[i].later - polls[j].now >= STABLE_FOR
    {
      var s := UpSince(polls, i);
      assert s <= j;
      assert s < j ==> polls[s].now <= polls[s].later <= polls[j].now;
    }
    if Stable(polls, i) {
      var s := UpSince(polls, i);
      assert 0 <= s <= i && forall k | s <= k <= i :: polls[k].seen.Up?;
    }
  }
}
