/** Who may read a task's credentials while runs, stops and sidecar replacements interleave. */
module EcsAccess {
  import opened Wrappers
  import opened EcsTask
  import opened EcsProtocol

  /** Whom the sidecar serves a credential file: anyone while the id has no peer file, later one address. */
  predicate MayRead(e: Engine, id: Uuid, from: Address) {
    id in e.creds && (id in e.peers ==> e.peers[id] != "" && e.peers[id] == from)
  }

  /** If the id still has a credential file, a peer file restricts it, to the container's address if it has one. */
  ghost predicate BoundTo(e: Engine, c: Cid, id: Uuid) {
    id in e.creds ==>
      && id in e.peers && c in e.containers
      && (e.containers[c].address.Some? ==> e.containers[c].address == Some(e.peers[id]))
  }

  /** The credentials of every container that no run holds any more are bound to it. */
  ghost predicate Guarded(w: World) {
    forall c: Cid, id: Uuid :: Owns(w, Existing(c), id) ==> BoundTo(w.engine, c, id)
  }

  /** A run that is about to write a peer file has its container's address, unless that has gone. */
  ghost predicate AddressKnown(e: Engine, pc: RunPc) {
    pc.BindInspect? || pc.BindExec? ==>
      pc.c in e.containers && (e.containers[pc.c].address.Some? ==> e.containers[pc.c].address == Some(pc.address))
  }

  ghost predicate Addressed(w: World) {
    forall p: nat | InFlight(w, p) :: AddressKnown(w.engine, w.procs[p].pc)
  }

  // ---------------------------------------------------------------- steps of a run

  /** Credential files of other ids come from before and keep their peer files. */
  ghost predicate FilesKept(e: Engine, e': Engine, own: Option<Uuid>) {
    forall id: Uuid | id in e'.creds && own != Some(id) ::
      id in e.creds && (id in e.peers ==> id in e'.peers && e'.peers[id] == e.peers[id])
  }

  ghost predicate ContainersKept(e: Engine, e': Engine, own: Option<Cid>) {
    forall c: Cid | own != Some(c) && c in e.containers :: c in e'.containers && e'.containers[c] == e.containers[c]
  }

  /** One call of a run, as far as the readers of credentials can tell. */
  ghost predicate AccessEffect(e: Engine, pc: RunPc, e': Engine, pc': RunPc) {
    && FilesKept(e, e', CredOf(pc))
    && ContainersKept(e, e', HeldBy(pc))
    && (HeldBy(pc).Some? && HeldBy(pc').None? ==>
          forall id: Uuid | CredOn(e', HeldBy(pc).value) == Some(id) :: BoundTo(e', HeldBy(pc).value, id))
    && AddressKnown(e', pc')
  }

  lemma FilesEffect(e: Engine, opts: RunOpts, pc: RunPc, a: Answer)
    requires Ready(e, opts, pc)
    ensures FilesKept(e, RunStep(e, opts, pc, a).0, CredOf(pc))
  {
  }

  lemma ContainersEffect(e: Engine, opts: RunOpts, pc: RunPc, a: Answer)
    requires Ready(e, opts, pc)
    ensures ContainersKept(e, RunStep(e, opts, pc, a).0, HeldBy(pc))
  {
  }

  lemma RunAccess(e: Engine, opts: RunOpts, pc: RunPc, a: Answer)
    requires Ready(e, opts, pc) && AddressKnown(e, pc)
    ensures var (e', pc') := RunStep(e, opts, pc, a); AccessEffect(e, pc, e', pc')
  {
    FilesEffect(e, opts, pc, a);
    ContainersEffect(e, opts, pc, a);
  }

  lemma RunKeepsGuarded(w: World, p: nat, w': World)
    requires Inv(w) && Guarded(w) && RunMoves(w, p, w')
    requires AccessEffect(w.engine, w.procs[p].pc, w'.engine, w'.procs[p].pc)
    ensures Guarded(w')
  {
    forall c: Cid, id: Uuid | Owns(w', Existing(c), id) ensures BoundTo(w'.engine, c, id) {
      assert Held(w', p) != Some(c);
      if Held(w, p) == Some(c) {
        assert CredOn(w'.engine, c) == ContainerCred(w', c);
        assert HeldBy(w'.procs[p].pc).None?;
      } else {
        forall q: nat ensures Held(w, q) != Some(c) {
          assert q != p ==> Held(w', q) == Held(w, q);
        }
        assert ContainerCred(w, c) == Some(id);
        assert Owns(w, Existing(c), id) && BoundTo(w.engine, c, id);
        assert Cred(w, p) != Some(id);
        assert CredOn(w.engine, c) == ContainerCred(w, c);
      }
    }
  }

  lemma RunKeepsAddressed(w: World, p: nat, w': World)
    requires Inv(w) && Addressed(w) && RunMoves(w, p, w')
    requires AccessEffect(w.engine, w.procs[p].pc, w'.engine, w'.procs[p].pc)
    ensures Addressed(w')
  {
    forall q: nat | InFlight(w', q) ensures AddressKnown(w'.engine, w'.procs[q].pc) {
      if q != p {
        assert InFlight(w, q) && AddressKnown(w.engine, w.procs[q].pc);
        assert Held(w, q) == HeldBy(w.procs[q].pc);
        assert Held(w, q).Some? ==> Held(w, q) != Held(w, p);
      }
    }
  }

  // ---------------------------------------------------------------- steps of a stop

  /** One call of a stop takes files away in pairs and addresses away, and gives none. */
  ghost predicate StopAccess(e: Engine, e': Engine) {
    && FilesKept(e, e', None)
    && (forall d: Cid | d in e'.containers ::
          d in e.containers && (e'.containers[d].address.Some? ==> e'.containers[d].address == e.containers[d].address))
  }

  lemma StopStepAccess(e: Engine, c: Cid, at: StopPc, a: Answer)
    requires !at.Stopped?
    ensures StopAccess(e, StopStep(e, c, at, a).0)
  {
  }

  lemma StopKeepsGuarded(w: World, p: nat, w': World)
    requires Inv(w) && Guarded(w) && Addressed(w) && StopMoves(w, p, w') && StopAccess(w.engine, w'.engine)
    ensures Guarded(w') && Addressed(w')
  {
    forall c: Cid, id: Uuid | Owns(w', Existing(c), id) ensures BoundTo(w'.engine, c, id) {
      assert ContainerCred(w, c) == Some(id) && forall q: nat :: Held(w, q) == Held(w', q);
      assert Owns(w, Existing(c), id) && BoundTo(w.engine, c, id);
      assert CredOn(w'.engine, c) == ContainerCred(w', c);
    }
    assert StopConsistent(w, p) && Published(w, w.procs[p].target);
    forall q: nat | InFlight(w', q) ensures AddressKnown(w'.engine, w'.procs[q].pc) {
      assert InFlight(w, q) && AddressKnown(w.engine, w.procs[q].pc);
      assert Held(w, q) == HeldBy(w.procs[q].pc) && Held(w, q) != Some(w.procs[p].target);
    }
  }

  // ---------------------------------------------------------------- whole runs

  lemma EnvironmentKeepsGuarded(w: World, ev: Event)
    requires Inv(w) && Guarded(w) && Addressed(w) && Enabled(w, ev) && !ev.Step?
    ensures Guarded(Apply(w, ev)) && Addressed(Apply(w, ev))
  {
    var w' := Apply(w, ev);
    EnvironmentKeepsIssued(w, ev);
    assert LooksLike(w, w');
    forall c: Cid, id: Uuid | Owns(w', Existing(c), id) ensures BoundTo(w'.engine, c, id) {
      forall q: nat ensures Held(w, q) != Some(c) {
        assert Held(w', q) == Held(w, q);
      }
      assert ContainerCred(w', c) == ContainerCred(w, c);
      assert Owns(w, Existing(c), id) && BoundTo(w.engine, c, id);
    }
    forall q: nat | InFlight(w', q) ensures AddressKnown(w'.engine, w'.procs[q].pc) {
      if q in w.procs {
        assert InFlight(w, q) && AddressKnown(w.engine, w.procs[q].pc);
      }
    }
  }

  lemma StepKeepsGuarded(w: World, ev: Event)
    requires Inv(w) && Guarded(w) && Addressed(w) && Enabled(w, ev)
    ensures Guarded(Apply(w, ev)) && Addressed(Apply(w, ev))
  {
    var w' := Apply(w, ev);
    if !ev.Step? {
      EnvironmentKeepsGuarded(w, ev);
    } else if InFlight(w, ev.p) {
      RunStepMoves(w, ev.p, ev.a);
      RunAccess(w.engine, w.procs[ev.p].opts, w.procs[ev.p].pc, ev.a);
      RunKeepsGuarded(w, ev.p, w');
      RunKeepsAddressed(w, ev.p, w');
    } else {
      StopStepMoves(w, ev.p, ev.a);
      StopStepAccess(w.engine, w.procs[ev.p].target, w.procs[ev.p].at, ev.a);
      StopKeepsGuarded(w, ev.p, w');
    }
  }

  lemma {:induction false} RunsKeepGuarded(evs: seq<Event>)
    requires After(EMPTY, evs).Some?
    ensures Guarded(After(EMPTY, evs).value) && Addressed(After(EMPTY, evs).value)
  {
    if evs != [] {
      RunsKeepGuarded(evs[..|evs| - 1]);
      RunsKeepInv(evs[..|evs| - 1]);
      StepKeepsGuarded(After(EMPTY, evs[..|evs| - 1]).value, evs[|evs| - 1]);
    }
  }

  lemma OpenIsInFlight(w: World, id: Uuid)
    requires Inv(w) && Guarded(w) && id in w.engine.creds && id !in w.engine.peers && id !in w.engine.abandoned
    ensures (exists p: nat :: Owns(w, Flight(p), id)) && (forall c: Cid :: !Owns(w, Existing(c), id))
  {
    forall c: Cid ensures !Owns(w, Existing(c), id) {
      assert Owns(w, Existing(c), id) ==> BoundTo(w.engine, c, id);
    }
    assert w.engine.HasFiles(id);
    var o: Owner :| Owns(w, o, id);
    assert o.Flight?;
  }

  /** Main result: in every interleaving, an id whose credential file any task may read belongs to a run in flight
      and to no container that a run has let go, unless a failed cleanup call or a broken registration has given
      the id up. */
  lemma OpenIdsAreInFlight(evs: seq<Event>, id: Uuid)
    requires After(EMPTY, evs).Some?
    requires var e := After(EMPTY, evs).value.engine; id in e.creds && id !in e.peers && id !in e.abandoned
    ensures var w := After(EMPTY, evs).value;
            && (exists p: nat :: Owns(w, Flight(p), id))
            && (forall c: Cid :: !Owns(w, Existing(c), id))
  {
    RunsKeepInv(evs);
    RunsKeepGuarded(evs);
    OpenIsInFlight(After(EMPTY, evs).value, id);
  }

  /** Main result: in every interleaving, while a container that a run has returned has an address, nobody at
      another address may read its credentials. */
  lemma OnlyTheTaskReads(evs: seq<Event>, c: Cid, id: Uuid, from: Address)
    requires After(EMPTY, evs).Some?
    requires var w := After(EMPTY, evs).value;
             && Published(w, c) && ContainerCred(w, c) == Some(id) && w.engine.containers[c].address.Some?
    ensures var e := After(EMPTY, evs).value.engine; MayRead(e, id, from) ==> e.containers[c].address == Some(from)
  {
    RunsKeepInv(evs);
    RunsKeepGuarded(evs);
    var w := After(EMPTY, evs).value;
    assert Owns(w, Existing(c), id) && BoundTo(w.engine, c, id);
  }

  // ---------------------------------------------------------------- nobody takes a live task's files

  /** The owner of an id makes the step itself, or a stop of it does. */
  ghost predicate OwnStep(w: World, o: Owner, ev: Event) {
    match ev
    case Step(p, _) => o == Flight(p) || (Stopping(w, p) && o == Existing(w.procs[p].target))
    case _ => false
  }

  ghost predicate SameFiles(e: Engine, e': Engine, id: Uuid) {
    && (id in e'.creds <==> id in e.creds) && (id in e.creds ==> e'.creds[id] == e.creds[id])
    && (id in e'.peers <==> id in e.peers) && (id in e.peers ==> e'.peers[id] == e.peers[id])
  }

  lemma RunTakesOwnOnly(e: Engine, opts: RunOpts, pc: RunPc, a: Answer, id: Uuid)
    requires !pc.Returned? && CredOf(pc) != Some(id) && RunStep(e, opts, pc, a).0.sidecar == e.sidecar
    requires e.sidecar.None? ==> !e.HasFiles(id)
    requires e.sidecar.Some? ==> e.sidecar.value < e.next
    ensures SameFiles(e, RunStep(e, opts, pc, a).0, id)
  {
  }

  lemma StopTakesOwnOnly(w: World, p: nat, a: Answer, id: Uuid)
    requires Stopping(w, p) && StopCred(w, p) != Some(id)
    ensures SameFiles(w.engine, Apply(w, Step(p, a)).engine, id)
  {
  }

  lemma OthersKeepFiles(w: World, ev: Event, o: Owner, id: Uuid)
    requires Inv(w) && Enabled(w, ev) && Owns(w, o, id) && !OwnStep(w, o, ev)
    requires Apply(w, ev).engine.sidecar == w.engine.sidecar
    ensures SameFiles(w.engine, Apply(w, ev).engine, id)
  {
    if ev.Step? {
      var p := ev.p;
      if InFlight(w, p) {
        assert Cred(w, p) == CredOf(w.procs[p].pc);
        if Cred(w, p) == Some(id) { OwnerUnique(w, Flight(p), o, id); }
        RunTakesOwnOnly(w.engine, w.procs[p].opts, w.procs[p].pc, ev.a, id);
      } else {
        assert StopConsistent(w, p);
        StopTakesOwnOnly(w, p, ev.a, id);
      }
    }
  }

  /** Main result: in every interleaving, the files of an id stay as they are through every event that does not
      change the sidecar, unless its owner or a stop of its owner makes the call. */
  lemma LiveFilesStay(evs: seq<Event>, ev: Event, o: Owner, id: Uuid)
    requires After(EMPTY, evs).Some? && Enabled(After(EMPTY, evs).value, ev)
    requires var w := After(EMPTY, evs).value;
             Owns(w, o, id) && !OwnStep(w, o, ev) && Apply(w, ev).engine.sidecar == w.engine.sidecar
    ensures var w := After(EMPTY, evs).value; SameFiles(w.engine, Apply(w, ev).engine, id)
  {
    RunsKeepInv(evs);
    OthersKeepFiles(After(EMPTY, evs).value, ev, o, id);
  }
}
