/** Any number of RunECSTask and StopECSTask calls interleaved, one engine call at a time, with task
    containers that exit and a sidecar that is replaced or lost at any moment. */
module EcsProtocol {
  import opened Wrappers
  import opened EcsTask

  datatype Proc = Run(opts: RunOpts, pc: RunPc) | Stop(target: Cid, at: StopPc)

  datatype World = World(engine: Engine, procs: map<nat, Proc>)

  datatype Event =
    | Step(p: nat, a: Answer)
    | BeginRun(p: nat, opts: RunOpts)
    | BeginStop(p: nat, c: Cid)
    | Exit(c: Cid)
    | SidecarReplaced
    | SidecarLost

  predicate InFlight(w: World, p: nat) {
    p in w.procs && w.procs[p].Run? && !w.procs[p].pc.Returned?
  }

  predicate Stopping(w: World, p: nat) {
    p in w.procs && w.procs[p].Stop? && !w.procs[p].at.Stopped?
  }

  /** The container a run has created and not yet given up. */
  function HeldBy(pc: RunPc): Option<Cid> {
    match pc
    case Copying(_, c) => Some(c) case Starting(_, c) => Some(c) case BindTask(_, c) => Some(c)
    case BindInspect(_, c, _) => Some(c) case BindExec(_, c, _, _) => Some(c) case Removing(_, c) => Some(c)
    case _ => None
  }

  /** The credential id, and the container, of a run in flight. */
  function Cred(w: World, p: nat): Option<Uuid> {
    if InFlight(w, p) then CredOf(w.procs[p].pc) else None
  }

  function Held(w: World, p: nat): Option<Cid> {
    if InFlight(w, p) then HeldBy(w.procs[p].pc) else None
  }

  /** Some run has returned this container to its caller. */
  ghost predicate Published(w: World, c: Cid) {
    exists r: nat :: r in w.procs && w.procs[r].Run? && w.procs[r].pc == Returned(Some(c))
  }

  /** A caller without role keys does not name a credential id in its own environment, and callers learn
      the id of a container from the run that returned it. */
  ghost predicate Enabled(w: World, ev: Event) {
    match ev
    case Step(p, _) => InFlight(w, p) || Stopping(w, p)
    case BeginRun(p, opts) => p !in w.procs && (opts.keys.None? ==> opts.claim.None?)
    case BeginStop(p, c) => p !in w.procs && Published(w, c)
    case Exit(c) => c in w.engine.containers
    case SidecarReplaced => true
    case SidecarLost => true
  }

  ghost function Apply(w: World, ev: Event): World
    requires Enabled(w, ev)
  {
    match ev
    case Step(p, a) =>
      (match w.procs[p]
       case Run(opts, pc) =>
         var (e, pc') := RunStep(w.engine, opts, pc, a);
         World(e, w.procs[p := Run(opts, pc')])
       case Stop(c, at) =>
         var (e, at') := StopStep(w.engine, c, at, a);
         World(e, w.procs[p := Stop(c, at')]))
    case BeginRun(p, opts) => w.(procs := w.procs[p := Run(opts, Preparing)])
    case BeginStop(p, c) => w.(procs := w.procs[p := Stop(c, Inspecting)])
    case Exit(c) => w.(engine := w.engine.StopContainer(c))
    case SidecarReplaced => w.(engine := w.engine.ReplaceSidecar())
    case SidecarLost => w.(engine := w.engine.DropSidecar())
  }

  // ---------------------------------------------------------------- the invariant

  /** Ids in use were issued before the counter. */
  ghost predicate Issued(w: World) {
    && FreshIds(w.engine)
    && (forall p: nat :: Cred(w, p).Some? ==> Cred(w, p).value < w.engine.next)
    && (forall p: nat :: Held(w, p).Some? ==> Held(w, p).value < w.engine.next)
    && (forall c: Cid :: ContainerCred(w, c).Some? ==> ContainerCred(w, c).value < w.engine.next)
    && (forall p: nat | Stopping(w, p) && StopCred(w, p).Some? :: StopCred(w, p).value < w.engine.next)
  }

  /** The id a stop is about to unregister. */
  function StopCred(w: World, p: nat): Option<Uuid>
    requires Stopping(w, p)
  {
    match w.procs[p].at
    case StopUnregisterInspect(id) => Some(id)
    case StopUnregisterExec(id, _) => Some(id)
    case _ => None
  }

  /** The id that a container owns; a container whose forced removal failed owns none, its files are
      unregistered by the run that gave it up. */
  function CredOn(e: Engine, c: Cid): Option<Uuid> {
    if c in e.containers && c !in e.lingering then e.containers[c].cred else None
  }

  function ContainerCred(w: World, c: Cid): Option<Uuid> {
    CredOn(w.engine, c)
  }

  /** No two runs in flight share an id or a container, no two containers share an id, and a container with
      the id of a run in flight is that run's own. */
  ghost predicate Unshared(w: World) {
    && (forall p: nat, q: nat :: p != q && Cred(w, p).Some? ==> Cred(w, p) != Cred(w, q))
    && (forall p: nat, q: nat :: p != q && Held(w, p).Some? ==> Held(w, p) != Held(w, q))
    && (forall c: Cid, d: Cid :: c != d && ContainerCred(w, c).Some? ==> ContainerCred(w, c) != ContainerCred(w, d))
    && (forall p: nat, c: Cid :: Cred(w, p).Some? && ContainerCred(w, c) == Cred(w, p) ==> Held(w, p) == Some(c))
  }

  /** What a run in flight knows about the engine. */
  ghost predicate RunLocal(e: Engine, opts: RunOpts, pc: RunPc) {
    && (opts.keys.None? ==> opts.claim.None? && CredOf(pc).None? && !pc.Attaching?)
    && (pc.Creating? || HeldBy(pc).Some? ==> CredOf(pc).Some? == opts.keys.Some?)
    && (HeldBy(pc).Some? ==>
          && HeldBy(pc).value in e.containers && HeldBy(pc).value !in e.lingering
          && CredOn(e, HeldBy(pc).value) == CredOf(pc))
    && (pc.RegisterInspect? || pc.RegisterExec? ==> !e.HasFiles(pc.id))
    && (pc.UnregisterExec? && e.sidecar != Some(pc.target) ==> !e.HasFiles(pc.id))
  }

  ghost predicate RunConsistent(w: World, p: nat)
    requires InFlight(w, p)
  {
    RunLocal(w.engine, w.procs[p].opts, w.procs[p].pc)
  }

  ghost predicate RunsConsistent(w: World) {
    forall p: nat | InFlight(w, p) :: RunConsistent(w, p)
  }

  /** A published container is nobody's any more. */
  ghost predicate PublishedFree(w: World) {
    forall c: Cid | Published(w, c) ::
      c < w.engine.next && c !in w.engine.lingering && forall p: nat :: Held(w, p) != Some(c)
  }

  /** A stop works on a published container, unregisters that container's id only, and has done so before it
      halts the container. */
  ghost predicate StopConsistent(w: World, p: nat)
    requires Stopping(w, p)
  {
    var Stop(c, at) := w.procs[p];
    && Published(w, c)
    && (StopCred(w, p).Some? ==>
          && (forall r: nat :: Cred(w, r) != StopCred(w, p))
          && (forall d: Cid :: ContainerCred(w, d) == StopCred(w, p) ==> d == c)
          && (c in w.engine.containers ==> ContainerCred(w, c) == StopCred(w, p)))
    && (at.StopUnregisterExec? && w.engine.sidecar != Some(at.target) ==> !w.engine.HasFiles(at.id))
    && (at.Halting? || at.StopRemoving? ==> ContainerCred(w, c).Some? ==>
          w.engine.HasFiles(ContainerCred(w, c).value) ==> ContainerCred(w, c).value in w.engine.abandoned)
  }

  ghost predicate StopsConsistent(w: World) {
    forall p: nat | Stopping(w, p) :: StopConsistent(w, p)
  }

  datatype Owner = Flight(p: nat) | Existing(c: Cid)

  /** A run in flight owns its id; a container owns the id in its environment once no run in flight holds it. */
  ghost predicate Owns(w: World, o: Owner, id: Uuid) {
    match o
    case Flight(p) => Cred(w, p) == Some(id)
    case Existing(c) => ContainerCred(w, c) == Some(id) && forall p: nat :: Held(w, p) != Some(c)
  }

  ghost predicate Accounted(w: World) {
    forall id: Uuid :: w.engine.HasFiles(id) && id !in w.engine.abandoned ==> exists o: Owner :: Owns(w, o, id)
  }

  ghost predicate Inv(w: World) {
    Issued(w) && Unshared(w) && RunsConsistent(w) && PublishedFree(w) && StopsConsistent(w) && Accounted(w)
  }

  /** No two owners share an id. */
  lemma OwnerUnique(w: World, o: Owner, o': Owner, id: Uuid)
    requires Inv(w) && Owns(w, o, id) && Owns(w, o', id)
    ensures o == o'
  {
  }

  // ---------------------------------------------------------------- steps that keep it

  /** What the invariant sees of a world. Two worlds that look alike for all runs and containers, whose files
      only shrink and whose stops are the same, keep it alike. */
  ghost predicate LooksLike(w: World, w': World) {
    && (forall p: nat :: Cred(w', p) == Cred(w, p))
    && (forall p: nat :: Held(w', p) == Held(w, p))
    && (forall c: Cid :: ContainerCred(w', c) == ContainerCred(w, c))
  }

  lemma LookalikeUnshared(w: World, w': World)
    requires Unshared(w) && LooksLike(w, w')
    ensures Unshared(w')
  {
  }

  lemma LookalikeOwners(w: World, w': World)
    requires Accounted(w) && LooksLike(w, w')
    requires forall id: Uuid :: w'.engine.HasFiles(id) && id !in w'.engine.abandoned ==>
               w.engine.HasFiles(id) && id !in w.engine.abandoned
    ensures Accounted(w')
  {
    forall id: Uuid | w'.engine.HasFiles(id) && id !in w'.engine.abandoned ensures exists o: Owner :: Owns(w', o, id) {
      var o: Owner :| Owns(w, o, id);
      assert Owns(w', o, id);
    }
  }

  lemma EnvironmentKeepsIssued(w: World, ev: Event)
    requires Inv(w) && Enabled(w, ev) && !ev.Step?
    ensures Issued(Apply(w, ev)) && LooksLike(w, Apply(w, ev))
  {
    var w' := Apply(w, ev);
    forall p: nat ensures Cred(w', p) == Cred(w, p) && Held(w', p) == Held(w, p) {
    }
    forall p: nat | Stopping(w', p) && StopCred(w', p).Some?
      ensures Stopping(w, p) && StopCred(w', p) == StopCred(w, p)
    {
    }
    forall c: Cid ensures ContainerCred(w', c) == ContainerCred(w, c) {
    }
  }

  lemma EnvironmentKeepsRuns(w: World, ev: Event)
    requires RunsConsistent(w) && Enabled(w, ev) && !ev.Step?
    ensures RunsConsistent(Apply(w, ev))
  {
    var w' := Apply(w, ev);
    forall p: nat | InFlight(w', p) ensures RunConsistent(w', p) {
      if p in w.procs {
        assert InFlight(w, p) && RunConsistent(w, p);
      }
    }
  }

  lemma EnvironmentKeepsStops(w: World, ev: Event)
    requires StopsConsistent(w) && Enabled(w, ev) && !ev.Step?
    requires LooksLike(w, Apply(w, ev))
    ensures StopsConsistent(Apply(w, ev))
  {
    var w' := Apply(w, ev);
    forall p: nat | Stopping(w', p) ensures StopConsistent(w', p) {
      if p in w.procs {
        assert Stopping(w, p) && StopConsistent(w, p);
        PublishedForGood(w, w', w.procs[p].target);
      } else {
        PublishedForGood(w, w', ev.c);
      }
    }
  }

  ghost predicate ReturnsKept(w: World, w': World) {
    forall r: nat :: r in w.procs && w.procs[r].Run? && w.procs[r].pc.Returned? ==>
      r in w'.procs && w'.procs[r] == w.procs[r]
  }

  lemma PublishedForGood(w: World, w': World, c: Cid)
    requires Published(w, c) && ReturnsKept(w, w')
    ensures Published(w', c)
  {
    var r: nat :| r in w.procs && w.procs[r].Run? && w.procs[r].pc == Returned(Some(c));
    assert r in w'.procs && w'.procs[r].pc == Returned(Some(c));
  }

  lemma EnvironmentKeepsPublished(w: World, ev: Event)
    requires PublishedFree(w) && Enabled(w, ev) && !ev.Step?
    requires LooksLike(w, Apply(w, ev))
    ensures PublishedFree(Apply(w, ev))
  {
    var w' := Apply(w, ev);
    forall c: Cid | Published(w', c) ensures Published(w, c) {
      var r: nat :| r in w'.procs && w'.procs[r].Run? && w'.procs[r].pc == Returned(Some(c));
      assert r in w.procs;
    }
  }

  lemma EnvironmentKeepsInv(w: World, ev: Event)
    requires Inv(w) && Enabled(w, ev) && !ev.Step?
    ensures Inv(Apply(w, ev))
  {
    EnvironmentKeepsIssued(w, ev);
    LookalikeUnshared(w, Apply(w, ev));
    LookalikeOwners(w, Apply(w, ev));
    EnvironmentKeepsRuns(w, ev);
    EnvironmentKeepsStops(w, ev);
    EnvironmentKeepsPublished(w, ev);
  }

  // ---------------------------------------------------------------- steps of a run

  /** What one call of a run does, as far as other processes can tell. */
  ghost predicate RunEffect(e: Engine, pc: RunPc, e': Engine, pc': RunPc) {
    ClaimsEffect(e, pc, e', pc') && ContainersChange(e, pc, e', pc') && FilesChange(e, pc, e', pc')
  }

  /** Its id and its container are new, kept or given up. */
  ghost predicate ClaimsEffect(e: Engine, pc: RunPc, e': Engine, pc': RunPc) {
    && FreshIds(e') && e.next <= e'.next && e.abandoned <= e'.abandoned
    && (CredOf(pc').Some? ==>
          CredOf(pc') == CredOf(pc) || (CredOf(pc).None? && e.next <= CredOf(pc').value < e'.next))
    && (HeldBy(pc').Some? ==>
          HeldBy(pc') == HeldBy(pc) || (pc.Creating? && HeldBy(pc') == Some(e.next) && e.next < e'.next))
  }

  /** One container is new, the held one is given up, or none changes. */
  ghost predicate ContainersChange(e: Engine, pc: RunPc, e': Engine, pc': RunPc) {
    && (forall c: Cid ::
          || CredOn(e', c) == CredOn(e, c)
          || (pc.Creating? && c == e.next && HeldBy(pc') == Some(c) && CredOn(e', c) == CredOf(pc))
          || (pc.Removing? && HeldBy(pc) == Some(c) && CredOn(e', c).None?))
    && (forall c: Cid :: HeldBy(pc) != Some(c) ==>
          && (c in e.containers ==> c in e'.containers)
          && (c in e'.lingering ==> c in e.lingering)
          && (c in e'.containers && c !in e.containers ==> c == e.next))
    && (!pc.Removing? ==> e'.lingering == e.lingering)
  }

  /** Only files of its own id are written, and nothing of its own is left behind unaccounted. */
  ghost predicate FilesChange(e: Engine, pc: RunPc, e': Engine, pc': RunPc) {
    && (e'.sidecar != e.sidecar ==> e'.creds == map[] && e'.peers == map[])
    && (forall id: Uuid :: e'.HasFiles(id) ==> e.HasFiles(id) || CredOf(pc) == Some(id))
    && (&& CredOf(pc).Some? && CredOf(pc').None?
        && e'.HasFiles(CredOf(pc).value) && CredOf(pc).value !in e'.abandoned ==>
          HeldBy(pc).Some? && pc' == Returned(HeldBy(pc)) && CredOn(e', HeldBy(pc).value) == CredOf(pc))
    && (pc' != Returned(None) && pc'.Returned? ==>
          pc' == Returned(HeldBy(pc)) && HeldBy(pc).Some? && !pc.Removing?)
    && (CredOf(pc).Some? && CredOf(pc').Some? && HeldBy(pc).Some? && HeldBy(pc').None? ==>
          CredOn(e', HeldBy(pc).value).None?)
  }

  ghost predicate Ready(e: Engine, opts: RunOpts, pc: RunPc) {
    && FreshIds(e) && RunLocal(e, opts, pc) && !pc.Returned?
    && (CredOf(pc).Some? ==> CredOf(pc).value < e.next)
    && (HeldBy(pc).Some? ==> HeldBy(pc).value < e.next)
  }

  /** One call of a run has the effect that others may see and leaves the run knowing what it must. */
  ghost predicate StepsFairly(e: Engine, opts: RunOpts, pc: RunPc, a: Answer)
    requires !pc.Returned?
  {
    var (e', pc') := RunStep(e, opts, pc, a);
    RunEffect(e, pc, e', pc') && (!pc'.Returned? ==> RunLocal(e', opts, pc'))
  }

  lemma PrepareEffect(e: Engine, opts: RunOpts, pc: RunPc, a: Answer)
    requires Ready(e, opts, pc) && pc.Preparing?
    ensures StepsFairly(e, opts, pc, a)
  {
  }

  lemma AttachEffect(e: Engine, opts: RunOpts, pc: RunPc, a: Answer)
    requires Ready(e, opts, pc) && pc.Attaching?
    ensures StepsFairly(e, opts, pc, a)
  {
  }

  lemma RegisterInspectEffect(e: Engine, opts: RunOpts, pc: RunPc, a: Answer)
    requires Ready(e, opts, pc) && pc.RegisterInspect?
    ensures StepsFairly(e, opts, pc, a)
  {
  }

  lemma RegisterExecEffect(e: Engine, opts: RunOpts, pc: RunPc, a: Answer)
    requires Ready(e, opts, pc) && pc.RegisterExec?
    ensures StepsFairly(e, opts, pc, a)
  {
  }

  lemma CreateClaims(e: Engine, opts: RunOpts, pc: RunPc, a: Answer)
    requires Ready(e, opts, pc) && pc.Creating? && a.Done?
    ensures var (e', pc') := RunStep(e, opts, pc, a); ClaimsEffect(e, pc, e', pc') && FilesChange(e, pc, e', pc')
  {
  }

  lemma CreateContainer(e: Engine, opts: RunOpts, pc: RunPc, a: Answer)
    requires Ready(e, opts, pc) && pc.Creating? && a.Done?
    ensures var (e', pc') := RunStep(e, opts, pc, a); ContainersChange(e, pc, e', pc') && RunLocal(e', opts, pc')
  {
  }

  lemma CreateEffect(e: Engine, opts: RunOpts, pc: RunPc, a: Answer)
    requires Ready(e, opts, pc) && pc.Creating? && a.Done?
    ensures StepsFairly(e, opts, pc, a)
  {
    CreateClaims(e, opts, pc, a);
    CreateContainer(e, opts, pc, a);
  }

  lemma NotCreatedEffect(e: Engine, opts: RunOpts, pc: RunPc, a: Answer)
    requires Ready(e, opts, pc) && pc.Creating? && !a.Done?
    ensures StepsFairly(e, opts, pc, a)
  {
  }

  lemma CopyEffect(e: Engine, opts: RunOpts, pc: RunPc, a: Answer)
    requires Ready(e, opts, pc) && pc.Copying?
    ensures StepsFairly(e, opts, pc, a)
  {
  }

  lemma StartEffect(e: Engine, opts: RunOpts, pc: RunPc, a: Answer)
    requires Ready(e, opts, pc) && pc.Starting?
    ensures StepsFairly(e, opts, pc, a)
  {
  }

  lemma BindTaskEffect(e: Engine, opts: RunOpts, pc: RunPc, a: Answer)
    requires Ready(e, opts, pc) && pc.BindTask?
    ensures StepsFairly(e, opts, pc, a)
  {
  }

  lemma BindInspectEffect(e: Engine, opts: RunOpts, pc: RunPc, a: Answer)
    requires Ready(e, opts, pc) && pc.BindInspect?
    ensures StepsFairly(e, opts, pc, a)
  {
  }

  lemma BindExecEffect(e: Engine, opts: RunOpts, pc: RunPc, a: Answer)
    requires Ready(e, opts, pc) && pc.BindExec?
    ensures StepsFairly(e, opts, pc, a)
  {
  }

  lemma RemoveEffect(e: Engine, opts: RunOpts, pc: RunPc, a: Answer)
    requires Ready(e, opts, pc) && pc.Removing?
    ensures StepsFairly(e, opts, pc, a)
  {
  }

  lemma UnregisterInspectEffect(e: Engine, opts: RunOpts, pc: RunPc, a: Answer)
    requires Ready(e, opts, pc) && pc.UnregisterInspect?
    ensures StepsFairly(e, opts, pc, a)
  {
  }

  lemma UnregisterExecEffect(e: Engine, opts: RunOpts, pc: RunPc, a: Answer)
    requires Ready(e, opts, pc) && pc.UnregisterExec?
    ensures StepsFairly(e, opts, pc, a)
  {
  }

  lemma RunStepEffect(e: Engine, opts: RunOpts, pc: RunPc, a: Answer)
    requires Ready(e, opts, pc)
    ensures StepsFairly(e, opts, pc, a)
  {
    match pc
    case Preparing => PrepareEffect(e, opts, pc, a);
    case Attaching => AttachEffect(e, opts, pc, a);
    case RegisterInspect(_) => RegisterInspectEffect(e, opts, pc, a);
    case RegisterExec(_, _) => RegisterExecEffect(e, opts, pc, a);
    case Creating(_) => if a.Done? { CreateEffect(e, opts, pc, a); } else { NotCreatedEffect(e, opts, pc, a); }
    case Copying(_, _) => CopyEffect(e, opts, pc, a);
    case Starting(_, _) => StartEffect(e, opts, pc, a);
    case BindTask(_, _) => BindTaskEffect(e, opts, pc, a);
    case BindInspect(_, _, _) => BindInspectEffect(e, opts, pc, a);
    case BindExec(_, _, _, _) => BindExecEffect(e, opts, pc, a);
    case Removing(_, _) => RemoveEffect(e, opts, pc, a);
    case UnregisterInspect(_) => UnregisterInspectEffect(e, opts, pc, a);
    case UnregisterExec(_, _) => UnregisterExecEffect(e, opts, pc, a);
  }

  /** The two ends of one run step in a world. */
  ghost predicate RunMoves(w: World, p: nat, w': World) {
    && RunFrame(w, p, w')
    && RunEffect(w.engine, w.procs[p].pc, w'.engine, w'.procs[p].pc)
    && (InFlight(w', p) ==> RunConsistent(w', p))
    && Ready(w.engine, w.procs[p].opts, w.procs[p].pc)
    && ContainersMove(w, p, w')
  }

  ghost predicate RunFrame(w: World, p: nat, w': World) {
    && InFlight(w, p) && w'.procs.Keys == w.procs.Keys && w'.procs[p].Run? && w'.procs[p].opts == w.procs[p].opts
    && (forall q: nat :: q != p && q in w.procs ==> w'.procs[q] == w.procs[q])
    && (forall q: nat :: q != p ==> Cred(w', q) == Cred(w, q) && Held(w', q) == Held(w, q))
    && Cred(w, p) == CredOf(w.procs[p].pc) && Held(w, p) == HeldBy(w.procs[p].pc)
    && Cred(w', p) == CredOf(w'.procs[p].pc) && Held(w', p) == HeldBy(w'.procs[p].pc)
  }

  /** At most the run's own container appears, with the run's id, or disappears. */
  ghost predicate ContainersMove(w: World, p: nat, w': World) {
    forall c: Cid ::
      || ContainerCred(w', c) == ContainerCred(w, c)
      || (Held(w, p).None? && c == w.engine.next && Held(w', p) == Some(c) && ContainerCred(w', c) == Cred(w, p))
      || (Held(w, p) == Some(c) && ContainerCred(w', c).None?)
  }

  lemma RunStepFrame(w: World, p: nat, a: Answer)
    requires InFlight(w, p)
    ensures RunFrame(w, p, Apply(w, Step(p, a)))
  {
  }

  lemma RunStepMoves(w: World, p: nat, a: Answer)
    requires Inv(w) && InFlight(w, p)
    ensures RunMoves(w, p, Apply(w, Step(p, a)))
  {
    assert RunConsistent(w, p);
    RunStepFrame(w, p, a);
    RunStepEffect(w.engine, w.procs[p].opts, w.procs[p].pc, a);
    EffectOnContainers(w, p, Apply(w, Step(p, a)));
  }

  lemma EffectOnContainers(w: World, p: nat, w': World)
    requires InFlight(w, p) && p in w'.procs && w'.procs[p].Run?
    requires RunEffect(w.engine, w.procs[p].pc, w'.engine, w'.procs[p].pc)
    ensures ContainersMove(w, p, w')
  {
    forall c: Cid
      ensures || ContainerCred(w', c) == ContainerCred(w, c)
              || (&& Held(w, p).None? && c == w.engine.next && Held(w', p) == Some(c)
                  && ContainerCred(w', c) == Cred(w, p))
              || (Held(w, p) == Some(c) && ContainerCred(w', c).None?)
    {
      assert ContainerCred(w', c) == CredOn(w'.engine, c) && ContainerCred(w, c) == CredOn(w.engine, c);
    }
  }

  lemma RunKeepsIssued(w: World, p: nat, w': World)
    requires Issued(w) && RunMoves(w, p, w')
    ensures Issued(w')
  {
    forall q: nat | Stopping(w', q) && StopCred(w', q).Some?
      ensures StopCred(w', q).value < w'.engine.next {
      assert Stopping(w, q) && StopCred(w', q) == StopCred(w, q);
    }
    forall c: Cid | ContainerCred(w', c).Some? ensures ContainerCred(w', c).value < w'.engine.next {
      assert ContainerCred(w, c).Some? ==> ContainerCred(w, c).value < w.engine.next;
    }
  }

  lemma RunKeepsUnshared(w: World, p: nat, w': World)
    requires Issued(w) && Unshared(w) && RunMoves(w, p, w')
    ensures Unshared(w')
  {
    forall c: Cid, d: Cid | c != d && ContainerCred(w', c).Some? ensures ContainerCred(w', c) != ContainerCred(w', d) {
      var id := ContainerCred(w', c);
      assert Cred(w, p) == id && ContainerCred(w, c) == id ==> Held(w, p) == Some(c);
      assert Cred(w, p) == id && ContainerCred(w, d) == id ==> Held(w, p) == Some(d);
    }
    forall q: nat, c: Cid | Cred(w', q).Some? && ContainerCred(w', c) == Cred(w', q) ensures Held(w', q) == Some(c) {
      assert Cred(w, q).Some? && ContainerCred(w, c) == Cred(w, q) ==> Held(w, q) == Some(c);
      assert q != p && Cred(w, q).Some? ==> Cred(w, q) != Cred(w, p);
      assert ContainerCred(w', c) == CredOn(w'.engine, c);
      assert ContainerCred(w, c).Some? ==> ContainerCred(w, c).value < w.engine.next;
    }
  }

  lemma RunKeepsRuns(w: World, p: nat, w': World)
    requires Issued(w) && Unshared(w) && RunsConsistent(w) && RunMoves(w, p, w')
    ensures RunsConsistent(w')
  {
    forall q: nat | InFlight(w', q) ensures RunConsistent(w', q) {
      if q != p {
        assert InFlight(w, q) && RunConsistent(w, q);
        assert Cred(w, q) == CredOf(w.procs[q].pc) && Held(w, q) == HeldBy(w.procs[q].pc);
      }
    }
  }

  lemma RunKeepsPublished(w: World, p: nat, w': World)
    requires Issued(w) && Unshared(w) && PublishedFree(w) && RunMoves(w, p, w')
    ensures PublishedFree(w') && ReturnsKept(w, w')
  {
    forall c: Cid | Published(w', c)
      ensures c < w'.engine.next && c !in w'.engine.lingering && forall q: nat :: Held(w', q) != Some(c)
    {
      var r: nat :| r in w'.procs && w'.procs[r].Run? && w'.procs[r].pc == Returned(Some(c));
      if r != p {
        assert w.procs[r].pc == Returned(Some(c));
        assert Published(w, c);
      }
    }
  }

  lemma RunKeepsStop(w: World, p: nat, w': World, q: nat)
    requires Issued(w) && Unshared(w) && PublishedFree(w) && RunMoves(w, p, w') && ReturnsKept(w, w')
    requires Stopping(w, q) && StopConsistent(w, q) && p != q
    ensures StopConsistent(w', q)
  {
    assert StopCred(w', q) == StopCred(w, q);
    assert StopCred(w, q).Some? ==> Cred(w, p) != StopCred(w, q);
    PublishedForGood(w, w', w.procs[q].target);
  }

  lemma RunKeepsStops(w: World, p: nat, w': World)
    requires Issued(w) && Unshared(w) && PublishedFree(w) && StopsConsistent(w) && RunMoves(w, p, w')
    requires ReturnsKept(w, w')
    ensures StopsConsistent(w')
  {
    forall q: nat | Stopping(w', q) ensures StopConsistent(w', q) {
      assert Stopping(w, q) && StopConsistent(w, q);
      RunKeepsStop(w, p, w', q);
    }
  }

  lemma RunKeepsAccounted(w: World, p: nat, w': World)
    requires Issued(w) && Unshared(w) && Accounted(w) && RunMoves(w, p, w')
    ensures Accounted(w')
  {
    forall id: Uuid | w'.engine.HasFiles(id) && id !in w'.engine.abandoned ensures exists o: Owner :: Owns(w', o, id) {
      if Cred(w, p) == Some(id) {
        if Cred(w', p) == Some(id) {
          assert Owns(w', Flight(p), id);
        } else {
          assert Owns(w', Existing(Held(w, p).value), id);
        }
      } else {
        var o: Owner :| Owns(w, o, id);
        assert Owns(w', o, id);
      }
    }
  }

  // ---------------------------------------------------------------- steps of a stop

  /** What one call of a stop does: at most it takes away its target's id and the target itself. */
  ghost predicate StopEffect(e: Engine, c: Cid, at: StopPc, e': Engine, at': StopPc) {
    && FreshIds(e') && e'.next == e.next && e'.sidecar == e.sidecar && e'.lingering == e.lingering
    && e.abandoned <= e'.abandoned
    && (forall d: Cid :: CredOn(e', d) == CredOn(e, d) || (d == c && CredOn(e', d).None?))
    && (forall d: Cid :: d != c ==> (d in e'.containers <==> d in e.containers))
    && (c in e'.containers ==> c in e.containers)
    && (forall id: Uuid :: e'.HasFiles(id) ==> e.HasFiles(id))
    && (CredOn(e, c).Some? && CredOn(e', c).None? ==> at.StopRemoving? && c !in e'.containers)
    && (at'.Halting? || at'.StopRemoving? ==> CredOn(e', c).Some? ==>
          e'.HasFiles(CredOn(e', c).value) ==> CredOn(e', c).value in e'.abandoned)
    && (at'.StopUnregisterInspect? ==> CredOn(e', c) == Some(at'.id))
    && (at'.StopUnregisterExec? ==>
          at.StopUnregisterInspect? && at'.id == at.id && e'.sidecar == Some(at'.target))
  }

  /** What a stop knows about its target before a call. */
  ghost predicate StopReady(e: Engine, c: Cid, at: StopPc) {
    && FreshIds(e) && !at.Stopped? && c !in e.lingering
    && (at.StopUnregisterInspect? || at.StopUnregisterExec? ==>
          at.id < e.next && (c in e.containers ==> CredOn(e, c) == Some(at.id)))
    && (at.Halting? || at.StopRemoving? ==> CredOn(e, c).Some? ==>
          e.HasFiles(CredOn(e, c).value) ==> CredOn(e, c).value in e.abandoned)
  }

  lemma StopUnregisterEffect(e: Engine, c: Cid, at: StopPc, a: Answer)
    requires StopReady(e, c, at) && !at.Halting? && !at.StopRemoving?
    ensures var (e', at') := StopStep(e, c, at, a); StopEffect(e, c, at, e', at')
  {
  }

  lemma StopHaltEffect(e: Engine, c: Cid, at: StopPc, a: Answer)
    requires StopReady(e, c, at) && (at.Halting? || at.StopRemoving?)
    ensures var (e', at') := StopStep(e, c, at, a); StopEffect(e, c, at, e', at')
  {
  }

  lemma StopStepEffect(e: Engine, c: Cid, at: StopPc, a: Answer)
    requires StopReady(e, c, at)
    ensures var (e', at') := StopStep(e, c, at, a); StopEffect(e, c, at, e', at')
  {
    if at.Halting? || at.StopRemoving? {
      StopHaltEffect(e, c, at, a);
    } else {
      StopUnregisterEffect(e, c, at, a);
    }
  }

  ghost predicate StopMoves(w: World, p: nat, w': World) {
    && Stopping(w, p) && w'.procs.Keys == w.procs.Keys && w'.procs[p].Stop? && w'.procs[p].target == w.procs[p].target
    && (forall q: nat :: q != p && q in w.procs ==> w'.procs[q] == w.procs[q])
    && StopEffect(w.engine, w.procs[p].target, w.procs[p].at, w'.engine, w'.procs[p].at)
    && (forall q: nat :: Cred(w', q) == Cred(w, q) && Held(w', q) == Held(w, q))
    && (forall c: Cid ::
          ContainerCred(w', c) == ContainerCred(w, c) || (c == w.procs[p].target && ContainerCred(w', c).None?))
  }

  lemma StopStepMoves(w: World, p: nat, a: Answer)
    requires Inv(w) && Stopping(w, p)
    ensures StopMoves(w, p, Apply(w, Step(p, a)))
  {
    assert StopConsistent(w, p) && Published(w, w.procs[p].target);
    assert StopCred(w, p).Some? ==> StopCred(w, p).value < w.engine.next;
    StopStepEffect(w.engine, w.procs[p].target, w.procs[p].at, a);
    var w' := Apply(w, Step(p, a));
    assert forall q: nat :: Cred(w', q) == Cred(w, q) && Held(w', q) == Held(w, q);
    forall c: Cid
      ensures ContainerCred(w', c) == ContainerCred(w, c) || (c == w.procs[p].target && ContainerCred(w', c).None?)
    {
      assert ContainerCred(w', c) == CredOn(w'.engine, c) && ContainerCred(w, c) == CredOn(w.engine, c);
    }
  }

  lemma StopKeepsIssued(w: World, p: nat, w': World)
    requires Issued(w) && StopMoves(w, p, w')
    ensures Issued(w')
  {
    forall c: Cid | ContainerCred(w', c).Some? ensures ContainerCred(w', c).value < w'.engine.next {
      assert ContainerCred(w, c).Some? ==> ContainerCred(w, c).value < w.engine.next;
    }
    forall q: nat | Stopping(w', q) && StopCred(w', q).Some? ensures StopCred(w', q).value < w'.engine.next {
      if q != p {
        assert Stopping(w, q) && StopCred(w', q) == StopCred(w, q);
      } else {
        var c := w.procs[p].target;
        assert ContainerCred(w', c) == CredOn(w'.engine, c);
        assert w'.procs[p].at.StopUnregisterExec? ==> StopCred(w, p) == StopCred(w', p);
      }
    }
  }

  lemma StopKeepsUnshared(w: World, p: nat, w': World)
    requires Unshared(w) && StopMoves(w, p, w')
    ensures Unshared(w')
  {
    forall q: nat, c: Cid | Cred(w', q).Some? && ContainerCred(w', c) == Cred(w', q) ensures Held(w', q) == Some(c) {
      assert Cred(w, q).Some? && ContainerCred(w, c) == Cred(w, q);
    }
  }

  lemma StopKeepsRuns(w: World, p: nat, w': World)
    requires Inv(w) && StopMoves(w, p, w')
    ensures RunsConsistent(w')
  {
    var c := w.procs[p].target;
    assert StopConsistent(w, p) && Published(w, c);
    forall q: nat | InFlight(w', q) ensures RunConsistent(w', q) {
      assert q != p && InFlight(w, q) && RunConsistent(w, q);
      assert Held(w, q) == HeldBy(w.procs[q].pc) && Held(w, q) != Some(c);
    }
  }

  lemma StopKeepsPublished(w: World, p: nat, w': World)
    requires PublishedFree(w) && StopMoves(w, p, w')
    ensures PublishedFree(w') && ReturnsKept(w, w')
  {
    forall c: Cid | Published(w', c) ensures Published(w, c) {
      var r: nat :| r in w'.procs && w'.procs[r].Run? && w'.procs[r].pc == Returned(Some(c));
      assert r != p && w.procs[r] == w'.procs[r];
    }
  }

  lemma StopKeepsStops(w: World, p: nat, w': World)
    requires Inv(w) && StopMoves(w, p, w') && ReturnsKept(w, w')
    ensures StopsConsistent(w')
  {
    assert StopConsistent(w, p);
    forall q: nat | Stopping(w', q) ensures StopConsistent(w', q) {
      assert Stopping(w, q) && StopConsistent(w, q);
      var c := w.procs[q].target;
      PublishedForGood(w, w', c);
      assert ContainerCred(w', c) == CredOn(w'.engine, c);
      if q != p {
        assert StopCred(w', q) == StopCred(w, q);
      } else if StopCred(w', p).Some? {
        FreshlyNamed(w, p, w');
      }
    }
  }

  /** The id a stop has just read off its container is nobody else's. */
  lemma FreshlyNamed(w: World, p: nat, w': World)
    requires Inv(w) && StopMoves(w, p, w') && Stopping(w', p) && StopCred(w', p).Some?
    ensures forall r: nat :: Cred(w', r) != StopCred(w', p)
    ensures forall d: Cid :: ContainerCred(w', d) == StopCred(w', p) ==> d == w.procs[p].target
    ensures w.procs[p].target in w'.engine.containers ==> ContainerCred(w', w.procs[p].target) == StopCred(w', p)
  {
    var c := w.procs[p].target;
    assert StopConsistent(w, p) && Published(w, c);
    assert ContainerCred(w', c) == CredOn(w'.engine, c) && ContainerCred(w, c) == CredOn(w.engine, c);
    if w'.procs[p].at.StopUnregisterExec? {
      assert StopCred(w, p) == StopCred(w', p);
    } else {
      assert ContainerCred(w, c) == StopCred(w', p);
      forall r: nat ensures Cred(w', r) != StopCred(w', p) {
        assert Cred(w, r).Some? && ContainerCred(w, c) == Cred(w, r) ==> Held(w, r) == Some(c);
      }
    }
  }

  lemma StopKeepsAccounted(w: World, p: nat, w': World)
    requires Inv(w) && StopMoves(w, p, w')
    ensures Accounted(w')
  {
    var c := w.procs[p].target;
    assert StopConsistent(w, p);
    forall id: Uuid | w'.engine.HasFiles(id) && id !in w'.engine.abandoned ensures exists o: Owner :: Owns(w', o, id) {
      var o: Owner :| Owns(w, o, id);
      assert ContainerCred(w', c) == CredOn(w'.engine, c) && ContainerCred(w, c) == CredOn(w.engine, c);
      assert Owns(w', o, id);
    }
  }

  // ---------------------------------------------------------------- whole runs

  lemma StepKeepsInv(w: World, ev: Event)
    requires Inv(w) && Enabled(w, ev)
    ensures Inv(Apply(w, ev))
  {
    var w' := Apply(w, ev);
    if !ev.Step? {
      EnvironmentKeepsInv(w, ev);
    } else if InFlight(w, ev.p) {
      RunStepMoves(w, ev.p, ev.a);
      RunKeepsIssued(w, ev.p, w');
      RunKeepsUnshared(w, ev.p, w');
      RunKeepsRuns(w, ev.p, w');
      RunKeepsPublished(w, ev.p, w');
      RunKeepsStops(w, ev.p, w');
      RunKeepsAccounted(w, ev.p, w');
    } else {
      StopStepMoves(w, ev.p, ev.a);
      StopKeepsIssued(w, ev.p, w');
      StopKeepsUnshared(w, ev.p, w');
      StopKeepsRuns(w, ev.p, w');
      StopKeepsPublished(w, ev.p, w');
      StopKeepsStops(w, ev.p, w');
      StopKeepsAccounted(w, ev.p, w');
    }
  }

  /** The world after a sequence of events, when each is enabled in its turn. */
  ghost function After(w: World, evs: seq<Event>): Option<World> {
    if evs == [] then Some(w)
    else
      var before := After(w, evs[..|evs| - 1]);
      var ev := evs[|evs| - 1];
      if before.Some? && Enabled(before.value, ev) then Some(Apply(before.value, ev)) else None
  }

  const EMPTY := World(Engine(map[], None, map[], map[], 0, {}, {}), map[])

  lemma {:induction false} RunsKeepInv(evs: seq<Event>)
    requires After(EMPTY, evs).Some?
    ensures Inv(After(EMPTY, evs).value)
  {
    if evs != [] {
      RunsKeepInv(evs[..|evs| - 1]);
      StepKeepsInv(After(EMPTY, evs[..|evs| - 1]).value, evs[|evs| - 1]);
    }
  }

  /** Main result: in every interleaving, every UUID with a credential or peer file that no failed call has
      abandoned is owned by exactly one run in flight or one existing container, and no owner has two ids. */
  lemma FilesHaveOneOwner(evs: seq<Event>, id: Uuid)
    requires After(EMPTY, evs).Some?
    ensures var w := After(EMPTY, evs).value;
            w.engine.HasFiles(id) && id !in w.engine.abandoned ==>
              exists o: Owner :: Owns(w, o, id) && forall o': Owner, id': Uuid ::
                (Owns(w, o', id) ==> o' == o) && (Owns(w, o, id') ==> id' == id)
  {
    RunsKeepInv(evs);
    var w := After(EMPTY, evs).value;
    if w.engine.HasFiles(id) && id !in w.engine.abandoned {
      var o: Owner :| Owns(w, o, id);
      forall o': Owner | Owns(w, o', id) ensures o' == o {
        OwnerUnique(w, o, o', id);
      }
    }
  }

  /** Calls that clean up are answered: an unregister against the live sidecar succeeds, a stop's inspect finds
      its container, and a failed registration has not written its file. Nothing is asked of calls that address
      a sidecar replaced in the meantime. */
  ghost predicate CleanupAnswered(w: World, ev: Event)
    requires Enabled(w, ev)
  {
    ev.Step? && !ev.a.Done? ==>
      match w.procs[ev.p]
      case Run(_, pc) =>
        && (pc.RegisterExec? ==> !ev.a.Broken?)
        && (pc.UnregisterInspect? ==> w.engine.sidecar.None?)
        && (pc.UnregisterExec? ==> w.engine.sidecar != Some(pc.target))
      case Stop(_, at) =>
        && !at.Inspecting?
        && (at.StopUnregisterInspect? ==> w.engine.sidecar.None?)
        && (at.StopUnregisterExec? ==> w.engine.sidecar != Some(at.target))
  }

  lemma NothingAbandoned(w: World, ev: Event)
    requires Inv(w) && Enabled(w, ev) && CleanupAnswered(w, ev)
    ensures Apply(w, ev).engine.abandoned == w.engine.abandoned
  {
    if ev.Step? {
      if InFlight(w, ev.p) {
        assert RunConsistent(w, ev.p);
      } else {
        assert StopConsistent(w, ev.p);
      }
    }
  }

  ghost predicate AllCleanupAnswered(evs: seq<Event>)
    requires After(EMPTY, evs).Some?
  {
    evs == [] ||
    (CleanupAnswered(After(EMPTY, evs[..|evs| - 1]).value, evs[|evs| - 1]) && AllCleanupAnswered(evs[..|evs| - 1]))
  }

  /** Main result: a sidecar replaced in the middle of an unregister loses no file to nobody. When clean-up
      calls are answered, every UUID with a file has exactly one owner, however often the sidecar changes. */
  lemma {:induction false} AnsweredCleanupLeavesNoOrphan(evs: seq<Event>)
    requires After(EMPTY, evs).Some? && AllCleanupAnswered(evs)
    ensures var w := After(EMPTY, evs).value;
            && w.engine.abandoned == {}
            && forall id: Uuid :: w.engine.HasFiles(id) ==> exists o: Owner :: Owns(w, o, id)
  {
    if evs != [] {
      var init := evs[..|evs| - 1];
      AnsweredCleanupLeavesNoOrphan(init);
      RunsKeepInv(init);
      NothingAbandoned(After(EMPTY, init).value, evs[|evs| - 1]);
    }
    RunsKeepInv(evs);
  }
}
