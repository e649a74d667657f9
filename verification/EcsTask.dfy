/** One ECS task: what each call on the nested Docker engine does, RunECSTask and StopECSTask as sequences
    of such calls, and what a whole run or stop leaves behind. */
module EcsTask {
  import opened Wrappers

  type Uuid = nat
  type Cid = nat
  type Address = string
  type Keys = string

  /** cred is the credential id that the container's environment list names. */
  datatype Container = Container(cred: Option<Uuid>, running: bool, address: Option<Address>)

  /** The nested engine as task runs see it. The sidecar is identified by the Docker id of its container;
      creds and peers are the files it holds. Every id (UUID or Docker id) is drawn from one counter, so
      ids are fresh by construction. abandoned collects the UUIDs given up with a file in place, by a failed
      cleanup call or by a registration that reported an error after writing its file; lingering collects the
      containers whose forced removal failed. */
  datatype Engine = Engine(
    containers: map<Cid, Container>,
    sidecar: Option<Cid>,
    creds: map<Uuid, Keys>,
    peers: map<Uuid, Address>,
    next: nat,
    abandoned: set<Uuid>,
    lingering: set<Cid>)
  {
    predicate HasFiles(id: Uuid) {
      id in creds || id in peers
    }

    /** A new sidecar container has an empty document root. */
    function ReplaceSidecar(): Engine {
      this.(sidecar := Some(next), next := next + 1, creds := map[], peers := map[])
    }

    function DropSidecar(): Engine {
      this.(sidecar := None, creds := map[], peers := map[])
    }

    function Abandon(id: Uuid): Engine {
      if HasFiles(id) then this.(abandoned := abandoned + {id}) else this
    }

    function RemoveFiles(id: Uuid): Engine {
      this.(creds := creds - {id}, peers := peers - {id})
    }

    function StopContainer(c: Cid): Engine {
      if c in containers then this.(containers := containers[c := containers[c].(running := false, address := None)])
      else this
    }
  }

  /** How the engine answered one call: done (a start also reports the address it assigned), refused
      without an effect, or broken, an error reported after the effect (only where noted). For the sidecar
      check, Fresh means that the running one was unusable and has been replaced. */
  datatype Answer = Done(address: Address) | Refused | Broken | Fresh

  datatype PreStart = NoCopy | CopyTar(destValid: bool) | DestWithoutTar

  /** keys are the minted AWS_* role keys, when present; claim is the credential id that the caller's own
      environment already names. */
  datatype RunOpts = RunOpts(keys: Option<Keys>, claim: Option<Uuid>, copy: PreStart)

  // ---------------------------------------------------------------- RunECSTask, call by call

  /** Where a RunECSTask call stands: the next engine call it makes. */
  datatype RunPc =
    | Preparing
    | Attaching
    | RegisterInspect(id: Uuid)
    | RegisterExec(id: Uuid, target: Cid)
    | Creating(cred: Option<Uuid>)
    | Copying(cred: Option<Uuid>, c: Cid)
    | Starting(cred: Option<Uuid>, c: Cid)
    | BindTask(id: Uuid, c: Cid)
    | BindInspect(id: Uuid, c: Cid, address: Address)
    | BindExec(id: Uuid, c: Cid, address: Address, target: Cid)
    | Removing(cred: Option<Uuid>, c: Cid)
    | UnregisterInspect(id: Uuid)
    | UnregisterExec(id: Uuid, target: Cid)
    | Returned(result: Option<Cid>)

  /** The credential id a run has minted and not yet given up. */
  function CredOf(pc: RunPc): Option<Uuid> {
    match pc
    case RegisterInspect(id) => Some(id) case RegisterExec(id, _) => Some(id)
    case Creating(cred) => cred case Copying(cred, _) => cred case Starting(cred, _) => cred
    case BindTask(id, _) => Some(id) case BindInspect(id, _, _) => Some(id) case BindExec(id, _, _, _) => Some(id)
    case Removing(cred, _) => cred
    case UnregisterInspect(id) => Some(id) case UnregisterExec(id, _) => Some(id)
    case _ => None
  }

  function AfterFailure(cred: Option<Uuid>): RunPc {
    if cred.Some? then UnregisterInspect(cred.value) else Returned(None)
  }

  function AfterCreate(opts: RunOpts, cred: Option<Uuid>, c: Cid): RunPc {
    match opts.copy
    case NoCopy => Starting(cred, c)
    case CopyTar(valid) => if valid then Copying(cred, c) else Removing(cred, c)
    case DestWithoutTar => Removing(cred, c)
  }

  function RunStep(e: Engine, opts: RunOpts, pc: RunPc, a: Answer): (Engine, RunPc)
    requires !pc.Returned?
  {
    match pc
    case Preparing =>
      if !a.Done? then (e, Returned(None))
      else (e, if opts.keys.Some? then Attaching else Creating(None))
    case Attaching =>
      if a.Refused? then (e, Returned(None))
      else if a.Broken? then (e.DropSidecar(), Returned(None))
      else
        var e' := if a.Done? && e.sidecar.Some? then e else e.ReplaceSidecar();
        (e'.(next := e'.next + 1), RegisterInspect(e'.next))
    case RegisterInspect(id) =>
      (e, if a.Done? && e.sidecar.Some? then RegisterExec(id, e.sidecar.value) else Returned(None))
    case RegisterExec(id, target) =>
      if e.sidecar != Some(target) || opts.keys.None? then (e, Returned(None))
      else if a.Done? then (e.(creds := e.creds[id := opts.keys.value]), Creating(Some(id)))
      else if a.Broken? then
        (e.(creds := e.creds[id := opts.keys.value], abandoned := e.abandoned + {id}), Returned(None))
      else (e, Returned(None))
    case Creating(cred) =>
      if !a.Done? then (e, AfterFailure(cred))
      else
        var env := if cred.Some? then cred else opts.claim;
        (e.(containers := e.containers[e.next := Container(env, false, None)], next := e.next + 1),
         AfterCreate(opts, cred, e.next))
    case Copying(cred, c) =>
      (e, if a.Done? then Starting(cred, c) else Removing(cred, c))
    case Starting(cred, c) =>
      if !a.Done? || c !in e.containers then (e, Removing(cred, c))
      else
        (e.(containers := e.containers[c := e.containers[c].(running := true, address := Some(a.address))]),
         if cred.Some? then BindTask(cred.value, c) else Returned(Some(c)))
    case BindTask(id, c) =>
      (e, if a.Done? && c in e.containers && e.containers[c].address.Some?
          then BindInspect(id, c, e.containers[c].address.value) else Removing(Some(id), c))
    case BindInspect(id, c, address) =>
      (e, if a.Done? && e.sidecar.Some? then BindExec(id, c, address, e.sidecar.value) else Removing(Some(id), c))
    case BindExec(id, c, address, target) =>
      if e.sidecar != Some(target) || a.Refused? || a.Fresh? then (e, Removing(Some(id), c))
      else (e.(peers := e.peers[id := address]), if a.Done? then Returned(Some(c)) else Removing(Some(id), c))
    case Removing(cred, c) =>
      (if a.Done? then e.(containers := e.containers - {c}) else e.(lingering := e.lingering + {c}),
       AfterFailure(cred))
    case UnregisterInspect(id) =>
      if a.Done? && e.sidecar.Some? then (e, UnregisterExec(id, e.sidecar.value))
      else (e.Abandon(id), Returned(None))
    case UnregisterExec(id, target) =>
      (if a.Done? && e.sidecar == Some(target) then e.RemoveFiles(id) else e.Abandon(id), Returned(None))
  }

  function RunRank(pc: RunPc): nat {
    match pc
    case Preparing => 13 case Attaching => 12 case RegisterInspect(_) => 11 case RegisterExec(_, _) => 10
    case Creating(_) => 9 case Copying(_, _) => 8 case Starting(_, _) => 7 case BindTask(_, _) => 6
    case BindInspect(_, _, _) => 5 case BindExec(_, _, _, _) => 4 case Removing(_, _) => 3
    case UnregisterInspect(_) => 2 case UnregisterExec(_, _) => 1 case Returned(_) => 0
  }

  datatype RunEnd = RunEnd(engine: Engine, result: Option<Cid>, calls: nat)

  /** A whole RunECSTask with nobody interfering: the oracle answers call number k, k + 1, ... */
  function RunAlone(e: Engine, opts: RunOpts, pc: RunPc, oracle: nat -> Answer, k: nat): RunEnd
    decreases RunRank(pc)
  {
    if pc.Returned? then RunEnd(e, pc.result, k)
    else
      var (e', pc') := RunStep(e, opts, pc, oracle(k));
      RunAlone(e', opts, pc', oracle, k + 1)
  }

  // ---------------------------------------------------------------- StopECSTask, call by call

  datatype StopPc =
    | Inspecting
    | StopUnregisterInspect(id: Uuid)
    | StopUnregisterExec(id: Uuid, target: Cid)
    | Halting
    | StopRemoving
    | Stopped(ok: bool)

  function StopStep(e: Engine, c: Cid, pc: StopPc, a: Answer): (Engine, StopPc)
    requires !pc.Stopped?
  {
    match pc
    case Inspecting =>
      if c !in e.containers || e.containers[c].cred.None? then (e, Halting)
      else if a.Done? then (e, StopUnregisterInspect(e.containers[c].cred.value))
      else (e.Abandon(e.containers[c].cred.value), Halting)
    case StopUnregisterInspect(id) =>
      if a.Done? && e.sidecar.Some? then (e, StopUnregisterExec(id, e.sidecar.value))
      else (e.Abandon(id), Halting)
    case StopUnregisterExec(id, target) =>
      (if a.Done? && e.sidecar == Some(target) then e.RemoveFiles(id) else e.Abandon(id), Halting)
    case Halting =>
      if a.Done? && c in e.containers then (e.StopContainer(c), StopRemoving) else (e, Stopped(false))
    case StopRemoving =>
      if a.Done? && c in e.containers then (e.(containers := e.containers - {c}), Stopped(true))
      else (e, Stopped(false))
  }

  function StopRank(pc: StopPc): nat {
    match pc
    case Inspecting => 5 case StopUnregisterInspect(_) => 4 case StopUnregisterExec(_, _) => 3
    case Halting => 2 case StopRemoving => 1 case Stopped(_) => 0
  }

  datatype StopEnd = StopEnd(engine: Engine, ok: bool, calls: nat)

  function StopAlone(e: Engine, c: Cid, pc: StopPc, oracle: nat -> Answer, k: nat): StopEnd
    decreases StopRank(pc)
  {
    if pc.Stopped? then StopEnd(e, pc.ok, k)
    else
      var (e', pc') := StopStep(e, c, pc, oracle(k));
      StopAlone(e', c, pc', oracle, k + 1)
  }

  // ---------------------------------------------------------------- what a whole run leaves behind

  /** Everything in the engine was issued before its counter. */
  ghost predicate FreshIds(e: Engine) {
    && (forall c | c in e.containers :: c < e.next)
    && (forall c | c in e.lingering :: c < e.next)
    && (forall id | id in e.creds :: id < e.next)
    && (forall id | id in e.peers :: id < e.next)
    && (forall id | id in e.abandoned :: id < e.next)
    && (e.sidecar.Some? ==> e.sidecar.value < e.next)
    && (e.sidecar.None? ==> e.creds == map[] && e.peers == map[])
  }

  /** Equal but for the id counter. */
  ghost predicate Same(e: Engine, e': Engine) {
    e'.(next := e.next) == e
  }

  /** Nothing was left behind between the two engines. */
  ghost predicate NothingLeft(e: Engine, e': Engine) {
    e'.lingering == e.lingering && e'.abandoned == e.abandoned
  }

  function WithoutCred(e: Engine, cred: Option<Uuid>): Engine {
    if cred.Some? then e.RemoveFiles(cred.value) else e
  }

  function WithPeer(e: Engine, id: Uuid, c: Cid): Engine
    requires c in e.containers && e.containers[c].address.Some?
  {
    e.(peers := e.peers[id := e.containers[c].address.value])
  }

  lemma UnregisterAlone(e: Engine, opts: RunOpts, id: Uuid, oracle: nat -> Answer, k: nat)
    requires e.sidecar.Some? || !e.HasFiles(id)
    requires id !in e.abandoned
    ensures var end := RunAlone(e, opts, UnregisterInspect(id), oracle, k);
            && end.result.None? && end.engine.lingering == e.lingering && e.abandoned <= end.engine.abandoned
            && (end.engine.abandoned == e.abandoned ==> end.engine == e.RemoveFiles(id))
  {
    assert !e.HasFiles(id) ==> e.creds - {id} == e.creds && e.peers - {id} == e.peers;
    assert e.HasFiles(id) ==> id in e.Abandon(id).abandoned;
    var (e', pc') := RunStep(e, opts, UnregisterInspect(id), oracle(k));
    if !pc'.Returned? {
      var (e'', pc'') := RunStep(e', opts, pc', oracle(k + 1));
      assert RunAlone(e', opts, pc', oracle, k + 1) == RunAlone(e'', opts, pc'', oracle, k + 2);
    }
  }

  lemma CleanupAlone(e: Engine, opts: RunOpts, cred: Option<Uuid>, c: Cid, oracle: nat -> Answer, k: nat)
    requires cred.Some? ==> e.sidecar.Some? || !e.HasFiles(cred.value)
    requires cred.Some? ==> cred.value !in e.abandoned
    requires c !in e.lingering
    ensures var end := RunAlone(e, opts, Removing(cred, c), oracle, k);
            && end.result.None? && e.lingering <= end.engine.lingering && e.abandoned <= end.engine.abandoned
            && (NothingLeft(e, end.engine) ==>
                  end.engine == WithoutCred(e.(containers := e.containers - {c}), cred))
  {
    var (e', pc') := RunStep(e, opts, Removing(cred, c), oracle(k));
    assert !oracle(k).Done? ==> c in e'.lingering;
    if cred.Some? {
      UnregisterAlone(e', opts, cred.value, oracle, k + 1);
    }
  }

  /** From the peer bind on: the peer file is written, or the container and the files are gone. */
  lemma BindAlone(e: Engine, opts: RunOpts, id: Uuid, c: Cid, oracle: nat -> Answer, k: nat)
    requires e.sidecar.Some? && id !in e.abandoned && c !in e.lingering
    requires c in e.containers && e.containers[c].address.Some?
    ensures var end := RunAlone(e, opts, BindTask(id, c), oracle, k);
            && (end.result.Some? ==> end.result == Some(c) && end.engine == WithPeer(e, id, c))
            && (end.result.None? ==>
                  && e.lingering <= end.engine.lingering && e.abandoned <= end.engine.abandoned
                  && (NothingLeft(e, end.engine) ==>
                        end.engine == e.(containers := e.containers - {c}).RemoveFiles(id)))
  {
    CleanupAlone(e, opts, Some(id), c, oracle, k + 1);
    if oracle(k).Done? {
      var ad := e.containers[c].address.value;
      assert RunStep(e, opts, BindTask(id, c), oracle(k)) == (e, BindInspect(id, c, ad));
      WriteAlone(e, opts, id, c, oracle, k + 1);
    }
  }

  lemma WriteAlone(e: Engine, opts: RunOpts, id: Uuid, c: Cid, oracle: nat -> Answer, k: nat)
    requires e.sidecar.Some? && id !in e.abandoned && c !in e.lingering
    requires c in e.containers && e.containers[c].address.Some?
    ensures var end := RunAlone(e, opts, BindInspect(id, c, e.containers[c].address.value), oracle, k);
            && (end.result.Some? ==> end.result == Some(c) && end.engine == WithPeer(e, id, c))
            && (end.result.None? ==>
                  && e.lingering <= end.engine.lingering && e.abandoned <= end.engine.abandoned
                  && (NothingLeft(e, end.engine) ==>
                        end.engine == e.(containers := e.containers - {c}).RemoveFiles(id)))
  {
    var ad := e.containers[c].address.value;
    CleanupAlone(e, opts, Some(id), c, oracle, k + 1);
    CleanupAlone(e, opts, Some(id), c, oracle, k + 2);
    CleanupAlone(WithPeer(e, id, c), opts, Some(id), c, oracle, k + 2);
    assert WithPeer(e, id, c).peers - {id} == e.peers - {id};
    if oracle(k).Done? {
      var t := e.sidecar.value;
      assert RunStep(e, opts, BindInspect(id, c, ad), oracle(k)) == (e, BindExec(id, c, ad, t));
      var (e', pc') := RunStep(e, opts, BindExec(id, c, ad, t), oracle(k + 1));
      assert RunAlone(e, opts, BindExec(id, c, ad, t), oracle, k + 1) == RunAlone(e', opts, pc', oracle, k + 2);
    }
  }

  ghost function Launched(e: Engine, c: Cid, address: Address): Engine
    requires c in e.containers
  {
    e.(containers := e.containers[c := e.containers[c].(running := true, address := Some(address))])
  }

  /** e with the task's container running and, when it has role keys, its peer file written. */
  ghost predicate RunsTask(e: Engine, e': Engine, cred: Option<Uuid>, c: Cid)
    requires c in e.containers
  {
    exists address ::
      var l := Launched(e, c, address);
      e' == if cred.Some? then WithPeer(l, cred.value, c) else l
  }

  lemma StartAlone(e: Engine, opts: RunOpts, cred: Option<Uuid>, c: Cid, oracle: nat -> Answer, k: nat)
    requires cred.Some? ==> e.sidecar.Some? && cred.value !in e.abandoned
    requires c !in e.lingering && c in e.containers
    ensures var end := RunAlone(e, opts, Starting(cred, c), oracle, k);
            && (end.result.Some? ==> end.result == Some(c) && RunsTask(e, end.engine, cred, c))
            && (end.result.None? ==>
                  && e.lingering <= end.engine.lingering && e.abandoned <= end.engine.abandoned
                  && (NothingLeft(e, end.engine) ==>
                        end.engine == WithoutCred(e.(containers := e.containers - {c}), cred)))
  {
    CleanupAlone(e, opts, cred, c, oracle, k + 1);
    if oracle(k).Done? {
      var l := Launched(e, c, oracle(k).address);
      assert l.containers - {c} == e.containers - {c};
      if cred.Some? {
        BindAlone(l, opts, cred.value, c, oracle, k + 1);
      }
    }
  }

  /** From a created container on: it is started and bound, or it and the credential files are gone. */
  lemma CreatedAlone(e: Engine, opts: RunOpts, cred: Option<Uuid>, c: Cid, oracle: nat -> Answer, k: nat)
    requires cred.Some? ==> e.sidecar.Some? && cred.value !in e.abandoned
    requires c !in e.lingering && c in e.containers
    ensures var end := RunAlone(e, opts, AfterCreate(opts, cred, c), oracle, k);
            && (end.result.Some? ==> end.result == Some(c) && RunsTask(e, end.engine, cred, c))
            && (end.result.None? ==>
                  && e.lingering <= end.engine.lingering && e.abandoned <= end.engine.abandoned
                  && (NothingLeft(e, end.engine) ==>
                        end.engine == WithoutCred(e.(containers := e.containers - {c}), cred)))
  {
    match AfterCreate(opts, cred, c)
    case Starting(_, _) => StartAlone(e, opts, cred, c, oracle, k);
    case Removing(_, _) => CleanupAlone(e, opts, cred, c, oracle, k);
    case Copying(_, _) =>
      if oracle(k).Done? {
        StartAlone(e, opts, cred, c, oracle, k + 1);
      } else {
        CleanupAlone(e, opts, cred, c, oracle, k + 1);
      }
  }

  function Created(e: Engine, opts: RunOpts, cred: Option<Uuid>): Engine {
    var env := if cred.Some? then cred else opts.claim;
    e.(containers := e.containers[e.next := Container(env, false, None)], next := e.next + 1)
  }

  /** From the container create on: one more container and peer file, or neither of them and no
      credential file. */
  lemma CreateAlone(e: Engine, opts: RunOpts, cred: Option<Uuid>, oracle: nat -> Answer, k: nat)
    requires FreshIds(e)
    requires cred.Some? ==> e.sidecar.Some? && cred.value !in e.abandoned
    ensures var end := RunAlone(e, opts, Creating(cred), oracle, k);
            && (end.result.Some? ==>
                  end.result == Some(e.next) && RunsTask(Created(e, opts, cred), end.engine, cred, e.next))
            && (end.result.None? ==>
                  && e.lingering <= end.engine.lingering && e.abandoned <= end.engine.abandoned
                  && (NothingLeft(e, end.engine) ==> Same(WithoutCred(e, cred), end.engine)))
  {
    if oracle(k).Done? {
      var created := Created(e, opts, cred);
      assert created.containers - {e.next} == e.containers;
      CreatedAlone(created, opts, cred, e.next, oracle, k + 1);
    } else if cred.Some? {
      UnregisterAlone(e, opts, cred.value, oracle, k + 1);
    }
  }

  /** The engine as a run's sidecar check leaves it: a sidecar that cannot be inspected, or has no address, is
      replaced, or removed if that fails, and with it go the files of all tasks. */
  function AfterCheck(e: Engine, opts: RunOpts, oracle: nat -> Answer, k: nat): Engine {
    if opts.keys.None? || !oracle(k).Done? then e else RunStep(e, opts, Attaching, oracle(k + 1)).0
  }

  /** The answers that make it so, while some task has files. */
  predicate CheckEmptied(e: Engine, opts: RunOpts, oracle: nat -> Answer, k: nat) {
    && opts.keys.Some? && oracle(k).Done? && (oracle(k + 1).Fresh? || oracle(k + 1).Broken?)
    && (e.creds != map[] || e.peers != map[])
  }

  /** Containers and files are the same. */
  ghost predicate SameTasks(e: Engine, e': Engine) {
    e'.containers == e.containers && e'.creds == e.creds && e'.peers == e.peers
  }

  /** The check leaves containers, and the files of all tasks exactly unless it empties the sidecar. */
  lemma CheckKeepsIff(e: Engine, opts: RunOpts, oracle: nat -> Answer, k: nat)
    requires FreshIds(e)
    ensures var m := AfterCheck(e, opts, oracle, k);
            && m.containers == e.containers && NothingLeft(e, m)
            && (SameTasks(e, m) <==> !CheckEmptied(e, opts, oracle, k))
            && (CheckEmptied(e, opts, oracle, k) ==> m.creds == map[] && m.peers == map[])
  {
  }

  /** A running container, its credential file and a peer file that holds the container's own address. */
  ghost predicate TaskReady(e: Engine, c: Cid, id: Uuid, keys: Keys) {
    && c in e.containers && e.containers[c].running && e.containers[c].cred == Some(id)
    && id in e.creds && e.creds[id] == keys
    && id in e.peers && e.containers[c].address == Some(e.peers[id])
  }

  /** e with one more task, and nothing else changed. */
  ghost predicate OneMoreTask(e: Engine, e': Engine, opts: RunOpts, c: Cid) {
    && c !in e.containers && c in e'.containers && e'.containers - {c} == e.containers
    && e'.sidecar == e.sidecar && NothingLeft(e, e')
    && match opts.keys
       case None =>
         e'.creds == e.creds && e'.peers == e.peers && e'.containers[c].running && e'.containers[c].cred == opts.claim
       case Some(keys) =>
         exists id ::
           && !e.HasFiles(id) && TaskReady(e', c, id, keys)
           && e'.creds - {id} == e.creds && e'.peers - {id} == e.peers
  }

  /** Files that are not from before belong to ids issued from a number on. */
  ghost predicate NewFiles(e: Engine, e': Engine, from: nat) {
    forall id: Uuid | e'.HasFiles(id) :: e.HasFiles(id) || from <= id
  }

  /** RunECSTask is all or nothing on the engine that its sidecar check leaves, as far as nothing is left behind:
      an error then leaves that engine as it is; a success adds exactly one running container and, when there are
      role keys, its credential and peer file. */
  lemma RunAllOrNothing(e: Engine, opts: RunOpts, oracle: nat -> Answer, k: nat)
    requires FreshIds(e)
    ensures var end, m := RunAlone(e, opts, Preparing, oracle, k), AfterCheck(e, opts, oracle, k);
            && e.lingering <= end.engine.lingering && e.abandoned <= end.engine.abandoned
            && (end.result.Some? ==>
                  OneMoreTask(m, end.engine, opts, end.result.value) && NewFiles(m, end.engine, e.next))
            && (end.result.None? && NothingLeft(e, end.engine) ==> Same(m, end.engine))
  {
    var end := RunAlone(e, opts, Preparing, oracle, k);
    if oracle(k).Done? {
      if opts.keys.None? {
        CreateAlone(e, opts, None, oracle, k + 1);
        if end.result.Some? { TaskAdded(e, e, end.engine, opts, None); }
      } else {
        AttachAlone(e, opts, oracle, k + 1);
      }
    }
  }

  lemma AttachAlone(e: Engine, opts: RunOpts, oracle: nat -> Answer, k: nat)
    requires FreshIds(e) && opts.keys.Some?
    ensures var end, m := RunAlone(e, opts, Attaching, oracle, k), RunStep(e, opts, Attaching, oracle(k)).0;
            && e.lingering <= end.engine.lingering && e.abandoned <= end.engine.abandoned
            && (end.result.Some? ==>
                  OneMoreTask(m, end.engine, opts, end.result.value) && NewFiles(m, end.engine, e.next))
            && (end.result.None? && NothingLeft(e, end.engine) ==> Same(m, end.engine))
  {
    var (m, pc) := RunStep(e, opts, Attaching, oracle(k));
    if pc.RegisterInspect? {
      RegisterAlone(m, opts, pc.id, oracle, k + 1);
    }
  }

  /** From the registration on, with a minted id that has no files yet. */
  lemma RegisterAlone(m: Engine, opts: RunOpts, id: Uuid, oracle: nat -> Answer, k: nat)
    requires FreshIds(m) && opts.keys.Some? && m.sidecar.Some?
    requires id < m.next && !m.HasFiles(id) && id !in m.abandoned
    ensures var end := RunAlone(m, opts, RegisterInspect(id), oracle, k);
            && m.lingering <= end.engine.lingering && m.abandoned <= end.engine.abandoned
            && (end.result.Some? ==> OneMoreTask(m, end.engine, opts, end.result.value) && NewFiles(m, end.engine, id))
            && (end.result.None? && NothingLeft(m, end.engine) ==> Same(m, end.engine))
  {
    var t := m.sidecar.value;
    var r := m.(creds := m.creds[id := opts.keys.value]);
    if oracle(k).Done? {
      assert RunStep(m, opts, RegisterInspect(id), oracle(k)) == (m, RegisterExec(id, t));
      var (e', pc') := RunStep(m, opts, RegisterExec(id, t), oracle(k + 1));
      assert RunAlone(m, opts, RegisterInspect(id), oracle, k) == RunAlone(e', opts, pc', oracle, k + 2);
      if oracle(k + 1).Done? {
        assert r.creds - {id} == m.creds && r.peers - {id} == m.peers;
        CreateAlone(r, opts, Some(id), oracle, k + 2);
        if pc'.Creating? && RunAlone(r, opts, pc', oracle, k + 2).result.Some? {
          TaskAdded(m, r, RunAlone(r, opts, pc', oracle, k + 2).engine, opts, Some(id));
        }
      } else {
        assert oracle(k + 1).Broken? ==> id in e'.abandoned;
      }
    }
  }

  /** Reads the closed form of a successful create back as one more task. */
  lemma TaskAdded(m: Engine, r: Engine, e': Engine, opts: RunOpts, cred: Option<Uuid>)
    requires FreshIds(m) && cred.Some? == opts.keys.Some?
    requires if cred.Some? then !m.HasFiles(cred.value) && r == m.(creds := m.creds[cred.value := opts.keys.value])
             else r == m
    requires RunsTask(Created(r, opts, cred), e', cred, r.next)
    ensures OneMoreTask(m, e', opts, r.next)
    ensures forall id: Uuid | e'.HasFiles(id) :: m.HasFiles(id) || cred == Some(id)
  {
    assert e'.containers - {r.next} == m.containers;
    if cred.Some? {
      var id := cred.value;
      assert TaskReady(e', r.next, id, opts.keys.value);
      assert e'.creds - {id} == m.creds && e'.peers - {id} == m.peers;
    }
  }

  // ---------------------------------------------------------------- the answers that decide it

  /** Every cleanup call that the run makes is answered without an error. */
  ghost predicate CleanupDone(e: Engine, opts: RunOpts, pc: RunPc, oracle: nat -> Answer, k: nat)
    decreases RunRank(pc)
  {
    if pc.Returned? then true
    else if (pc.Removing? || pc.UnregisterInspect? || pc.UnregisterExec?) && !oracle(k).Done? then false
    else
      var (e', pc') := RunStep(e, opts, pc, oracle(k));
      CleanupDone(e', opts, pc', oracle, k + 1)
  }

  /** The registration writes the credential file and still reports an error. */
  ghost predicate Broke(e: Engine, opts: RunOpts, pc: RunPc, oracle: nat -> Answer, k: nat)
    decreases RunRank(pc)
  {
    if pc.Returned? then false
    else if pc.RegisterExec? && opts.keys.Some? && e.sidecar == Some(pc.target) && oracle(k).Broken? then true
    else
      var (e', pc') := RunStep(e, opts, pc, oracle(k));
      Broke(e', opts, pc', oracle, k + 1)
  }

  /** What holds all through a run with nobody interfering: ids with files are issued ones, files are in a
      sidecar, an id to be registered is new, and an unregister addresses the sidecar that it has inspected. */
  ghost predicate Undisturbed(e: Engine, pc: RunPc) {
    FilesIssued(e) && IdIssued(e, pc)
  }

  ghost predicate FilesIssued(e: Engine) {
    && (forall id: Uuid | id in e.abandoned :: id < e.next)
    && (forall id: Uuid | id in e.creds :: id < e.next)
    && (forall id: Uuid | id in e.peers :: id < e.next)
    && (e.sidecar.None? ==> e.creds == map[] && e.peers == map[])
  }

  ghost predicate IdIssued(e: Engine, pc: RunPc) {
    && (pc.RegisterInspect? || pc.RegisterExec? ==> pc.id !in e.abandoned && !e.HasFiles(pc.id))
    && (CredOf(pc).Some? ==> CredOf(pc).value < e.next)
    && (pc.UnregisterExec? ==> e.sidecar == Some(pc.target))
  }

  lemma FilesStayIssued(e: Engine, opts: RunOpts, pc: RunPc, a: Answer)
    requires Undisturbed(e, pc) && !pc.Returned?
    ensures FilesIssued(RunStep(e, opts, pc, a).0)
  {
  }

  lemma IdStaysIssued(e: Engine, opts: RunOpts, pc: RunPc, a: Answer)
    requires Undisturbed(e, pc) && !pc.Returned?
    ensures var (e', pc') := RunStep(e, opts, pc, a); IdIssued(e', pc')
  {
  }

  lemma StaysUndisturbed(e: Engine, opts: RunOpts, pc: RunPc, a: Answer)
    requires Undisturbed(e, pc) && !pc.Returned?
    ensures var (e', pc') := RunStep(e, opts, pc, a); Undisturbed(e', pc')
  {
    FilesStayIssued(e, opts, pc, a);
    IdStaysIssued(e, opts, pc, a);
  }

  /** With answered cleanup, a run whose registration does not break leaves nothing behind. */
  lemma {:induction false} AnsweredLeavesNothing(e: Engine, opts: RunOpts, pc: RunPc, oracle: nat -> Answer, k: nat)
    requires Undisturbed(e, pc) && CleanupDone(e, opts, pc, oracle, k) && !Broke(e, opts, pc, oracle, k)
    ensures NothingLeft(e, RunAlone(e, opts, pc, oracle, k).engine)
    decreases RunRank(pc)
  {
    if !pc.Returned? {
      var (e', pc') := RunStep(e, opts, pc, oracle(k));
      StaysUndisturbed(e, opts, pc, oracle(k));
      assert NothingLeft(e, e');
      AnsweredLeavesNothing(e', opts, pc', oracle, k + 1);
    }
  }

  /** A broken registration ends the run with an error and leaves a credential file that no peer file restricts,
      for an id that no container carries. */
  lemma {:induction false} BrokenLeavesFile(e: Engine, opts: RunOpts, pc: RunPc, oracle: nat -> Answer, k: nat)
    requires Undisturbed(e, pc) && Broke(e, opts, pc, oracle, k)
    ensures var end := RunAlone(e, opts, pc, oracle, k);
            && end.result.None? && end.engine.containers == e.containers
            && exists id :: Leaked(e, pc, end.engine, id)
    decreases RunRank(pc)
  {
    var (e', pc') := RunStep(e, opts, pc, oracle(k));
    StaysUndisturbed(e, opts, pc, oracle(k));
    if pc.RegisterExec? && opts.keys.Some? && e.sidecar == Some(pc.target) && oracle(k).Broken? {
      assert Leaked(e, pc, e', pc.id);
    } else {
      BrokenLeavesFile(e', opts, pc', oracle, k + 1);
      OnlyEarly(e', opts, pc', oracle, k + 1);
      var end := RunAlone(e', opts, pc', oracle, k + 1).engine;
      var id :| Leaked(e', pc', end, id);
      assert Leaked(e, pc, end, id);
    }
  }

  /** The id that the run mints, or has minted, with a credential file and no peer file. */
  ghost predicate Leaked(e: Engine, pc: RunPc, e': Engine, id: Uuid) {
    && (if pc.RegisterInspect? || pc.RegisterExec? then id == pc.id else e.next <= id)
    && id in e'.abandoned && id in e'.creds && id !in e'.peers
  }

  /** A registration breaks before any container is created. */
  lemma {:induction false} OnlyEarly(e: Engine, opts: RunOpts, pc: RunPc, oracle: nat -> Answer, k: nat)
    requires Broke(e, opts, pc, oracle, k)
    ensures pc.Preparing? || pc.Attaching? || pc.RegisterInspect? || pc.RegisterExec?
    decreases RunRank(pc)
  {
    var (e', pc') := RunStep(e, opts, pc, oracle(k));
    if !pc.RegisterExec? {
      OnlyEarly(e', opts, pc', oracle, k + 1);
    }
  }

  /** Main result: with answered cleanup calls, an error of RunECSTask leaves all containers and files as they were
      exactly when its registration has not reported an error after writing the credential file (the code then
      returns without an unregister) and its sidecar check has not thrown away a sidecar with files. */
  lemma ErrorLeavesNothingIff(e: Engine, opts: RunOpts, oracle: nat -> Answer, k: nat)
    requires FreshIds(e) && CleanupDone(e, opts, Preparing, oracle, k)
    ensures var end := RunAlone(e, opts, Preparing, oracle, k);
            end.result.None? ==>
              (SameTasks(e, end.engine) <==>
                 !Broke(e, opts, Preparing, oracle, k) && !CheckEmptied(e, opts, oracle, k))
  {
    RunAllOrNothing(e, opts, oracle, k);
    CheckKeepsIff(e, opts, oracle, k);
    var end := RunAlone(e, opts, Preparing, oracle, k);
    if Broke(e, opts, Preparing, oracle, k) {
      BrokenLeavesFile(e, opts, Preparing, oracle, k);
      var id :| Leaked(e, Preparing, end.engine, id);
      assert id in end.engine.creds && id !in e.creds;
    } else {
      AnsweredLeavesNothing(e, opts, Preparing, oracle, k);
    }
  }

  /** Main result: a success of RunECSTask adds its task to what was there exactly when its sidecar check has not
      thrown away a sidecar with files; otherwise the files of all other tasks are gone. */
  lemma SuccessAddsOneIff(e: Engine, opts: RunOpts, oracle: nat -> Answer, k: nat)
    requires FreshIds(e) && RunAlone(e, opts, Preparing, oracle, k).result.Some?
    ensures var end := RunAlone(e, opts, Preparing, oracle, k);
            var c := end.result.value;
            && c !in e.containers && end.engine.containers - {c} == e.containers
            && (CheckEmptied(e, opts, oracle, k) <==>
                  exists id: Uuid :: e.HasFiles(id) && !KeepsFiles(e, end.engine, id))
            && (CheckEmptied(e, opts, oracle, k) ==>
                  forall id: Uuid | e.HasFiles(id) :: !end.engine.HasFiles(id))
  {
    RunAllOrNothing(e, opts, oracle, k);
    CheckKeepsIff(e, opts, oracle, k);
    var end, m := RunAlone(e, opts, Preparing, oracle, k), AfterCheck(e, opts, oracle, k);
    if CheckEmptied(e, opts, oracle, k) {
      forall id: Uuid | e.HasFiles(id) ensures !end.engine.HasFiles(id) && !KeepsFiles(e, end.engine, id) {
        assert id < e.next && !m.HasFiles(id);
      }
      SomeFile(e);
    } else {
      forall id: Uuid | e.HasFiles(id) ensures KeepsFiles(e, end.engine, id) {
        OneMoreKeeps(m, end.engine, opts, end.result.value, id);
      }
    }
  }

  lemma SomeFile(e: Engine)
    requires e.creds != map[] || e.peers != map[]
    ensures exists id: Uuid :: e.HasFiles(id)
  {
    if e.creds != map[] {
      var id: Uuid :| id in e.creds;
      assert e.HasFiles(id);
    } else {
      var id: Uuid :| id in e.peers;
      assert e.HasFiles(id);
    }
  }

  /** One more task leaves the files of the others. */
  lemma OneMoreKeeps(m: Engine, e': Engine, opts: RunOpts, c: Cid, id: Uuid)
    requires OneMoreTask(m, e', opts, c) && m.HasFiles(id)
    ensures KeepsFiles(m, e', id)
  {
    if opts.keys.Some? {
      var own: Uuid :| && !m.HasFiles(own) && TaskReady(e', c, own, opts.keys.value)
                       && e'.creds - {own} == m.creds && e'.peers - {own} == m.peers;
      assert id in m.creds ==> id in e'.creds - {own};
      assert id in m.peers ==> id in e'.peers - {own};
    }
  }

  ghost predicate KeepsFiles(e: Engine, e': Engine, id: Uuid) {
    && (id in e.creds ==> id in e'.creds && e'.creds[id] == e.creds[id])
    && (id in e.peers ==> id in e'.peers && e'.peers[id] == e.peers[id])
  }

  /** An instance: the sidecar check finds no usable sidecar and replaces it, the registration is refused, and the
      other task has lost both its files. */
  lemma CheckEmptiesOthers()
    ensures var e := Engine(map[7 := Container(Some(1), true, Some("10.0.0.7"))], Some(0), map[1 := "keys"],
                            map[1 := "10.0.0.7"], 8, {}, {});
            var oracle := (k: nat) => if k == 0 then Done("") else if k == 1 then Fresh else Refused;
            var opts := RunOpts(Some("more"), None, NoCopy);
            var end := RunAlone(e, opts, Preparing, oracle, 0);
            && FreshIds(e) && CleanupDone(e, opts, Preparing, oracle, 0) && !Broke(e, opts, Preparing, oracle, 0)
            && end.result.None? && 1 in e.creds && end.engine.creds == map[] && end.engine.peers == map[]
  {
    var e := Engine(map[7 := Container(Some(1), true, Some("10.0.0.7"))], Some(0), map[1 := "keys"],
                    map[1 := "10.0.0.7"], 8, {}, {});
    var oracle := (k: nat) => if k == 0 then Done("") else if k == 1 then Fresh else Refused;
    var opts := RunOpts(Some("more"), None, NoCopy);
    RefusedRegistration(e, opts, oracle, 0);
  }

  lemma RefusedRegistration(e: Engine, opts: RunOpts, oracle: nat -> Answer, k: nat)
    requires opts.keys.Some? && oracle(k).Done? && oracle(k + 1).Fresh? && oracle(k + 2).Refused?
    ensures var end := RunAlone(e, opts, Preparing, oracle, k);
            && end.result.None? && end.engine.creds == map[] && end.engine.peers == map[]
            && CleanupDone(e, opts, Preparing, oracle, k) && !Broke(e, opts, Preparing, oracle, k)
  {
    var (m, pc) := RunStep(e, opts, Attaching, oracle(k + 1));
    assert RunStep(e, opts, Preparing, oracle(k)) == (e, Attaching);
    assert RunStep(m, opts, pc, oracle(k + 2)) == (m, Returned(None));
    assert RunAlone(e, opts, Attaching, oracle, k + 1) == RunAlone(m, opts, pc, oracle, k + 2);
    assert RunAlone(m, opts, pc, oracle, k + 2) == RunAlone(m, opts, Returned(None), oracle, k + 3);
    assert CleanupDone(m, opts, Returned(None), oracle, k + 3) && !Broke(m, opts, Returned(None), oracle, k + 3);
    assert CleanupDone(m, opts, pc, oracle, k + 2) && !Broke(m, opts, pc, oracle, k + 2);
    assert CleanupDone(e, opts, Attaching, oracle, k + 1) && !Broke(e, opts, Attaching, oracle, k + 1);
  }

  /** An instance: the fourth call writes the file and reports an error. */
  lemma BrokenRegistrationLeaks()
    ensures var e := Engine(map[], Some(0), map[], map[], 1, {}, {});
            var oracle := (k: nat) => if k == 3 then Broken else Done("10.0.0.2");
            var end := RunAlone(e, RunOpts(Some("keys"), None, NoCopy), Preparing, oracle, 0);
            FreshIds(e) && end.result.None? && 1 in end.engine.creds && 1 !in end.engine.peers
  {
    var e := Engine(map[], Some(0), map[], map[], 1, {}, {});
    var oracle := (k: nat) => if k == 3 then Broken else Done("10.0.0.2");
    var opts := RunOpts(Some("keys"), None, NoCopy);
    var e1 := e.(next := 2);
    assert RunAlone(e, opts, Preparing, oracle, 0) == RunAlone(e, opts, Attaching, oracle, 1);
    assert RunAlone(e, opts, Attaching, oracle, 1) == RunAlone(e1, opts, RegisterInspect(1), oracle, 2);
    assert RunAlone(e1, opts, RegisterInspect(1), oracle, 2) == RunAlone(e1, opts, RegisterExec(1, 0), oracle, 3);
    var (e2, pc) := RunStep(e1, opts, RegisterExec(1, 0), oracle(3));
    assert RunAlone(e1, opts, RegisterExec(1, 0), oracle, 3) == RunAlone(e2, opts, pc, oracle, 4);
  }

  // ---------------------------------------------------------------- what a whole stop leaves behind

  function CredIn(e: Engine, c: Cid): Option<Uuid> {
    if c in e.containers then e.containers[c].cred else None
  }

  lemma HaltAlone(e: Engine, c: Cid, oracle: nat -> Answer, k: nat)
    ensures var end := StopAlone(e, c, Halting, oracle, k);
            && end.engine == e.(containers := end.engine.containers)
            && end.engine.containers - {c} == e.containers - {c}
            && (end.ok ==> c in e.containers && end.engine.containers == e.containers - {c})
  {
    var (e', pc') := StopStep(e, c, Halting, oracle(k));
    assert e'.containers - {c} == e.containers - {c};
    if !pc'.Stopped? {
      var (e'', pc'') := StopStep(e', c, pc', oracle(k + 1));
      assert StopAlone(e', c, pc', oracle, k + 1) == StopAlone(e'', c, pc'', oracle, k + 2);
      assert e''.containers - {c} == e.containers - {c};
    }
  }

  /** The files of an id are gone, or they are there and given up. */
  ghost predicate GoneOrGivenUp(e: Engine, id: Uuid, e': Engine) {
    e' == e.RemoveFiles(id) || (e' == e.Abandon(id) && e.HasFiles(id))
  }

  lemma StopUnregisterAlone(e: Engine, c: Cid, id: Uuid, oracle: nat -> Answer, k: nat)
    requires e.sidecar.Some? || !e.HasFiles(id)
    ensures exists e', k' ::
              && StopAlone(e, c, StopUnregisterInspect(id), oracle, k) == StopAlone(e', c, Halting, oracle, k')
              && GoneOrGivenUp(e, id, e')
  {
    assert !e.HasFiles(id) ==> e.creds - {id} == e.creds && e.peers - {id} == e.peers;
    var (e', pc') := StopStep(e, c, StopUnregisterInspect(id), oracle(k));
    if !pc'.Halting? {
      var (e'', pc'') := StopStep(e', c, pc', oracle(k + 1));
      assert StopAlone(e', c, pc', oracle, k + 1) == StopAlone(e'', c, Halting, oracle, k + 2);
    } else {
      assert StopAlone(e, c, StopUnregisterInspect(id), oracle, k) == StopAlone(e', c, Halting, oracle, k + 1);
    }
  }

  /** From the halt on. */
  lemma HaltLeaves(e: Engine, id: Uuid, e': Engine, c: Cid, oracle: nat -> Answer, k: nat)
    requires GoneOrGivenUp(e, id, e') && id !in e.abandoned
    ensures var end := StopAlone(e', c, Halting, oracle, k);
            && end.engine.containers - {c} == e.containers - {c}
            && end.engine.creds - {id} == e.creds - {id} && end.engine.peers - {id} == e.peers - {id}
            && (end.ok && end.engine.abandoned == e.abandoned ==>
                  c in e.containers && end.engine == e.(containers := e.containers - {c}).RemoveFiles(id))
  {
    HaltAlone(e', c, oracle, k);
    assert e' != e.RemoveFiles(id) ==> id in e'.abandoned;
    assert (e.creds - {id}) - {id} == e.creds - {id} && (e.peers - {id}) - {id} == e.peers - {id};
  }

  /** Main result: StopECSTask touches no other task. Whatever it answers, the other containers and the files
      of every id but its container's own are untouched; when it answers without an error and no unregister
      failed, exactly the container and its two files are gone. */
  lemma StopRemovesOneTask(e: Engine, c: Cid, oracle: nat -> Answer, k: nat)
    requires FreshIds(e) && (CredIn(e, c).Some? ==> CredIn(e, c).value !in e.abandoned)
    ensures var end := StopAlone(e, c, Inspecting, oracle, k);
            && end.engine.containers - {c} == e.containers - {c}
            && WithoutCred(end.engine, CredIn(e, c)).creds == WithoutCred(e, CredIn(e, c)).creds
            && WithoutCred(end.engine, CredIn(e, c)).peers == WithoutCred(e, CredIn(e, c)).peers
            && (end.ok && end.engine.abandoned == e.abandoned ==>
                  c in e.containers && end.engine == WithoutCred(e.(containers := e.containers - {c}), CredIn(e, c)))
  {
    var cred := CredIn(e, c);
    if cred.None? {
      HaltAlone(e, c, oracle, k + 1);
    } else {
      var id := cred.value;
      if oracle(k).Done? {
        StopUnregisterAlone(e, c, id, oracle, k + 1);
        var e', k' :| && StopAlone(e, c, StopUnregisterInspect(id), oracle, k + 1)
                         == StopAlone(e', c, Halting, oracle, k')
                      && GoneOrGivenUp(e, id, e');
        HaltLeaves(e, id, e', c, oracle, k');
      } else {
        assert !e.HasFiles(id) ==> e.creds - {id} == e.creds && e.peers - {id} == e.peers;
        HaltLeaves(e, id, e.Abandon(id), c, oracle, k + 1);
      }
    }
  }

  /** The calls that unregister the container's id are answered without an error. */
  ghost predicate UnregisterDone(e: Engine, c: Cid, oracle: nat -> Answer, k: nat) {
    CredIn(e, c).Some? ==> oracle(k).Done? && oracle(k + 1).Done? && (e.sidecar.Some? ==> oracle(k + 2).Done?)
  }

  /** With those answers, a stop that reports no error has removed exactly the container and its two files. */
  lemma AnsweredStopRemoves(e: Engine, c: Cid, oracle: nat -> Answer, k: nat)
    requires FreshIds(e) && UnregisterDone(e, c, oracle, k) && StopAlone(e, c, Inspecting, oracle, k).ok
    ensures c in e.containers
    ensures StopAlone(e, c, Inspecting, oracle, k).engine
         == WithoutCred(e.(containers := e.containers - {c}), CredIn(e, c))
  {
    var cred := CredIn(e, c);
    if cred.None? {
      HaltAlone(e, c, oracle, k + 1);
    } else {
      UnregisterInStop(e, c, cred.value, oracle, k + 1);
      var e' := e.RemoveFiles(cred.value);
      assert e.sidecar.None? ==> e' == e && e.Abandon(cred.value) == e;
      HaltAlone(e', c, oracle, if e.sidecar.Some? then k + 3 else k + 2);
    }
  }

  /** Main result: with those answers, a stop that reports no error undoes the run exactly when the run did not
      lend its container another task's credential id: with role keys the run's own URIs overwrite the caller's,
      without them a claimed id that has files loses them to the stop. */
  lemma StopUndoesRun(m: Engine, ran: Engine, opts: RunOpts, c: Cid, oracle: nat -> Answer, k: nat)
    requires FreshIds(ran) && OneMoreTask(m, ran, opts, c)
    requires UnregisterDone(ran, c, oracle, k) && StopAlone(ran, c, Inspecting, oracle, k).ok
    ensures var claimsForeignFiles := opts.keys.None? && opts.claim.Some? && m.HasFiles(opts.claim.value);
            Same(m, StopAlone(ran, c, Inspecting, oracle, k).engine) <==> !claimsForeignFiles
  {
    AnsweredStopRemoves(ran, c, oracle, k);
    var e := StopAlone(ran, c, Inspecting, oracle, k).engine;
    if opts.keys.None? && opts.claim.Some? {
      var id := opts.claim.value;
      if m.HasFiles(id) {
        assert !e.HasFiles(id);
      } else {
        assert m.creds - {id} == m.creds && m.peers - {id} == m.peers;
      }
    }
  }

  /** An instance: a task without role keys that names the id of another task. Its run and its stop both succeed,
      and the other task has lost its credential file. */
  lemma ForeignFilesLost()
    ensures var m := Engine(map[0 := Container(Some(1), true, None)], Some(2), map[1 := "keys"], map[], 3, {}, {});
            var oracle: nat -> Answer := (k: nat) => Done("10.0.0.2");
            var ran := RunAlone(m, RunOpts(None, Some(1), NoCopy), Preparing, oracle, 0);
            && ran.result.Some? && FreshIds(m)
            && var end := StopAlone(ran.engine, ran.result.value, Inspecting, oracle, ran.calls);
               end.ok && end.engine.abandoned == {} && 1 in m.creds && 1 !in end.engine.creds
  {
    var m := Engine(map[0 := Container(Some(1), true, None)], Some(2), map[1 := "keys"], map[], 3, {}, {});
    var oracle: nat -> Answer := (k: nat) => Done("10.0.0.2");
    var opts := RunOpts(None, Some(1), NoCopy);
    var e1 := m.(containers := m.containers[3 := Container(Some(1), false, None)], next := 4);
    var e2 := e1.(containers := e1.containers[3 := Container(Some(1), true, Some("10.0.0.2"))]);
    assert RunAlone(m, opts, Preparing, oracle, 0) == RunAlone(m, opts, Creating(None), oracle, 1);
    assert RunAlone(m, opts, Creating(None), oracle, 1) == RunAlone(e1, opts, Starting(None, 3), oracle, 2);
    assert RunStep(e1, opts, Starting(None, 3), oracle(2)) == (e2, Returned(Some(3)));
    assert RunAlone(e1, opts, Starting(None, 3), oracle, 2) == RunEnd(e2, Some(3), 3);
    StopAnswered(e2, 3, 1, oracle, 3);
  }

  /** A stop whose calls are all done takes the files of the id its container names. */
  lemma StopAnswered(e: Engine, c: Cid, id: Uuid, oracle: nat -> Answer, k: nat)
    requires e.sidecar.Some? && CredIn(e, c) == Some(id) && forall i: nat :: oracle(i).Done?
    ensures var end := StopAlone(e, c, Inspecting, oracle, k);
            end.ok && end.engine == e.RemoveFiles(id).(containers := e.containers - {c})
  {
    assert StopAlone(e, c, Inspecting, oracle, k) == StopAlone(e, c, StopUnregisterInspect(id), oracle, k + 1);
    UnregisterInStop(e, c, id, oracle, k + 1);
    var e' := e.RemoveFiles(id);
    HaltAlone(e', c, oracle, k + 3);
    var h := e'.StopContainer(c);
    assert StopAlone(e', c, Halting, oracle, k + 3) == StopAlone(h, c, StopRemoving, oracle, k + 4);
    assert h.containers - {c} == e.containers - {c};
  }

  // ---------------------------------------------------------------- the client

  /** What unregistering an id leaves behind, and the number of the next call. */
  function Unregistered(e: Engine, id: Uuid, oracle: nat -> Answer, k: nat): (Engine, nat) {
    if !oracle(k).Done? || e.sidecar.None? then (e.Abandon(id), k + 1)
    else (if oracle(k + 1).Done? then e.RemoveFiles(id) else e.Abandon(id), k + 2)
  }

  lemma UnregisterInRun(e: Engine, opts: RunOpts, id: Uuid, oracle: nat -> Answer, k: nat)
    ensures var (e', k') := Unregistered(e, id, oracle, k);
            RunAlone(e, opts, UnregisterInspect(id), oracle, k) == RunEnd(e', None, k')
  {
    var (e', pc') := RunStep(e, opts, UnregisterInspect(id), oracle(k));
    if !pc'.Returned? {
      var (e'', pc'') := RunStep(e', opts, pc', oracle(k + 1));
      assert RunAlone(e', opts, pc', oracle, k + 1) == RunAlone(e'', opts, pc'', oracle, k + 2);
    }
  }

  lemma UnregisterInStop(e: Engine, c: Cid, id: Uuid, oracle: nat -> Answer, k: nat)
    ensures var (e', k') := Unregistered(e, id, oracle, k);
            StopAlone(e, c, StopUnregisterInspect(id), oracle, k) == StopAlone(e', c, Halting, oracle, k')
  {
    var (e', pc') := StopStep(e, c, StopUnregisterInspect(id), oracle(k));
    if !pc'.Halting? {
      var (e'', pc'') := StopStep(e', c, pc', oracle(k + 1));
      assert StopAlone(e', c, pc', oracle, k + 1) == StopAlone(e'', c, Halting, oracle, k + 2);
    }
  }

  /** The compute client: RunECSTask and StopECSTask as the sequences of engine calls they are. The engine
      answers each call as the oracle says. */
  class Client {
    var engine: Engine
    var calls: nat
    const oracle: nat -> Answer

    constructor (engine: Engine, oracle: nat -> Answer)
      ensures this.engine == engine && this.oracle == oracle && calls == 0
    {
      this.engine := engine;
      this.oracle := oracle;
      calls := 0;
    }

    method Call() returns (a: Answer)
      modifies this`calls
      ensures a == oracle(old(calls)) && calls == old(calls) + 1
    {
      a := oracle(calls);
      calls := calls + 1;
    }

    /** registerECSIMDSCredentials: writes the credential file into the sidecar found by the inspect. */
    method Register(opts: RunOpts, id: Uuid) returns (ok: bool)
      requires opts.keys.Some?
      modifies this
      ensures RunAlone(old(engine), opts, RegisterInspect(id), oracle, old(calls))
           == RunAlone(engine, opts, if ok then Creating(Some(id)) else Returned(None), oracle, calls)
    {
      var a := Call();
      if !a.Done? || engine.sidecar.None? {
        return false;
      }
      var target := engine.sidecar.value;
      assert RunAlone(old(engine), opts, RegisterInspect(id), oracle, old(calls))
          == RunAlone(engine, opts, RegisterExec(id, target), oracle, calls);
      a := Call();
      if a.Done? {
        engine := engine.(creds := engine.creds[id := opts.keys.value]);
        return true;
      }
      if a.Broken? {
        engine := engine.(creds := engine.creds[id := opts.keys.value], abandoned := engine.abandoned + {id});
      }
      return false;
    }

    /** bindECSIMDSCredentialsPeer: writes the task container's address beside its credential file. */
    method BindPeer(opts: RunOpts, id: Uuid, c: Cid) returns (ok: bool)
      modifies this
      ensures RunAlone(old(engine), opts, BindTask(id, c), oracle, old(calls))
           == RunAlone(engine, opts, if ok then Returned(Some(c)) else Removing(Some(id), c), oracle, calls)
    {
      var a := Call();
      if !a.Done? || c !in engine.containers || engine.containers[c].address.None? {
        return false;
      }
      var address := engine.containers[c].address.value;
      assert RunAlone(old(engine), opts, BindTask(id, c), oracle, old(calls))
          == RunAlone(engine, opts, BindInspect(id, c, address), oracle, calls);
      ok := WritePeer(opts, id, c, address);
    }

    /** Its second half: the peer file's write into the sidecar found by the inspect. */
    method WritePeer(opts: RunOpts, id: Uuid, c: Cid, address: string) returns (ok: bool)
      modifies this
      ensures RunAlone(old(engine), opts, BindInspect(id, c, address), oracle, old(calls))
           == RunAlone(engine, opts, if ok then Returned(Some(c)) else Removing(Some(id), c), oracle, calls)
    {
      var a := Call();
      if !a.Done? || engine.sidecar.None? {
        return false;
      }
      var target := engine.sidecar.value;
      assert RunAlone(old(engine), opts, BindInspect(id, c, address), oracle, old(calls))
          == RunAlone(engine, opts, BindExec(id, c, address, target), oracle, calls);
      a := Call();
      if a.Refused? || a.Fresh? {
        return false;
      }
      engine := engine.(peers := engine.peers[id := address]);
      return a.Done?;
    }

    /** unregisterECSIMDSCredentials: removes both files of an id; its callers ignore its errors. */
    method Unregister(id: Uuid)
      modifies this
      ensures (engine, calls) == Unregistered(old(engine), id, oracle, old(calls))
    {
      var a := Call();
      if !a.Done? || engine.sidecar.None? {
        engine := engine.Abandon(id);
        return;
      }
      a := Call();
      engine := if a.Done? then engine.RemoveFiles(id) else engine.Abandon(id);
    }

    /** failAfterIMDS, after a forced removal of the container when there is one. */
    method Fail(opts: RunOpts, cred: Option<Uuid>, created: Option<Cid>)
      modifies this
      ensures RunAlone(old(engine), opts, if created.Some? then Removing(cred, created.value) else AfterFailure(cred),
                       oracle, old(calls)) == RunEnd(engine, None, calls)
    {
      if created.Some? {
        var a := Call();
        if a.Done? {
          engine := engine.(containers := engine.containers - {created.value});
        } else {
          engine := engine.(lingering := engine.lingering + {created.value});
        }
      }
      assert RunAlone(old(engine), opts, if created.Some? then Removing(cred, created.value) else AfterFailure(cred),
                      oracle, old(calls)) == RunAlone(engine, opts, AfterFailure(cred), oracle, calls);
      if cred.Some? {
        UnregisterInRun(engine, opts, cred.value, oracle, calls);
        Unregister(cred.value);
      }
    }

    /** attachECSIMDSEnv, for an environment with role keys. */
    method Attach(opts: RunOpts) returns (cred: Option<Uuid>)
      requires opts.keys.Some?
      modifies this
      ensures RunAlone(old(engine), opts, Attaching, oracle, old(calls))
           == RunAlone(engine, opts, if cred.Some? then Creating(cred) else Returned(None), oracle, calls)
    {
      var a := Call();
      if a.Refused? {
        return None;
      }
      if a.Broken? {
        engine := engine.DropSidecar();
        return None;
      }
      if a.Fresh? || engine.sidecar.None? {
        engine := engine.ReplaceSidecar();
      }
      var id := engine.next;
      engine := engine.(next := engine.next + 1);
      var ok := Register(opts, id);
      return if ok then Some(id) else None;
    }

    method RunECSTask(opts: RunOpts) returns (result: Option<Cid>)
      modifies this
      ensures RunEnd(engine, result, calls) == RunAlone(old(engine), opts, Preparing, oracle, old(calls))
    {
      var a := Call();
      if !a.Done? {
        return None;
      }
      var cred: Option<Uuid> := None;
      if opts.keys.Some? {
        cred := Attach(opts);
        if cred.None? {
          return None;
        }
      }
      result := Launch(opts, cred);
    }

    /** The second half of RunECSTask, from the container create on. */
    method Launch(opts: RunOpts, cred: Option<Uuid>) returns (result: Option<Cid>)
      modifies this
      ensures RunEnd(engine, result, calls) == RunAlone(old(engine), opts, Creating(cred), oracle, old(calls))
    {
      var a := Call();
      if !a.Done? {
        Fail(opts, cred, None);
        return None;
      }
      var c := engine.next;
      engine := Created(engine, opts, cred);
      result := CopyAndStart(opts, cred, c);
    }

    /** From a created container on: the workspace copy, when there is one, and the start. */
    method CopyAndStart(opts: RunOpts, cred: Option<Uuid>, c: Cid) returns (result: Option<Cid>)
      requires c in engine.containers
      modifies this
      ensures RunEnd(engine, result, calls)
           == RunAlone(old(engine), opts, AfterCreate(opts, cred, c), oracle, old(calls))
    {
      if opts.copy != NoCopy {
        if opts.copy != CopyTar(true) {
          Fail(opts, cred, Some(c));
          return None;
        }
        var a := Call();
        if !a.Done? {
          Fail(opts, cred, Some(c));
          return None;
        }
      }
      result := Start(opts, cred, c);
    }

    method Start(opts: RunOpts, cred: Option<Uuid>, c: Cid) returns (result: Option<Cid>)
      requires c in engine.containers
      modifies this
      ensures RunEnd(engine, result, calls) == RunAlone(old(engine), opts, Starting(cred, c), oracle, old(calls))
    {
      var a := Call();
      if !a.Done? {
        Fail(opts, cred, Some(c));
        return None;
      }
      var started := engine.containers[c].(running := true, address := Some(a.address));
      engine := engine.(containers := engine.containers[c := started]);
      if cred.Some? {
        var ok := BindPeer(opts, cred.value, c);
        if !ok {
          Fail(opts, cred, Some(c));
          return None;
        }
      }
      return Some(c);
    }

    method StopECSTask(c: Cid) returns (ok: bool)
      modifies this
      ensures StopEnd(engine, ok, calls) == StopAlone(old(engine), c, Inspecting, oracle, old(calls))
    {
      var a := Call();
      if c in engine.containers && engine.containers[c].cred.Some? {
        var id := engine.containers[c].cred.value;
        if a.Done? {
          UnregisterInStop(engine, c, id, oracle, calls);
          Unregister(id);
        } else {
          engine := engine.Abandon(id);
        }
      }
      assert StopAlone(old(engine), c, Inspecting, oracle, old(calls)) == StopAlone(engine, c, Halting, oracle, calls);
      ok := HaltAndRemove(c);
    }

    /** The task container's stop and its forced removal. */
    method HaltAndRemove(c: Cid) returns (ok: bool)
      modifies this
      ensures StopEnd(engine, ok, calls) == StopAlone(old(engine), c, Halting, oracle, old(calls))
    {
      var a := Call();
      if !a.Done? || c !in engine.containers {
        return false;
      }
      engine := engine.StopContainer(c);
      assert StopAlone(old(engine), c, Halting, oracle, old(calls))
          == StopAlone(engine, c, StopRemoving, oracle, calls);
      a := Call();
      if !a.Done? {
        return false;
      }
      engine := engine.(containers := engine.containers - {c});
      return true;
    }
  }
}
