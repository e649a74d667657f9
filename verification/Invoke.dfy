/** One-shot function invokes over one shared code directory: RunInvoke as a sequence of directory, file and
    engine calls with deferred cleanup, alone and with any number of invokes interleaved. */
module Invoke {
  import opened Wrappers

  type Uuid = nat
  type Cid = nat

  /** A file under /var/task as the container's environment names it: the event file of a scratch directory,
      or any other path. */
  datatype TaskPath = ScratchEvent(id: Uuid) | OtherFile(name: string)

  /** A scratch directory: its event file and its merged layer directory, once they are written. */
  datatype Scratch = Scratch(event: Option<string>, merged: bool)

  /** What a container was created with: the event path in its environment (the last entry for the variable
      counts), and, when the function has layers, the scratch directory bound at /opt. */
  datatype Container = Container(eventPath: TaskPath, opt: Option<Uuid>)

  /** leaked collects the scratch directories whose chmod or removal failed, lingering the containers whose
      forced removal failed. */
  datatype Engine = Engine(
    scratches: map<Uuid, Scratch>,
    containers: map<Cid, Container>,
    next: nat,
    leaked: set<Uuid>,
    lingering: set<Cid>)

  /** eventPath is the caller's own entry for the event path variable, appended after RunInvoke's. */
  datatype Opts = Opts(event: string, layers: bool, eventPath: Option<TaskPath>)

  datatype WaitAnswer = WaitFailed | Exited(code: int, message: string) | TimedOut

  datatype Answer = Done | Refused

  datatype Pc =
    | Preparing
    | MakingDir
    | ModeDir(id: Uuid)
    | WritingEvent(id: Uuid)
    | ModeEvent(id: Uuid)
    | Merging(id: Uuid)
    | Creating(id: Uuid)
    | Starting(id: Uuid, c: Cid)
    | Waiting(id: Uuid, c: Cid)
    | Halting(id: Uuid, c: Cid, thenLogs: bool)
    | Logging(id: Uuid, c: Cid, exitOk: bool)
    | RemovingContainer(id: Uuid, c: Cid, ok: bool)
    | RemovingScratch(id: Uuid, made: Option<Cid>, ok: bool)
    | End(scratch: Option<Uuid>, made: Option<Cid>, ok: bool)

  function EventPath(o: Opts, id: Uuid): TaskPath {
    if o.eventPath.Some? then o.eventPath.value else ScratchEvent(id)
  }

  /** One call. From WritingEvent on the scratch directory's removal is deferred, from Starting on the
      container's as well; deferred calls run last in, first out. */
  function Step(e: Engine, o: Opts, pc: Pc, a: Answer, w: WaitAnswer): (Engine, Pc)
    requires !pc.End?
  {
    match pc
    case Preparing => (e, if a.Done? then MakingDir else End(None, None, false))
    case MakingDir =>
      if a.Done? then
        (e.(scratches := e.scratches[e.next := Scratch(None, false)], next := e.next + 1), ModeDir(e.next))
      else (e, End(None, None, false))
    case ModeDir(id) =>
      if a.Done? then (e, WritingEvent(id)) else (e.(leaked := e.leaked + {id}), End(Some(id), None, false))
    case WritingEvent(id) =>
      if a.Done? && id in e.scratches
      then (e.(scratches := e.scratches[id := e.scratches[id].(event := Some(o.event))]), ModeEvent(id))
      else (e, RemovingScratch(id, None, false))
    case ModeEvent(id) =>
      (e, if !a.Done? then RemovingScratch(id, None, false) else if o.layers then Merging(id) else Creating(id))
    case Merging(id) =>
      if a.Done? && id in e.scratches
      then (e.(scratches := e.scratches[id := e.scratches[id].(merged := true)]), Creating(id))
      else (e, RemovingScratch(id, None, false))
    case Creating(id) =>
      if !a.Done? then (e, RemovingScratch(id, None, false))
      else
        var c := Container(EventPath(o, id), if o.layers then Some(id) else None);
        (e.(containers := e.containers[e.next := c], next := e.next + 1), Starting(id, e.next))
    case Starting(id, c) => (e, if a.Done? then Waiting(id, c) else RemovingContainer(id, c, false))
    case Waiting(id, c) =>
      (e, match w
          case WaitFailed => Halting(id, c, false)
          case Exited(code, message) =>
            if message != "" then RemovingContainer(id, c, false) else Logging(id, c, code == 0)
          case TimedOut => Halting(id, c, true))
    case Halting(id, c, thenLogs) =>
      (e, if thenLogs then Logging(id, c, false) else RemovingContainer(id, c, false))
    case Logging(id, c, exitOk) => (e, RemovingContainer(id, c, a.Done? && exitOk))
    case RemovingContainer(id, c, ok) =>
      (if a.Done? then e.(containers := e.containers - {c}) else e.(lingering := e.lingering + {c}),
       RemovingScratch(id, Some(c), ok))
    case RemovingScratch(id, c, ok) =>
      (if a.Done? then e.(scratches := e.scratches - {id}) else e.(leaked := e.leaked + {id}),
       End(Some(id), c, ok))
  }

  /** The scratch directory and the container an invoke has made, also after it has returned. */
  function ScratchOf(pc: Pc): Option<Uuid> {
    match pc
    case Preparing => None case MakingDir => None case End(id, _, _) => id
    case _ => Some(pc.id)
  }

  function ContainerOf(pc: Pc): Option<Cid> {
    match pc
    case Starting(_, c) => Some(c) case Waiting(_, c) => Some(c) case Halting(_, c, _) => Some(c)
    case Logging(_, c, _) => Some(c) case RemovingContainer(_, c, _) => Some(c)
    case RemovingScratch(_, c, _) => c case End(_, c, _) => c
    case _ => None
  }

  // ---------------------------------------------------------------- interleaved invokes

  datatype Proc = Proc(opts: Opts, pc: Pc)

  datatype World = World(engine: Engine, procs: map<nat, Proc>)

  datatype Event = Begin(p: nat, opts: Opts) | Call(p: nat, a: Answer, w: WaitAnswer)

  ghost predicate Enabled(w: World, ev: Event) {
    match ev
    case Begin(p, _) => p !in w.procs
    case Call(p, _, _) => p in w.procs && !w.procs[p].pc.End?
  }

  ghost function Apply(w: World, ev: Event): World
    requires Enabled(w, ev)
  {
    match ev
    case Begin(p, opts) => w.(procs := w.procs[p := Proc(opts, Preparing)])
    case Call(p, a, wa) =>
      var (e, pc) := Step(w.engine, w.procs[p].opts, w.procs[p].pc, a, wa);
      World(e, w.procs[p := w.procs[p].(pc := pc)])
  }

  /** What an invoke knows about its own directory and container. */
  ghost predicate Local(e: Engine, o: Opts, pc: Pc) {
    if pc.Preparing? || pc.MakingDir? then true
    else if pc.End? then
      && (pc.scratch.Some? ==> pc.scratch.value !in e.scratches || pc.scratch.value in e.leaked)
      && (pc.made.Some? ==> pc.made.value !in e.containers || pc.made.value in e.lingering)
    else if pc.RemovingScratch? then
      pc.made.Some? ==> pc.made.value !in e.containers || pc.made.value in e.lingering
    else
      && pc.id in e.scratches && pc.id !in e.leaked
      && (!pc.ModeDir? && !pc.WritingEvent? ==> e.scratches[pc.id].event == Some(o.event))
      && (pc.Creating? || ContainerOf(pc).Some? ==> (o.layers ==> e.scratches[pc.id].merged))
      && (ContainerOf(pc).Some? ==> Carries(e, o, pc.id, ContainerOf(pc).value))
  }

  ghost predicate Carries(e: Engine, o: Opts, id: Uuid, c: Cid) {
    && c in e.containers && c !in e.lingering
    && e.containers[c] == Container(EventPath(o, id), if o.layers then Some(id) else None)
  }

  function ScratchBy(w: World, p: nat): Option<Uuid> {
    if p in w.procs then ScratchOf(w.procs[p].pc) else None
  }

  function ContainerBy(w: World, p: nat): Option<Cid> {
    if p in w.procs then ContainerOf(w.procs[p].pc) else None
  }

  ghost predicate Issued(w: World) {
    && Bounded(w.engine)
    && (forall p: nat :: ScratchBy(w, p).Some? ==> ScratchBy(w, p).value < w.engine.next)
    && (forall p: nat :: ContainerBy(w, p).Some? ==> ContainerBy(w, p).value < w.engine.next)
  }

  ghost predicate Unshared(w: World) {
    && (forall p: nat, q: nat :: p != q && ScratchBy(w, p).Some? ==> ScratchBy(w, p) != ScratchBy(w, q))
    && (forall p: nat, q: nat :: p != q && ContainerBy(w, p).Some? ==> ContainerBy(w, p) != ContainerBy(w, q))
  }

  ghost predicate Claimed(w: World) {
    && (forall c: Cid | c in w.engine.containers :: exists p: nat :: ContainerBy(w, p) == Some(c))
    && (forall id: Uuid | id in w.engine.scratches :: exists p: nat :: ScratchBy(w, p) == Some(id))
  }

  ghost predicate Inv(w: World) {
    && Issued(w) && Unshared(w) && Claimed(w)
    && (forall p: nat | p in w.procs :: Local(w.engine, w.procs[p].opts, w.procs[p].pc))
  }

  /** What one call does: it makes, changes or gives up the directory and the container of its own invoke. */
  ghost predicate Effect(e: Engine, pc: Pc, e': Engine, pc': Pc) {
    && e.next <= e'.next
    && (ScratchOf(pc') == ScratchOf(pc)
        || (ScratchOf(pc).None? && ScratchOf(pc') == Some(e.next) && e.next < e'.next))
    && (ContainerOf(pc') == ContainerOf(pc)
        || (ContainerOf(pc).None? && ContainerOf(pc') == Some(e.next) && e.next < e'.next))
    && (forall id: Uuid :: Some(id) != ScratchOf(pc') ==>
          && (id in e'.scratches <==> id in e.scratches) && (id in e'.leaked <==> id in e.leaked)
          && (id in e.scratches ==> e'.scratches[id] == e.scratches[id]))
    && (forall c: Cid :: Some(c) != ContainerOf(pc') ==>
          && (c in e'.containers <==> c in e.containers) && (c in e'.lingering <==> c in e.lingering)
          && (c in e.containers ==> e'.containers[c] == e.containers[c]))
  }

  ghost predicate Bounded(e: Engine) {
    && (forall id: Uuid :: id in e.scratches || id in e.leaked ==> id < e.next)
    && (forall c: Cid :: c in e.containers || c in e.lingering ==> c < e.next)
  }

  /** One call has the effect that others may see and leaves the invoke knowing what it must. */
  ghost predicate StepsLocally(e: Engine, o: Opts, pc: Pc, a: Answer, w: WaitAnswer)
    requires !pc.End?
  {
    var (e', pc') := Step(e, o, pc, a, w);
    Effect(e, pc, e', pc') && Local(e', o, pc')
  }

  lemma DirectoryEffect(e: Engine, o: Opts, pc: Pc, a: Answer, w: WaitAnswer)
    requires Bounded(e) && Local(e, o, pc) && (pc.Preparing? || pc.MakingDir? || pc.ModeDir?)
    ensures StepsLocally(e, o, pc, a, w)
  {
  }

  lemma EventEffect(e: Engine, o: Opts, pc: Pc, a: Answer, w: WaitAnswer)
    requires Bounded(e) && Local(e, o, pc) && (pc.WritingEvent? || pc.ModeEvent? || pc.Merging?)
    ensures StepsLocally(e, o, pc, a, w)
  {
  }

  lemma CreateEffect(e: Engine, o: Opts, pc: Pc, a: Answer, w: WaitAnswer)
    requires Bounded(e) && Local(e, o, pc) && pc.Creating?
    ensures StepsLocally(e, o, pc, a, w)
  {
  }

  lemma RunningEffect(e: Engine, o: Opts, pc: Pc, a: Answer, w: WaitAnswer)
    requires Bounded(e) && Local(e, o, pc) && (pc.Starting? || pc.Waiting? || pc.Halting? || pc.Logging?)
    ensures StepsLocally(e, o, pc, a, w)
  {
  }

  lemma CleanupEffect(e: Engine, o: Opts, pc: Pc, a: Answer, w: WaitAnswer)
    requires Bounded(e) && Local(e, o, pc) && (pc.RemovingContainer? || pc.RemovingScratch?)
    ensures StepsLocally(e, o, pc, a, w)
  {
  }

  lemma StepEffect(e: Engine, o: Opts, pc: Pc, a: Answer, w: WaitAnswer)
    requires Bounded(e) && Local(e, o, pc) && !pc.End?
    ensures StepsLocally(e, o, pc, a, w)
  {
    if pc.Preparing? || pc.MakingDir? || pc.ModeDir? {
      DirectoryEffect(e, o, pc, a, w);
    } else if pc.WritingEvent? || pc.ModeEvent? || pc.Merging? {
      EventEffect(e, o, pc, a, w);
    } else if pc.Creating? {
      CreateEffect(e, o, pc, a, w);
    } else if pc.RemovingContainer? || pc.RemovingScratch? {
      CleanupEffect(e, o, pc, a, w);
    } else {
      RunningEffect(e, o, pc, a, w);
    }
  }

  lemma CallKeepsInv(w: World, ev: Event)
    requires Inv(w) && Enabled(w, ev) && ev.Call?
    ensures Inv(Apply(w, ev))
  {
    var p := ev.p;
    var w' := Apply(w, ev);
    StepEffect(w.engine, w.procs[p].opts, w.procs[p].pc, ev.a, ev.w);
    assert ScratchBy(w, p) == ScratchOf(w.procs[p].pc) && ContainerBy(w, p) == ContainerOf(w.procs[p].pc);
    assert ScratchBy(w', p) == ScratchOf(w'.procs[p].pc) && ContainerBy(w', p) == ContainerOf(w'.procs[p].pc);
    forall q: nat | q != p ensures ScratchBy(w', q) == ScratchBy(w, q) && ContainerBy(w', q) == ContainerBy(w, q) {
    }
    CallKeepsClaims(w, p, w');
    CallKeepsOthers(w, p, w');
    EffectBounded(w.engine, w.procs[p].pc, w'.engine, w'.procs[p].pc);
    CallKeepsIssued(w, p, w');
    CallKeepsUnshared(w, p, w');
  }

  /** The invoke's own directory and container are new, kept or none; those of the others stay. */
  ghost predicate ClaimsMove(w: World, p: nat, w': World) {
    && w.engine.next <= w'.engine.next
    && (ScratchBy(w', p) == ScratchBy(w, p)
        || (ScratchBy(w', p) == Some(w.engine.next) && w.engine.next < w'.engine.next))
    && (ContainerBy(w', p) == ContainerBy(w, p)
        || (ContainerBy(w', p) == Some(w.engine.next) && w.engine.next < w'.engine.next))
    && (forall q: nat :: q != p ==> ScratchBy(w', q) == ScratchBy(w, q) && ContainerBy(w', q) == ContainerBy(w, q))
  }

  lemma CallKeepsIssued(w: World, p: nat, w': World)
    requires Issued(w) && Bounded(w'.engine) && ClaimsMove(w, p, w')
    ensures Issued(w')
  {
  }

  lemma CallKeepsUnshared(w: World, p: nat, w': World)
    requires Issued(w) && Unshared(w) && ClaimsMove(w, p, w')
    ensures Unshared(w')
  {
  }

  lemma EffectBounded(e: Engine, pc: Pc, e': Engine, pc': Pc)
    requires Bounded(e) && Effect(e, pc, e', pc')
    requires ScratchOf(pc).Some? ==> ScratchOf(pc).value < e.next
    requires ContainerOf(pc).Some? ==> ContainerOf(pc).value < e.next
    ensures Bounded(e')
  {
  }

  lemma CallKeepsOthers(w: World, p: nat, w': World)
    requires Inv(w) && p in w.procs && w'.procs.Keys == w.procs.Keys
    requires Effect(w.engine, w.procs[p].pc, w'.engine, w'.procs[p].pc)
    requires Local(w'.engine, w'.procs[p].opts, w'.procs[p].pc)
    requires forall q: nat | q != p && q in w.procs :: w'.procs[q] == w.procs[q]
    ensures forall q: nat | q in w'.procs :: Local(w'.engine, w'.procs[q].opts, w'.procs[q].pc)
  {
    forall q: nat | q in w'.procs && q != p ensures Local(w'.engine, w'.procs[q].opts, w'.procs[q].pc) {
      assert ScratchBy(w, q) == ScratchOf(w.procs[q].pc) && ContainerBy(w, q) == ContainerOf(w.procs[q].pc);
      assert ScratchBy(w, p) == ScratchOf(w.procs[p].pc) && ContainerBy(w, p) == ContainerOf(w.procs[p].pc);
      assert Local(w.engine, w.procs[q].opts, w.procs[q].pc);
      assert ScratchOf(w.procs[q].pc).Some? ==> ScratchOf(w.procs[q].pc) != ScratchOf(w'.procs[p].pc);
      assert ContainerOf(w.procs[q].pc).Some? ==> ContainerOf(w.procs[q].pc) != ContainerOf(w'.procs[p].pc);
    }
  }

  lemma CallKeepsClaims(w: World, p: nat, w': World)
    requires Claimed(w) && p in w.procs && p in w'.procs
    requires Effect(w.engine, w.procs[p].pc, w'.engine, w'.procs[p].pc)
    requires forall q: nat | q != p :: ScratchBy(w', q) == ScratchBy(w, q) && ContainerBy(w', q) == ContainerBy(w, q)
    ensures Claimed(w')
  {
    forall c: Cid | c in w'.engine.containers ensures exists q: nat :: ContainerBy(w', q) == Some(c) {
      if ContainerBy(w', p) != Some(c) {
        var q: nat :| ContainerBy(w, q) == Some(c);
        assert ContainerBy(w', q) == Some(c);
      }
    }
    forall id: Uuid | id in w'.engine.scratches ensures exists q: nat :: ScratchBy(w', q) == Some(id) {
      if ScratchBy(w', p) != Some(id) {
        var q: nat :| ScratchBy(w, q) == Some(id);
        assert ScratchBy(w', q) == Some(id);
      }
    }
  }

  lemma BeginKeepsInv(w: World, ev: Event)
    requires Inv(w) && Enabled(w, ev) && ev.Begin?
    ensures Inv(Apply(w, ev))
  {
    var w' := Apply(w, ev);
    forall q: nat ensures ScratchBy(w', q) == ScratchBy(w, q) && ContainerBy(w', q) == ContainerBy(w, q) {
    }
    forall c: Cid | c in w'.engine.containers ensures exists q: nat :: ContainerBy(w', q) == Some(c) {
      var q: nat :| ContainerBy(w, q) == Some(c);
      assert ContainerBy(w', q) == Some(c);
    }
    forall id: Uuid | id in w'.engine.scratches ensures exists q: nat :: ScratchBy(w', q) == Some(id) {
      var q: nat :| ScratchBy(w, q) == Some(id);
      assert ScratchBy(w', q) == Some(id);
    }
  }

  ghost function After(w: World, evs: seq<Event>): Option<World> {
    if evs == [] then Some(w)
    else
      var before := After(w, evs[..|evs| - 1]);
      var ev := evs[|evs| - 1];
      if before.Some? && Enabled(before.value, ev) then Some(Apply(before.value, ev)) else None
  }

  const EMPTY := World(Engine(map[], map[], 0, {}, {}), map[])

  lemma {:induction false} RunsKeepInv(evs: seq<Event>)
    requires After(EMPTY, evs).Some?
    ensures Inv(After(EMPTY, evs).value)
  {
    if evs != [] {
      var before := evs[..|evs| - 1];
      var ev := evs[|evs| - 1];
      RunsKeepInv(before);
      if ev.Call? {
        CallKeepsInv(After(EMPTY, before).value, ev);
      } else {
        BeginKeepsInv(After(EMPTY, before).value, ev);
      }
    }
  }

  /** What the function code reads at the path its environment names. */
  function FoundEvent(e: Engine, c: Cid): Option<string>
    requires c in e.containers
  {
    match e.containers[c].eventPath
    case ScratchEvent(id) => if id in e.scratches then e.scratches[id].event else None
    case OtherFile(_) => None
  }

  /** Main result: in every interleaving, every container whose removal has not failed belongs to exactly one
      invoke, which is still in flight; that invoke's scratch directory is there and holds its own event (and
      its merged layers, when it has any); and the container finds that very event unless the caller has
      overridden the path. */
  lemma EveryContainerFindsItsEvent(evs: seq<Event>, c: Cid)
    requires After(EMPTY, evs).Some?
    requires var e := After(EMPTY, evs).value.engine; c in e.containers && c !in e.lingering
    ensures var w := After(EMPTY, evs).value;
            exists p: nat ::
              && p in w.procs && ContainerBy(w, p) == Some(c) && !w.procs[p].pc.End?
              && (forall q: nat :: ContainerBy(w, q) == Some(c) ==> q == p)
              && ScratchBy(w, p).Some? && ScratchBy(w, p).value in w.engine.scratches
              && (forall q: nat :: ScratchBy(w, q) == ScratchBy(w, p) ==> q == p)
              && w.engine.scratches[ScratchBy(w, p).value].event == Some(w.procs[p].opts.event)
              && (w.procs[p].opts.layers ==>
                    && w.engine.containers[c].opt == ScratchBy(w, p)
                    && w.engine.scratches[ScratchBy(w, p).value].merged)
              && (w.procs[p].opts.eventPath.None? ==> FoundEvent(w.engine, c) == Some(w.procs[p].opts.event))
  {
    RunsKeepInv(evs);
    var w := After(EMPTY, evs).value;
    var p: nat :| ContainerBy(w, p) == Some(c);
    assert Local(w.engine, w.procs[p].opts, w.procs[p].pc);
    assert ScratchBy(w, p) == ScratchOf(w.procs[p].pc);
  }

  /** Main result: an invoke that has returned leaves neither its scratch directory nor its container, unless
      the call that should have removed it (or the chmod before its removal was deferred) failed. */
  lemma ReturnLeavesNothing(evs: seq<Event>, p: nat)
    requires After(EMPTY, evs).Some?
    requires var w := After(EMPTY, evs).value; p in w.procs && w.procs[p].pc.End?
    ensures var w := After(EMPTY, evs).value;
            var End(id, c, _) := w.procs[p].pc;
            && (id.Some? && id.value in w.engine.scratches ==> id.value in w.engine.leaked)
            && (c.Some? && c.value in w.engine.containers ==> c.value in w.engine.lingering)
  {
    RunsKeepInv(evs);
  }

  /** A chmod of a scratch directory and the two removals are answered without an error. */
  ghost predicate CleanupDone(w: World, ev: Event)
    requires Enabled(w, ev)
  {
    ev.Call? && !ev.a.Done? ==>
      var pc := w.procs[ev.p].pc; !pc.ModeDir? && !pc.RemovingContainer? && !pc.RemovingScratch?
  }

  ghost predicate AllCleanupDone(evs: seq<Event>)
    requires After(EMPTY, evs).Some?
  {
    evs == [] ||
    (CleanupDone(After(EMPTY, evs[..|evs| - 1]).value, evs[|evs| - 1]) && AllCleanupDone(evs[..|evs| - 1]))
  }

  lemma {:induction false} NothingLeaks(evs: seq<Event>)
    requires After(EMPTY, evs).Some? && AllCleanupDone(evs)
    ensures var e := After(EMPTY, evs).value.engine; e.leaked == {} && e.lingering == {}
  {
    if evs != [] {
      NothingLeaks(evs[..|evs| - 1]);
    }
  }

  /** Main result: in every interleaving in which those calls are answered without an error, a returned invoke
      leaves neither its scratch directory nor its container, and what exists belongs to invokes in flight. */
  lemma AnsweredReturnLeavesNothing(evs: seq<Event>)
    requires After(EMPTY, evs).Some? && AllCleanupDone(evs)
    ensures var w := After(EMPTY, evs).value;
            && (forall p: nat | p in w.procs && w.procs[p].pc.End? ::
                  && (ScratchBy(w, p).Some? ==> ScratchBy(w, p).value !in w.engine.scratches)
                  && (ContainerBy(w, p).Some? ==> ContainerBy(w, p).value !in w.engine.containers))
            && (forall id: Uuid | id in w.engine.scratches ::
                  exists p: nat :: p in w.procs && !w.procs[p].pc.End? && ScratchBy(w, p) == Some(id))
            && (forall c: Cid | c in w.engine.containers ::
                  exists p: nat :: p in w.procs && !w.procs[p].pc.End? && ContainerBy(w, p) == Some(c))
  {
    RunsKeepInv(evs);
    NothingLeaks(evs);
    var w := After(EMPTY, evs).value;
    forall p: nat | p in w.procs && w.procs[p].pc.End?
      ensures ScratchBy(w, p).Some? ==> ScratchBy(w, p).value !in w.engine.scratches
      ensures ContainerBy(w, p).Some? ==> ContainerBy(w, p).value !in w.engine.containers
    {
      ReturnLeavesNothing(evs, p);
    }
    forall id: Uuid | id in w.engine.scratches
      ensures exists p: nat :: p in w.procs && !w.procs[p].pc.End? && ScratchBy(w, p) == Some(id)
    {
      var p: nat :| ScratchBy(w, p) == Some(id);
      assert p in w.procs;
    }
    forall c: Cid | c in w.engine.containers
      ensures exists p: nat :: p in w.procs && !w.procs[p].pc.End? && ContainerBy(w, p) == Some(c)
    {
      var p: nat :| ContainerBy(w, p) == Some(c);
      assert p in w.procs;
    }
  }

  /** An invoke whose container exists is past making its scratch directory and short of removing it. */
  lemma OwnScratch(w: World, c: Cid, p: nat)
    requires Inv(w) && ContainerBy(w, p) == Some(c) && c in w.engine.containers && c !in w.engine.lingering
    ensures ScratchBy(w, p).Some? && ScratchBy(w, p).value in w.engine.scratches
    ensures !w.procs[p].pc.RemovingScratch? && !w.procs[p].pc.End?
  {
    assert Local(w.engine, w.procs[p].opts, w.procs[p].pc);
    assert ScratchBy(w, p) == ScratchOf(w.procs[p].pc) && ContainerBy(w, p) == ContainerOf(w.procs[p].pc);
  }

  lemma RunningKeepsScratches(e: Engine, o: Opts, pc: Pc, a: Answer, w: WaitAnswer)
    requires ContainerOf(pc).Some? && !pc.RemovingScratch? && !pc.End?
    ensures Step(e, o, pc, a, w).0.scratches == e.scratches
  {
  }

  /** Main result: no call, of whatever invoke, removes or changes the scratch directory of a container that
      exists. */
  lemma NoScratchRemovedUnderContainer(w: World, ev: Event, c: Cid, p: nat)
    requires Inv(w) && Enabled(w, ev)
    requires ContainerBy(w, p) == Some(c) && c in w.engine.containers && c !in w.engine.lingering
    ensures ScratchBy(w, p).Some? && ScratchBy(w, p).value in w.engine.scratches
    ensures var id := ScratchBy(w, p).value; var e' := Apply(w, ev).engine;
            id in e'.scratches && e'.scratches[id] == w.engine.scratches[id]
  {
    OwnScratch(w, c, p);
    if ev.Call? {
      var q := ev.p;
      assert ScratchBy(w, p) == ScratchOf(w.procs[p].pc) && ScratchBy(w, q) == ScratchOf(w.procs[q].pc);
      if q == p {
        RunningKeepsScratches(w.engine, w.procs[p].opts, w.procs[p].pc, ev.a, ev.w);
      } else {
        assert Local(w.engine, w.procs[q].opts, w.procs[q].pc);
        StepEffect(w.engine, w.procs[q].opts, w.procs[q].pc, ev.a, ev.w);
        assert ScratchBy(w, q) != ScratchBy(w, p);
      }
    }
  }

  // ---------------------------------------------------------------- the client

  function Rank(pc: Pc): nat {
    match pc
    case Preparing => 12 case MakingDir => 11 case ModeDir(_) => 10 case WritingEvent(_) => 9 case ModeEvent(_) => 8
    case Merging(_) => 7 case Creating(_) => 6 case Starting(_, _) => 5 case Waiting(_, _) => 4
    case Halting(_, _, _) => 3 case Logging(_, _, _) => 2 case RemovingContainer(_, _, _) => 1
    case RemovingScratch(_, _, _) => 0 case End(_, _, _) => 0
  }

  datatype Finish = Finish(engine: Engine, pc: Pc, calls: nat)

  /** A whole RunInvoke with nobody interfering. */
  function Alone(e: Engine, o: Opts, pc: Pc, oracle: nat -> Answer, waits: nat -> WaitAnswer, k: nat): Finish
    decreases if pc.End? then 0 else 1 + Rank(pc)
  {
    if pc.End? then Finish(e, pc, k)
    else
      var (e', pc') := Step(e, o, pc, oracle(k), waits(k));
      Alone(e', o, pc', oracle, waits, k + 1)
  }

  /** The compute client's RunInvoke, with its deferred calls made on every way out. */
  class Client {
    var engine: Engine
    var calls: nat
    const oracle: nat -> Answer
    const waits: nat -> WaitAnswer

    constructor (engine: Engine, oracle: nat -> Answer, waits: nat -> WaitAnswer)
      ensures this.engine == engine && this.oracle == oracle && this.waits == waits && calls == 0
    {
      this.engine := engine;
      this.oracle := oracle;
      this.waits := waits;
      calls := 0;
    }

    method Call() returns (a: Answer)
      modifies this`calls
      ensures a == oracle(old(calls)) && calls == old(calls) + 1
    {
      a := oracle(calls);
      calls := calls + 1;
    }

    method RunInvoke(o: Opts) returns (ok: bool)
      modifies this
      ensures var f := Alone(old(engine), o, Preparing, oracle, waits, old(calls));
              f.engine == engine && f.calls == calls && f.pc.End? && f.pc.ok == ok
    {
      var a := Call();
      if !a.Done? {
        return false;
      }
      ok := InCodeDir(o);
    }

    /** From the scratch directory's creation on. */
    method InCodeDir(o: Opts) returns (ok: bool)
      modifies this
      ensures var f := Alone(old(engine), o, MakingDir, oracle, waits, old(calls));
              f.engine == engine && f.calls == calls && f.pc.End? && f.pc.ok == ok
    {
      var a := Call();
      if !a.Done? {
        return false;
      }
      var id := engine.next;
      engine := engine.(scratches := engine.scratches[id := Scratch(None, false)], next := id + 1);
      assert Alone(old(engine), o, MakingDir, oracle, waits, old(calls))
          == Alone(engine, o, ModeDir(id), oracle, waits, calls);
      ok := InScratchDir(o, id);
    }

    /** From the scratch directory's mode on: its removal is deferred only once the mode is set. */
    method InScratchDir(o: Opts, id: Uuid) returns (ok: bool)
      requires id in engine.scratches
      modifies this
      ensures var f := Alone(old(engine), o, ModeDir(id), oracle, waits, old(calls));
              f.engine == engine && f.calls == calls && f.pc.End? && f.pc.ok == ok
    {
      var a := Call();
      if !a.Done? {
        engine := engine.(leaked := engine.leaked + {id});
        return false;
      }
      ok := WithScratch(o, id);
    }

    /** The work in the scratch directory and its deferred removal. */
    method WithScratch(o: Opts, id: Uuid) returns (ok: bool)
      requires id in engine.scratches
      modifies this
      ensures var f := Alone(old(engine), o, WritingEvent(id), oracle, waits, old(calls));
              f.engine == engine && f.calls == calls && f.pc.End? && f.pc.ok == ok
    {
      var made;
      made, ok := InScratch(o, id);
      var a := Call();
      if a.Done? {
        engine := engine.(scratches := engine.scratches - {id});
      } else {
        engine := engine.(leaked := engine.leaked + {id});
      }
    }

    /** From the event file to the last call before the scratch directory's deferred removal. */
    method InScratch(o: Opts, id: Uuid) returns (made: Option<Cid>, ok: bool)
      requires id in engine.scratches
      modifies this
      ensures Alone(old(engine), o, WritingEvent(id), oracle, waits, old(calls))
           == Alone(engine, o, RemovingScratch(id, made, ok), oracle, waits, calls)
    {
      var written := WriteEvent(o, id);
      if !written {
        return None, false;
      }
      made, ok := InFreshContainer(o, id);
    }

    /** The container, from its creation to its deferred removal. */
    method InFreshContainer(o: Opts, id: Uuid) returns (made: Option<Cid>, ok: bool)
      modifies this
      ensures Alone(old(engine), o, Creating(id), oracle, waits, old(calls))
           == Alone(engine, o, RemovingScratch(id, made, ok), oracle, waits, calls)
    {
      var a := Call();
      if !a.Done? {
        return None, false;
      }
      var c := engine.next;
      engine := engine.(
        containers := engine.containers[c := Container(EventPath(o, id), if o.layers then Some(id) else None)],
        next := c + 1);
      assert Alone(old(engine), o, Creating(id), oracle, waits, old(calls))
          == Alone(engine, o, Starting(id, c), oracle, waits, calls);
      ok := InContainer(o, id, c);
      made := Some(c);
      RemoveContainer(o, id, c, ok);
    }

    /** The container's deferred, forced removal. */
    method RemoveContainer(o: Opts, id: Uuid, c: Cid, ok: bool)
      modifies this
      ensures Alone(old(engine), o, RemovingContainer(id, c, ok), oracle, waits, old(calls))
           == Alone(engine, o, RemovingScratch(id, Some(c), ok), oracle, waits, calls)
    {
      var a := Call();
      engine := if a.Done? then engine.(containers := engine.containers - {c})
                else engine.(lingering := engine.lingering + {c});
    }

    /** The event file and, for a function with layers, the merged layer directory. */
    method WriteEvent(o: Opts, id: Uuid) returns (ok: bool)
      requires id in engine.scratches
      modifies this
      ensures Alone(old(engine), o, WritingEvent(id), oracle, waits, old(calls))
           == Alone(engine, o, if ok then Creating(id) else RemovingScratch(id, None, false), oracle, waits, calls)
    {
      var a := Call();
      if !a.Done? {
        return false;
      }
      engine := engine.(scratches := engine.scratches[id := engine.scratches[id].(event := Some(o.event))]);
      assert Alone(old(engine), o, WritingEvent(id), oracle, waits, old(calls))
          == Alone(engine, o, ModeEvent(id), oracle, waits, calls);
      a := Call();
      if !a.Done? {
        return false;
      }
      if o.layers {
        ok := MergeLayers(o, id);
        return;
      }
      return true;
    }

    /** The merged layer directory. */
    method MergeLayers(o: Opts, id: Uuid) returns (ok: bool)
      requires id in engine.scratches
      modifies this
      ensures Alone(old(engine), o, Merging(id), oracle, waits, old(calls))
           == Alone(engine, o, if ok then Creating(id) else RemovingScratch(id, None, false), oracle, waits, calls)
    {
      var a := Call();
      if !a.Done? {
        return false;
      }
      engine := engine.(scratches := engine.scratches[id := engine.scratches[id].(merged := true)]);
      return true;
    }

    /** Start, wait and logs: everything before the container's deferred removal. */
    method InContainer(o: Opts, id: Uuid, c: Cid) returns (ok: bool)
      modifies this`calls
      ensures Alone(engine, o, Starting(id, c), oracle, waits, old(calls))
           == Alone(engine, o, RemovingContainer(id, c, ok), oracle, waits, calls)
    {
      var a := Call();
      if !a.Done? {
        return false;
      }
      ok := AwaitExit(o, id, c);
    }

    /** From the wait on. */
    method AwaitExit(o: Opts, id: Uuid, c: Cid) returns (ok: bool)
      modifies this`calls
      ensures Alone(engine, o, Waiting(id, c), oracle, waits, old(calls))
           == Alone(engine, o, RemovingContainer(id, c, ok), oracle, waits, calls)
    {
      var w := waits(calls);
      var a := Call();
      match w
      case WaitFailed =>
        assert Alone(engine, o, Waiting(id, c), oracle, waits, old(calls))
            == Alone(engine, o, Halting(id, c, false), oracle, waits, calls);
        a := Call();
        return false;
      case Exited(code, message) =>
        if message != "" {
          return false;
        }
        ok := ReadLogs(o, id, c, code == 0);
      case TimedOut =>
        assert Alone(engine, o, Waiting(id, c), oracle, waits, old(calls))
            == Alone(engine, o, Halting(id, c, true), oracle, waits, calls);
        a := Call();
        ok := ReadLogs(o, id, c, false);
    }

    method ReadLogs(o: Opts, id: Uuid, c: Cid, exitOk: bool) returns (ok: bool)
      modifies this`calls
      ensures Alone(engine, o, Logging(id, c, exitOk), oracle, waits, old(calls))
           == Alone(engine, o, RemovingContainer(id, c, ok), oracle, waits, calls)
    {
      var a := Call();
      return a.Done? && exitOk;
    }
  }
}
