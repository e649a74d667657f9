/** When RunECSTask and StopECSTask succeed, told by the answers of their calls. */
module EcsOutcome {
  import opened Wrappers
  import opened EcsTask

  /** n calls from number k on are all answered Done. */
  predicate AllDone(oracle: nat -> Answer, k: nat, n: nat) {
    forall i: nat | k <= i < k + n :: oracle(i).Done?
  }

  lemma AllDoneFirst(oracle: nat -> Answer, k: nat, n: nat)
    requires n > 0
    ensures AllDone(oracle, k, n) <==> oracle(k).Done? && AllDone(oracle, k + 1, n - 1)
  {
  }

  // ---------------------------------------------------------------- runs

  /** Cleaning up after a failure, or done with it. */
  predicate RollingBack(pc: RunPc) {
    pc.Removing? || pc.UnregisterInspect? || pc.UnregisterExec? || pc == Returned(None)
  }

  lemma {:induction false} RollbackFails(e: Engine, opts: RunOpts, pc: RunPc, oracle: nat -> Answer, k: nat)
    requires RollingBack(pc)
    ensures RunAlone(e, opts, pc, oracle, k).result.None?
    decreases RunRank(pc)
  {
    if !pc.Returned? {
      var (e', pc') := RunStep(e, opts, pc, oracle(k));
      RollbackFails(e', opts, pc', oracle, k + 1);
    }
  }

  /** From a state on, the run succeeds exactly when the next n calls are done, and then makes just those. */
  ghost predicate NeedsDone(e: Engine, opts: RunOpts, pc: RunPc, oracle: nat -> Answer, k: nat, n: nat) {
    var end := RunAlone(e, opts, pc, oracle, k);
    && (end.result.Some? <==> AllDone(oracle, k, n))
    && (end.result.Some? ==> end.calls == k + n)
  }

  /** One more call before: done, it leads to a state that needs n calls, otherwise to a rollback. */
  lemma NeedsOneMore(
    e: Engine, opts: RunOpts, pc: RunPc, e': Engine, pc': RunPc, oracle: nat -> Answer, k: nat, n: nat)
    requires !pc.Returned?
    requires if oracle(k).Done? then RunStep(e, opts, pc, oracle(k)) == (e', pc')
                                     && NeedsDone(e', opts, pc', oracle, k + 1, n)
             else RollingBack(RunStep(e, opts, pc, oracle(k)).1)
    ensures NeedsDone(e, opts, pc, oracle, k, n + 1)
  {
    AllDoneFirst(oracle, k, n + 1);
    var (f, pd) := RunStep(e, opts, pc, oracle(k));
    if !oracle(k).Done? {
      RollbackFails(f, opts, pd, oracle, k + 1);
    }
  }

  lemma WriteNeeds(e: Engine, opts: RunOpts, id: Uuid, c: Cid, address: Address, oracle: nat -> Answer, k: nat)
    requires e.sidecar.Some?
    ensures NeedsDone(e, opts, BindInspect(id, c, address), oracle, k, 2)
  {
    var t := e.sidecar.value;
    var e' := e.(peers := e.peers[id := address]);
    NeedsOneMore(e, opts, BindExec(id, c, address, t), e', Returned(Some(c)), oracle, k + 1, 0);
    NeedsOneMore(e, opts, BindInspect(id, c, address), e, BindExec(id, c, address, t), oracle, k, 1);
  }

  lemma BindNeeds(e: Engine, opts: RunOpts, id: Uuid, c: Cid, oracle: nat -> Answer, k: nat)
    requires e.sidecar.Some? && c in e.containers && e.containers[c].address.Some?
    ensures NeedsDone(e, opts, BindTask(id, c), oracle, k, 3)
  {
    var address := e.containers[c].address.value;
    WriteNeeds(e, opts, id, c, address, oracle, k + 1);
    NeedsOneMore(e, opts, BindTask(id, c), e, BindInspect(id, c, address), oracle, k, 2);
  }

  lemma StartNeeds(e: Engine, opts: RunOpts, cred: Option<Uuid>, c: Cid, oracle: nat -> Answer, k: nat)
    requires c in e.containers && (cred.Some? ==> e.sidecar.Some?)
    ensures NeedsDone(e, opts, Starting(cred, c), oracle, k, if cred.Some? then 4 else 1)
  {
    var (e', pc') := RunStep(e, opts, Starting(cred, c), oracle(k));
    if oracle(k).Done? && cred.Some? {
      BindNeeds(e', opts, cred.value, c, oracle, k + 1);
    }
    NeedsOneMore(e, opts, Starting(cred, c), e', pc', oracle, k, if cred.Some? then 3 else 0);
  }

  /** The calls from a created container on. */
  function CopyCalls(opts: RunOpts): nat {
    if opts.copy == CopyTar(true) then 1 else 0
  }

  /** A workspace destination is named with its archive, and is a good one. */
  predicate CopyGood(opts: RunOpts) {
    opts.copy == NoCopy || opts.copy == CopyTar(true)
  }

  lemma CreatedNeeds(e: Engine, opts: RunOpts, cred: Option<Uuid>, c: Cid, oracle: nat -> Answer, k: nat)
    requires c in e.containers && (cred.Some? ==> e.sidecar.Some?) && CopyGood(opts)
    ensures NeedsDone(e, opts, AfterCreate(opts, cred, c), oracle, k, CopyCalls(opts) + if cred.Some? then 4 else 1)
  {
    if opts.copy == NoCopy {
      StartNeeds(e, opts, cred, c, oracle, k);
    } else {
      StartNeeds(e, opts, cred, c, oracle, k + 1);
      NeedsOneMore(e, opts, Copying(cred, c), e, Starting(cred, c), oracle, k, if cred.Some? then 4 else 1);
    }
  }

  lemma CreateNeeds(e: Engine, opts: RunOpts, cred: Option<Uuid>, oracle: nat -> Answer, k: nat)
    requires (cred.Some? ==> e.sidecar.Some?) && CopyGood(opts)
    ensures NeedsDone(e, opts, Creating(cred), oracle, k, CopyCalls(opts) + if cred.Some? then 5 else 2)
  {
    var e' := Created(e, opts, cred);
    CreatedNeeds(e', opts, cred, e.next, oracle, k + 1);
    NeedsOneMore(e, opts, Creating(cred), e', AfterCreate(opts, cred, e.next), oracle, k,
                 CopyCalls(opts) + if cred.Some? then 4 else 1);
  }

  lemma RegisterNeeds(e: Engine, opts: RunOpts, id: Uuid, oracle: nat -> Answer, k: nat)
    requires e.sidecar.Some? && opts.keys.Some? && CopyGood(opts)
    ensures NeedsDone(e, opts, RegisterInspect(id), oracle, k, CopyCalls(opts) + 7)
  {
    var t := e.sidecar.value;
    var e' := e.(creds := e.creds[id := opts.keys.value]);
    CreateNeeds(e', opts, Some(id), oracle, k + 2);
    NeedsOneMore(e, opts, RegisterExec(id, t), e', Creating(Some(id)), oracle, k + 1, CopyCalls(opts) + 5);
    NeedsOneMore(e, opts, RegisterInspect(id), e, RegisterExec(id, t), oracle, k, CopyCalls(opts) + 6);
  }

  /** With bad copy options a run fails after the create. */
  lemma {:induction false} BadCopyFails(e: Engine, opts: RunOpts, pc: RunPc, oracle: nat -> Answer, k: nat)
    requires !CopyGood(opts)
    requires || pc.Preparing? || pc.Attaching? || pc.RegisterInspect? || pc.RegisterExec? || pc.Creating?
             || RollingBack(pc)
    ensures RunAlone(e, opts, pc, oracle, k).result.None?
    decreases RunRank(pc)
  {
    if RollingBack(pc) {
      RollbackFails(e, opts, pc, oracle, k);
    } else {
      var (e', pc') := RunStep(e, opts, pc, oracle(k));
      BadCopyFails(e', opts, pc', oracle, k + 1);
    }
  }

  /** The answers with which a run succeeds: three calls are done without role keys, nine with them, one more for a
      workspace copy; the sidecar check may also have replaced the sidecar. */
  predicate GoodAnswers(opts: RunOpts, oracle: nat -> Answer, k: nat) {
    && CopyGood(opts) && oracle(k).Done?
    && if opts.keys.None? then AllDone(oracle, k + 1, CopyCalls(opts) + 2)
       else (oracle(k + 1).Done? || oracle(k + 1).Fresh?) && AllDone(oracle, k + 2, CopyCalls(opts) + 7)
  }

  /** Main result: RunECSTask succeeds exactly with these answers, and then has made no other call. */
  lemma RunSucceedsIff(e: Engine, opts: RunOpts, oracle: nat -> Answer, k: nat)
    ensures var end := RunAlone(e, opts, Preparing, oracle, k);
            && (end.result.Some? <==> GoodAnswers(opts, oracle, k))
            && (end.result.Some? ==> end.calls == k + CopyCalls(opts) + if opts.keys.Some? then 9 else 3)
  {
    if !CopyGood(opts) {
      BadCopyFails(e, opts, Preparing, oracle, k);
    } else if oracle(k).Done? {
      if opts.keys.None? {
        CreateNeeds(e, opts, None, oracle, k + 1);
      } else {
        var (m, pc) := RunStep(e, opts, Attaching, oracle(k + 1));
        assert RunAlone(e, opts, Preparing, oracle, k) == RunAlone(m, opts, pc, oracle, k + 2);
        if pc.RegisterInspect? {
          RegisterNeeds(m, opts, pc.id, oracle, k + 2);
        }
      }
    }
  }

  // ---------------------------------------------------------------- stops

  /** The number of the call that halts the container: after the inspect, which its failure ends, and the two calls
      of an unregister, of which the second needs a sidecar. */
  function HaltAt(e: Engine, c: Cid, oracle: nat -> Answer, k: nat): nat {
    if CredIn(e, c).None? || !oracle(k).Done? then k + 1
    else if !oracle(k + 1).Done? || e.sidecar.None? then k + 2
    else k + 3
  }

  /** Main result: StopECSTask succeeds exactly when the container exists and its stop and its removal are done,
      whatever the unregister calls answer. */
  lemma StopSucceedsIff(e: Engine, c: Cid, oracle: nat -> Answer, k: nat)
    ensures var end, h := StopAlone(e, c, Inspecting, oracle, k), HaltAt(e, c, oracle, k);
            && (end.ok <==> c in e.containers && oracle(h).Done? && oracle(h + 1).Done?)
            && (end.ok ==> end.calls == h + 2)
  {
    var h := HaltAt(e, c, oracle, k);
    var cred := CredIn(e, c);
    if cred.None? {
      HaltIff(e, c, oracle, h);
    } else if !oracle(k).Done? {
      HaltIff(e.Abandon(cred.value), c, oracle, h);
    } else {
      UnregisterInStop(e, c, cred.value, oracle, k + 1);
      HaltIff(Unregistered(e, cred.value, oracle, k + 1).0, c, oracle, h);
    }
  }

  lemma HaltIff(e: Engine, c: Cid, oracle: nat -> Answer, k: nat)
    ensures var end := StopAlone(e, c, Halting, oracle, k);
            && (end.ok <==> c in e.containers && oracle(k).Done? && oracle(k + 1).Done?)
            && (end.ok ==> end.calls == k + 2)
  {
    var (e', at) := StopStep(e, c, Halting, oracle(k));
    if !at.Stopped? {
      var (e'', at') := StopStep(e', c, at, oracle(k + 1));
      assert StopAlone(e', c, at, oracle, k + 1) == StopAlone(e'', c, at', oracle, k + 2);
    }
  }
}
