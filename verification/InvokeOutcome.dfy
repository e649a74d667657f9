/** When RunInvoke succeeds, told by the answers of its calls and of the wait. */
module InvokeOutcome {
  import opened Wrappers
  import opened Invoke

  /** Bound to end in an error. */
  predicate Failing(pc: Pc) {
    match pc
    case Halting(_, _, _) => true
    case Logging(_, _, exitOk) => !exitOk
    case RemovingContainer(_, _, ok) => !ok
    case RemovingScratch(_, _, ok) => !ok
    case End(_, _, ok) => !ok
    case _ => false
  }

  ghost predicate Succeeds(
    e: Engine, o: Opts, pc: Pc, oracle: nat -> Answer, waits: nat -> WaitAnswer, k: nat)
  {
    var f := Alone(e, o, pc, oracle, waits, k);
    f.pc.End? && f.pc.ok
  }

  lemma {:induction false} EndsAtEnd(
    e: Engine, o: Opts, pc: Pc, oracle: nat -> Answer, waits: nat -> WaitAnswer, k: nat)
    ensures Alone(e, o, pc, oracle, waits, k).pc.End?
    decreases if pc.End? then 0 else 1 + Rank(pc)
  {
    if !pc.End? {
      var (e', pc') := Step(e, o, pc, oracle(k), waits(k));
      EndsAtEnd(e', o, pc', oracle, waits, k + 1);
    }
  }

  lemma {:induction false} FailingFails(
    e: Engine, o: Opts, pc: Pc, oracle: nat -> Answer, waits: nat -> WaitAnswer, k: nat)
    requires Failing(pc)
    ensures !Succeeds(e, o, pc, oracle, waits, k)
    decreases if pc.End? then 0 else 1 + Rank(pc)
  {
    if !pc.End? {
      var (e', pc') := Step(e, o, pc, oracle(k), waits(k));
      FailingFails(e', o, pc', oracle, waits, k + 1);
    }
  }

  /** One call: done, it leads to the next state, otherwise to a failing one. */
  lemma NeedsDone(
    e: Engine, o: Opts, pc: Pc, e': Engine, pc': Pc, oracle: nat -> Answer, waits: nat -> WaitAnswer, k: nat)
    requires !pc.End?
    requires if oracle(k).Done? then Step(e, o, pc, oracle(k), waits(k)) == (e', pc')
             else Failing(Step(e, o, pc, oracle(k), waits(k)).1)
    ensures Succeeds(e, o, pc, oracle, waits, k) <==> oracle(k).Done? && Succeeds(e', o, pc', oracle, waits, k + 1)
  {
    if !oracle(k).Done? {
      var (f, pd) := Step(e, o, pc, oracle(k), waits(k));
      FailingFails(f, o, pd, oracle, waits, k + 1);
    }
  }

  /** The removals change nothing about the outcome. */
  lemma CleanupKeepsOutcome(
    e: Engine, o: Opts, id: Uuid, c: Cid, ok: bool, oracle: nat -> Answer, waits: nat -> WaitAnswer, k: nat)
    ensures Succeeds(e, o, RemovingContainer(id, c, ok), oracle, waits, k) == ok
  {
    var (e', pc') := Step(e, o, RemovingContainer(id, c, ok), oracle(k), waits(k));
    var (e'', pc'') := Step(e', o, pc', oracle(k + 1), waits(k + 1));
    assert Alone(e', o, pc', oracle, waits, k + 1) == Alone(e'', o, pc'', oracle, waits, k + 2);
  }

  /** From the wait on: success is an exit with code 0 and no message, and readable logs. */
  lemma WaitDecides(
    e: Engine, o: Opts, id: Uuid, c: Cid, oracle: nat -> Answer, waits: nat -> WaitAnswer, k: nat)
    ensures Succeeds(e, o, Waiting(id, c), oracle, waits, k) <==> waits(k) == Exited(0, "") && oracle(k + 1).Done?
  {
    var (e', pc') := Step(e, o, Waiting(id, c), oracle(k), waits(k));
    if Failing(pc') {
      FailingFails(e', o, pc', oracle, waits, k + 1);
    } else {
      var ok := oracle(k + 1).Done?;
      CleanupKeepsOutcome(e, o, id, c, ok, oracle, waits, k + 2);
      assert pc' == Logging(id, c, true) && waits(k).message == "";
      assert Step(e, o, pc', oracle(k + 1), waits(k + 1)) == (e, RemovingContainer(id, c, ok));
      assert Alone(e, o, pc', oracle, waits, k + 1) == Alone(e, o, RemovingContainer(id, c, ok), oracle, waits, k + 2);
    }
  }

  lemma StartDecides(
    e: Engine, o: Opts, id: Uuid, c: Cid, oracle: nat -> Answer, waits: nat -> WaitAnswer, k: nat)
    ensures Succeeds(e, o, Starting(id, c), oracle, waits, k) <==>
              oracle(k).Done? && waits(k + 1) == Exited(0, "") && oracle(k + 2).Done?
  {
    WaitDecides(e, o, id, c, oracle, waits, k + 1);
    NeedsDone(e, o, Starting(id, c), e, Waiting(id, c), oracle, waits, k);
  }

  lemma CreateDecides(e: Engine, o: Opts, id: Uuid, oracle: nat -> Answer, waits: nat -> WaitAnswer, k: nat)
    ensures Succeeds(e, o, Creating(id), oracle, waits, k) <==>
              oracle(k).Done? && oracle(k + 1).Done? && waits(k + 2) == Exited(0, "") && oracle(k + 3).Done?
  {
    var made := Container(EventPath(o, id), if o.layers then Some(id) else None);
    var e' := e.(containers := e.containers[e.next := made], next := e.next + 1);
    StartDecides(e', o, id, e.next, oracle, waits, k + 1);
    NeedsDone(e, o, Creating(id), e', Starting(id, e.next), oracle, waits, k);
  }

  /** The calls up to the merge of the layers, when there are any. */
  function LayerCalls(o: Opts): nat {
    if o.layers then 1 else 0
  }

  lemma MergeDecides(e: Engine, o: Opts, id: Uuid, oracle: nat -> Answer, waits: nat -> WaitAnswer, k: nat)
    requires id in e.scratches
    ensures var w := k + 2 + LayerCalls(o);
            Succeeds(e, o, if o.layers then Merging(id) else Creating(id), oracle, waits, k) <==>
              (forall i: nat | k <= i < w :: oracle(i).Done?) && waits(w) == Exited(0, "") && oracle(w + 1).Done?
  {
    if o.layers {
      var e' := e.(scratches := e.scratches[id := e.scratches[id].(merged := true)]);
      CreateDecides(e', o, id, oracle, waits, k + 1);
      NeedsDone(e, o, Merging(id), e', Creating(id), oracle, waits, k);
      assert (forall i: nat | k <= i < k + 3 :: oracle(i).Done?) <==>
               oracle(k).Done? && oracle(k + 1).Done? && oracle(k + 2).Done?;
    } else {
      CreateDecides(e, o, id, oracle, waits, k);
      assert (forall i: nat | k <= i < k + 2 :: oracle(i).Done?) <==> oracle(k).Done? && oracle(k + 1).Done?;
    }
  }

  lemma WriteDecides(e: Engine, o: Opts, id: Uuid, oracle: nat -> Answer, waits: nat -> WaitAnswer, k: nat)
    requires id in e.scratches
    ensures var pc := if o.layers then Merging(id) else Creating(id);
            var e' := e.(scratches := e.scratches[id := e.scratches[id].(event := Some(o.event))]);
            Succeeds(e, o, WritingEvent(id), oracle, waits, k) <==>
              oracle(k).Done? && oracle(k + 1).Done? && Succeeds(e', o, pc, oracle, waits, k + 2)
  {
    var pc := if o.layers then Merging(id) else Creating(id);
    var e' := e.(scratches := e.scratches[id := e.scratches[id].(event := Some(o.event))]);
    NeedsDone(e', o, ModeEvent(id), e', pc, oracle, waits, k + 1);
    NeedsDone(e, o, WritingEvent(id), e', ModeEvent(id), oracle, waits, k);
  }

  /** The answers with which an invoke succeeds: every call before the wait is done, the wait answers an exit with
      code 0 and no message, and the logs can be read. */
  predicate GoodAnswers(o: Opts, oracle: nat -> Answer, waits: nat -> WaitAnswer, k: nat) {
    var w := k + 7 + LayerCalls(o);
    (forall i: nat | k <= i < w :: oracle(i).Done?) && waits(w) == Exited(0, "") && oracle(w + 1).Done?
  }

  /** Main result: RunInvoke succeeds exactly with these answers, whatever its removals answer. */
  lemma InvokeSucceedsIff(e: Engine, o: Opts, oracle: nat -> Answer, waits: nat -> WaitAnswer, k: nat)
    ensures var f := Alone(e, o, Preparing, oracle, waits, k);
            f.pc.End? && (f.pc.ok <==> GoodAnswers(o, oracle, waits, k))
  {
    EndsAtEnd(e, o, Preparing, oracle, waits, k);
    var id := e.next;
    var e' := e.(scratches := e.scratches[id := Scratch(None, false)], next := id + 1);
    var e'' := e'.(scratches := e'.scratches[id := e'.scratches[id].(event := Some(o.event))]);
    MergeDecides(e'', o, id, oracle, waits, k + 5);
    WriteDecides(e', o, id, oracle, waits, k + 3);
    NeedsDone(e', o, ModeDir(id), e', WritingEvent(id), oracle, waits, k + 2);
    NeedsDone(e, o, MakingDir, e', ModeDir(id), oracle, waits, k + 1);
    NeedsDone(e, o, Preparing, e, MakingDir, oracle, waits, k);
    FirstFive(oracle, k, k + 7 + LayerCalls(o));
  }

  lemma FirstFive(oracle: nat -> Answer, k: nat, w: nat)
    requires k + 5 <= w
    ensures (forall i: nat | k <= i < w :: oracle(i).Done?) <==>
              && oracle(k).Done? && oracle(k + 1).Done? && oracle(k + 2).Done? && oracle(k + 3).Done?
              && oracle(k + 4).Done? && (forall i: nat | k + 5 <= i < w :: oracle(i).Done?)
  {
  }
}
