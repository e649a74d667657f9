/** One Batch job: the submit handler and the reaper it spawns, interleaved call by call, and the statuses
    they write into the job's row. */
module BatchJob {
  import opened Wrappers

  datatype Status = Running | Succeeded | Failed

  /** How the engine's wait channel answered: an error value (nil or not), a result, or the 30 minute limit. */
  datatype WaitOutcome = WaitError(nonNil: bool) | WaitResult(code: int, message: string) | LimitReached

  /** WaitECSTaskExit: the exit code and whether there was an error. */
  function WaitECSTaskExit(o: WaitOutcome): (int, bool) {
    match o
    case WaitError(nonNil) => if nonNil then (-1, true) else (0, false)
    case WaitResult(code, message) => (code, message != "")
    case LimitReached => (-1, true)
  }

  function ReapStatus(o: WaitOutcome): Status {
    var (exitCode, err) := WaitECSTaskExit(o);
    if err || exitCode != 0 then Failed else Succeeded
  }

  /** How a call was answered: done, refused without an effect, or an error reported after the effect. */
  datatype Answer = Done | Refused | Broken

  datatype HandlerPc = Submitting | Starting | RecordingRunning | StoppingTask | RecordingFailed | HandlerEnd(ok: bool)

  datatype ReaperPc =
    | NotSpawned
    | Connecting
    | Waiting
    | Stopping(o: WaitOutcome)
    | Recording(o: WaitOutcome)
    | ReaperEnd

  /** The job's row and the two processes. writes lists the statuses that reached the row, in order; stopped
      says that a StopECSTask call has returned, exit what the reaper's wait answered. */
  datatype Job = Job(
    handler: HandlerPc, reaper: ReaperPc, writes: seq<Status>, stopped: bool, exit: Option<WaitOutcome>)

  const NEW_JOB := Job(Submitting, NotSpawned, [], false, None)

  /** SetBatchJobRuntime: an error does not tell whether the row was written. */
  function Write(j: Job, s: Status, a: Answer): Job {
    if a.Refused? then j else j.(writes := j.writes + [s])
  }

  function HandlerStep(j: Job, a: Answer): Job {
    match j.handler
    case Submitting => j.(handler := if a.Done? then Starting else HandlerEnd(false))
    case Starting => j.(handler := if a.Done? then RecordingRunning else RecordingFailed)
    case RecordingRunning =>
      var j' := Write(j, Running, a);
      if a.Done? then j'.(handler := HandlerEnd(true), reaper := Connecting) else j'.(handler := StoppingTask)
    case StoppingTask => j.(handler := RecordingFailed, stopped := true)
    case RecordingFailed => Write(j, Failed, a).(handler := HandlerEnd(false))
    case HandlerEnd(_) => j
  }

  function ReaperStep(j: Job, a: Answer, o: WaitOutcome): Job {
    match j.reaper
    case NotSpawned => j
    case Connecting => j.(reaper := if a.Done? then Waiting else ReaperEnd)
    case Waiting => j.(reaper := Stopping(o), exit := Some(o))
    case Stopping(o') => j.(reaper := Recording(o'), stopped := true)
    case Recording(o') => Write(j, ReapStatus(o'), a).(reaper := ReaperEnd)
    case ReaperEnd => j
  }

  /** What a status write adds to the row's history. */
  function Written(s: Status, a: Answer): seq<Status> {
    if a.Refused? then [] else [s]
  }

  /** The wait ended without an error, and the container with code 0: a result without a message, or an error
      channel that delivers none. */
  predicate CleanExit(o: WaitOutcome) {
    o == WaitResult(0, "") || o == WaitError(false)
  }

  lemma ReapStatusIff(o: WaitOutcome)
    ensures ReapStatus(o) == if CleanExit(o) then Succeeded else Failed
    ensures WaitECSTaskExit(o) == (0, false) <==> CleanExit(o)
    ensures WaitECSTaskExit(o).1 <==>
              o == LimitReached || o == WaitError(true) || (o.WaitResult? && o.message != "")
  {
  }

  datatype Event = Handler(a: Answer) | Reaper(a: Answer, o: WaitOutcome)

  function After(evs: seq<Event>): Job {
    if evs == [] then NEW_JOB
    else
      var j := After(evs[..|evs| - 1]);
      match evs[|evs| - 1]
      case Handler(a) => HandlerStep(j, a)
      case Reaper(a, o) => ReaperStep(j, a, o)
  }

  ghost predicate Inv(j: Job) {
    match j.handler
    case Submitting => j == NEW_JOB
    case Starting => j == NEW_JOB.(handler := Starting)
    case RecordingRunning => j == NEW_JOB.(handler := RecordingRunning)
    case StoppingTask => j.reaper == NotSpawned && (j.writes == [] || j.writes == [Running])
    case RecordingFailed => j.reaper == NotSpawned && (j.writes == [] || (j.writes == [Running] && j.stopped))
    case HandlerEnd(false) =>
      && j.reaper == NotSpawned
      && (j.writes == [] || j.writes == [Failed]
          || ((j.writes == [Running] || j.writes == [Running, Failed]) && j.stopped))
    case HandlerEnd(true) =>
      match j.reaper
      case NotSpawned => false
      case Stopping(o) => j.writes == [Running] && j.exit == Some(o)
      case Recording(o) => j.writes == [Running] && j.exit == Some(o) && j.stopped
      case ReaperEnd =>
        j.writes == [Running] || (j.exit.Some? && j.stopped && j.writes == [Running, ReapStatus(j.exit.value)])
      case _ => j.writes == [Running]
  }

  lemma {:induction false} RunsKeepInv(evs: seq<Event>)
    ensures Inv(After(evs))
  {
    if evs != [] {
      RunsKeepInv(evs[..|evs| - 1]);
    }
  }

  /** Main result: in every interleaving, and although a store error may hide a write, the row sees RUNNING
      and then at most one terminal status, or FAILED alone; a terminal status after RUNNING comes only after
      the task's stop, and SUCCEEDED only when the wait reported exit code 0 without an error. */
  lemma StatusHistory(evs: seq<Event>)
    ensures var j := After(evs);
            && (j.writes <= [Running, Succeeded] || j.writes <= [Running, Failed] || j.writes == [Failed])
            && (|j.writes| == 2 ==> j.stopped)
            && (Succeeded in j.writes ==> j.exit.Some? && WaitECSTaskExit(j.exit.value) == (0, false))
  {
    RunsKeepInv(evs);
  }

  /** A handler that reported success has a reaper, and it alone writes from then on. */
  lemma SuccessHandsOver(evs: seq<Event>, more: seq<Event>)
    requires After(evs).handler == HandlerEnd(true)
    ensures var j := After(evs + more);
            j.handler == HandlerEnd(true) && !j.reaper.NotSpawned? && After(evs).writes <= j.writes
    decreases |more|
  {
    if more == [] {
      assert evs + more == evs;
      RunsKeepInv(evs);
    } else {
      var init := more[..|more| - 1];
      SuccessHandsOver(evs, init);
      assert (evs + more)[..|evs + more| - 1] == evs + init;
    }
  }

  // ---------------------------------------------------------------- the server's methods

  /** The handlers as they are written. Calls are answered by an oracle, number by number; waits likewise. */
  class Server {
    var job: Job
    var calls: nat
    const oracle: nat -> Answer
    const waits: nat -> WaitOutcome

    constructor (oracle: nat -> Answer, waits: nat -> WaitOutcome)
      ensures this.oracle == oracle && this.waits == waits && calls == 0 && job == NEW_JOB
    {
      this.oracle := oracle;
      this.waits := waits;
      calls := 0;
      job := NEW_JOB;
    }

    method Call() returns (a: Answer)
      modifies this`calls
      ensures a == oracle(old(calls)) && calls == old(calls) + 1
    {
      a := oracle(calls);
      calls := calls + 1;
    }

    /** The handler's calls until it returns, nobody interfering. */
    function HandlerAlone(j: Job, k: nat): (Job, nat)
      decreases match j.handler
        case Submitting => 5 case Starting => 4 case RecordingRunning => 3 case StoppingTask => 2
        case RecordingFailed => 1 case HandlerEnd(_) => 0
    {
      if j.handler.HandlerEnd? then (j, k) else HandlerAlone(HandlerStep(j, oracle(k)), k + 1)
    }

    function ReaperAlone(j: Job, k: nat): (Job, nat)
      decreases match j.reaper
        case NotSpawned => 0 case Connecting => 4 case Waiting => 3 case Stopping(_) => 2 case Recording(_) => 1
        case ReaperEnd => 0
    {
      if j.reaper.NotSpawned? || j.reaper.ReaperEnd? then (j, k)
      else ReaperAlone(ReaperStep(j, oracle(k), waits(k)), k + 1)
    }

    /** Main result: where a submit ends, by its answers. It reports success exactly when the row's creation, the
        container's start and the RUNNING write are answered without an error; a start that is not writes no
        RUNNING and only FAILED; a RUNNING write that is not is followed by the stop and FAILED. */
    lemma SubmitOutcome(k: nat)
      ensures var (j, next) := HandlerAlone(NEW_JOB, k);
              && (j.handler == HandlerEnd(true) <==> oracle(k).Done? && oracle(k + 1).Done? && oracle(k + 2).Done?)
              && j.handler.HandlerEnd? && j.exit.None?
              && (if !oracle(k).Done? then
                    j.writes == [] && j.reaper == NotSpawned && !j.stopped && next == k + 1
                  else if !oracle(k + 1).Done? then
                    j.writes == Written(Failed, oracle(k + 2)) && j.reaper == NotSpawned && !j.stopped && next == k + 3
                  else if oracle(k + 2).Done? then
                    j.writes == [Running] && j.reaper == Connecting && !j.stopped && next == k + 3
                  else
                    && j.writes == Written(Running, oracle(k + 2)) + Written(Failed, oracle(k + 4))
                    && j.reaper == NotSpawned && j.stopped && next == k + 5)
    {
      var created := NEW_JOB.(handler := Starting);
      if oracle(k).Done? {
        assert HandlerAlone(NEW_JOB, k) == HandlerAlone(created, k + 1);
        if oracle(k + 1).Done? {
          RecordOutcome(created.(handler := RecordingRunning), k + 2);
        } else {
          FailOutcome(created.(handler := RecordingFailed), k + 2);
        }
      }
    }

    lemma FailOutcome(j: Job, k: nat)
      requires j.handler == RecordingFailed
      ensures HandlerAlone(j, k)
           == (j.(writes := j.writes + Written(Failed, oracle(k)), handler := HandlerEnd(false)), k + 1)
    {
      assert j.writes + [] == j.writes;
      var j' := HandlerStep(j, oracle(k));
      assert HandlerAlone(j', k + 1) == (j', k + 1);
    }

    lemma RecordOutcome(j: Job, k: nat)
      requires j.handler == RecordingRunning
      ensures var running := j.writes + Written(Running, oracle(k));
              HandlerAlone(j, k)
              == if oracle(k).Done? then
                   (j.(writes := running, handler := HandlerEnd(true), reaper := Connecting), k + 1)
                 else
                   (j.(writes := running + Written(Failed, oracle(k + 2)), handler := HandlerEnd(false),
                       stopped := true), k + 3)
    {
      assert j.writes + [] == j.writes;
      var j' := HandlerStep(j, oracle(k));
      if !oracle(k).Done? {
        var j'' := HandlerStep(j', oracle(k + 1));
        assert HandlerAlone(j, k) == HandlerAlone(j', k + 1) == HandlerAlone(j'', k + 2);
        FailOutcome(j'', k + 2);
      }
    }

    /** Main result: where a reaper ends, by its answers. Once it has a client it waits, stops the task and appends
        SUCCEEDED for a wait that ended with code 0 and no error, FAILED for every other. */
    lemma ReapOutcome(j: Job, k: nat)
      requires j.reaper == Connecting
      ensures var status := if CleanExit(waits(k + 1)) then Succeeded else Failed;
              ReaperAlone(j, k)
              == if !oracle(k).Done? then (j.(reaper := ReaperEnd), k + 1)
                 else (j.(writes := j.writes + Written(status, oracle(k + 3)), stopped := true,
                          exit := Some(waits(k + 1)), reaper := ReaperEnd), k + 4)
    {
      assert j.writes + [] == j.writes;
      if oracle(k).Done? {
        var o := waits(k + 1);
        ReapStatusIff(o);
        var j1 := j.(reaper := Waiting);
        var j2 := j1.(reaper := Stopping(o), exit := Some(o));
        var j3 := j2.(reaper := Recording(o), stopped := true);
        assert ReaperAlone(j, k) == ReaperAlone(j1, k + 1) == ReaperAlone(j2, k + 2) == ReaperAlone(j3, k + 3);
        var j4 := ReaperStep(j3, oracle(k + 3), waits(k + 3));
        assert ReaperAlone(j3, k + 3) == ReaperAlone(j4, k + 4) == (j4, k + 4);
      }
    }

    /** startBatchJobContainer, from the row's creation on. */
    method StartBatchJobContainer() returns (ok: bool)
      requires job.handler == Starting
      modifies this
      ensures job.handler == if ok then HandlerEnd(true) else RecordingFailed
      ensures HandlerAlone(old(job), old(calls)) == HandlerAlone(job, calls)
    {
      var a := Call();
      if !a.Done? {
        job := job.(handler := RecordingFailed);
        return false;
      }
      job := job.(handler := RecordingRunning);
      a := Call();
      job := Write(job, Running, a);
      if !a.Done? {
        job := job.(handler := StoppingTask);
        assert HandlerAlone(old(job), old(calls)) == HandlerAlone(job, calls);
        a := Call();
        job := job.(stopped := true, handler := RecordingFailed);
        return false;
      }
      job := job.(handler := HandlerEnd(true), reaper := Connecting);
      return true;
    }

    /** batchSubmitJob, from SubmitBatchJob on. */
    method SubmitJob() returns (ok: bool)
      requires job.handler == Submitting
      modifies this
      ensures (job, calls) == HandlerAlone(old(job), old(calls)) && job.handler == HandlerEnd(ok)
    {
      var a := Call();
      if !a.Done? {
        job := job.(handler := HandlerEnd(false));
        return false;
      }
      job := job.(handler := Starting);
      ok := StartBatchJobContainer();
      if !ok {
        assert HandlerAlone(old(job), old(calls)) == HandlerAlone(job, calls);
        a := Call();
        job := Write(job, Failed, a).(handler := HandlerEnd(false));
      }
    }

    method ReapBatchJob()
      requires job.reaper == Connecting
      modifies this
      ensures (job, calls) == ReaperAlone(old(job), old(calls)) && job.reaper == ReaperEnd
    {
      var a := Call();
      if !a.Done? {
        job := job.(reaper := ReaperEnd);
        return;
      }
      job := job.(reaper := Waiting);
      assert ReaperAlone(old(job), old(calls)) == ReaperAlone(job, calls);
      var o := waits(calls);
      a := Call();
      job := job.(reaper := Stopping(o), exit := Some(o));
      assert ReaperAlone(old(job), old(calls)) == ReaperAlone(job, calls);
      a := Call();
      job := job.(reaper := Recording(o), stopped := true);
      assert ReaperAlone(old(job), old(calls)) == ReaperAlone(job, calls);
      a := Call();
      var (exitCode, err) := WaitECSTaskExit(o);
      var status := if err || exitCode != 0 then Failed else Succeeded;
      assert status == ReapStatus(o);
      job := Write(job, status, a).(reaper := ReaperEnd);
      assert ReaperAlone(old(job), old(calls)) == ReaperAlone(job, calls);
    }
  }
}
