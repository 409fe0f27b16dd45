/** Invariants of the worker, one group at a time: the states it stores, the messages it has
    been told of, the wakes on their way, and the backlog of its ring. */
module WorkerSafety {
  import opened Wrappers
  import opened WorkerLoop
  import Io = IoContext
  import E = Executor

  // ---------- lifecycle ----------

  predicate Follows(a: WorkerState, b: WorkerState) {
    match a
    case Unstarted => b == Starting
    case Starting => b == Idle || b == Stopped
    case Idle => b == Idle || b == Busy
    case Busy => b == Idle || b == Stopping || b == Stopped
    case Stopping => b == Stopping || b == Stopped
    case Stopped => b == Stopped
  }

  ghost predicate InOrder(log: seq<WorkerState>) {
    log != [] && log[0] == Unstarted && forall i :: 0 < i < |log| ==> Follows(log[i - 1], log[i])
  }

  /** The states that may be stored last while the main loop, the shutdown loop or neither runs. */
  predicate Fits(pc: Pc, closing: bool, w: WorkerState) {
    if pc == NotStarted then w == Unstarted && !closing
    else if pc == Setup then w == Starting && !closing
    else if pc == Polling then w == Idle && !closing
    else if pc == Top then (w == Idle || w == Busy) && !closing
    else if pc.Finished? then w == Stopped
    else if pc == Exited(SetupFailed) then w == Starting && !closing
    else if pc == Exited(KilledInShutdown) then w == Stopped && closing
    else if closing || pc == Exited(Drained) then w == Stopping && closing && pc != Exited(KilledInLoop)
    else w == Busy || w == Stopping
  }

  ghost predicate Lifecycle(c: Control) {
    InOrder(c.log) && Fits(c.pc, c.closing, Current(c))
  }

  lemma StoreInOrder(c: Control, w: WorkerState)
    requires InOrder(c.log) && Follows(Current(c), w)
    ensures InOrder(Store(c, w).log) && Current(Store(c, w)) == w
  {
  }

  /** What receiving stores. */
  lemma RecvStores(s: State)
    ensures var c, c' := s.control, Apply(s, Recv).control;
            c'.closing == c.closing
            && if c'.log == c.log
               then c'.pc == c.pc
                    || (c.pc == Receiving && (c'.pc == AtSubmit || (!c.closing && c'.pc == Exited(KilledInLoop))))
               else c.pc == Receiving
                    && if c.closing then c'.pc == Exited(KilledInShutdown) && c'.log == Store(c, Stopped).log
                       else c'.pc == Receiving && c'.log == Store(c, Stopping).log
  {
  }

  lemma LifecycleRecv(s: State)
    requires Lifecycle(s.control)
    ensures Lifecycle(Apply(s, Recv).control)
  {
    var c := s.control;
    RecvStores(s);
    if Current(c) == Busy || Current(c) == Stopping {
      StoreInOrder(c, Stopping);
      StoreInOrder(c, Stopped);
    }
  }

  lemma LifecycleEvents(s: State, step: Step)
    requires Lifecycle(s.control) && step.PollEvents?
    ensures Lifecycle(Apply(s, step).control)
  {
    if Enabled(s, step) {
      StoreInOrder(s.control, Busy);
      StoreInOrder(Store(s.control, Busy), Stopping);
    }
  }

  lemma LifecycleEnvironment(s: State, step: Step)
    requires Lifecycle(s.control) && Environment(step)
    ensures Lifecycle(Apply(s, step).control)
  {
    if step == Start && Enabled(s, step) {
      StoreInOrder(s.control, Starting);
    }
  }

  lemma StoresNothing(s: State, step: Step)
    requires !Environment(step) && step != Recv && !step.PollEvents? && step != BeginIteration && step != Finish
    ensures Apply(s, step).control.log == s.control.log
    ensures Current(Apply(s, step).control) == Current(s.control)
  {
  }

  lemma LifecycleEnd(s: State)
    requires Lifecycle(s.control)
    ensures Lifecycle(Apply(s, EndIteration).control)
  {
    StoresNothing(s, EndIteration);
  }

  lemma LifecycleRetry(s: State)
    requires Lifecycle(s.control)
    ensures Lifecycle(Apply(s, Retry).control)
  {
    StoresNothing(s, Retry);
  }

  lemma LifecycleDisk(s: State, step: Step)
    requires Lifecycle(s.control) && (step == Sync || step == Reap || step == SubmitRing)
    ensures Lifecycle(Apply(s, step).control)
  {
    StoresNothing(s, step);
  }

  /** Steps that store no state. */
  lemma LifecycleMoves(s: State, step: Step)
    requires Lifecycle(s.control) && !Environment(step) && step != Recv && !step.PollEvents?
    requires step != BeginIteration && step != Finish
    ensures Lifecycle(Apply(s, step).control)
  {
    StoresNothing(s, step);
    if step == EndIteration {
      LifecycleEnd(s);
    } else if step == Retry {
      LifecycleRetry(s);
    } else if step == Sync || step == Reap || step == SubmitRing {
      LifecycleDisk(s, step);
    }
  }

  lemma LifecycleStep(s: State, step: Step)
    requires Lifecycle(s.control)
    ensures Lifecycle(Apply(s, step).control)
  {
    if Environment(step) {
      LifecycleEnvironment(s, step);
    } else if step == Recv {
      LifecycleRecv(s);
    } else if step.PollEvents? {
      LifecycleEvents(s, step);
    } else if step != BeginIteration && step != Finish {
      LifecycleMoves(s, step);
    } else if Enabled(s, step) {
      StoreInOrder(s.control, if step == Finish then Stopped else Idle);
    }
  }

  /** The shutdown loop receives in every round. */
  predicate ClosingReceives(c: Control) {
    c.closing ==> c.shouldRecv
  }

  lemma ClosingStep(s: State, step: Step)
    requires Lifecycle(s.control) && ClosingReceives(s.control)
    ensures ClosingReceives(Apply(s, step).control)
  {
  }

  // ---------- messages ----------

  predicate MainLoop(c: Control) {
    !c.closing && !c.pc.Exited? && !c.pc.Finished?
  }

  predicate BeforeReceived(pc: Pc) {
    pc == AtReap || pc.Reaping? || pc == Retrying || pc == Receiving
  }

  /** Messages in the channel have an edge, a sender that will still signal, or the worker on
      its way to receive them. */
  predicate Announced(c: Control, mail: Mail) {
    mail.channel != [] && MainLoop(c) ==> mail.edge || mail.unsignaled > 0 || (c.shouldRecv && BeforeReceived(c.pc))
  }

  lemma AnnouncedEnvironment(s: State, step: Step)
    requires Announced(s.control, s.mail) && Lifecycle(s.control) && Environment(step)
    ensures Announced(Apply(s, step).control, Apply(s, step).mail)
  {
  }

  lemma AnnouncedWorker(s: State, step: Step)
    requires Announced(s.control, s.mail) && !Environment(step)
    ensures Announced(Apply(s, step).control, Apply(s, step).mail)
  {
  }

  // ---------- tasks ----------

  predicate Rested(pc: Pc) {
    pc == NotStarted || pc == Setup || pc == Top || pc == Polling || pc == AtEnd || pc == Exited(Drained)
        || pc == Finished(Drained)
  }

  /** A task is being polled exactly at `InPoll`, and where the worker rests none is ready. */
  predicate Flow(c: Control, e: E.Exec) {
    && (c.pc == InPoll <==> e.current.Some?)
    && (Rested(c.pc) ==> e.ready == [])
    && (c.pc == Exited(Drained) || c.pc == Finished(Drained) ==> e.running == {})
  }

  lemma FlowEnvironment(s: State, step: Step)
    requires Flow(s.control, s.tasks.exec) && Lifecycle(s.control) && Environment(step)
    ensures Flow(Apply(s, step).control, Apply(s, step).tasks.exec)
  {
  }

  lemma FlowRecv(s: State)
    requires Flow(s.control, s.tasks.exec)
    ensures Flow(Apply(s, Recv).control, Apply(s, Recv).tasks.exec)
  {
  }

  lemma FlowTask(s: State, step: Step)
    requires Flow(s.control, s.tasks.exec) && (step == RunTask || step.TaskDone?)
    ensures Flow(Apply(s, step).control, Apply(s, step).tasks.exec)
  {
  }

  lemma FlowEnd(s: State)
    requires Flow(s.control, s.tasks.exec)
    ensures Flow(Apply(s, EndIteration).control, Apply(s, EndIteration).tasks.exec)
  {
  }

  lemma FlowDisk(s: State, step: Step)
    requires Flow(s.control, s.tasks.exec) && (step == Retry || step == Reap)
    ensures Flow(Apply(s, step).control, Apply(s, step).tasks.exec)
  {
    assert Apply(s, step).tasks == s.tasks;
  }

  lemma FlowMove(s: State, step: Step)
    requires Flow(s.control, s.tasks.exec) && !Environment(step)
    requires step != Recv && step != RunTask && !step.TaskDone? && step != EndIteration
    requires step != Retry && step != Reap
    ensures Flow(Apply(s, step).control, Apply(s, step).tasks.exec)
  {
    assert Apply(s, step).tasks == s.tasks;
  }

  lemma FlowWorker(s: State, step: Step)
    requires Flow(s.control, s.tasks.exec) && !Environment(step)
    ensures Flow(Apply(s, step).control, Apply(s, step).tasks.exec)
  {
    if step == Recv {
      FlowRecv(s);
    } else if step == RunTask || step.TaskDone? {
      FlowTask(s, step);
    } else if step == EndIteration {
      FlowEnd(s);
    } else if step == Retry || step == Reap {
      FlowDisk(s, step);
    } else {
      FlowMove(s, step);
    }
  }

  /** A task that was woken since its last poll began, and is running or in that poll, has its
      wake in the channel or in the hands of a sender. */
  ghost predicate Woken(tasks: Tasks, mail: Mail, t: TaskId) {
    t in tasks.woken && (t in tasks.exec.running || tasks.exec.current == Some(t)) ==>
      Wake(t) in mail.channel || Wake(t) in mail.calls
  }

  lemma PushKeeps(mail: Mail, i: nat, m: Msg)
    requires i < |mail.calls| && (m in mail.channel || m in mail.calls)
    ensures m in Push(mail, i).channel || m in Push(mail, i).calls
  {
    if m !in mail.channel && m != mail.calls[i] {
      var j :| 0 <= j < |mail.calls| && mail.calls[j] == m;
      assert Push(mail, i).calls[if j < i then j else j - 1] == m;
    }
  }

  lemma WokenEnvironment(s: State, step: Step, t: TaskId)
    requires Woken(s.tasks, s.mail, t) && Environment(step)
    ensures Woken(Apply(s, step).tasks, Apply(s, step).mail, t)
  {
    if step.Send? && Enabled(s, step) && (Wake(t) in s.mail.channel || Wake(t) in s.mail.calls) {
      PushKeeps(s.mail, step.call, Wake(t));
    }
  }

  lemma WokenRecv(s: State, t: TaskId)
    requires Woken(s.tasks, s.mail, t) && Flow(s.control, s.tasks.exec)
    ensures Woken(Apply(s, Recv).tasks, Apply(s, Recv).mail, t)
  {
    if s.mail.channel != [] {
      assert s.mail.channel == [s.mail.channel[0]] + s.mail.channel[1..];
    }
  }

  lemma WokenWorker(s: State, step: Step, t: TaskId)
    requires Woken(s.tasks, s.mail, t) && Flow(s.control, s.tasks.exec) && !Environment(step)
    ensures Woken(Apply(s, step).tasks, Apply(s, step).mail, t)
  {
    if step == Recv {
      WokenRecv(s, t);
    }
  }

  // ---------- backlog ----------

  predicate BeforePrepare(pc: Pc) {
    !(pc == Retrying || pc == Receiving || pc == AtSubmit)
  }

  /** How many completions at the head of the queue the worker is reaping. */
  function Seen(pc: Pc): nat {
    if pc.Reaping? then pc.seen else 0
  }

  /** Inside the loops, or drained out of them. */
  predicate NotCut(pc: Pc) {
    (pc.Exited? || pc.Finished?) ==> pc.how == Drained
  }

  predicate BacklogKept(c: Control, d: Disk) {
    && |d.io.ring| <= d.capacity && d.capacity >= 1
    && Seen(c.pc) <= |d.io.cq|
    && (BeforePrepare(c.pc) && NotCut(c.pc) ==> d.io.ring == [])
    && (MainLoop(c) ==>
          && (d.io.ring != [] ==> c.shouldSubmit)
          && (d.backlog != [] ==>
              d.io.ring != [] || d.io.inflight != {} || d.io.cq != [] || c.pc.Reaping? || c.pc == Retrying)
          && (|d.io.cq| > Seen(c.pc) ==> d.edge || d.mid > 0 || c.pc == AtReap))
  }

  lemma BacklogEnvironment(s: State, step: Step)
    requires BacklogKept(s.control, s.disk) && Lifecycle(s.control) && Environment(step)
    ensures BacklogKept(Apply(s, step).control, Apply(s, step).disk)
  {
  }

  lemma SubmitTakesAll(io: Io.Io)
    ensures Io.Submit(io).ring == [] && Io.Submit(io).cq == io.cq
    ensures io.ring != [] || io.inflight != {} ==> Io.Submit(io).inflight != {}
  {
    if io.ring != [] {
      assert io.ring[0] in Io.Submit(io).inflight;
    } else if io.inflight != {} {
      var k :| k in io.inflight;
      assert k in Io.Submit(io).inflight;
    }
  }

  lemma BacklogRecv(s: State)
    requires BacklogKept(s.control, s.disk)
    ensures BacklogKept(Apply(s, Recv).control, Apply(s, Recv).disk)
  {
  }

  lemma BacklogRetry(s: State)
    requires BacklogKept(s.control, s.disk)
    ensures BacklogKept(Apply(s, Retry).control, Apply(s, Retry).disk)
  {
  }

  lemma BacklogSubmit(s: State)
    requires BacklogKept(s.control, s.disk)
    ensures BacklogKept(Apply(s, SubmitRing).control, Apply(s, SubmitRing).disk)
  {
    SubmitTakesAll(s.disk.io);
  }

  lemma BacklogEvents(s: State, step: Step)
    requires BacklogKept(s.control, s.disk) && step.PollEvents?
    ensures BacklogKept(Apply(s, step).control, Apply(s, step).disk)
  {
  }

  lemma BacklogReap(s: State)
    requires BacklogKept(s.control, s.disk)
    ensures BacklogKept(Apply(s, Reap).control, Apply(s, Reap).disk)
  {
  }

  lemma BacklogEnd(s: State)
    requires BacklogKept(s.control, s.disk)
    ensures BacklogKept(Apply(s, EndIteration).control, Apply(s, EndIteration).disk)
  {
  }

  lemma BacklogTask(s: State, step: Step)
    requires BacklogKept(s.control, s.disk) && (step == RunTask || step.TaskDone?)
    ensures BacklogKept(Apply(s, step).control, Apply(s, step).disk)
  {
    assert Apply(s, step).disk == s.disk;
  }

  lemma BacklogMove(s: State, step: Step)
    requires BacklogKept(s.control, s.disk)
    requires step == FailSetup || step == BeginIteration || step == Interrupted || step == Sync || step == Finish
    ensures BacklogKept(Apply(s, step).control, Apply(s, step).disk)
  {
    assert Apply(s, step).disk == s.disk;
  }

  lemma BacklogWorker(s: State, step: Step)
    requires BacklogKept(s.control, s.disk) && !Environment(step)
    ensures BacklogKept(Apply(s, step).control, Apply(s, step).disk)
  {
    if step == Recv {
      BacklogRecv(s);
    } else if step == Retry {
      BacklogRetry(s);
    } else if step == SubmitRing {
      BacklogSubmit(s);
    } else if step.PollEvents? {
      BacklogEvents(s, step);
    } else if step == Reap {
      BacklogReap(s);
    } else if step == RunTask || step.TaskDone? {
      BacklogTask(s, step);
    } else if step == EndIteration {
      BacklogEnd(s);
    } else {
      BacklogMove(s, step);
    }
  }

  // ---------- submits ----------

  /** The main loop submits only what it prepared, or what found the ring full. */
  predicate SubmitsForWork(c: Control, d: Disk) {
    MainLoop(c) ==>
      && (c.pc == Polling || c.pc == AtReap || c.pc.Reaping? ==> !c.shouldSubmit)
      && (!BeforePrepare(c.pc) && c.shouldSubmit ==> d.io.ring != [] || d.backlog != [])
  }

  lemma SubmitsEnvironment(s: State, step: Step)
    requires SubmitsForWork(s.control, s.disk) && Lifecycle(s.control) && Environment(step)
    ensures SubmitsForWork(Apply(s, step).control, Apply(s, step).disk)
  {
  }

  lemma SubmitsPrepare(s: State, step: Step)
    requires SubmitsForWork(s.control, s.disk) && (step == Recv || step == Retry)
    ensures SubmitsForWork(Apply(s, step).control, Apply(s, step).disk)
  {
  }

  lemma SubmitsWorker(s: State, step: Step)
    requires SubmitsForWork(s.control, s.disk) && Lifecycle(s.control) && !Environment(step)
    ensures SubmitsForWork(Apply(s, step).control, Apply(s, step).disk)
  {
    if step == Recv || step == Retry {
      SubmitsPrepare(s, step);
    }
  }
}
