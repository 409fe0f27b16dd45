/** The loops of `worker_loop` in the order they are written, with any steps of others in
    between: each iteration ends, and it is a run of the step machine. */
module WorkerThread {
  import opened WorkerLoop
  import opened WorkerSafety
  import opened Worker
  import E = Executor

  /** What the steps of others leave alone while the worker runs. */
  predicate Undisturbed(s: State, t: State) {
    && t.control == s.control
    && t.tasks.exec == s.tasks.exec
    && t.disk.backlog == s.disk.backlog
    && |t.disk.io.cq| >= |s.disk.io.cq|
  }

  lemma OtherStep(s: State, step: Step)
    requires Environment(step) && Current(s.control) != Unstarted
    ensures Undisturbed(s, Apply(s, step))
  {
  }

  /** What the thread relies on: started, in order, and receiving while it shuts down. */
  ghost predicate Steady(c: Control) {
    Lifecycle(c) && ClosingReceives(c) && Current(c) != Unstarted
  }

  lemma StaysSteady(s: State, step: Step)
    requires Steady(s.control)
    ensures Steady(Apply(s, step).control)
  {
    LifecycleStep(s, step);
    ClosingStep(s, step);
    StaysStarted(s, step);
  }

  lemma StaysStarted(s: State, step: Step)
    requires Current(s.control) != Unstarted
    ensures Current(Apply(s, step).control) != Unstarted
  {
    if !Environment(step) && step != Recv && !step.PollEvents? && step != BeginIteration && step != Finish {
      StoresNothing(s, step);
    }
  }

  /** Whatever the loops do, the joint invariant holds. */
  lemma ThreadKeeps(thread: Thread)
    requires thread.Valid() && Invariant(thread.start)
    ensures Invariant(thread.state)
  {
    InvariantRun(thread.start, thread.trace);
  }

  class Thread {
    var state: State
    /** How many steps others may still take. */
    var budget: nat
    ghost var trace: seq<Step>
    ghost const start: State

    /** The thread of a worker that was just started. */
    constructor (s: State, budget: nat)
      requires s.control.pc == Setup && Lifecycle(s.control) && ClosingReceives(s.control)
      ensures Valid() && state == s && start == s && this.budget == budget
    {
      state, this.budget, trace, start := s, budget, [], s;
    }

    ghost predicate Valid()
      reads this
    {
      state == RunFrom(start, trace) && Steady(state.control)
    }

    method Take(step: Step)
      requires Valid()
      modifies this`state, this`trace
      ensures Valid() && state == Apply(old(state), step)
    {
      RunSnoc(start, trace, step);
      StaysSteady(state, step);
      state := Apply(state, step);
      trace := trace + [step];
    }

    /** Any steps of others; each takes from the budget. */
    method Others()
      requires Valid()
      modifies this
      ensures Valid() && Undisturbed(old(state), state)
      ensures budget < old(budget) || (budget == old(budget) && state == old(state))
    {
      var more: bool := *;
      while budget > 0 && more
        invariant Valid() && Undisturbed(old(state), state)
        invariant budget < old(budget) || (budget == old(budget) && state == old(state))
        decreases budget
      {
        var step: Step := *;
        if Environment(step) {
          OtherStep(state, step);
          Take(step);
        }
        budget := budget - 1;
        more := *;
      }
    }

    method SyncQueue()
      requires Valid() && state.control.pc == AtReap
      modifies this`state, this`trace
      ensures Valid() && state.control.closing == old(state.control.closing)
      ensures state.control.pc == Reaping(|state.disk.io.cq|) && state.disk == old(state.disk)
    {
      Take(Sync);
    }

    method ReapItem()
      requires Valid() && state.control.pc.Reaping? && 0 < state.control.pc.seen <= |state.disk.io.cq|
      modifies this`state, this`trace
      ensures Valid() && state.control.closing == old(state.control.closing)
      ensures state.control.pc == Reaping(old(state.control.pc).seen - 1)
      ensures state.disk.io.cq == old(state.disk.io.cq)[1..]
    {
      Take(Reap);
    }

    method EndReaping()
      requires Valid() && state.control.pc == Reaping(0)
      modifies this`state, this`trace
      ensures Valid() && state.control.closing == old(state.control.closing)
      ensures state.control.pc == if state.control.closing then Running else Retrying
    {
      Take(Reap);
    }

    /** Reaps the completions that were there at the start. */
    method Complete()
      requires Valid() && state.control.pc == AtReap
      modifies this
      ensures Valid() && budget <= old(budget) && state.control.closing == old(state.control.closing)
      ensures state.control.pc == if state.control.closing then Running else Retrying
    {
      SyncQueue();
      while state.control.pc != Reaping(0)
        invariant Valid() && budget <= old(budget) && state.control.closing == old(state.control.closing)
        invariant state.control.pc.Reaping? && state.control.pc.seen <= |state.disk.io.cq|
        decreases state.control.pc.seen
      {
        Others();
        ReapItem();
      }
      EndReaping();
    }

    /** Moves the backlog to the ring until the ring is full. */
    method RetryWaiting()
      requires Valid() && state.control.pc == Retrying
      modifies this
      ensures Valid() && budget <= old(budget)
      ensures state.control.pc == Receiving && state.control.closing == old(state.control.closing)
    {
      while state.control.pc == Retrying
        invariant Valid() && budget <= old(budget) && state.control.closing == old(state.control.closing)
        invariant state.control.pc == Retrying || state.control.pc == Receiving
        decreases |state.disk.backlog|, state.control.pc == Retrying
      {
        Others();
        Take(Retry);
      }
    }

    /** Receives until the channel is found empty or a Kill is received. */
    method ReceiveAll()
      requires Valid() && state.control.pc == Receiving
      modifies this
      ensures Valid() && state.control.closing == old(state.control.closing)
      ensures state.control.pc == AtSubmit || state.control.pc.Exited?
      ensures state.control.shouldRecv == old(state.control.shouldRecv)
      ensures state.control.pc == AtSubmit && state.control.shouldRecv ==> state.mail.channel == []
    {
      while state.control.pc == Receiving
        invariant Valid() && state.control.closing == old(state.control.closing)
        invariant state.control.shouldRecv == old(state.control.shouldRecv)
        invariant state.control.pc == AtSubmit && state.control.shouldRecv ==> state.mail.channel == []
        invariant state.control.pc == Receiving || state.control.pc == AtSubmit || state.control.pc.Exited?
        decreases budget, |state.mail.channel|, state.control.pc == Receiving
      {
        Others();
        ReceiveOne();
      }
    }

    method ReceiveOne()
      requires Valid() && state.control.pc == Receiving
      modifies this`state, this`trace
      ensures Valid() && state.control.closing == old(state.control.closing)
      ensures state.control.shouldRecv == old(state.control.shouldRecv)
      ensures state.control.pc == Receiving || state.control.pc == AtSubmit || state.control.pc.Exited?
      ensures state.control.pc == AtSubmit && state.control.shouldRecv ==> state.mail.channel == []
      ensures |state.mail.channel| <= |old(state.mail.channel)|
      ensures state.control.pc == Receiving ==> |state.mail.channel| < |old(state.mail.channel)|
    {
      Take(Recv);
    }

    method BeginTask()
      requires Valid() && state.control.pc == Running && state.tasks.exec.ready != []
      modifies this
      ensures Valid() && state.control.pc == InPoll && state.control.closing == old(state.control.closing)
      ensures state.tasks.exec == E.Begin(old(state.tasks.exec))
    {
      Take(RunTask);
    }

    method EndTask(answer: bool)
      requires Valid() && state.control.pc == InPoll && state.tasks.exec.current.Some?
      modifies this
      ensures Valid() && state.control.pc == Running && state.control.closing == old(state.control.closing)
      ensures state.tasks.exec == E.End(old(state.tasks.exec), answer)
    {
      Take(TaskDone(answer));
    }

    method NoMoreTasks()
      requires Valid() && state.control.pc == Running && state.tasks.exec.ready == []
      modifies this
      ensures Valid() && state.control.pc == AtEnd && state.control.closing == old(state.control.closing)
    {
      Take(RunTask);
    }

    /** Polls each ready task once. */
    method RunReadyTasks()
      requires Valid() && state.control.pc == Running
      modifies this
      ensures Valid() && state.control.pc == AtEnd && state.control.closing == old(state.control.closing)
    {
      while state.tasks.exec.ready != []
        invariant Valid() && state.control.pc == Running && state.control.closing == old(state.control.closing)
        decreases |state.tasks.exec.ready|
      {
        BeginTask();
        Others();
        var answer: bool := *;
        EndTask(answer);
      }
      NoMoreTasks();
    }

    method BeginPolling()
      requires Valid() && (state.control.pc == Setup || state.control.pc == Top)
      modifies this
      ensures Valid() && state.control.pc == Polling && state.control.closing == old(state.control.closing)
    {
      Take(BeginIteration);
    }

    method BeInterrupted()
      requires Valid() && state.control.pc == Polling
      modifies this
      ensures Valid() && state.control.pc == Top && state.control.closing == old(state.control.closing)
    {
      Take(Interrupted);
    }

    method HandleEvents(takeMsg: bool, takeIo: bool, stop: bool)
      requires Valid() && state.control.pc == Polling && (takeMsg ==> state.mail.edge) && (takeIo ==> state.disk.edge)
      modifies this
      ensures Valid() && state.control.pc == (if takeIo then AtReap else Receiving)
      ensures state.control.closing == old(state.control.closing)
    {
      Take(PollEvents(takeMsg, takeIo, stop));
    }

    /** Waits for events, or is interrupted. */
    method PollForEvents()
      requires Valid() && (state.control.pc == Setup || state.control.pc == Top)
      modifies this
      ensures Valid() && state.control.closing == old(state.control.closing)
      ensures state.control.pc == Top || state.control.pc == AtReap || state.control.pc == Receiving
    {
      BeginPolling();
      Others();
      var interrupted: bool := *;
      if interrupted {
        BeInterrupted();
      } else {
        var takeMsg: bool, takeIo: bool, stop: bool := *, *, *;
        HandleEvents(takeMsg && state.mail.edge, takeIo && state.disk.edge, stop);
      }
    }

    method SubmitEntries()
      requires Valid() && state.control.pc == AtSubmit
      modifies this
      ensures Valid() && state.control.closing == old(state.control.closing)
      ensures state.control.pc == if state.control.closing then AtReap else Running
      ensures state.mail == old(state.mail)
      ensures state.control.closing || old(state.control.shouldSubmit) ==> state.disk.io.ring == []
    {
      Take(SubmitRing);
    }

    /** Leaves the main loop if Stopping is stored, and the shutdown loop if no task is running. */
    method CheckEnd()
      requires Valid() && state.control.pc == AtEnd
      modifies this
      ensures Valid() && (old(state.control.closing) ==> state.control.closing)
      ensures old(state.control.closing) ==> state.control.pc == Receiving || state.control.pc == Exited(Drained)
      ensures !old(state.control.closing) ==> state.control.pc == if state.control.closing then Receiving else Top
    {
      Take(WorkerLoop.EndIteration);
    }

    /** Submits, runs, and checks whether to stop. */
    method SubmitAndRun()
      requires Valid() && state.control.pc == AtSubmit && !state.control.closing
      modifies this
      ensures Valid() && (state.control.pc == Top || (state.control.pc == Receiving && state.control.closing))
    {
      SubmitEntries();
      RunReadyTasks();
      CheckEnd();
    }

    /** One iteration of the main loop ends, in the next one, in the shutdown loop or outside. */
    method Iterate()
      requires Valid() && (state.control.pc == Setup || state.control.pc == Top) && !state.control.closing
      modifies this
      ensures Valid()
      ensures state.control.pc == Top || state.control.pc.Exited?
          || (state.control.pc == Receiving && state.control.closing)
    {
      PollForEvents();
      if state.control.pc == Top {
        return;
      }
      if state.control.pc == AtReap {
        Complete();
        RetryWaiting();
      }
      ReceiveAll();
      if state.control.pc == AtSubmit {
        SubmitAndRun();
      }
    }

    /** The first half of a round of the shutdown loop; it submits only when it has found the
        channel empty. */
    method ReceiveAndSubmit()
      requires Valid() && state.control.pc == Receiving && state.control.closing
      modifies this
      ensures Valid() && state.control.closing && (state.control.pc == AtReap || state.control.pc.Exited?)
      ensures state.control.pc == AtReap ==> state.mail.channel == [] && state.disk.io.ring == []
    {
      ReceiveAll();
      if state.control.pc == AtSubmit {
        SubmitEntries();
      }
    }

    /** One iteration of the shutdown loop ends, in the next one or outside. */
    method ShutDown()
      requires Valid() && state.control.pc == Receiving && state.control.closing
      modifies this
      ensures Valid()
      ensures state.control.pc == Receiving || state.control.pc.Exited?
    {
      ReceiveAndSubmit();
      if state.control.pc == AtReap {
        Complete();
        RunReadyTasks();
        CheckEnd();
      }
    }
  }
}
