/** Every task that was handed out is in one place, from the sender to completion. */
module WorkerTasks {
  import opened Wrappers
  import opened WorkerLoop
  import opened WorkerMail
  import E = Executor

  lemma {:induction false} NewTasksAre(first: TaskId, count: nat, t: TaskId)
    ensures multiset(NewTasks(first, count))[t] == if first <= t < first + count then 1 else 0
    decreases count
  {
    if count > 0 {
      NewTasksAre(first, count - 1, t);
      assert NewTasks(first, count) == NewTasks(first, count - 1) + [first + count - 1];
    }
  }

  /** Where a task is, counted. */
  function Whereabouts(s: State, t: TaskId): nat {
    InMail(s.mail, TaskItem(t)) + E.Places(s.tasks.exec)[t]
  }

  predicate TaskKept(s: State, t: TaskId) {
    Whereabouts(s, t) == if t < s.tasks.next then 1 else 0
  }

  ghost predicate TasksKept(s: State) {
    E.Ok(s.tasks.exec) && forall t :: TaskKept(s, t)
  }

  lemma TaskEnvironment(s: State, step: Step, t: TaskId)
    requires TaskKept(s, t) && Environment(step)
    ensures TaskKept(Apply(s, step), t)
  {
    if Enabled(s, step) {
      match step
      case CallSpawn(n) =>
        NewTasksAre(s.tasks.next, n, t);
        CallBrings(s.mail, Spawn(NewTasks(s.tasks.next, n)), TaskItem(t));
      case CallWake(w) => CallBrings(s.mail, Wake(w), TaskItem(t));
      case CallSubmit(d, w) => CallBrings(s.mail, Apply(s, step).mail.calls[|s.mail.calls|], TaskItem(t));
      case CallControl(m) => CallBrings(s.mail, m, TaskItem(t));
      case Send(i) => PushMoves(s.mail, i, TaskItem(t));
      case _ =>
    }
  }

  /** What a message does to the executor. */
  function Delivered(e: E.Exec, m: Msg): E.Exec {
    match m
    case Spawn(ts) => E.SpawnAll(e, ts)
    case Wake(t) => E.Wake(e, t)
    case _ => e
  }

  lemma DeliveredPlaces(e: E.Exec, m: Msg, t: TaskId)
    requires E.Ok(e)
    ensures E.Places(Delivered(e, m))[t] == E.Places(e)[t] + Carries(m, TaskItem(t))
  {
    if m.Spawn? {
      assert multiset(e.ready + m.tasks) == multiset(e.ready) + multiset(m.tasks);
    } else if m.Wake? {
      E.WakeOk(e, m.task);
    }
  }

  lemma RecvDelivers(s: State)
    ensures var s' := Apply(s, Recv);
            && s'.tasks.next == s.tasks.next && s'.mail.calls == s.mail.calls
            && (if Takes(s)
                then s'.tasks.exec == Delivered(s.tasks.exec, s.mail.channel[0])
                     && s'.mail.channel == s.mail.channel[1..]
                else s'.tasks.exec == s.tasks.exec && s'.mail.channel == s.mail.channel)
  {
  }

  lemma TaskRecv(s: State, t: TaskId)
    requires TasksKept(s)
    ensures TaskKept(Apply(s, Recv), t)
  {
    assert TaskKept(s, t);
    RecvDelivers(s);
    if Takes(s) {
      DeliveredPlaces(s.tasks.exec, s.mail.channel[0], t);
    }
  }

  lemma ExecRecv(s: State)
    requires TasksKept(s)
    ensures E.Ok(Apply(s, Recv).tasks.exec)
  {
    RecvDelivers(s);
    if Takes(s) {
      var m, e := s.mail.channel[0], s.tasks.exec;
      if m.Spawn? {
        forall t ensures multiset(m.tasks)[t] + E.Places(e)[t] <= 1 {
          assert TaskKept(s, t);
        }
        E.SpawnAllOk(e, m.tasks);
      } else if m.Wake? {
        E.WakeOk(e, m.task);
      }
    }
  }

  lemma ExecMoves(s: State, step: Step)
    requires E.Ok(s.tasks.exec) && !Environment(step) && step != Recv
    requires s.control.pc == InPoll <==> s.tasks.exec.current.Some?
    ensures E.Ok(Apply(s, step).tasks.exec) && E.Places(Apply(s, step).tasks.exec) == E.Places(s.tasks.exec)
  {
    if step == RunTask {
      if s.tasks.exec.ready != [] && Enabled(s, step) {
        E.BeginOk(s.tasks.exec);
      }
    } else if step.TaskDone? {
      if Enabled(s, step) {
        E.EndOk(s.tasks.exec, step.answer);
      }
    } else {
      ExecStays(s, step);
    }
  }

  lemma ExecStays(s: State, step: Step)
    requires step != Recv && step != RunTask && !step.TaskDone?
    ensures Apply(s, step).tasks.exec == s.tasks.exec
  {
  }

  lemma MailStays(s: State, step: Step)
    requires !Environment(step) && step != Recv
    ensures Apply(s, step).mail.channel == s.mail.channel && Apply(s, step).mail.calls == s.mail.calls
    ensures Apply(s, step).tasks.next == s.tasks.next
  {
  }

  lemma TasksStep(s: State, step: Step)
    requires TasksKept(s)
    requires s.control.pc == InPoll <==> s.tasks.exec.current.Some?
    ensures TasksKept(Apply(s, step))
  {
    if Environment(step) {
      ExecStays(s, step);
    } else if step == Recv {
      ExecRecv(s);
    } else {
      ExecMoves(s, step);
      MailStays(s, step);
    }
    forall t ensures TaskKept(Apply(s, step), t) {
      assert TaskKept(s, t);
      if Environment(step) {
        TaskEnvironment(s, step, t);
      } else if step == Recv {
        TaskRecv(s, t);
      }
    }
  }
}
