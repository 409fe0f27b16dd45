/** The task executor of src/task/executor.rs.  A task is its id; what polling it answers is
    up to the task. */
module Executor {
  import opened Wrappers

  type TaskId = nat

  /** `wakers` is the key set of the waker cache; `polled` and `completed` remember which tasks
      were polled at least once and which polls answered Ready. */
  datatype Exec = Exec(ready: seq<TaskId>, running: set<TaskId>, current: Option<TaskId>,
                       wakers: set<TaskId>, polled: set<TaskId>, completed: set<TaskId>)

  const EMPTY := Exec([], {}, None, {}, {}, {})

  function SpawnAll(e: Exec, ts: seq<TaskId>): Exec {
    e.(ready := e.ready + ts)
  }

  function Spawn(e: Exec, t: TaskId): Exec {
    SpawnAll(e, [t])
  }

  /** Only a running task becomes ready; a wake of any other task is dropped. */
  function Wake(e: Exec, t: TaskId): Exec {
    if t in e.running then e.(running := e.running - {t}, ready := e.ready + [t]) else e
  }

  /** The first half of `run_task`: the task leaves the queue, gets its waker and is polled. */
  function Begin(e: Exec): Exec
    requires e.ready != []
  {
    var t := e.ready[0];
    e.(ready := e.ready[1..], current := Some(t), wakers := e.wakers + {t}, polled := e.polled + {t})
  }

  /** The second half, with what the poll answered. */
  function End(e: Exec, done: bool): Exec
    requires e.current.Some?
  {
    var t := e.current.value;
    if done then e.(current := None, wakers := e.wakers - {t}, completed := e.completed + {t})
    else e.(current := None, running := e.running + {t})
  }

  function RunAll(e: Exec, answers: seq<bool>): Exec
    requires |answers| == |e.ready|
    decreases |answers|
  {
    if e.ready == [] then e else RunAll(End(Begin(e), answers[0]), answers[1..])
  }

  /** Where a task is, with multiplicity. */
  function Places(e: Exec): multiset<TaskId> {
    multiset(e.ready) + multiset(e.running) + (if e.current.Some? then multiset{e.current.value} else multiset{})
        + multiset(e.completed)
  }

  /** No task is in two places, running tasks have been polled, and the waker cache holds
      exactly the live tasks that were polled at least once. */
  ghost predicate Ok(e: Exec) {
    && (forall t :: Places(e)[t] <= 1)
    && e.running <= e.polled && e.completed <= e.polled
    && (e.current.Some? ==> e.current.value in e.polled)
    && e.wakers == e.polled - e.completed
    && (forall t :: t in e.polled ==> t in Places(e))
  }

  /** New ids keep every task in one place. */
  lemma SpawnAllOk(e: Exec, ts: seq<TaskId>)
    requires Ok(e) && forall t :: multiset(ts)[t] + Places(e)[t] <= 1
    ensures Ok(SpawnAll(e, ts)) && Places(SpawnAll(e, ts)) == Places(e) + multiset(ts)
  {
    assert multiset(e.ready + ts) == multiset(e.ready) + multiset(ts);
    assert Places(SpawnAll(e, ts)) == Places(e) + multiset(ts);
  }

  lemma WakeOk(e: Exec, t: TaskId)
    requires Ok(e)
    ensures Ok(Wake(e, t)) && Places(Wake(e, t)) == Places(e)
  {
    if t in e.running {
      assert multiset(e.ready + [t]) == multiset(e.ready) + multiset{t};
      assert multiset(e.running) == multiset(e.running - {t}) + multiset{t};
    }
  }

  lemma BeginOk(e: Exec)
    requires Ok(e) && e.ready != [] && e.current.None?
    ensures Ok(Begin(e)) && Places(Begin(e)) == Places(e)
  {
    assert e.ready == [e.ready[0]] + e.ready[1..];
    var t := e.ready[0];
    assert Places(e)[t] == 1;
  }

  lemma EndOk(e: Exec, done: bool)
    requires Ok(e) && e.current.Some?
    ensures Ok(End(e, done)) && Places(End(e, done)) == Places(e)
  {
    var t := e.current.value;
    assert Places(e)[t] == 1;
    if done {
      assert multiset(e.completed + {t}) == multiset(e.completed) + multiset{t};
    } else {
      assert multiset(e.running + {t}) == multiset(e.running) + multiset{t};
    }
  }

  /** The tasks whose poll answered as given. */
  function Answered(tasks: seq<TaskId>, answers: seq<bool>, answer: bool): set<TaskId>
    requires |tasks| == |answers|
  {
    if tasks == [] then {}
    else (if answers[0] == answer then {tasks[0]} else {}) + Answered(tasks[1..], answers[1..], answer)
  }

  /** Running every ready task once leaves none ready, keeps those running whose poll did not
      answer Ready, and completes the others. */
  lemma {:induction false} RunAllAnswers(e: Exec, answers: seq<bool>)
    requires e.current.None? && |answers| == |e.ready|
    ensures var r := RunAll(e, answers);
            && r.ready == [] && r.current.None?
            && r.running == e.running + Answered(e.ready, answers, false)
            && r.completed == e.completed + Answered(e.ready, answers, true)
    decreases |answers|
  {
    if e.ready != [] {
      RunAllAnswers(End(Begin(e), answers[0]), answers[1..]);
    }
  }

  lemma TurnOk(e: Exec, answer: bool)
    requires Ok(e) && e.current.None? && e.ready != []
    ensures var r := End(Begin(e), answer);
            Ok(r) && Places(r) == Places(e) && r.current.None? && r.ready == e.ready[1..]
  {
    BeginOk(e);
    EndOk(Begin(e), answer);
  }

  /** No task is lost or doubled by running. */
  lemma {:induction false} RunAllOk(e: Exec, answers: seq<bool>)
    requires Ok(e) && e.current.None? && |answers| == |e.ready|
    ensures Ok(RunAll(e, answers)) && Places(RunAll(e, answers)) == Places(e)
    decreases |answers|
  {
    if e.ready != [] {
      TurnOk(e, answers[0]);
      RunAllOk(End(Begin(e), answers[0]), answers[1..]);
    }
  }

  class TaskExecutor {
    var readyTasks: seq<TaskId>
    var runningTasks: set<TaskId>
    var wakerCache: set<TaskId>
    ghost var current: Option<TaskId>
    ghost var polled: set<TaskId>
    ghost var completed: set<TaskId>

    ghost function Value(): Exec
      reads this
    {
      Exec(readyTasks, runningTasks, current, wakerCache, polled, completed)
    }

    constructor ()
      ensures Value() == EMPTY
    {
      readyTasks, runningTasks, wakerCache := [], {}, {};
      current, polled, completed := None, {}, {};
    }

    method SpawnTask(t: TaskId)
      modifies this
      ensures Value() == Spawn(old(Value()), t)
    {
      readyTasks := readyTasks + [t];
    }

    method WakeTask(t: TaskId)
      modifies this
      ensures Value() == Wake(old(Value()), t)
    {
      if t in runningTasks {
        runningTasks := runningTasks - {t};
        readyTasks := readyTasks + [t];
      }
    }

    method RunTask(t: TaskId, answer: bool)
      requires current.None?
      modifies this
      ensures var begun := old(Value()).(current := Some(t), wakers := old(wakerCache) + {t},
          polled := old(polled) + {t});
              Value() == End(begun, answer)
    {
      wakerCache := wakerCache + {t};
      polled := polled + {t};
      if answer {
        wakerCache := wakerCache - {t};
        completed := completed + {t};
      } else {
        runningTasks := runningTasks + {t};
      }
    }

    /** Polls do not make tasks ready, wakes only do so through the channel; so the loop polls
        each of the ready tasks once, and `answers` says what they answer. */
    method RunReadyTasks(answers: seq<bool>)
      requires current.None? && |answers| == |readyTasks|
      modifies this
      ensures Value() == RunAll(old(Value()), answers)
    {
      var i := 0;
      while readyTasks != []
        invariant i + |readyTasks| == |answers| && current.None?
        invariant RunAll(Value(), answers[i..]) == RunAll(old(Value()), answers)
        decreases |readyTasks|
      {
        var task := readyTasks[0];
        ghost var before := Value();
        readyTasks := readyTasks[1..];
        RunTask(task, answers[i]);
        assert Value() == End(Begin(before), answers[i]);
        assert answers[i..][1..] == answers[i + 1..] && answers[i..][0] == answers[i];
        i := i + 1;
      }
    }
  }
}
