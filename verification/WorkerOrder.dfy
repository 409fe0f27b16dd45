/** Orders that the worker keeps: tasks are polled as they became ready, and an operation is what
    its caller submitted. */
module WorkerOrder {
  import opened Wrappers
  import opened WorkerLoop
  import opened Worker
  import opened WorkerKeys
  import C = Completion
  import Io = IoContext
  import E = Executor

  // ---------- tasks ----------

  /** The tasks that a step makes ready, read off the message that it takes. */
  function Readied(s: State, step: Step): seq<TaskId> {
    if step == Recv && Takes(s) then
      match s.mail.channel[0]
      case Spawn(ts) => ts
      case Wake(t) => if t in s.tasks.exec.running then [t] else []
      case _ => []
    else []
  }

  /** The task whose poll a step begins. */
  function Begun(s: State, step: Step): seq<TaskId> {
    if s.control.pc == Running && Apply(s, step).control.pc == InPoll && Apply(s, step).tasks.exec.current.Some?
    then [Apply(s, step).tasks.exec.current.value] else []
  }

  function ReadiedAll(s: State, run: seq<Step>): seq<TaskId> {
    if run == [] then []
    else ReadiedAll(s, run[..|run| - 1]) + Readied(RunFrom(s, run[..|run| - 1]), run[|run| - 1])
  }

  function BegunAll(s: State, run: seq<Step>): seq<TaskId> {
    if run == [] then []
    else BegunAll(s, run[..|run| - 1]) + Begun(RunFrom(s, run[..|run| - 1]), run[|run| - 1])
  }

  lemma OrderEnvironment(s: State, step: Step)
    requires Environment(step) && (step == Start ==> s.control.pc == NotStarted || Current(s.control) != Unstarted)
    ensures Begun(s, step) == [] && Apply(s, step).tasks.exec.ready == s.tasks.exec.ready
  {
  }

  lemma OrderRecv(s: State)
    ensures Begun(s, Recv) == [] && Apply(s, Recv).tasks.exec.ready == s.tasks.exec.ready + Readied(s, Recv)
  {
  }

  lemma OrderRun(s: State)
    ensures Begun(s, RunTask) + Apply(s, RunTask).tasks.exec.ready == s.tasks.exec.ready
    ensures Enabled(s, RunTask) ==> (Begun(s, RunTask) == [] <==> s.tasks.exec.ready == [])
  {
    if Enabled(s, RunTask) && s.tasks.exec.ready != [] {
      assert s.tasks.exec.ready == [s.tasks.exec.ready[0]] + s.tasks.exec.ready[1..];
    }
  }

  lemma OrderRest(s: State, step: Step)
    requires !Environment(step) && step != Recv && step != RunTask
    ensures Begun(s, step) == [] && Apply(s, step).tasks.exec.ready == s.tasks.exec.ready
  {
  }

  lemma OrderStep(s: State, step: Step)
    requires step == Start ==> s.control.pc == NotStarted || Current(s.control) != Unstarted
    ensures Begun(s, step) + Apply(s, step).tasks.exec.ready == s.tasks.exec.ready + Readied(s, step)
  {
    if Environment(step) {
      OrderEnvironment(s, step);
    } else if step == Recv {
      OrderRecv(s);
    } else if step == RunTask {
      OrderRun(s);
    } else {
      OrderRest(s, step);
    }
  }

  lemma Regroup(a: seq<TaskId>, b: seq<TaskId>, c: seq<TaskId>)
    ensures (a + b) + c == a + (b + c)
  {
  }

  lemma QueueStep(begun: seq<TaskId>, ready: seq<TaskId>, readied: seq<TaskId>,
                  b: seq<TaskId>, ready': seq<TaskId>, r: seq<TaskId>)
    requires begun + ready == readied && b + ready' == ready + r
    ensures (begun + b) + ready' == readied + r
  {
    Regroup(begun, b, ready');
    Regroup(begun, ready, r);
  }

  lemma StartIsFirst(capacity: nat, run: seq<Step>)
    requires capacity >= 1
    ensures var c := Exec(capacity, run).control; c.pc == NotStarted || Current(c) != Unstarted
  {
    Reachable(capacity, run);
  }

  /** In every run tasks are polled in the order in which they became ready, by being spawned or
      woken; those that were not polled yet are the ready queue. */
  lemma {:induction false} PolledInOrder(capacity: nat, run: seq<Step>)
    requires capacity >= 1
    ensures BegunAll(Init(capacity), run) + Exec(capacity, run).tasks.exec.ready == ReadiedAll(Init(capacity), run)
  {
    if run != [] {
      var prefix, last := run[..|run| - 1], run[|run| - 1];
      var s, t := Exec(capacity, prefix), Exec(capacity, run);
      PolledInOrder(capacity, prefix);
      StartIsFirst(capacity, prefix);
      OrderStep(s, last);
      QueueStep(BegunAll(Init(capacity), prefix), s.tasks.exec.ready, ReadiedAll(Init(capacity), prefix),
                Begun(s, last), t.tasks.exec.ready, Readied(s, last));
    }
  }

  // ---------- operations ----------

  type Issues = map<Key, (C.Duration, Option<C.Waker>)>

  /** What the callers of a run submitted, by key. */
  function Issued(capacity: nat, run: seq<Step>): Issues {
    if run == [] then map[]
    else
      var prefix, last := run[..|run| - 1], run[|run| - 1];
      if last.CallSubmit? then Issued(capacity, prefix)[Exec(capacity, prefix).disk.next := (last.duration, last.waker)]
      else Issued(capacity, prefix)
  }

  predicate SubAs(issued: Issues, sub: Io.Submission) {
    sub.key in issued && issued[sub.key] == (sub.duration, sub.waker)
  }

  predicate MsgAs(issued: Issues, m: Msg) {
    m.Submit? ==> SubAs(issued, m.submission)
  }

  predicate EventAs(issued: Issues, e: C.Event) {
    e.Add? ==> e.key in issued && issued[e.key] == (e.duration, e.waker)
  }

  /** Submissions carry what was submitted, wherever they are. */
  ghost predicate CarriedAs(issued: Issues, s: State) {
    && (forall i :: 0 <= i < |s.mail.channel| ==> MsgAs(issued, s.mail.channel[i]))
    && (forall i :: 0 <= i < |s.mail.calls| ==> MsgAs(issued, s.mail.calls[i]))
    && (forall i :: 0 <= i < |s.disk.backlog| ==> SubAs(issued, s.disk.backlog[i]))
    && (forall i :: 0 <= i < |s.disk.events| ==> EventAs(issued, s.disk.events[i]))
    && (forall k :: k in issued ==> k < s.disk.next)
  }

  lemma CarriedCall(issued: Issues, s: State, d: C.Duration, w: Option<C.Waker>)
    requires CarriedAs(issued, s)
    ensures CarriedAs(issued[s.disk.next := (d, w)], Apply(s, CallSubmit(d, w)))
  {
  }

  lemma CarriedPrepare(issued: Issues, d: Disk, sub: Io.Submission)
    requires SubAs(issued, sub)
    requires forall i :: 0 <= i < |d.backlog| ==> SubAs(issued, d.backlog[i])
    requires forall i :: 0 <= i < |d.events| ==> EventAs(issued, d.events[i])
    ensures forall i :: 0 <= i < |Prepare(d, sub).backlog| ==> SubAs(issued, Prepare(d, sub).backlog[i])
    ensures forall i :: 0 <= i < |Prepare(d, sub).events| ==> EventAs(issued, Prepare(d, sub).events[i])
    ensures Prepare(d, sub).next == d.next
  {
  }

  lemma CarriedEnvironment(issued: Issues, s: State, step: Step)
    requires CarriedAs(issued, s) && Environment(step) && !step.CallSubmit?
    ensures CarriedAs(issued, Apply(s, step))
  {
  }

  lemma CarriedRecv(issued: Issues, s: State)
    requires CarriedAs(issued, s)
    ensures CarriedAs(issued, Apply(s, Recv))
  {
    RecvPrepares(s);
    if Takes(s) && s.mail.channel[0].Submit? {
      assert MsgAs(issued, s.mail.channel[0]);
      CarriedPrepare(issued, s.disk, s.mail.channel[0].submission);
    }
  }

  lemma CarriedRetry(issued: Issues, s: State)
    requires CarriedAs(issued, s)
    ensures CarriedAs(issued, Apply(s, Retry))
  {
    if s.disk.backlog != [] {
      CarriedPrepare(issued, s.disk.(backlog := s.disk.backlog[1..]), s.disk.backlog[0]);
    }
  }

  lemma CarriedWorker(issued: Issues, s: State, step: Step)
    requires CarriedAs(issued, s) && !Environment(step)
    ensures CarriedAs(issued, Apply(s, step))
  {
    if step == Recv {
      CarriedRecv(issued, s);
    } else if step == Retry {
      CarriedRetry(issued, s);
    } else if step != Reap {
      DiskStays(s, step);
    }
  }

  /** In every run each slot was made for the duration and with the waker that its operation was
      submitted with. */
  lemma {:induction false} SubmittedAsIssued(capacity: nat, run: seq<Step>)
    requires capacity >= 1
    ensures CarriedAs(Issued(capacity, run), Exec(capacity, run))
  {
    if run != [] {
      var prefix, last := run[..|run| - 1], run[|run| - 1];
      var s := Exec(capacity, prefix);
      SubmittedAsIssued(capacity, prefix);
      if last.CallSubmit? {
        CarriedCall(Issued(capacity, prefix), s, last.duration, last.waker);
      } else if Environment(last) {
        CarriedEnvironment(Issued(capacity, prefix), s, last);
      } else {
        CarriedWorker(Issued(capacity, prefix), s, last);
      }
    }
  }

  lemma {:induction false} UnpolledWaker(events: seq<C.Event>, k: Key, w: Option<C.Waker>)
    requires C.AddedAs(events, k).Some?
    requires forall i :: 0 <= i < |events| && events[i].Add? && events[i].key == k ==> events[i].waker == w
    requires forall i :: 0 <= i < |events| ==> !(events[i].Poll? && events[i].key == k)
    ensures C.LastPoller(events, k) == w
  {
    var n := |events| - 1;
    if !(events[n].Add? && events[n].key == k) {
      UnpolledWaker(events[..n], k, w);
    }
  }

  /** In every run the completion of an operation that nobody has polled wakes the waker it was
      submitted with, and one that was polled wakes its last poller. */
  lemma CompletionWakesWaiter(capacity: nat, run: seq<Step>, k: Key, code: int)
    requires capacity >= 1
    ensures var d := Exec(capacity, run).disk;
            C.AddedAs(d.events, k).Some? && C.Arrived(d.events, k) == [] ==>
              && C.CompleteSlot(d.io.slots, k, code).1 == C.LastPoller(d.events, k)
              && ((forall i :: 0 <= i < |d.events| ==> !(d.events[i].Poll? && d.events[i].key == k)) ==>
                    k in Issued(capacity, run) && C.LastPoller(d.events, k) == Issued(capacity, run)[k].1)
  {
    Reachable(capacity, run);
    SubmittedAsIssued(capacity, run);
    var d, issued := Exec(capacity, run).disk, Issued(capacity, run);
    if C.AddedAs(d.events, k).Some? && C.Arrived(d.events, k) == [] {
      C.FirstCompletionWakes(d.events, k, code);
      AddedEvent(d.events, k);
      if forall i :: 0 <= i < |d.events| ==> !(d.events[i].Poll? && d.events[i].key == k) {
        assert forall i :: 0 <= i < |d.events| && d.events[i].Add? && d.events[i].key == k ==>
            EventAs(issued, d.events[i]);
        UnpolledWaker(d.events, k, issued[k].1);
      }
    }
  }

  lemma {:induction false} AddedEvent(events: seq<C.Event>, k: Key)
    requires C.AddedAs(events, k).Some?
    ensures exists i :: 0 <= i < |events| && events[i].Add? && events[i].key == k
  {
    var n := |events| - 1;
    if !(events[n].Add? && events[n].key == k) {
      AddedEvent(events[..n], k);
      var i :| 0 <= i < n && events[..n][i].Add? && events[..n][i].key == k;
      assert events[i].Add? && events[i].key == k;
    }
  }
}
