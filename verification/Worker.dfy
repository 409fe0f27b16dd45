/** What holds in every run of the worker. */
module Worker {
  import opened Wrappers
  import opened WorkerLoop
  import opened WorkerMail
  import opened WorkerSafety
  import opened WorkerTasks
  import opened WorkerKeys
  import C = Completion
  import Io = IoContext
  import E = Executor

  ghost predicate Invariant(s: State) {
    && Lifecycle(s.control) && Ended(s.control)
    && Announced(s.control, s.mail)
    && Flow(s.control, s.tasks.exec)
    && (forall t :: Woken(s.tasks, s.mail, t))
    && BacklogKept(s.control, s.disk)
    && SubmitsForWork(s.control, s.disk) && ClosingReceives(s.control)
    && TasksKept(s)
    && KeysKept(s)
    && (forall k :: OneShotKept(s.disk, k))
  }

  /** A finished worker broadcast Kill unless it had last stored Stopping before. */
  predicate Ended(c: Control) {
    c.pc.Finished? ==>
      && |c.log| >= 2 && Fits(Exited(c.pc.how), c.closing, c.log[|c.log| - 2])
      && c.killed == (c.log[|c.log| - 2] != Stopping)
  }

  lemma FinishedStays(s: State, step: Step)
    requires step != Finish && Lifecycle(s.control) && Apply(s, step).control.pc.Finished?
    ensures Apply(s, step).control == s.control
  {
  }

  lemma EndedStep(s: State, step: Step)
    requires Lifecycle(s.control) && Ended(s.control)
    ensures Ended(Apply(s, step).control)
  {
    if step != Finish && Apply(s, step).control.pc.Finished? {
      FinishedStays(s, step);
    }
  }

  lemma LoopStep(s: State, step: Step)
    requires Invariant(s)
    ensures Announced(Apply(s, step).control, Apply(s, step).mail)
    ensures Flow(Apply(s, step).control, Apply(s, step).tasks.exec)
    ensures BacklogKept(Apply(s, step).control, Apply(s, step).disk)
    ensures SubmitsForWork(Apply(s, step).control, Apply(s, step).disk)
    ensures ClosingReceives(Apply(s, step).control)
  {
    ClosingStep(s, step);
    if Environment(step) {
      SubmitsEnvironment(s, step);
      AnnouncedEnvironment(s, step);
      FlowEnvironment(s, step);
      BacklogEnvironment(s, step);
    } else {
      SubmitsWorker(s, step);
      AnnouncedWorker(s, step);
      FlowWorker(s, step);
      BacklogWorker(s, step);
    }
  }

  lemma InvariantStep(s: State, step: Step)
    requires Invariant(s)
    ensures Invariant(Apply(s, step))
  {
    LifecycleStep(s, step);
    EndedStep(s, step);
    LoopStep(s, step);
    TasksStep(s, step);
    KeysStep(s, step);
    forall t ensures Woken(Apply(s, step).tasks, Apply(s, step).mail, t) {
      assert Woken(s.tasks, s.mail, t);
      if Environment(step) { WokenEnvironment(s, step, t); } else { WokenWorker(s, step, t); }
    }
    forall k ensures OneShotKept(Apply(s, step).disk, k) {
      assert OneShotKept(s.disk, k);
      OneShotStep(s, step, k);
    }
  }

  lemma InvariantInit(capacity: nat)
    requires capacity >= 1
    ensures Invariant(Init(capacity))
  {
    var s := Init(capacity);
    assert E.Ok(s.tasks.exec);
    forall k ensures KeyKept(s, k) && OneShotKept(s.disk, k) {
    }
    forall t ensures TaskKept(s, t) && Woken(s.tasks, s.mail, t) {
    }
  }

  lemma {:induction false} InvariantRun(s: State, run: seq<Step>)
    requires Invariant(s)
    ensures Invariant(RunFrom(s, run))
  {
    if run != [] {
      InvariantRun(s, run[..|run| - 1]);
      InvariantStep(RunFrom(s, run[..|run| - 1]), run[|run| - 1]);
    }
  }

  /** Every interleaving of callers, kernel and worker keeps the joint invariant. */
  lemma Reachable(capacity: nat, run: seq<Step>)
    requires capacity >= 1
    ensures Invariant(Exec(capacity, run))
  {
    InvariantInit(capacity);
    InvariantRun(Init(capacity), run);
  }

  // ---------- main results ----------

  /** When the worker polls for events no task is ready or half polled, every running task that
      was woken has its wake on the way, and messages in the channel have raised an edge or are
      about to. */
  lemma NeverBlocksOverWork(capacity: nat, run: seq<Step>)
    requires capacity >= 1
    ensures var s := Exec(capacity, run);
            s.control.pc == Polling ==>
              && s.tasks.exec.ready == [] && s.tasks.exec.current.None?
              && (forall t :: t in s.tasks.woken && t in s.tasks.exec.running ==>
                  Wake(t) in s.mail.channel || Wake(t) in s.mail.calls)
              && (s.mail.channel != [] ==> s.mail.edge || s.mail.unsignaled > 0)
  {
    Reachable(capacity, run);
    var s := Exec(capacity, run);
    forall t | t in s.tasks.woken && t in s.tasks.exec.running
      ensures Wake(t) in s.mail.channel || Wake(t) in s.mail.calls {
      assert Woken(s.tasks, s.mail, t);
    }
  }

  /** Between two iterations of the main loop the ring is empty, and a submission in the backlog
      has an operation in flight or a completion whose edge is still to come. */
  lemma BacklogNotStranded(capacity: nat, run: seq<Step>)
    requires capacity >= 1
    ensures var s := Exec(capacity, run); var d := s.disk;
            s.control.pc == Top || s.control.pc == Polling ==>
              && d.io.ring == []
              && (d.backlog != [] ==> d.io.inflight != {} || (d.io.cq != [] && (d.edge || d.mid > 0)))
  {
    Reachable(capacity, run);
  }

  /** Each task that was handed out is once in the messages on their way, the ready queue, the
      poll, the running or the completed tasks; the cached wakers are those of the tasks that
      were polled and did not complete. */
  lemma TaskPartition(capacity: nat, run: seq<Step>, t: TaskId)
    requires capacity >= 1
    ensures var s := Exec(capacity, run); var e := s.tasks.exec;
            && InMail(s.mail, TaskItem(t)) + multiset(e.ready)[t] + (if e.current == Some(t) then 1 else 0)
               + (if t in e.running then 1 else 0) + (if t in e.completed then 1 else 0)
               == (if t < s.tasks.next then 1 else 0)
            && (t in e.wakers <==> t in e.polled && t !in e.completed)
  {
    Reachable(capacity, run);
    assert TaskKept(Exec(capacity, run), t);
  }

  /** A worker that left the shutdown loop without Kill has completed every task it received. */
  lemma GracefulExit(capacity: nat, run: seq<Step>, t: TaskId)
    requires capacity >= 1
    ensures var s := Exec(capacity, run);
            s.control.pc == Exited(Drained) || s.control.pc == Finished(Drained) ==>
              (t in s.tasks.exec.completed <==> t < s.tasks.next && InMail(s.mail, TaskItem(t)) == 0)
  {
    Reachable(capacity, run);
    TaskPartition(capacity, run, t);
  }

  /** Stored states follow the lifecycle; once Stopping is stored no iteration begins and only
      Stopping and Stopped follow; starting succeeds once. */
  lemma LifecycleLanguage(capacity: nat, run: seq<Step>)
    requires capacity >= 1
    ensures var c := Exec(capacity, run).control;
            && InOrder(c.log)
            && (forall i, j :: 0 <= i < j < |c.log| && c.log[i] == Stopping ==>
                c.log[j] == Stopping || c.log[j] == Stopped)
            && (c.pc == Top || c.pc == Polling ==> Stopping !in c.log)
            && (Enabled(Exec(capacity, run), Start) <==> c.log == [Unstarted])
  {
    Reachable(capacity, run);
    var c := Exec(capacity, run).control;
    forall i, j | 0 <= i < j < |c.log| && c.log[i] == Stopping ensures c.log[j] == Stopping || c.log[j] == Stopped {
      StoppingStays(c.log, i, j);
    }
    StartsOnce(c.log);
  }

  lemma {:induction false} StoppingStays(log: seq<WorkerState>, i: nat, j: nat)
    requires InOrder(log) && i < j < |log| && log[i] == Stopping
    ensures log[j] == Stopping || log[j] == Stopped
  {
    assert Follows(log[j - 1], log[j]);
    if i < j - 1 {
      StoppingStays(log, i, j - 1);
    }
  }

  lemma StartsOnce(log: seq<WorkerState>)
    requires InOrder(log)
    ensures log[|log| - 1] == Unstarted <==> log == [Unstarted]
  {
    if |log| > 1 {
      assert Follows(log[|log| - 2], log[|log| - 1]);
    }
  }

  lemma KilledBefore(log: seq<WorkerState>)
    requires InOrder(log) && |log| >= 2 && log[|log| - 1] == Stopped
    ensures log[|log| - 2] == Stopping ==> Stopping in log
    ensures log[|log| - 2] != Stopping && log[|log| - 2] != Stopped ==> Stopping !in log
  {
    var n := |log| - 2;
    if Stopping in log {
      var i :| 0 <= i < |log| && log[i] == Stopping;
      if i < n {
        StoppingStays(log, i, n);
      }
    }
  }

  lemma KilledIf(c: Control)
    requires Lifecycle(c) && Ended(c) && c.pc.Finished?
    ensures c.killed <==> c.pc.how == KilledInShutdown || Stopping !in c.log
  {
    KilledBefore(c.log);
  }

  /** The finished worker has broadcast Kill exactly if it never stored Stopping or was killed in
      the shutdown loop: a Kill received after Shutdown in one iteration is not broadcast. */
  lemma KillBroadcast(capacity: nat, run: seq<Step>)
    requires capacity >= 1
    ensures var c := Exec(capacity, run).control;
            c.pc.Finished? ==> (c.killed <==> c.pc.how == KilledInShutdown || Stopping !in c.log)
  {
    Reachable(capacity, run);
    if Exec(capacity, run).control.pc.Finished? {
      KilledIf(Exec(capacity, run).control);
    }
  }

  // ---------- a Kill that is not broadcast ----------

  function ApplyAll(s: State, a: Step, b: Step, c: Step): State {
    Apply(Apply(Apply(s, a), b), c)
  }

  lemma Extend(before: seq<Step>, s: State, a: Step, b: Step, c: Step)
    requires Exec(1, before) == s
    ensures Exec(1, before + [a, b, c]) == ApplyAll(s, a, b, c)
  {
    RunSnoc(Init(1), before, a);
    RunSnoc(Init(1), before + [a], b);
    RunSnoc(Init(1), before + [a] + [b], c);
    assert before + [a] + [b] + [c] == before + [a, b, c];
  }

  /** Callers push Shutdown and Kill before the worker receives either. */
  const SILENT_KILL: seq<Step> :=
    [Start, CallControl(Shutdown), CallControl(Kill)] + [Send(0), Send(0), Signal]
    + [Signal, BeginIteration, PollEvents(true, false, false)] + [Recv, Recv, Finish]

  /** The state after the first half of the run, and after the next three steps. */
  function BothSent(): State {
    Init(1).(control := Control(Setup, false, false, false, [Unstarted, Starting], false),
             mail := Mail([Shutdown, Kill], [], 1, true))
  }

  function BothAnnounced(): State {
    Init(1).(control := Control(Receiving, false, true, false, [Unstarted, Starting, Idle, Busy], false),
             mail := Mail([Shutdown, Kill], [], 0, false))
  }

  /** Two callers push what they hold, and one of them signals. */
  lemma SendTwo(s: State, a: Msg, b: Msg)
    requires s.mail == Mail([], [a, b], 0, false)
    ensures ApplyAll(s, Send(0), Send(0), Signal) == s.(mail := Mail([a, b], [], 1, true))
  {
    assert Apply(s, Send(0)).mail == Mail([a], [b], 1, false);
  }

  lemma CallBoth()
    ensures ApplyAll(Init(1), Start, CallControl(Shutdown), CallControl(Kill))
         == BothSent().(mail := Mail([], [Shutdown, Kill], 0, false))
  {
  }

  lemma SendBoth()
    ensures ApplyAll(ApplyAll(Init(1), Start, CallControl(Shutdown), CallControl(Kill)), Send(0), Send(0), Signal)
         == BothSent()
  {
    CallBoth();
    SendTwo(BothSent().(mail := Mail([], [Shutdown, Kill], 0, false)), Shutdown, Kill);
  }

  lemma AnnounceBoth()
    ensures ApplyAll(BothSent(), Signal, BeginIteration, PollEvents(true, false, false)) == BothAnnounced()
  {
  }

  lemma ReceiveShutdown()
    ensures var s := BothAnnounced();
            Apply(s, Recv) == s.(control := Store(s.control, Stopping), mail := Mail([Kill], [], 0, false))
  {
  }

  lemma ReceiveBoth()
    ensures var c := ApplyAll(BothAnnounced(), Recv, Recv, Finish).control;
            c.pc == Finished(KilledInLoop) && !c.killed && c.log == [Unstarted, Starting, Idle, Busy, Stopping, Stopped]
  {
    ReceiveShutdown();
    var s := Apply(Apply(BothAnnounced(), Recv), Recv);
    assert s.control.pc == Exited(KilledInLoop) && s.control.log == [Unstarted, Starting, Idle, Busy, Stopping];
  }

  /** The worker of this run receives Kill after Shutdown, in one iteration, and ends without
      having broadcast Kill. */
  lemma KillAfterShutdown()
    ensures var c := Exec(1, SILENT_KILL).control;
            c.pc == Finished(KilledInLoop) && !c.killed && Stopping in c.log
  {
    var calls, sends: seq<Step> := [Start, CallControl(Shutdown), CallControl(Kill)], [Send(0), Send(0), Signal];
    var called := ApplyAll(Init(1), Start, CallControl(Shutdown), CallControl(Kill));
    Extend([], Init(1), Start, CallControl(Shutdown), CallControl(Kill));
    assert [] + calls == calls;
    Extend(calls, called, Send(0), Send(0), Signal);
    SendBoth();
    Extend(calls + sends, BothSent(), Signal, BeginIteration, PollEvents(true, false, false));
    AnnounceBoth();
    var events: seq<Step> := [Signal, BeginIteration, PollEvents(true, false, false)];
    Extend(calls + sends + events, BothAnnounced(), Recv, Recv, Finish);
    ReceiveBoth();
    assert Exec(1, SILENT_KILL).control.log[4] == Stopping;
  }

  // ---------- operations ----------

  /** An operation that was prepared and whose slot is gone. */
  predicate Retired(d: Disk, k: Key) {
    C.AddedAs(d.events, k).Some? && k !in d.io.slots
  }

  /** Each key that was handed out is once in the messages on their way, the backlog, the slots
      or the retired operations; no other key is anywhere. */
  lemma KeyPartition(capacity: nat, run: seq<Step>, k: Key)
    requires capacity >= 1
    ensures var s := Exec(capacity, run);
            InMail(s.mail, OpItem(k)) + InBacklog(s.disk.backlog, k)
            + (if k in s.disk.io.slots then 1 else 0) + (if Retired(s.disk, k) then 1 else 0)
            == (if k < s.disk.next then 1 else 0)
  {
    Reachable(capacity, run);
    var s := Exec(capacity, run);
    assert KeyKept(s, k);
    C.HistoryOk(s.disk.events, k);
  }

  /** A poll answers that there is no such operation exactly for keys that are on their way, in
      the backlog or retired: a live operation is not found before it is prepared. */
  lemma UnpreparedIsUnknown(capacity: nat, run: seq<Step>, k: Key, waker: C.Waker)
    requires capacity >= 1
    ensures var s := Exec(capacity, run);
            k < s.disk.next ==>
              (C.PollSlot(s.disk.io.slots, k, waker).1 == C.Ready(None) <==>
                InMail(s.mail, OpItem(k)) == 1 || InBacklog(s.disk.backlog, k) == 1 || Retired(s.disk, k))
  {
    Reachable(capacity, run);
    KeyPartition(capacity, run, k);
    C.HistoryOk(Exec(capacity, run).disk.events, k);
  }

  lemma UnsentDisk()
    ensures Apply(Init(1), CallSubmit(C.Single, None)).disk == Init(1).disk.(next := 1)
  {
  }

  /** A submission that no worker has received yet is not found. */
  lemma UnsentIsUnknown(waker: C.Waker)
    ensures var d := Exec(1, [CallSubmit(C.Single, None)]).disk;
            0 < d.next && C.PollSlot(d.io.slots, 0, waker).1 == C.Ready(None) && !Retired(d, 0)
  {
    var submit: Step := CallSubmit(C.Single, None);
    RunSnoc(Init(1), [], submit);
    assert [] + [submit] == [submit];
    UnsentDisk();
  }

  /** Two operations are submitted to a worker whose ring has one place. */
  const FULL_RING: seq<Step> :=
    [Start, CallSubmit(C.Single, None), CallSubmit(C.Single, None)] + [Send(0), Send(0), Signal]
    + [Signal, BeginIteration, PollEvents(true, false, false)] + [Recv, Recv, Recv]

  function Sub(k: Key): Io.Submission {
    Io.Submission(k, C.Single, None)
  }

  function SubmittedBoth(): State {
    var s := Init(1);
    s.(control := Control(Setup, false, false, false, [Unstarted, Starting], false),
       mail := Mail([Submit(Sub(0)), Submit(Sub(1))], [], 1, true), disk := s.disk.(next := 2))
  }

  function SubmissionsAnnounced(): State {
    var s := SubmittedBoth();
    s.(control := Control(Receiving, false, true, false, [Unstarted, Starting, Idle, Busy], false),
       mail := s.mail.(unsignaled := 0, edge := false))
  }

  lemma CallSubmits()
    ensures ApplyAll(Init(1), Start, CallSubmit(C.Single, None), CallSubmit(C.Single, None))
         == SubmittedBoth().(mail := Mail([], [Submit(Sub(0)), Submit(Sub(1))], 0, false))
  {
  }

  lemma SubmitBoth()
    ensures var s := ApplyAll(Init(1), Start, CallSubmit(C.Single, None), CallSubmit(C.Single, None));
            ApplyAll(s, Send(0), Send(0), Signal) == SubmittedBoth()
  {
    CallSubmits();
    SendTwo(SubmittedBoth().(mail := Mail([], [Submit(Sub(0)), Submit(Sub(1))], 0, false)), Submit(Sub(0)),
        Submit(Sub(1)));
  }

  lemma AnnounceSubmissions()
    ensures ApplyAll(SubmittedBoth(), Signal, BeginIteration, PollEvents(true, false, false)) == SubmissionsAnnounced()
  {
  }

  lemma ReceiveFirst()
    ensures var s, t := SubmissionsAnnounced(), Apply(SubmissionsAnnounced(), Recv);
            && t.mail.channel == [Submit(Sub(1))]
            && t.disk == Prepare(s.disk, Sub(0)) && t.control == s.control.(shouldSubmit := true)
            && t.disk.io.ring == [0] && t.disk.backlog == [] && t.disk.capacity == 1
            && t.disk.events == [C.Add(0, C.Single, None)]
            && 1 !in t.disk.io.slots && t.disk.next == 2
  {
  }

  lemma ReceiveSecond()
    ensures var d := ApplyAll(SubmissionsAnnounced(), Recv, Recv, Recv).disk;
            && d.backlog == [Sub(1)] && d.events == [C.Add(0, C.Single, None)] && 1 !in d.io.slots && d.next == 2
  {
    ReceiveFirst();
  }

  /** The second operation waits behind a full ring, and a poll is told that there is none. */
  lemma BackloggedIsUnknown(waker: C.Waker)
    ensures var d := Exec(1, FULL_RING).disk;
            && 1 < d.next && InBacklog(d.backlog, 1) == 1 && !Retired(d, 1)
            && C.PollSlot(d.io.slots, 1, waker).1 == C.Ready(None)
  {
    var submit: Step := CallSubmit(C.Single, None);
    var calls, sends: seq<Step> := [Start, submit, submit], [Send(0), Send(0), Signal];
    var events: seq<Step> := [Signal, BeginIteration, PollEvents(true, false, false)];
    Extend([], Init(1), Start, submit, submit);
    assert [] + calls == calls;
    Extend(calls, ApplyAll(Init(1), Start, submit, submit), Send(0), Send(0), Signal);
    SubmitBoth();
    Extend(calls + sends, SubmittedBoth(), Signal, BeginIteration, PollEvents(true, false, false));
    AnnounceSubmissions();
    Extend(calls + sends + events, SubmissionsAnnounced(), Recv, Recv, Recv);
    ReceiveSecond();
    var d := Exec(1, FULL_RING).disk;
    assert d.backlog[1..] == [] && d.events[..0] == [];
  }

  /** Preparing a submission never overwrites a slot. */
  lemma SlotsAreFresh(capacity: nat, run: seq<Step>, i: nat)
    requires capacity >= 1
    ensures var events := Exec(capacity, run).disk.events;
            i < |events| && events[i].Add? ==> events[i].key !in C.SlotsAfter(events[..i])
  {
    Reachable(capacity, run);
    var events := Exec(capacity, run).disk.events;
    if i < |events| && events[i].Add? {
      var before := events[..i];
      assert forall j :: 0 <= j < |before| ==> before[..j] == events[..j];
      C.HistoryOk(before, events[i].key);
    }
  }

  lemma {:induction false} ArrivedAreCompletions(events: seq<C.Event>, k: Key)
    ensures |C.Arrived(events, k)| <= Completions(events, k)
  {
    if events != [] {
      ArrivedAreCompletions(events[..|events| - 1], k);
    }
  }

  /** The result of an operation of one result reaches exactly one poll: the slot is gone if and
      only if the one completion was reaped and delivered. */
  lemma DeliveredOnce(capacity: nat, run: seq<Step>, k: Key)
    requires capacity >= 1
    ensures var d := Exec(capacity, run).disk;
            C.AddedAs(d.events, k) == Some(C.Single) ==>
              && |C.Arrived(d.events, k)| <= 1
              && (k in d.io.slots ==> C.Delivered(d.events, k) == [])
              && (k !in d.io.slots <==> |C.Delivered(d.events, k)| == 1)
              && (k !in d.io.slots ==>
                  C.Delivered(d.events, k) == C.Arrived(d.events, k) && Posted(d.io.cq, k) == 0 && k !in d.io.inflight)
  {
    Reachable(capacity, run);
    var d := Exec(capacity, run).disk;
    if C.AddedAs(d.events, k) == Some(C.Single) {
      assert OneShotKept(d, k);
      ArrivedAreCompletions(d.events, k);
      C.HistoryOk(d.events, k);
    }
  }

  /** What a worker's persistent operation delivered and still holds is what arrived, in order. */
  lemma MultishotInOrder(capacity: nat, run: seq<Step>, k: Key)
    requires capacity >= 1
    ensures var d := Exec(capacity, run).disk;
            C.AddedAs(d.events, k) == Some(C.Persistent) ==>
              && C.Delivered(d.events, k) <= C.Arrived(d.events, k)
              && (k !in d.io.slots <==>
                  C.CanceledLater(C.Arrived(d.events, k)) && C.Delivered(d.events, k) == C.Arrived(d.events, k))
  {
    Reachable(capacity, run);
    var d := Exec(capacity, run).disk;
    if C.AddedAs(d.events, k) == Some(C.Persistent) {
      C.MultishotFifo(d.events, k);
    }
  }
}
