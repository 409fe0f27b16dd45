/** How the worker comes to its end: which messages stop it, and what it does until then. */
module WorkerShutdown {
  import opened Wrappers
  import opened WorkerLoop
  import opened WorkerMail
  import opened WorkerSafety
  import opened WorkerTasks
  import opened Worker
  import E = Executor

  /** The next message of a receiving worker. */
  predicate Next(s: State, m: Msg) {
    s.control.pc == Receiving && s.control.shouldRecv && s.mail.channel != [] && s.mail.channel[0] == m
  }

  function Rest(mail: Mail): Mail
    requires mail.channel != []
  {
    mail.(channel := mail.channel[1..])
  }

  /** In every run the shutdown loop takes what is in the channel, and goes on only when it has
      found it empty. */
  lemma ShutdownReceives(capacity: nat, run: seq<Step>)
    requires capacity >= 1
    ensures var s := Exec(capacity, run);
            s.control.closing && s.control.pc == Receiving ==>
              && (s.mail.channel != [] ==> Apply(s, Recv).mail == Rest(s.mail))
              && (Apply(s, Recv).control.pc == AtSubmit <==> s.mail.channel == [])
  {
    Reachable(capacity, run);
    var s := Exec(capacity, run);
    if s.control.closing && s.control.pc == Receiving {
      RecvLeaves(s);
    }
  }

  lemma RecvLeaves(s: State)
    requires s.control.pc == Receiving && s.control.shouldRecv
    ensures s.mail.channel != [] ==> Apply(s, Recv).mail == Rest(s.mail) && Apply(s, Recv).control.pc != AtSubmit
    ensures s.mail.channel == [] ==> Apply(s, Recv).control.pc == AtSubmit
  {
  }

  /** What either loop prepared is with the kernel before the loop reaps, runs a task or ends. */
  lemma RingIsSubmitted(capacity: nat, run: seq<Step>)
    requires capacity >= 1
    ensures var s := Exec(capacity, run); var pc := s.control.pc;
            pc.Reaping? || pc == AtReap || pc == Running || pc == InPoll || pc == AtEnd || pc == Exited(Drained) ==>
              s.disk.io.ring == []
  {
    Reachable(capacity, run);
  }

  /** The main loop calls submit only if it prepared something or found the ring full. */
  lemma SubmitHasWork(capacity: nat, run: seq<Step>)
    requires capacity >= 1
    ensures var s := Exec(capacity, run);
            s.control.pc == AtSubmit && !s.control.closing && s.control.shouldSubmit ==>
              s.disk.io.ring != [] || s.disk.backlog != []
  {
    Reachable(capacity, run);
  }

  // ---------- messages that end the loops ----------

  lemma KillIsObeyed(s: State)
    requires Next(s, Kill)
    ensures var c := Apply(s, Recv).control;
            && c.pc == Exited(if s.control.closing then KilledInShutdown else KilledInLoop)
            && Current(c) == if s.control.closing then Stopped else Current(s.control)
  {
  }

  lemma ShutdownIsObeyed(s: State)
    requires Next(s, Shutdown)
    ensures var t := Apply(s, Recv);
            if s.control.closing then t == s.(mail := Rest(s.mail))
            else t == s.(mail := Rest(s.mail), control := t.control) && Current(t.control) == Stopping
                 && t.control.pc == Receiving && !t.control.closing
  {
  }

  lemma ContinueIsNoWork(s: State)
    requires Next(s, Continue)
    ensures Apply(s, Recv) == s.(mail := Rest(s.mail))
  {
  }

  /** A signal that asks to stop is stored before anything else is done. */
  lemma StopIsObeyed(s: State, takeMsg: bool, takeIo: bool)
    requires Enabled(s, PollEvents(takeMsg, takeIo, true))
    ensures Current(Apply(s, PollEvents(takeMsg, takeIo, true)).control) == Stopping
    ensures Current(Apply(s, PollEvents(takeMsg, takeIo, false)).control) == Busy
  {
  }

  /** The events that were polled decide: without the edge of the channel no message is taken in
      this iteration, and without that of the ring no completion. */
  lemma EventsDecide(s: State, takeMsg: bool, takeIo: bool, stop: bool)
    requires Enabled(s, PollEvents(takeMsg, takeIo, stop))
    ensures var t := Apply(s, PollEvents(takeMsg, takeIo, stop));
            && t.control.pc == (if takeIo then AtReap else Receiving)
            && t.mail.edge == (s.mail.edge && !takeMsg) && t.disk.edge == (s.disk.edge && !takeIo)
            && t.tasks == s.tasks && t.mail.channel == s.mail.channel && t.disk.io == s.disk.io
            && (!takeIo && !takeMsg ==> Apply(t, Recv) == t.(control := t.control.(pc := AtSubmit)))
            && (!takeIo && takeMsg && t.mail.channel != [] ==> Apply(t, Recv).mail == Rest(t.mail))
  {
  }

  /** The main loop ends in the iteration that stored Stopping, and only then; both edges are
      drained, and the shutdown loop receives. */
  lemma MainLoopEnds(capacity: nat, run: seq<Step>)
    requires capacity >= 1
    ensures var s := Exec(capacity, run); var t := Apply(s, EndIteration);
            s.control.pc == AtEnd && !s.control.closing ==>
              if Stopping in s.control.log
              then t.control.closing && t.control.pc == Receiving && !t.mail.edge && !t.disk.edge
              else t.control.pc == Top && !t.control.closing
  {
    Reachable(capacity, run);
    var s := Exec(capacity, run);
    if s.control.pc == AtEnd && !s.control.closing {
      StoppingIsCurrent(s.control);
    }
  }

  lemma StoppingIsCurrent(c: Control)
    requires Lifecycle(c) && c.pc == AtEnd
    ensures Current(c) == Stopping <==> Stopping in c.log
  {
    if Stopping in c.log {
      var i :| 0 <= i < |c.log| && c.log[i] == Stopping;
      if i < |c.log| - 1 {
        StoppingStays(c.log, i, |c.log| - 1);
      }
    }
  }

  /** The shutdown loop ends exactly when every task that was received is complete. */
  lemma DrainedExact(capacity: nat, run: seq<Step>)
    requires capacity >= 1
    ensures var s := Exec(capacity, run);
            s.control.closing && s.control.pc == AtEnd ==>
              (Apply(s, EndIteration).control.pc == Exited(Drained) <==>
                forall t: TaskId {:trigger InMail(s.mail, TaskItem(t))} ::
                  t < s.tasks.next && InMail(s.mail, TaskItem(t)) == 0 ==> t in s.tasks.exec.completed)
  {
    Reachable(capacity, run);
    var s := Exec(capacity, run);
    if s.control.closing && s.control.pc == AtEnd {
      forall t: TaskId
        ensures t in s.tasks.exec.running <==>
                  t < s.tasks.next && InMail(s.mail, TaskItem(t)) == 0 && t !in s.tasks.exec.completed
      {
        TaskPartition(capacity, run, t);
      }
      EndsIfDrained(s);
      if s.tasks.exec.running != {} {
        var t :| t in s.tasks.exec.running;
        assert InMail(s.mail, TaskItem(t)) == 0;
      }
    }
  }

  lemma EndsIfDrained(s: State)
    requires s.control.closing && s.control.pc == AtEnd
    ensures Apply(s, EndIteration).control.pc == Exited(Drained) <==> s.tasks.exec.running == {}
  {
  }
}
