/** Stretches of the worker in which nobody else takes a step do what the sequential functions
    for the backlog, the completion queue and the executor say. */
module WorkerSolo {
  import opened WorkerLoop
  import Io = IoContext
  import E = Executor

  function Retried(s: State): State
    decreases |s.disk.backlog|, s.control.pc == Retrying
  {
    if s.control.pc == Retrying then Retried(Apply(s, Retry)) else s
  }

  /** The steps of the retry loop are the retry of the whole backlog; it asks for a submit
      exactly if something moved to the ring. */
  lemma {:induction false} RetryIsSolo(s: State)
    requires s.control.pc == Retrying
    ensures var t := Retried(s);
            && (t.disk.io, t.disk.backlog) == Io.Retry(s.disk.io, s.disk.capacity, s.disk.backlog)
            && t.control.pc == Receiving
            && (t.control.shouldSubmit <==> s.control.shouldSubmit || |t.disk.io.ring| > |s.disk.io.ring|)
            && |t.disk.io.ring| >= |s.disk.io.ring|
    decreases |s.disk.backlog|
  {
    if s.disk.backlog != [] && |s.disk.io.ring| < s.disk.capacity {
      RetryIsSolo(Apply(s, Retry));
    } else {
      assert Retried(s) == Retried(Apply(s, Retry)) == Apply(s, Retry);
    }
  }

  function Reaped(s: State): State
    requires s.control.pc.Reaping? && s.control.pc.seen <= |s.disk.io.cq|
    decreases s.control.pc.seen
  {
    if s.control.pc.seen == 0 then Apply(s, Reap) else Reaped(Apply(s, Reap))
  }

  /** The steps of the reap loop complete what was seen, in order, and leave the rest queued. */
  lemma {:induction false} ReapIsSolo(s: State)
    requires s.control.pc.Reaping? && s.control.pc.seen <= |s.disk.io.cq|
    ensures var t, n := Reaped(s), s.control.pc.seen;
            t.disk.io == s.disk.io.(slots := Io.CompleteAll(s.disk.io.slots, s.disk.io.cq[..n]),
                cq := s.disk.io.cq[n..])
    decreases s.control.pc.seen
  {
    var n, cq := s.control.pc.seen, s.disk.io.cq;
    if n > 0 {
      ReapIsSolo(Apply(s, Reap));
      assert cq[..n][0] == cq[0] && cq[..n][1..] == cq[1..][..n - 1] && cq[n..] == cq[1..][n - 1..];
    } else {
      assert cq[..0] == [] && cq[0..] == cq;
    }
  }

  /** From the synchronisation on, both loops reap everything that was posted. */
  lemma CompleteIsSolo(s: State)
    requires s.control.pc == AtReap
    ensures var t := Apply(s, Sync);
            && t.control.pc.Reaping? && t.control.pc.seen <= |t.disk.io.cq|
            && Reaped(t).disk.io == s.disk.io.(slots := Io.CompleteAll(s.disk.io.slots, s.disk.io.cq), cq := [])
  {
    var t, cq := Apply(s, Sync), s.disk.io.cq;
    ReapIsSolo(t);
    assert cq[..|cq|] == cq && cq[|cq|..] == [];
  }

  function Ran(s: State, answers: seq<bool>): State
    requires s.control.pc == Running && |answers| == |s.tasks.exec.ready|
    decreases |answers|
  {
    if answers == [] then Apply(s, RunTask)
    else Ran(Apply(Apply(s, RunTask), TaskDone(answers[0])), answers[1..])
  }

  /** The steps of the run loop run the ready tasks once each, with the answers of their polls. */
  lemma {:induction false} RunIsSolo(s: State, answers: seq<bool>)
    requires s.control.pc == Running && |answers| == |s.tasks.exec.ready| && s.tasks.exec.current.None?
    ensures Ran(s, answers).tasks.exec == E.RunAll(s.tasks.exec, answers)
    ensures Ran(s, answers).control.pc == AtEnd && Ran(s, answers).disk == s.disk && Ran(s, answers).mail == s.mail
    decreases |answers|
  {
    if answers != [] {
      RunIsSolo(Apply(Apply(s, RunTask), TaskDone(answers[0])), answers[1..]);
    }
  }
}
