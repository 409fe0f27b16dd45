/** The worker of src/worker/mod.rs as a step machine.  The worker's own steps are those of
    `worker_loop`, main loop and shutdown loop; the steps of the environment are the senders,
    the kernel behind the ring, the tasks, and pollers of completions.  Any of them may happen
    between two steps of the worker.  A step that is not enabled changes nothing. */
module WorkerLoop {
  import opened Wrappers
  import C = Completion
  import Io = IoContext
  import E = Executor

  type TaskId = E.TaskId
  type Key = C.Key

  /** `Spawn` stands for the three messages that bring tasks; a task gets its id with the
      message.  */
  datatype Msg =
    | Spawn(tasks: seq<TaskId>)
    | Wake(task: TaskId)
    | Submit(submission: Io.Submission)
    | Continue
    | Shutdown
    | Kill

  /** `calls` are messages of senders that have not pushed yet, `unsignaled` counts senders
      between push and signal, `edge` is a signal that no poll of events has consumed. */
  datatype Mail = Mail(channel: seq<Msg>, calls: seq<Msg>, unsignaled: nat, edge: bool)

  datatype WorkerState = Unstarted | Starting | Idle | Busy | Stopping | Stopped

  datatype Exit = SetupFailed | KilledInLoop | KilledInShutdown | Drained

  /** Where the worker is; `Reaping` counts the completions it saw when it synchronised. */
  datatype Pc =
    | NotStarted
    | Setup
    | Top
    | Polling
    | AtReap
    | Reaping(seen: nat)
    | Retrying
    | Receiving
    | AtSubmit
    | Running
    | InPoll
    | AtEnd
    | Exited(how: Exit)
    | Finished(how: Exit)

  /** `woken` holds the tasks woken since their last poll began; ids below `next` have been
      handed out. */
  datatype Tasks = Tasks(exec: E.Exec, woken: set<TaskId>, next: TaskId)

  /** `events` is the history of `io.slots`; `mid` counts completions posted and not yet
      signalled, `edge` is a signal not yet consumed; keys below `next` have been handed out. */
  datatype Disk = Disk(io: Io.Io, capacity: nat, backlog: seq<Io.Submission>, mid: nat, edge: bool,
                       events: seq<C.Event>, next: Key)

  /** The worker's position, its flags, the states it stored, and whether it broadcast Kill. */
  datatype Control = Control(pc: Pc, closing: bool, shouldRecv: bool, shouldSubmit: bool,
                             log: seq<WorkerState>, killed: bool)

  datatype State = State(control: Control, mail: Mail, tasks: Tasks, disk: Disk)

  function Init(capacity: nat): State {
    State(Control(NotStarted, false, false, false, [Unstarted], false), Mail([], [], 0, false), Tasks(E.EMPTY, {}, 0),
          Disk(Io.Io([], {}, [], map[]), capacity, [], 0, false, [], 0))
  }

  datatype Step =
    // callers
    | Start
    | CallSpawn(count: nat)
    | CallWake(task: TaskId)
    | CallSubmit(duration: C.Duration, waker: Option<C.Waker>)
    | CallControl(control: Msg)
    | Send(call: nat)
    | Signal
    | PollOp(key: Key, poller: C.Waker)
    // the kernel
    | Post(posted: Key, code: int, more: bool)
    | RaiseIo
    // the worker
    | FailSetup
    | BeginIteration
    | Interrupted
    | PollEvents(takeMsg: bool, takeIo: bool, stop: bool)
    | Sync
    | Reap
    | Retry
    | Recv
    | SubmitRing
    | RunTask
    | TaskDone(answer: bool)
    | EndIteration
    | Finish

  predicate Environment(step: Step) {
    step.Start? || step.CallSpawn? || step.CallWake? || step.CallSubmit? || step.CallControl?
    || step.Send? || step.Signal? || step.PollOp? || step.Post? || step.RaiseIo?
  }

  function Current(c: Control): WorkerState {
    if c.log == [] then Unstarted else c.log[|c.log| - 1]
  }

  function Store(c: Control, w: WorkerState): Control {
    c.(log := c.log + [w])
  }

  function Call(mail: Mail, m: Msg): Mail {
    mail.(calls := mail.calls + [m])
  }

  function Push(mail: Mail, i: nat): Mail
    requires i < |mail.calls|
  {
    Mail(mail.channel + [mail.calls[i]], mail.calls[..i] + mail.calls[i + 1..], mail.unsignaled + 1, mail.edge)
  }

  function NewTasks(first: TaskId, count: nat): seq<TaskId> {
    seq(count, i => first + i)
  }

  /** An event on the slots. */
  function Record(d: Disk, e: C.Event): Disk {
    d.(io := d.io.(slots := C.Step(d.io.slots, e)), events := d.events + [e])
  }

  /** `prepare_io_submission`: a full ring sends the submission to the back of the backlog. */
  function Prepare(d: Disk, sub: Io.Submission): Disk {
    var (io, rejected) := Io.PrepareSubmission(d.io, d.capacity, sub);
    if rejected.Some? then d.(backlog := d.backlog + [sub])
    else d.(io := io, events := d.events + [C.Add(sub.key, sub.duration, sub.waker)])
  }

  function PostOne(d: Disk, k: Key, code: int, more: bool): Disk {
    d.(io := d.io.(cq := d.io.cq + [(k, code)], inflight := if more then d.io.inflight else d.io.inflight - {k}),
       mid := d.mid + 1)
  }

  function ReapOne(d: Disk): Disk
    requires d.io.cq != []
  {
    Record(d.(io := d.io.(cq := d.io.cq[1..])), C.Complete(d.io.cq[0].0, d.io.cq[0].1))
  }

  /** An operation of one result completes once, and the kernel completes only what it was given. */
  predicate Enabled(s: State, step: Step) {
    var pc := s.control.pc;
    match step
    case Start => Current(s.control) == Unstarted
    case CallSpawn(_) => true
    case CallWake(t) => t in s.tasks.exec.polled
    case CallSubmit(_, _) => true
    case CallControl(m) =>
      m == Continue || ((m == Shutdown || m == Kill) && Current(s.control) != Unstarted
          && Current(s.control) != Stopped)
    case Send(i) => i < |s.mail.calls|
    case Signal => s.mail.unsignaled > 0
    case PollOp(_, _) => true
    case Post(k, _, more) => k in s.disk.io.inflight && (more ==> C.AddedAs(s.disk.events, k) == Some(C.Persistent))
    case RaiseIo => s.disk.mid > 0
    case FailSetup => pc == Setup
    case BeginIteration => pc == Setup || pc == Top
    case Interrupted => pc == Polling
    case PollEvents(takeMsg, takeIo, _) => pc == Polling && (takeMsg ==> s.mail.edge) && (takeIo ==> s.disk.edge)
    case Sync => pc == AtReap
    case Reap => pc.Reaping? && pc.seen <= |s.disk.io.cq|
    case Retry => pc == Retrying
    case Recv => pc == Receiving
    case SubmitRing => pc == AtSubmit
    case RunTask => pc == Running
    case TaskDone(_) => pc == InPoll && s.tasks.exec.current.Some?
    case EndIteration => pc == AtEnd
    case Finish => pc.Exited?
  }

  function DoEnvironment(s: State, step: Step): State
    requires Environment(step) && Enabled(s, step)
  {
    match step
    case Start => s.(control := Store(s.control, Starting).(pc := Setup))
    case CallSpawn(n) =>
      s.(mail := Call(s.mail, Spawn(NewTasks(s.tasks.next, n))), tasks := s.tasks.(next := s.tasks.next + n))
    case CallWake(t) => s.(mail := Call(s.mail, Wake(t)), tasks := s.tasks.(woken := s.tasks.woken + {t}))
    case CallSubmit(d, w) =>
      s.(mail := Call(s.mail, Submit(Io.Submission(s.disk.next, d, w))), disk := s.disk.(next := s.disk.next + 1))
    case CallControl(m) => s.(mail := Call(s.mail, m))
    case Send(i) => s.(mail := Push(s.mail, i))
    case Signal => s.(mail := s.mail.(unsignaled := s.mail.unsignaled - 1, edge := true))
    case PollOp(k, w) => s.(disk := Record(s.disk, C.Poll(k, w)))
    case Post(k, code, more) => s.(disk := PostOne(s.disk, k, code, more))
    case RaiseIo => s.(disk := s.disk.(mid := s.disk.mid - 1, edge := true))
  }

  /** A message that was taken from the channel. */
  function Receive(s: State, m: Msg): State {
    var c := s.control;
    match m
    case Spawn(ts) => s.(tasks := s.tasks.(exec := E.SpawnAll(s.tasks.exec, ts)))
    case Wake(t) => s.(tasks := s.tasks.(exec := E.Wake(s.tasks.exec, t)))
    case Submit(sub) =>
      s.(disk := Prepare(s.disk, sub), control := c.(shouldSubmit := c.shouldSubmit || !c.closing))
    case Continue => s
    case Shutdown => if c.closing then s else s.(control := Store(c, Stopping))
    case Kill =>
      s.(control := if c.closing then Store(c, Stopped).(pc := Exited(KilledInShutdown))
          else c.(pc := Exited(KilledInLoop)))
  }

  /** The retry loop, one submission at a time. */
  function RetryOne(s: State): State {
    var d := s.disk;
    if d.backlog == [] then s.(control := s.control.(pc := Receiving))
    else
      var rest := d.(backlog := d.backlog[1..]);
      var next := Prepare(rest, d.backlog[0]);
      s.(disk := next,
         control := if |d.io.ring| >= d.capacity then s.control.(pc := Receiving) else s.control.(shouldSubmit := true))
  }

  function AfterEvents(c: Control, takeMsg: bool, takeIo: bool, stop: bool): Control {
    var busy := Store(c, Busy);
    (if stop then Store(busy, Stopping) else busy).(pc := if takeIo then AtReap else Receiving, shouldRecv := takeMsg)
  }

  function DoWorker(s: State, step: Step): State
    requires !Environment(step) && Enabled(s, step)
  {
    var c, e, d := s.control, s.tasks.exec, s.disk;
    match step
    case FailSetup => s.(control := c.(pc := Exited(SetupFailed)))
    case BeginIteration => s.(control := Store(c, Idle).(pc := Polling, shouldRecv := false, shouldSubmit := false))
    case Interrupted => s.(control := c.(pc := Top))
    case PollEvents(takeMsg, takeIo, stop) =>
      s.(control := AfterEvents(c, takeMsg, takeIo, stop),
         mail := s.mail.(edge := s.mail.edge && !takeMsg), disk := d.(edge := d.edge && !takeIo))
    case Sync => s.(control := c.(pc := Reaping(|d.io.cq|)))
    case Reap =>
      if c.pc.seen == 0 then s.(control := c.(pc := if c.closing then Running else Retrying))
      else s.(control := c.(pc := Reaping(c.pc.seen - 1)), disk := ReapOne(d))
    case Retry => RetryOne(s)
    case Recv =>
      if !c.shouldRecv || s.mail.channel == [] then s.(control := c.(pc := AtSubmit))
      else Receive(s.(mail := s.mail.(channel := s.mail.channel[1..])), s.mail.channel[0])
    case SubmitRing =>
      s.(control := c.(pc := if c.closing then AtReap else Running),
         disk := if c.closing || c.shouldSubmit then d.(io := Io.Submit(d.io)) else d)
    case RunTask =>
      if e.ready == [] then s.(control := c.(pc := AtEnd))
      else s.(control := c.(pc := InPoll), tasks := s.tasks.(exec := E.Begin(e), woken := s.tasks.woken - {e.ready[0]}))
    case TaskDone(answer) => s.(control := c.(pc := Running), tasks := s.tasks.(exec := E.End(e, answer)))
    case EndIteration =>
      if c.closing then s.(control := c.(pc := if e.running == {} then Exited(Drained) else Receiving))
      else if Current(c) == Stopping then
        s.(control := c.(closing := true, shouldRecv := true, pc := Receiving),
           mail := s.mail.(edge := false), disk := d.(edge := false))
      else s.(control := c.(pc := Top))
    case Finish => s.(control := Store(c, Stopped).(pc := Finished(c.pc.how), killed := Current(c) != Stopping))
  }

  /** Receiving takes a message. */
  predicate Takes(s: State) {
    Enabled(s, Recv) && s.control.shouldRecv && s.mail.channel != []
  }

  function Apply(s: State, step: Step): State {
    if !Enabled(s, step) then s
    else if Environment(step) then DoEnvironment(s, step)
    else DoWorker(s, step)
  }

  function RunFrom(s: State, run: seq<Step>): State {
    if run == [] then s else Apply(RunFrom(s, run[..|run| - 1]), run[|run| - 1])
  }

  lemma RunSnoc(s: State, run: seq<Step>, step: Step)
    ensures RunFrom(s, run + [step]) == Apply(RunFrom(s, run), step)
  {
    assert (run + [step])[..|run|] == run;
  }

  function Exec(capacity: nat, run: seq<Step>): State {
    RunFrom(Init(capacity), run)
  }
}
