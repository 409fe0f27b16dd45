/** Every operation that was submitted is in one place, and its results reach its pollers. */
module WorkerKeys {
  import opened Wrappers
  import opened WorkerLoop
  import opened WorkerMail
  import C = Completion
  import Io = IoContext

  function InBacklog(subs: seq<Io.Submission>, k: Key): nat {
    if subs == [] then 0 else (if subs[0].key == k then 1 else 0) + InBacklog(subs[1..], k)
  }

  lemma {:induction false} BacklogAppend(subs: seq<Io.Submission>, sub: Io.Submission, k: Key)
    ensures InBacklog(subs + [sub], k) == InBacklog(subs, k) + if sub.key == k then 1 else 0
  {
    if subs != [] {
      BacklogAppend(subs[1..], sub, k);
      assert (subs + [sub])[1..] == subs[1..] + [sub];
    }
  }

  function Added(d: Disk, k: Key): nat {
    if C.AddedAs(d.events, k).Some? then 1 else 0
  }

  // ---------- one place ----------

  predicate KeyKept(s: State, k: Key) {
    InMail(s.mail, OpItem(k)) + InBacklog(s.disk.backlog, k) + Added(s.disk, k) == if k < s.disk.next then 1 else 0
  }

  /** The slots are those of their history, and no key was added twice. */
  ghost predicate HistoryKept(d: Disk) {
    d.io.slots == C.SlotsAfter(d.events) && C.FreshKeys(d.events)
  }

  lemma AfterEvent(d: Disk, e: C.Event)
    requires HistoryKept(d) && (e.Add? ==> C.AddedAs(d.events, e.key).None?)
    ensures C.Step(d.io.slots, e) == C.SlotsAfter(d.events + [e]) && C.FreshKeys(d.events + [e])
    ensures forall k ::
              C.AddedAs(d.events + [e], k) == if e.Add? && e.key == k then Some(e.duration) else C.AddedAs(d.events, k)
  {
    var all := d.events + [e];
    assert all[..|all| - 1] == d.events;
    forall i | 0 <= i < |all| && all[i].Add? ensures C.AddedAs(all[..i], all[i].key).None? {
      if i < |d.events| {
        assert all[..i] == d.events[..i];
      }
    }
  }

  /** Preparing moves a submission that came off the channel or the backlog to the ring and the
      slots, or to the backlog. */
  lemma PrepareKeeps(d: Disk, sub: Io.Submission)
    requires HistoryKept(d) && Added(d, sub.key) == 0
    ensures HistoryKept(Prepare(d, sub))
    ensures Prepare(d, sub).next == d.next
  {
    AfterEvent(d, C.Add(sub.key, sub.duration, sub.waker));
  }

  lemma PrepareMoves(d: Disk, sub: Io.Submission, k: Key)
    requires HistoryKept(d) && Added(d, sub.key) == 0
    ensures InBacklog(Prepare(d, sub).backlog, k) + Added(Prepare(d, sub), k)
         == InBacklog(d.backlog, k) + Added(d, k) + if sub.key == k then 1 else 0
  {
    AfterEvent(d, C.Add(sub.key, sub.duration, sub.waker));
    BacklogAppend(d.backlog, sub, k);
  }

  lemma KeyEnvironment(s: State, step: Step, k: Key)
    requires KeyKept(s, k) && Environment(step) && HistoryKept(s.disk)
    ensures KeyKept(Apply(s, step), k)
  {
    if Enabled(s, step) {
      match step
      case CallSpawn(n) => CallBrings(s.mail, Spawn(NewTasks(s.tasks.next, n)), OpItem(k));
      case CallWake(t) => CallBrings(s.mail, Wake(t), OpItem(k));
      case CallSubmit(d, w) => CallBrings(s.mail, Submit(Io.Submission(s.disk.next, d, w)), OpItem(k));
      case CallControl(m) => CallBrings(s.mail, m, OpItem(k));
      case Send(i) => PushMoves(s.mail, i, OpItem(k));
      case PollOp(j, w) => AfterEvent(s.disk, C.Poll(j, w));
      case _ =>
    }
  }

  lemma HistoryEnvironment(s: State, step: Step)
    requires HistoryKept(s.disk) && Environment(step)
    ensures HistoryKept(Apply(s, step).disk)
  {
    if step.PollOp? {
      AfterEvent(s.disk, C.Poll(step.key, step.poller));
    }
  }

  ghost predicate KeysKept(s: State) {
    HistoryKept(s.disk) && forall k :: KeyKept(s, k)
  }

  lemma RecvPrepares(s: State)
    ensures var s' := Apply(s, Recv);
            && s'.mail.calls == s.mail.calls
            && s'.mail.channel == (if Takes(s) then s.mail.channel[1..] else s.mail.channel)
            && s'.disk == (if Takes(s) && s.mail.channel[0].Submit?
                           then Prepare(s.disk, s.mail.channel[0].submission)
                           else s.disk)
  {
  }

  lemma HistoryRecv(s: State)
    requires KeysKept(s)
    ensures HistoryKept(Apply(s, Recv).disk)
  {
    RecvPrepares(s);
    if Takes(s) && s.mail.channel[0].Submit? {
      var sub := s.mail.channel[0].submission;
      assert KeyKept(s, sub.key);
      PrepareKeeps(s.disk, sub);
    }
  }

  lemma KeyRecv(s: State, k: Key)
    requires KeysKept(s)
    ensures KeyKept(Apply(s, Recv), k)
  {
    assert KeyKept(s, k);
    RecvPrepares(s);
    if Takes(s) && s.mail.channel[0].Submit? {
      var sub := s.mail.channel[0].submission;
      assert KeyKept(s, sub.key);
      PrepareMoves(s.disk, sub, k);
      PrepareKeeps(s.disk, sub);
    }
  }

  lemma HistoryRetry(s: State)
    requires KeysKept(s)
    ensures HistoryKept(Apply(s, Retry).disk)
  {
    var d := s.disk;
    if d.backlog != [] {
      assert KeyKept(s, d.backlog[0].key);
      PrepareKeeps(d.(backlog := d.backlog[1..]), d.backlog[0]);
    }
  }

  lemma KeyRetry(s: State, k: Key)
    requires KeysKept(s)
    ensures KeyKept(Apply(s, Retry), k)
  {
    var d := s.disk;
    assert KeyKept(s, k);
    if d.backlog != [] {
      assert KeyKept(s, d.backlog[0].key);
      PrepareMoves(d.(backlog := d.backlog[1..]), d.backlog[0], k);
      PrepareKeeps(d.(backlog := d.backlog[1..]), d.backlog[0]);
    }
  }

  lemma ReapKeeps(d: Disk)
    requires HistoryKept(d) && d.io.cq != []
    ensures HistoryKept(ReapOne(d)) && forall k :: Added(ReapOne(d), k) == Added(d, k)
  {
    AfterEvent(d, C.Complete(d.io.cq[0].0, d.io.cq[0].1));
  }

  lemma DiskStays(s: State, step: Step)
    requires !Environment(step) && step != Recv && step != Retry && step != Reap
    ensures Apply(s, step).mail.channel == s.mail.channel && Apply(s, step).mail.calls == s.mail.calls
    ensures var d, d' := s.disk, Apply(s, step).disk;
            d'.io.slots == d.io.slots && d'.events == d.events && d'.next == d.next && d'.backlog == d.backlog
  {
  }

  lemma HistoryStep(s: State, step: Step)
    requires KeysKept(s)
    ensures HistoryKept(Apply(s, step).disk)
  {
    if Environment(step) {
      HistoryEnvironment(s, step);
    } else if step == Recv {
      HistoryRecv(s);
    } else if step == Retry {
      HistoryRetry(s);
    } else if step == Reap {
      if s.disk.io.cq != [] {
        ReapKeeps(s.disk);
      }
    } else {
      DiskStays(s, step);
    }
  }

  lemma KeyStep(s: State, step: Step, k: Key)
    requires KeysKept(s)
    ensures KeyKept(Apply(s, step), k)
  {
    assert KeyKept(s, k);
    if Environment(step) {
      KeyEnvironment(s, step, k);
    } else if step == Recv {
      KeyRecv(s, k);
    } else if step == Retry {
      KeyRetry(s, k);
    } else if step == Reap {
      if s.disk.io.cq != [] {
        ReapKeeps(s.disk);
      }
    } else {
      DiskStays(s, step);
    }
  }

  lemma KeysStep(s: State, step: Step)
    requires KeysKept(s)
    ensures KeysKept(Apply(s, step))
  {
    HistoryStep(s, step);
    forall k ensures KeyKept(Apply(s, step), k) {
      KeyStep(s, step, k);
    }
  }

  // ---------- one completion ----------

  function Posted(cq: seq<(Key, int)>, k: Key): nat {
    if cq == [] then 0 else (if cq[0].0 == k then 1 else 0) + Posted(cq[1..], k)
  }

  lemma {:induction false} PostedAppend(cq: seq<(Key, int)>, item: (Key, int), k: Key)
    ensures Posted(cq + [item], k) == Posted(cq, k) + if item.0 == k then 1 else 0
  {
    if cq != [] {
      PostedAppend(cq[1..], item, k);
      assert (cq + [item])[1..] == cq[1..] + [item];
    }
  }

  function Completions(events: seq<C.Event>, k: Key): nat {
    if events == [] then 0
    else
      var e := events[|events| - 1];
      Completions(events[..|events| - 1], k) + if e.Complete? && e.key == k then 1 else 0
  }

  /** Where the one completion of an operation is: to come from the ring or the kernel, waiting
      in the queue, or reaped. */
  function Progress(d: Disk, k: Key): nat {
    multiset(d.io.ring)[k] + (if k in d.io.inflight then 1 else 0) + Posted(d.io.cq, k) + Completions(d.events, k)
  }

  predicate OneShotKept(d: Disk, k: Key) {
    match C.AddedAs(d.events, k)
    case None => Progress(d, k) == 0
    case Some(Persistent) => true
    case Some(_) => Progress(d, k) == 1
  }

  lemma CompletionsAfter(events: seq<C.Event>, e: C.Event, k: Key)
    ensures Completions(events + [e], k) == Completions(events, k) + if e.Complete? && e.key == k then 1 else 0
    ensures C.AddedAs(events + [e], k) == if e.Add? && e.key == k then Some(e.duration) else C.AddedAs(events, k)
  {
    assert (events + [e])[..|events|] == events;
  }

  lemma OneShotPrepare(d: Disk, sub: Io.Submission, k: Key)
    requires OneShotKept(d, k) && Added(d, sub.key) == 0
    ensures OneShotKept(Prepare(d, sub), k)
  {
    CompletionsAfter(d.events, C.Add(sub.key, sub.duration, sub.waker), k);
    assert multiset(d.io.ring + [sub.key]) == multiset(d.io.ring) + multiset{sub.key};
  }

  lemma OneShotPost(d: Disk, j: Key, code: int, more: bool, k: Key)
    requires OneShotKept(d, k) && j in d.io.inflight && (more ==> C.AddedAs(d.events, j) == Some(C.Persistent))
    ensures OneShotKept(PostOne(d, j, code, more), k)
  {
    PostedAppend(d.io.cq, (j, code), k);
  }

  lemma OneShotReap(d: Disk, k: Key)
    requires OneShotKept(d, k) && d.io.cq != []
    ensures OneShotKept(ReapOne(d), k)
  {
    CompletionsAfter(d.events, C.Complete(d.io.cq[0].0, d.io.cq[0].1), k);
  }

  lemma OneShotPoll(d: Disk, j: Key, w: C.Waker, k: Key)
    requires OneShotKept(d, k)
    ensures OneShotKept(Record(d, C.Poll(j, w)), k)
  {
    CompletionsAfter(d.events, C.Poll(j, w), k);
  }

  lemma OneShotEnvironment(s: State, step: Step, k: Key)
    requires OneShotKept(s.disk, k) && Environment(step)
    ensures OneShotKept(Apply(s, step).disk, k)
  {
    if Enabled(s, step) {
      match step
      case PollOp(j, w) => OneShotPoll(s.disk, j, w, k);
      case Post(j, code, more) => OneShotPost(s.disk, j, code, more, k);
      case _ =>
    }
  }

  lemma OneShotPrepares(s: State, step: Step, k: Key)
    requires OneShotKept(s.disk, k) && KeysKept(s) && (step == Recv || step == Retry)
    ensures OneShotKept(Apply(s, step).disk, k)
  {
    var d := s.disk;
    if step == Recv && s.mail.channel != [] && s.mail.channel[0].Submit? {
      assert KeyKept(s, s.mail.channel[0].submission.key);
      OneShotPrepare(d, s.mail.channel[0].submission, k);
    } else if step == Retry && d.backlog != [] {
      assert KeyKept(s, d.backlog[0].key);
      OneShotPrepare(d.(backlog := d.backlog[1..]), d.backlog[0], k);
    }
  }

  lemma OneShotStep(s: State, step: Step, k: Key)
    requires OneShotKept(s.disk, k) && KeysKept(s)
    ensures OneShotKept(Apply(s, step).disk, k)
  {
    if Environment(step) {
      OneShotEnvironment(s, step, k);
    } else if step == Recv || step == Retry {
      OneShotPrepares(s, step, k);
    } else if step == Reap && Enabled(s, step) && s.control.pc.seen > 0 {
      OneShotReap(s.disk, k);
    }
  }
}
